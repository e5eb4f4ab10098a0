/** How many facilities may finance one GPU: exactly which calls keep it at one, and runs that end with two. */
module RegistryFinanciers {
  import opened Results
  import opened Registry
  import opened RegistryRuns

  // ---- one financier per root

  /** The GPU of a partition, or the asset itself. */
  function Top(assets: map<AssetId, Asset>, id: AssetId): AssetId {
    if id in assets && assets[id].parent.Some? then assets[id].parent.value else id
  }

  predicate Agree(assets: map<AssetId, Asset>, a: Encumbrance, b: Encumbrance) {
    IsFinancing(a) && IsFinancing(b) && Top(assets, a.asset) == Top(assets, b.asset) ==> a.facility == b.facility
  }

  /** All open financing rights under one root name one facility. */
  ghost predicate OneFinancierPerRoot(r: Registry) {
    forall i, k :: 0 <= i < |r.encumbrances| && 0 <= k < |r.encumbrances| ==>
      Agree(r.assets, r.encumbrances[i], r.encumbrances[k])
  }

  /** What the eligibility check leaves out: the other partitions of the same GPU. */
  ghost predicate SiblingsFinancedOnlyBy(r: Registry, id: AssetId, facility: string) {
    id in r.assets && r.assets[id].parent.Some? ==>
      forall c :: c in r.assets && r.assets[c].parent == r.assets[id].parent ==>
        FinancedOnlyBy(r.encumbrances, c, Some(facility))
  }

  /** What a caller has to check: when financing a partition, its siblings. */
  ghost predicate KeepsOneFinancier(r: Registry, op: Op) {
    op.Financing? && AssignToFacility(r, op.encumbranceId, op.id, op.facility, op.role).1.Ok? ==>
      SiblingsFinancedOnlyBy(r, op.id, op.facility)
  }

  /** Rows that stay, over assets that keep their parents. */
  ghost predicate Grown(assets: map<AssetId, Asset>, after: map<AssetId, Asset>) {
    forall id :: id in assets ==> id in after && after[id].parent == assets[id].parent
  }

  lemma FinancedAssetsAreKnown(r: Registry, i: nat)
    requires RegistryOk(r) && i < |r.encumbrances| && IsFinancing(r.encumbrances[i])
    ensures r.encumbrances[i].asset in r.assets
  {
    hide KeysOk, AssignmentsOk, ParentsOk, FamilyOk, EligibleOk;
    assert r.encumbrances[i].asset in ActiveIds(r.assets);
  }

  lemma SameRightsSameFinanciers(r: Registry, after: Registry)
    requires RegistryOk(r) && after.encumbrances == r.encumbrances && Grown(r.assets, after.assets)
    ensures OneFinancierPerRoot(after) <==> OneFinancierPerRoot(r)
  {
    hide RegistryOk, IsFinancing;
    forall i, k | 0 <= i < |r.encumbrances| && 0 <= k < |r.encumbrances|
      ensures Agree(after.assets, r.encumbrances[i], r.encumbrances[k])
        <==> Agree(r.assets, r.encumbrances[i], r.encumbrances[k])
    {
      if IsFinancing(r.encumbrances[i]) && IsFinancing(r.encumbrances[k]) {
        FinancedAssetsAreKnown(r, i);
        FinancedAssetsAreKnown(r, k);
      }
    }
  }

  // ---- calls that leave the rights alone

  /** Every other call leaves the rights and all parents as they are. */
  lemma OtherCallsGrow(r: Registry, op: Op)
    requires !op.Replacing? && !op.Financing? && !op.Releasing? && !op.RecordingRight?
    ensures Apply(r, op).encumbrances == r.encumbrances && Grown(r.assets, Apply(r, op).assets)
  {
    hide RegisterAsset, RegisterPartition, AssignProvider, EndAssignment, ChangeIdentityKey, ReviewOwnership;
    hide ResolveFlag;
    hide DecideEligibility, AttachConsent;
    match op
    case Registering(id, kind, unitCount, keys, role, account) =>
      RegistrationGrows(r, id, kind, unitCount, keys, role, account);
    case Partitioning(parent, child, keys, role) => PartitionGrows(r, parent, child, keys, role);
    case Assigning(id, account, role, assignmentId) =>
      if account.Some? {
        AssignmentGrows(r, id, account.value, role, assignmentId);
      } else {
        PlainCallsGrow(r, id, 0, "", None, "", role);
      }
    case Rekeying(id, scheme, oldValue, newValue, role) => PlainCallsGrow(r, id, 0, scheme, oldValue, newValue, role);
    case Reviewing(id, verdict, ownership, role) => ReviewGrows(r, id, verdict, ownership, role);
    case Resolving(flag, role) => PlainCallsGrow(r, "", flag, "", None, "", role);
    case Deciding(id, candidate) => DecisionGrows(r, id, candidate);
    case AttachingConsent(id, role) => PlainCallsGrow(r, id, 0, "", None, "", role);
  }

  lemma PlainCallsGrow(r: Registry, id: AssetId, flag: nat, scheme: string, oldValue: Option<string>, newValue: string,
                       role: Role)
    ensures EndAssignment(r, id, role).0.encumbrances == r.encumbrances
      && Grown(r.assets, EndAssignment(r, id, role).0.assets)
    ensures ResolveFlag(r, flag, role).0.encumbrances == r.encumbrances
      && Grown(r.assets, ResolveFlag(r, flag, role).0.assets)
    ensures AttachConsent(r, id, role).0.encumbrances == r.encumbrances
      && Grown(r.assets, AttachConsent(r, id, role).0.assets)
    ensures var after := ChangeIdentityKey(r, id, scheme, oldValue, newValue, role).0;
      after.encumbrances == r.encumbrances && Grown(r.assets, after.assets)
  {
    hide FindAssignment, FindKey, FindKeyOn;
  }

  lemma ReviewGrows(r: Registry, id: AssetId, verdict: Review, ownership: Ownership, role: Role)
    ensures var after := ReviewOwnership(r, id, verdict, ownership, role).0;
      after.encumbrances == r.encumbrances && Grown(r.assets, after.assets)
  {
  }

  lemma DecisionGrows(r: Registry, id: AssetId, facility: Option<string>)
    ensures var after := DecideEligibility(r, id, facility).0;
      after.encumbrances == r.encumbrances && Grown(r.assets, after.assets)
  {
    hide Eligible;
  }

  lemma AssignmentGrows(r: Registry, id: AssetId, account: string, role: Role, assignmentId: string)
    ensures var after := AssignProvider(r, id, account, role, assignmentId).0;
      after.encumbrances == r.encumbrances && Grown(r.assets, after.assets)
  {
    hide FindAssignment, AssignmentIdTaken;
  }

  lemma RegistrationGrows(r: Registry, id: AssetId, kind: AssetKind, unitCount: int, keys: seq<Key>, role: Role,
                          account: Option<string>)
    ensures var after := RegisterAsset(r, id, kind, unitCount, keys, role, account).0;
      after.encumbrances == r.encumbrances && Grown(r.assets, after.assets)
  {
    hide FirstTaken, AddKeys, AssignProvider, DeriveId;
    if id !in r.assets && AddKeys(r.keys, id, keys).Ok? && account.Some? {
      var asset := Asset(kind, unitCount, true, UnknownOwner, Unverified, None, None, false);
      var created := r.(assets := r.assets[id := asset], keys := AddKeys(r.keys, id, keys).value);
      AssignmentGrows(created, id, account.value, role, DeriveId(id, AssignmentTag));
    }
  }

  lemma PartitionGrows(r: Registry, parent: AssetId, child: AssetId, keys: seq<Key>, role: Role)
    ensures var after := RegisterPartition(r, parent, child, keys, role).0;
      after.encumbrances == r.encumbrances && Grown(r.assets, after.assets)
  {
    hide AddKeys;
  }

  // ---- calls that move rights

  lemma FewerFinanciers(r: Registry, i: nat)
    requires OneFinancierPerRoot(r) && i < |r.encumbrances|
    ensures OneFinancierPerRoot(r.(encumbrances := Release(r.encumbrances, i)))
  {
    hide Top;
    var after := Release(r.encumbrances, i);
    forall j, k | 0 <= j < |after| && 0 <= k < |after|
      ensures Agree(r.assets, after[j], after[k])
    {
      assert Agree(r.assets, r.encumbrances[j], r.encumbrances[k]);
    }
  }

  lemma OneMoreRight(r: Registry, e: Encumbrance)
    requires OneFinancierPerRoot(r)
    ensures OneFinancierPerRoot(r.(encumbrances := r.encumbrances + [e])) <==>
      forall i :: 0 <= i < |r.encumbrances| ==> Agree(r.assets, r.encumbrances[i], e)
  {
    hide Top;
    var after := r.encumbrances + [e];
    if forall i :: 0 <= i < |r.encumbrances| ==> Agree(r.assets, r.encumbrances[i], e) {
      forall i, k | 0 <= i < |after| && 0 <= k < |after|
        ensures Agree(r.assets, after[i], after[k])
      {
        if i < |r.encumbrances| && k < |r.encumbrances| {
          assert Agree(r.assets, r.encumbrances[i], r.encumbrances[k]);
        } else if k < |r.encumbrances| {
          assert Agree(r.assets, r.encumbrances[k], e);
        }
      }
    }
    if OneFinancierPerRoot(r.(encumbrances := after)) {
      forall i | 0 <= i < |r.encumbrances|
        ensures Agree(r.assets, r.encumbrances[i], e)
      {
        assert after[i] == r.encumbrances[i] && after[|r.encumbrances|] == e;
        assert Agree(r.assets, after[i], after[|r.encumbrances|]);
      }
    }
  }

  /** An accepted financing agrees with every right under its root exactly when the siblings do. */
  lemma FinancingAgrees(r: Registry, id: AssetId, facility: string, e: Encumbrance)
    requires RegistryOk(r) && id in r.assets && Eligible(r, id, Some(facility))
      && FindFinancing(r.encumbrances, id).None?
    requires IsFinancing(e) && e.asset == id && e.facility == Some(facility)
    ensures (forall i :: 0 <= i < |r.encumbrances| ==> Agree(r.assets, r.encumbrances[i], e))
      <==> SiblingsFinancedOnlyBy(r, id, facility)
  {
    if SiblingsFinancedOnlyBy(r, id, facility) {
      forall i | 0 <= i < |r.encumbrances|
        ensures Agree(r.assets, r.encumbrances[i], e)
      {
        if IsFinancing(r.encumbrances[i]) && Top(r.assets, r.encumbrances[i].asset) == Top(r.assets, id) {
          UnderOneRoot(r, id, facility, i);
        }
      }
    }
    if forall i :: 0 <= i < |r.encumbrances| ==> Agree(r.assets, r.encumbrances[i], e) {
      hide Eligible, RegistryOk;
      forall c | c in r.assets && r.assets[id].parent.Some? && r.assets[c].parent == r.assets[id].parent
        ensures FinancedOnlyBy(r.encumbrances, c, Some(facility))
      {
        var found := FindFinancing(r.encumbrances, c);
        if found.Some? {
          assert Agree(r.assets, r.encumbrances[found.value], e);
        }
      }
    }
  }

  lemma UnderOneRoot(r: Registry, id: AssetId, facility: string, i: nat)
    requires RegistryOk(r) && id in r.assets && Eligible(r, id, Some(facility))
      && FindFinancing(r.encumbrances, id).None?
    requires SiblingsFinancedOnlyBy(r, id, facility) && i < |r.encumbrances| && IsFinancing(r.encumbrances[i])
    requires Top(r.assets, r.encumbrances[i].asset) == Top(r.assets, id)
    ensures r.encumbrances[i].facility == Some(facility)
  {
    var e := r.encumbrances[i];
    FinancedAssetsAreKnown(r, i);
    EligibleFamily(r, id, facility, i);
    RightIsFound(r, i);
    hide Eligible, RegistryOk;
  }

  lemma RightIsFound(r: Registry, i: nat)
    requires RegistryOk(r) && i < |r.encumbrances| && IsFinancing(r.encumbrances[i])
    ensures FindFinancing(r.encumbrances, r.encumbrances[i].asset) == Some(i)
  {
    hide KeysOk, AssignmentsOk, ParentsOk, FamilyOk, EligibleOk;
    assert Finances(r.encumbrances[i], r.encumbrances[i].asset);
  }

  /** Who finances an asset can be read off any of its open rights. */
  lemma OnlyByRows(r: Registry, id: AssetId, facility: Option<string>)
    requires RegistryOk(r)
    ensures FinancedOnlyBy(r.encumbrances, id, facility)
      <==> forall i :: 0 <= i < |r.encumbrances| && Finances(r.encumbrances[i], id) ==>
        r.encumbrances[i].facility == facility
  {
    forall i | 0 <= i < |r.encumbrances| && Finances(r.encumbrances[i], id)
      ensures FindFinancing(r.encumbrances, id) == Some(i)
    {
      RightIsFound(r, i);
    }
  }

  lemma FinancingCall(r: Registry, encumbranceId: string, id: AssetId, facility: string, role: Role)
    requires RegistryOk(r) && OneFinancierPerRoot(r)
    ensures var (after, result) := AssignToFacility(r, encumbranceId, id, facility, role);
      OneFinancierPerRoot(after) <==> (result.Ok? ==> SiblingsFinancedOnlyBy(r, id, facility))
  {
    hide RegistryOk, OneFinancierPerRoot, Eligible, SiblingsFinancedOnlyBy, EncumbranceIdTaken, FindFinancing;
    var (after, result) := AssignToFacility(r, encumbranceId, id, facility, role);
    if result.Ok? {
      var e := Encumbrance(encumbranceId, id, AssignmentOfRights, Some(facility), true);
      var more := r.(encumbrances := r.encumbrances + [e]);
      OneMoreRight(r, e);
      FinancingAgrees(r, id, facility, e);
      DecisionGrows(r, id, Some(facility));
      SameTops(more, after);
    }
  }

  lemma SameTops(a: Registry, b: Registry)
    requires a.encumbrances == b.encumbrances && a.assets.Keys == b.assets.Keys && Grown(a.assets, b.assets)
    ensures OneFinancierPerRoot(a) <==> OneFinancierPerRoot(b)
  {
    assert forall id :: Top(a.assets, id) == Top(b.assets, id);
    forall i, k | 0 <= i < |a.encumbrances| && 0 <= k < |a.encumbrances|
      ensures Agree(a.assets, a.encumbrances[i], a.encumbrances[k])
        <==> Agree(b.assets, a.encumbrances[i], a.encumbrances[k])
    {
    }
  }

  lemma ReleasingCall(r: Registry, encumbranceId: string, role: Role)
    requires OneFinancierPerRoot(r)
    ensures OneFinancierPerRoot(ReleaseEncumbrance(r, encumbranceId, role).0)
  {
    hide OneFinancierPerRoot, Release, EncumbranceIdTaken;
    var found := FindEncumbrance(r.encumbrances, encumbranceId);
    if found.Some? {
      FewerFinanciers(r, found.value);
    }
  }

  lemma RecordingCall(r: Registry, encumbranceId: string, id: AssetId, kind: RightKind, role: Role)
    requires OneFinancierPerRoot(r)
    ensures OneFinancierPerRoot(RecordThirdPartyRight(r, encumbranceId, id, kind, role).0)
  {
    hide OneFinancierPerRoot, EncumbranceIdTaken;
    var after := RecordThirdPartyRight(r, encumbranceId, id, kind, role).0;
    if after != r {
      var e := Encumbrance(encumbranceId, id, kind, None, true);
      OneMoreRight(r, e);
      SameTops(r.(encumbrances := r.encumbrances + [e]), after);
    }
  }

  /** A replacement carries its right to an asset that is nobody's partition and has none. */
  lemma ReplacingCall(r: Registry, retired: AssetId, replacement: AssetId, moved: seq<Key>, added: seq<Key>, role: Role,
                      assignmentId: string, carry: bool)
    requires RegistryOk(r) && OneFinancierPerRoot(r)
    ensures OneFinancierPerRoot(ReplaceAsset(r, retired, replacement, moved, added, role, assignmentId, carry).0)
  {
    var (after, result) := ReplaceAsset(r, retired, replacement, moved, added, role, assignmentId, carry);
    if result.Ok? {
      ReplacementShape(r, retired, replacement, moved, added, role, assignmentId, carry);
      ReplacedFinanciers(r, after, retired, replacement);
    } else {
      RefusedReplacement(r, retired, replacement, moved, added, role, assignmentId, carry);
    }
  }

  lemma ReplacedFinanciers(r: Registry, after: Registry, retired: AssetId, replacement: AssetId)
    requires RegistryOk(r) && OneFinancierPerRoot(r) && replacement !in r.assets
      && Replaced(r, after, retired, replacement)
    ensures OneFinancierPerRoot(after)
  {
    hide AssignmentsMoved, RegistryOk, FindFinancing, IsFinancing;
    var rows, later := r.encumbrances, after.encumbrances;
    forall i | 0 <= i < |rows| && IsFinancing(later[i])
      ensures later[i] == rows[i] && rows[i].asset in r.assets
      ensures Top(after.assets, rows[i].asset) == Top(r.assets, rows[i].asset) != replacement
    {
      KeptRight(r, after, retired, replacement, i);
    }
    assert Top(after.assets, replacement) == replacement;
    forall i, k | 0 <= i < |later| && 0 <= k < |later|
      ensures Agree(after.assets, later[i], later[k])
    {
      if i < |rows| && k < |rows| {
        assert Agree(r.assets, rows[i], rows[k]);
      }
    }
  }

  lemma KeptRight(r: Registry, after: Registry, retired: AssetId, replacement: AssetId, i: nat)
    requires RegistryOk(r) && replacement !in r.assets && Replaced(r, after, retired, replacement)
    requires i < |r.encumbrances| && IsFinancing(after.encumbrances[i])
    ensures after.encumbrances[i] == r.encumbrances[i] && r.encumbrances[i].asset in r.assets
    ensures Top(after.assets, r.encumbrances[i].asset) == Top(r.assets, r.encumbrances[i].asset) != replacement
  {
    hide AssignmentsMoved, KeysOk, AssignmentsOk, FamilyOk, EligibleOk, FindFinancing;
    var rows := r.encumbrances;
    assert after.encumbrances[i] == after.encumbrances[..|rows|][i];
    assert rows[i].asset in ActiveIds(r.assets);
    assert ParentOk(r.assets, r.assets[rows[i].asset]);
  }

  /** Each call keeps one financier per root exactly when its caller has checked the siblings of what it finances. */
  lemma CallKeepsOneFinancier(r: Registry, op: Op)
    requires RegistryOk(r) && OneFinancierPerRoot(r)
    ensures OneFinancierPerRoot(Apply(r, op)) <==> KeepsOneFinancier(r, op)
  {
    hide RegistryOk, OneFinancierPerRoot, SiblingsFinancedOnlyBy;
    hide RegisterAsset, RegisterPartition, AssignProvider, EndAssignment, ChangeIdentityKey, ReplaceAsset;
    hide ReviewOwnership, ResolveFlag, DecideEligibility, AssignToFacility, ReleaseEncumbrance, RecordThirdPartyRight;
    hide AttachConsent;
    match op
    case Replacing(retired, replacement, moved, added, role, assignmentId, carry) =>
      ReplacingCall(r, retired, replacement, moved, added, role, assignmentId, carry);
    case Financing(encumbranceId, id, facility, role) => FinancingCall(r, encumbranceId, id, facility, role);
    case Releasing(encumbranceId, role) => ReleasingCall(r, encumbranceId, role);
    case RecordingRight(encumbranceId, id, right, role) => RecordingCall(r, encumbranceId, id, right, role);
    case _ =>
      OtherCallsGrow(r, op);
      SameRightsSameFinanciers(r, Apply(r, op));
  }

  // ---- runs

  ghost predicate OneFinancierThroughout(r: Registry, ops: seq<Op>) {
    forall i :: 0 <= i <= |ops| ==> OneFinancierPerRoot(Run(r, ops[..i]))
  }

  ghost predicate SiblingsCheckedThroughout(r: Registry, ops: seq<Op>) {
    forall i :: 0 <= i < |ops| ==> KeepsOneFinancier(Run(r, ops[..i]), ops[i])
  }

  lemma ThroughoutSplits(r: Registry, ops: seq<Op>)
    requires ops != []
    ensures var prior := ops[..|ops| - 1];
      && (OneFinancierThroughout(r, ops) <==> OneFinancierThroughout(r, prior) && OneFinancierPerRoot(Run(r, ops)))
      && (SiblingsCheckedThroughout(r, ops)
          <==> SiblingsCheckedThroughout(r, prior) && KeepsOneFinancier(Run(r, prior), ops[|ops| - 1]))
      && (OneFinancierThroughout(r, prior) ==> OneFinancierPerRoot(Run(r, prior)))
  {
    hide OneFinancierPerRoot, KeepsOneFinancier, Run;
    var prior := ops[..|ops| - 1];
    assert ops[..|ops|] == ops && prior[..|prior|] == prior;
    assert forall i :: 0 <= i <= |prior| ==> prior[..i] == ops[..i];
  }

  /** Over every run, each root has one financier throughout exactly when the siblings were checked at every
      financing. */
  lemma {:induction false} OneFinancierWhileSiblingsChecked(r: Registry, ops: seq<Op>)
    requires RegistryOk(r) && OneFinancierPerRoot(r)
    ensures OneFinancierThroughout(r, ops) <==> SiblingsCheckedThroughout(r, ops)
  {
    hide RegistryOk, OneFinancierPerRoot, KeepsOneFinancier, Apply;
    if ops != [] {
      var prior := ops[..|ops| - 1];
      ThroughoutSplits(r, ops);
      OneFinancierWhileSiblingsChecked(r, prior);
      RunsStayOk(r, prior);
      if OneFinancierThroughout(r, prior) {
        CallKeepsOneFinancier(Run(r, prior), ops[|ops| - 1]);
      }
    }
  }

  // ---- how many financing rights are open

  function Financed(rows: seq<Encumbrance>): nat {
    if rows == [] then 0 else Financed(rows[..|rows| - 1]) + if IsFinancing(rows[|rows| - 1]) then 1 else 0
  }

  lemma {:induction false} ReleaseLowers(rows: seq<Encumbrance>, i: nat)
    requires i < |rows| && rows[i].open
    ensures Financed(Release(rows, i)) == Financed(rows) - if IsFinancing(rows[i]) then 1 else 0
  {
    var last := |rows| - 1;
    if i == last {
      assert Release(rows, i)[..last] == rows[..last];
    } else {
      ReleaseLowers(rows[..last], i);
      assert Release(rows, i)[..last] == Release(rows[..last], i);
    }
  }

  /** A replacement never changes how many financing rights are open: the one it opens is the one it released. */
  lemma ReplacementKeepsFinancingCount(r: Registry, retired: AssetId, replacement: AssetId, moved: seq<Key>,
                                       added: seq<Key>,
                                       role: Role, assignmentId: string, carry: bool)
    requires RegistryOk(r)
    ensures Financed(ReplaceAsset(r, retired, replacement, moved, added, role, assignmentId, carry).0.encumbrances)
         == Financed(r.encumbrances)
  {
    if ReplaceAsset(r, retired, replacement, moved, added, role, assignmentId, carry).1.Ok? {
      ReplacementShape(r, retired, replacement, moved, added, role, assignmentId, carry);
      hide ReplaceAsset, RegistryOk;
      var held := FindFinancing(r.encumbrances, retired);
      if held.Some? {
        ReleaseLowers(r.encumbrances, held.value);
      }
    } else {
      RefusedReplacement(r, retired, replacement, moved, added, role, assignmentId, carry);
    }
  }

  /** What a call does to the number of open financing rights. */
  function Opens(r: Registry, op: Op): int {
    match op
    case Financing(encumbranceId, id, facility, role) =>
      if AssignToFacility(r, encumbranceId, id, facility, role).1.Ok? then 1 else 0
    case Releasing(encumbranceId, role) =>
      if ReleaseEncumbrance(r, encumbranceId, role).1.Ok?
         && IsFinancing(r.encumbrances[FindEncumbrance(r.encumbrances, encumbranceId).value])
      then -1 else 0
    case _ => 0
  }

  /** Accepted financings less releases of financing rights. */
  function Opened(r: Registry, ops: seq<Op>): int {
    if ops == [] then 0
    else Opened(r, ops[..|ops| - 1]) + Opens(Run(r, ops[..|ops| - 1]), ops[|ops| - 1])
  }

  lemma AppendedRight(rows: seq<Encumbrance>, e: Encumbrance)
    ensures Financed(rows + [e]) == Financed(rows) + if IsFinancing(e) then 1 else 0
  {
    assert (rows + [e])[..|rows|] == rows;
  }

  lemma FinancingCounts(r: Registry, encumbranceId: string, id: AssetId, facility: string, role: Role)
    ensures var (after, result) := AssignToFacility(r, encumbranceId, id, facility, role);
      Financed(after.encumbrances) == Financed(r.encumbrances) + if result.Ok? then 1 else 0
  {
    hide Eligible, EncumbranceIdTaken, FindFinancing;
    AppendedRight(r.encumbrances, Encumbrance(encumbranceId, id, AssignmentOfRights, Some(facility), true));
  }

  lemma ReleasingCounts(r: Registry, encumbranceId: string, role: Role)
    ensures Financed(ReleaseEncumbrance(r, encumbranceId, role).0.encumbrances)
         == Financed(r.encumbrances) + Opens(r, Releasing(encumbranceId, role))
  {
    hide EncumbranceIdTaken, Release;
    if ReleaseEncumbrance(r, encumbranceId, role).1.Ok? {
      ReleaseLowers(r.encumbrances, FindEncumbrance(r.encumbrances, encumbranceId).value);
    }
  }

  lemma RecordingCounts(r: Registry, encumbranceId: string, id: AssetId, kind: RightKind, role: Role)
    ensures Financed(RecordThirdPartyRight(r, encumbranceId, id, kind, role).0.encumbrances) == Financed(r.encumbrances)
  {
    hide EncumbranceIdTaken;
    AppendedRight(r.encumbrances, Encumbrance(encumbranceId, id, kind, None, true));
  }

  lemma CallCounts(r: Registry, op: Op)
    requires RegistryOk(r)
    ensures Financed(Apply(r, op).encumbrances) == Financed(r.encumbrances) + Opens(r, op)
  {
    hide RegistryOk, Financed, IsFinancing;
    hide RegisterAsset, RegisterPartition, AssignProvider, EndAssignment, ChangeIdentityKey, ReplaceAsset;
    hide ReviewOwnership, ResolveFlag, DecideEligibility, AssignToFacility, ReleaseEncumbrance, RecordThirdPartyRight;
    hide AttachConsent;
    match op
    case Replacing(retired, replacement, moved, added, role, assignmentId, carry) =>
      ReplacementKeepsFinancingCount(r, retired, replacement, moved, added, role, assignmentId, carry);
    case Financing(encumbranceId, id, facility, role) => FinancingCounts(r, encumbranceId, id, facility, role);
    case Releasing(encumbranceId, role) => ReleasingCounts(r, encumbranceId, role);
    case RecordingRight(encumbranceId, id, right, role) => RecordingCounts(r, encumbranceId, id, right, role);
    case _ => OtherCallsGrow(r, op);
  }

  /** Over every run the open financing rights are those there were, plus accepted financings, less releases of one. */
  lemma {:induction false} OpenRightsAreCounted(r: Registry, ops: seq<Op>)
    requires RegistryOk(r)
    ensures Financed(Run(r, ops).encumbrances) == Financed(r.encumbrances) + Opened(r, ops)
  {
    hide RegistryOk, Apply, Opens, Financed;
    if ops != [] {
      OpenRightsAreCounted(r, ops[..|ops| - 1]);
      RunsStayOk(r, ops[..|ops| - 1]);
      CallCounts(Run(r, ops[..|ops| - 1]), ops[|ops| - 1]);
    }
  }
}
