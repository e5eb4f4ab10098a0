/** What it takes to be taken as collateral, read off the tables row by row, and what no run ever finances. */
module RegistryEligibility {
  import opened Results
  import opened Registry
  import opened RegistryRuns
  import opened RegistryFinanciers

  // ---- the decision

  /** An open lien, pledge or assignment of somebody who is none of our facilities. */
  predicate ThirdPartyClaim(e: Encumbrance) {
    e.open && e.facility.None? && (e.kind.Lien? || e.kind.Pledge? || e.kind.AssignmentOfRights?)
  }

  /** An open right of one of our facilities other than this one. */
  predicate ClaimOfAnother(e: Encumbrance, facility: Option<string>) {
    e.open && e.facility.Some? && e.facility != facility
  }

  /** Reviewed, documented, under no flag and no third party's claim. */
  ghost predicate ReviewedAndFree(r: Registry, id: AssetId)
    requires id in r.assets
  {
    var a := r.assets[id];
    && a.active && a.review == Verified && (a.ownership == Owned || (a.ownership == Leased && id in r.consents))
    && (forall i :: 0 <= i < |r.flags| && r.flags[i].asset == id ==> !r.flags[i].open)
    && (forall i :: 0 <= i < |r.encumbrances| && r.encumbrances[i].asset == id ==> !ThirdPartyClaim(r.encumbrances[i]))
  }

  /** The asset, its GPU and its own partitions are financed by this facility or by nobody. */
  ghost predicate FamilyFree(r: Registry, id: AssetId, facility: Option<string>)
    requires id in r.assets
  {
    forall i :: 0 <= i < |r.encumbrances| && ClaimOfAnother(r.encumbrances[i], facility) ==>
      var on := r.encumbrances[i].asset;
      on != id && r.assets[id].parent != Some(on) && (on in r.assets ==> r.assets[on].parent != Some(id))
  }

  lemma HarmlessRows(r: Registry, id: AssetId, facility: Option<string>)
    ensures (forall i :: 0 <= i < |r.encumbrances| ==> Harmless(r.encumbrances[i], id, facility)) <==>
      && (forall i :: 0 <= i < |r.encumbrances| && r.encumbrances[i].asset == id ==>
            !ThirdPartyClaim(r.encumbrances[i]))
      && (forall i :: 0 <= i < |r.encumbrances| && r.encumbrances[i].asset == id ==>
            !ClaimOfAnother(r.encumbrances[i], facility))
  {
    if forall i :: 0 <= i < |r.encumbrances| ==> Harmless(r.encumbrances[i], id, facility) {
      forall i | 0 <= i < |r.encumbrances| && r.encumbrances[i].asset == id
        ensures !ThirdPartyClaim(r.encumbrances[i]) && !ClaimOfAnother(r.encumbrances[i], facility)
      {
        assert Harmless(r.encumbrances[i], id, facility);
      }
    }
  }

  lemma FamilyRows(r: Registry, id: AssetId, facility: Option<string>)
    requires RegistryOk(r) && id in r.assets
    ensures FamilyFree(r, id, facility) <==>
      && (forall i :: 0 <= i < |r.encumbrances| && r.encumbrances[i].asset == id ==>
            !ClaimOfAnother(r.encumbrances[i], facility))
      && (r.assets[id].parent.Some? ==> FinancedOnlyBy(r.encumbrances, r.assets[id].parent.value, facility))
      && (forall c :: c in r.assets && r.assets[c].parent == Some(id) ==> FinancedOnlyBy(r.encumbrances, c, facility))
  {
    forall c
      ensures FinancedOnlyBy(r.encumbrances, c, facility) <==>
        forall i :: 0 <= i < |r.encumbrances| && r.encumbrances[i].asset == c ==>
          !ClaimOfAnother(r.encumbrances[i], facility)
    {
      OnlyByRows(r, c, facility);
      hide FinancedOnlyBy;
      forall i | 0 <= i < |r.encumbrances| && r.encumbrances[i].asset == c
        ensures ClaimOfAnother(r.encumbrances[i], facility)
          <==> Finances(r.encumbrances[i], c) && r.encumbrances[i].facility != facility
      {
      }
    }
    hide FinancedOnlyBy, RegistryOk, ClaimOfAnother;
  }

  /** The decision, as an if and only if over the rows of the tables. */
  lemma EligibleExactly(r: Registry, id: AssetId, facility: Option<string>)
    requires RegistryOk(r) && id in r.assets
    ensures Eligible(r, id, facility) <==> ReviewedAndFree(r, id) && FamilyFree(r, id, facility)
  {
    HarmlessRows(r, id, facility);
    FamilyRows(r, id, facility);
    hide RegistryOk, Harmless, FinancedOnlyBy, ThirdPartyClaim, ClaimOfAnother, FamilyFree;
  }

  /** Deciding records the decision on the asset and touches nothing else. */
  lemma DecisionIsRecorded(r: Registry, id: AssetId, facility: Option<string>)
    requires RegistryOk(r)
    ensures var (after, result) := DecideEligibility(r, id, facility);
      && (result.Ok? <==> id in r.assets)
      && (id !in r.assets ==> after == r)
      && (id in r.assets ==>
        && (result.value <==> ReviewedAndFree(r, id) && FamilyFree(r, id, facility))
        && after == r.(assets := r.assets[id := r.assets[id].(eligible := result.value)]))
  {
    hide RegistryOk, Eligible, ReviewedAndFree, FamilyFree;
    if id in r.assets {
      EligibleExactly(r, id, facility);
    }
  }

  ghost predicate NotFinancedYet(r: Registry, id: AssetId) {
    forall i :: 0 <= i < |r.encumbrances| && r.encumbrances[i].asset == id ==>
      !(r.encumbrances[i].open && r.encumbrances[i].facility.Some?)
  }

  ghost predicate IdIsFree(r: Registry, encumbranceId: string) {
    forall i :: 0 <= i < |r.encumbrances| ==> r.encumbrances[i].id != encumbranceId
  }

  /** An asset is financed exactly when an underwriter asks for a known facility, the asset is free for it and not
      financed yet, and the id is new; the one new row is that facility's assignment of rights. */
  lemma FinancedExactly(r: Registry, encumbranceId: string, id: AssetId, facility: string, role: Role)
    requires RegistryOk(r)
    ensures var (after, result) := AssignToFacility(r, encumbranceId, id, facility, role);
      && (result.Ok? <==>
        && role == Underwriter && facility in r.facilities && id in r.assets
        && ReviewedAndFree(r, id) && FamilyFree(r, id, Some(facility))
        && NotFinancedYet(r, id) && IdIsFree(r, encumbranceId))
      && (result.Err? ==> after == r)
      && (result.Ok? ==>
        after == r.(assets := r.assets[id := r.assets[id].(eligible := true)],
                    encumbrances := r.encumbrances
                      + [Encumbrance(encumbranceId, id, AssignmentOfRights, Some(facility), true)]))
  {
    hide RegistryOk, Eligible, ReviewedAndFree, FamilyFree, FindFinancing, EncumbranceIdTaken;
    if id in r.assets {
      EligibleExactly(r, id, Some(facility));
    }
    NotFinancedRows(r, id);
    IdRows(r, encumbranceId);
    hide NotFinancedYet, IdIsFree;
  }

  lemma NotFinancedRows(r: Registry, id: AssetId)
    ensures FindFinancing(r.encumbrances, id).None? <==> NotFinancedYet(r, id)
  {
    var found := FindFinancing(r.encumbrances, id);
    if found.None? {
      forall i | 0 <= i < |r.encumbrances| && r.encumbrances[i].asset == id
        ensures !(r.encumbrances[i].open && r.encumbrances[i].facility.Some?)
      {
        assert !Finances(r.encumbrances[i], id);
      }
    }
  }

  lemma IdRows(r: Registry, encumbranceId: string)
    ensures EncumbranceIdTaken(r.encumbrances, encumbranceId) <==> !IdIsFree(r, encumbranceId)
  {
  }

  // ---- runs

  /** In every run, whatever is financed is at that moment reviewed, documented, unflagged and under no third party's
      lien, pledge or assignment. */
  lemma NothingEncumberedIsFinanced(accounts: set<string>, facilities: set<string>, ops: seq<Op>, encumbranceId: string,
                                    id: AssetId, facility: string, role: Role)
    requires var r := Run(Empty(accounts, facilities), ops);
      AssignToFacility(r, encumbranceId, id, facility, role).1.Ok?
    ensures var r := Run(Empty(accounts, facilities), ops); id in r.assets && ReviewedAndFree(r, id)
  {
    assert RegistryOk(Empty(accounts, facilities)) by { EmptyIsOk(accounts, facilities); }
    RunsStayOk(Empty(accounts, facilities), ops);
    hide RegistryOk, Run, ReviewedAndFree, AssignToFacility, Empty;
    FinancedExactly(Run(Empty(accounts, facilities), ops), encumbranceId, id, facility, role);
  }

  lemma EmptyIsOk(accounts: set<string>, facilities: set<string>)
    ensures RegistryOk(Empty(accounts, facilities)) && EligibleIsClear(Empty(accounts, facilities))
  {
  }

  /** An eligible asset is under no third party's lien, pledge or assignment. */
  ghost predicate EligibleIsClear(r: Registry) {
    forall i :: 0 <= i < |r.encumbrances| && ThirdPartyClaim(r.encumbrances[i]) ==>
      !IsEligible(r, r.encumbrances[i].asset)
  }

  predicate IsEligible(r: Registry, id: AssetId) {
    id in r.assets && r.assets[id].eligible
  }

  /** Only a decision makes an asset eligible. */
  lemma OnlyDecisionsMakeEligible(r: Registry, op: Op, id: AssetId)
    requires !IsEligible(r, id) && IsEligible(Apply(r, op), id)
    ensures (op.Deciding? && op.id == id) || (op.Financing? && op.id == id)
  {
    hide RegisterAsset, RegisterPartition, AssignProvider, EndAssignment, ChangeIdentityKey, ReplaceAsset;
    hide ReviewOwnership, ResolveFlag, ReleaseEncumbrance, RecordThirdPartyRight, AttachConsent, Eligible;
    hide FindFinancing, EncumbranceIdTaken;
    match op
    case Registering(a, kind, unitCount, keys, role, account) =>
      RegistrationMakesNothingEligible(r, a, kind, unitCount, keys, role, account, id);
    case Partitioning(parent, child, keys, role) => PartitioningMakesNothingEligible(r, parent, child, keys, role, id);
    case Assigning(a, account, role, assignmentId) =>
      if account.Some? {
        AssigningMakesNothingEligible(r, a, account.value, role, assignmentId, id);
      } else {
        PlainCallsMakeNothingEligible(r, op, id);
      }
    case Replacing(retired, replacement, moved, added, role, assignmentId, carry) =>
      ReplacingMakesNothingEligible(r, op, id);
    case Deciding(_, _) =>
    case Financing(_, _, _, _) =>
    case _ => PlainCallsMakeNothingEligible(r, op, id);
  }

  lemma PlainCallsMakeNothingEligible(r: Registry, op: Op, id: AssetId)
    requires op.Rekeying? || op.Reviewing? || op.Resolving? || op.Releasing? || op.AttachingConsent?
      || op.RecordingRight?
      || (op.Assigning? && op.account.None?)
    ensures IsEligible(Apply(r, op), id) ==> IsEligible(r, id)
  {
    hide FindKey, FindKeyOn, FindAssignment, FindEncumbrance, EncumbranceIdTaken;
  }

  lemma AssigningMakesNothingEligible(r: Registry, a: AssetId, account: string, role: Role, assignmentId: string,
                                      id: AssetId)
    ensures IsEligible(AssignProvider(r, a, account, role, assignmentId).0, id) ==> IsEligible(r, id)
  {
    hide FindAssignment, AssignmentIdTaken;
  }

  lemma RegistrationMakesNothingEligible(r: Registry, a: AssetId, kind: AssetKind, unitCount: int, keys: seq<Key>,
                                         role: Role, account: Option<string>, id: AssetId)
    ensures IsEligible(RegisterAsset(r, a, kind, unitCount, keys, role, account).0, id) ==> IsEligible(r, id)
  {
    hide FirstTaken, AddKeys, AssignProvider, DeriveId;
    if a !in r.assets && AddKeys(r.keys, a, keys).Ok? && account.Some? {
      var asset := Asset(kind, unitCount, true, UnknownOwner, Unverified, None, None, false);
      var created := r.(assets := r.assets[a := asset], keys := AddKeys(r.keys, a, keys).value);
      AssigningMakesNothingEligible(created, a, account.value, role, DeriveId(a, AssignmentTag), id);
    }
  }

  lemma PartitioningMakesNothingEligible(r: Registry, parent: AssetId, child: AssetId, keys: seq<Key>, role: Role,
                                         id: AssetId)
    ensures IsEligible(RegisterPartition(r, parent, child, keys, role).0, id) ==> IsEligible(r, id)
  {
    hide AddKeys;
  }

  lemma ReplacingMakesNothingEligible(r: Registry, op: Op, id: AssetId)
    requires op.Replacing?
    ensures IsEligible(Apply(r, op), id) ==> IsEligible(r, id)
  {
    hide ReplacedKeys, ReplacedRights, AssignProvider, FindFinancing, FindAssignment;
    if op.retired in r.assets && ReplacedKeys(r.keys, op.retired, op.replacement, op.moved, op.added).Ok? {
      var keys := ReplacedKeys(r.keys, op.retired, op.replacement, op.moved, op.added).value;
      var q := r.(assets := ReplacedAssets(r.assets, op.retired, op.replacement), keys := keys);
      var current := FindAssignment(q.assignments, op.retired);
      if current.Some? {
        var account := q.assignments[current.value].account;
        AssigningMakesNothingEligible(q.(assignments := Close(q.assignments, current.value)), op.replacement, account,
                                      op.role, op.assignmentId, id);
      }
    }
  }

  /** Only recording one adds a third party's claim, and that asset is then not eligible. */
  lemma OnlyRecordingAddsClaims(r: Registry, op: Op, i: nat)
    requires i < |Apply(r, op).encumbrances| && ThirdPartyClaim(Apply(r, op).encumbrances[i])
    ensures (i < |r.encumbrances| && Apply(r, op).encumbrances[i] == r.encumbrances[i])
      || (op.RecordingRight? && !IsEligible(Apply(r, op), Apply(r, op).encumbrances[i].asset))
  {
    hide RegisterAsset, RegisterPartition, AssignProvider, EndAssignment, ChangeIdentityKey, ReplaceAsset;
    hide ReviewOwnership, ResolveFlag, DecideEligibility, AssignToFacility, ReleaseEncumbrance, RecordThirdPartyRight;
    hide AttachConsent;
    match op
    case Replacing(retired, replacement, moved, added, role, assignmentId, carry) =>
      ReplacingAddsNoClaim(r, op, i);
    case Financing(encumbranceId, id, facility, role) =>
      FinancingAddsNoClaim(r, encumbranceId, id, facility, role, i);
    case Releasing(encumbranceId, role) => ReleasingAddsNoClaim(r, encumbranceId, role, i);
    case RecordingRight(encumbranceId, id, right, role) => RecordingFlags(r, encumbranceId, id, right, role, i);
    case _ => OtherCallsGrow(r, op);
  }

  lemma FinancingAddsNoClaim(r: Registry, encumbranceId: string, id: AssetId, facility: string, role: Role, i: nat)
    requires var after := AssignToFacility(r, encumbranceId, id, facility, role).0;
      i < |after.encumbrances| && ThirdPartyClaim(after.encumbrances[i])
    ensures i < |r.encumbrances|
      && AssignToFacility(r, encumbranceId, id, facility, role).0.encumbrances[i] == r.encumbrances[i]
  {
    hide Eligible, FindFinancing, EncumbranceIdTaken;
  }

  lemma ReleasingAddsNoClaim(r: Registry, encumbranceId: string, role: Role, i: nat)
    requires var after := ReleaseEncumbrance(r, encumbranceId, role).0;
      i < |after.encumbrances| && ThirdPartyClaim(after.encumbrances[i])
    ensures i < |r.encumbrances| && ReleaseEncumbrance(r, encumbranceId, role).0.encumbrances[i] == r.encumbrances[i]
  {
    hide EncumbranceIdTaken;
  }

  lemma RecordingFlags(r: Registry, encumbranceId: string, id: AssetId, kind: RightKind, role: Role, i: nat)
    requires i < |RecordThirdPartyRight(r, encumbranceId, id, kind, role).0.encumbrances|
    ensures var after := RecordThirdPartyRight(r, encumbranceId, id, kind, role).0;
      (i < |r.encumbrances|
        && after.encumbrances[i] == r.encumbrances[i]) || !IsEligible(after, after.encumbrances[i].asset)
  {
    hide EncumbranceIdTaken;
  }

  lemma ReplacingAddsNoClaim(r: Registry, op: Op, i: nat)
    requires op.Replacing? && i < |Apply(r, op).encumbrances| && ThirdPartyClaim(Apply(r, op).encumbrances[i])
    ensures i < |r.encumbrances| && Apply(r, op).encumbrances[i] == r.encumbrances[i]
  {
    hide ReplacedKeys, ReplacedAssignments, ReplacedAssets, DeriveId, EncumbranceIdTaken;
  }

  lemma CallKeepsEligibleClear(r: Registry, op: Op)
    requires RegistryOk(r) && EligibleIsClear(r)
    ensures EligibleIsClear(Apply(r, op))
  {
    hide RegistryOk, Apply, ThirdPartyClaim, ReviewedAndFree, IsEligible;
    var after := Apply(r, op);
    forall i | 0 <= i < |after.encumbrances| && ThirdPartyClaim(after.encumbrances[i])
      ensures !IsEligible(after, after.encumbrances[i].asset)
    {
      var id := after.encumbrances[i].asset;
      OnlyRecordingAddsClaims(r, op, i);
      if IsEligible(after, id) {
        assert !IsEligible(r, id);
        OnlyDecisionsMakeEligible(r, op, id);
        DecidedFree(r, op, id);
        ClaimIsNotFree(r, id, i);
      }
    }
  }

  lemma ClaimIsNotFree(r: Registry, id: AssetId, i: nat)
    requires i < |r.encumbrances| && r.encumbrances[i].asset == id && ThirdPartyClaim(r.encumbrances[i])
    ensures id in r.assets ==> !ReviewedAndFree(r, id)
  {
  }

  lemma DecidedFree(r: Registry, op: Op, id: AssetId)
    requires RegistryOk(r) && (op.Deciding? || op.Financing?) && op.id == id
    requires !IsEligible(r, id) && IsEligible(Apply(r, op), id)
    ensures id in r.assets && ReviewedAndFree(r, id)
  {
    hide RegistryOk, ReviewedAndFree, FamilyFree, DecideEligibility, AssignToFacility;
    match op
    case Deciding(_, candidate) => DecisionIsRecorded(r, id, candidate);
    case Financing(encumbranceId, _, facility, role) => FinancedExactly(r, encumbranceId, id, facility, role);
  }

  /** In every run an eligible asset is under no third party's lien, pledge or assignment, recorded before or since. */
  lemma {:induction false} EligibleStaysClear(r: Registry, ops: seq<Op>)
    requires RegistryOk(r) && EligibleIsClear(r)
    ensures EligibleIsClear(Run(r, ops))
  {
    hide RegistryOk, EligibleIsClear, Apply;
    if ops != [] {
      EligibleStaysClear(r, ops[..|ops| - 1]);
      RunsStayOk(r, ops[..|ops| - 1]);
      CallKeepsEligibleClear(Run(r, ops[..|ops| - 1]), ops[|ops| - 1]);
    }
  }
}
