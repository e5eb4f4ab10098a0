/** Runs from an empty registry that end where its documentation says none should, and the exact reach of each. */
module RegistryShortfalls {
  import opened Results
  import opened Registry
  import opened RegistryRuns
  import opened RegistryFinanciers

  // ---- what single calls do, as steps of a run

  lemma OneMore(r: Registry, ops: seq<Op>, op: Op)
    ensures Run(r, ops + [op]) == Apply(Run(r, ops), op)
  {
    hide Apply;
    assert (ops + [op])[..|ops|] == ops;
  }

  lemma NothingRun(r: Registry)
    ensures Run(r, []) == r
  {
  }

  function NewAsset(kind: AssetKind): Asset {
    Asset(kind, 1, true, UnknownOwner, Unverified, None, None, false)
  }

  function Listed(id: AssetId, kind: AssetKind, key: Key, facilities: set<string>): Registry {
    Empty({}, facilities).(assets := map[id := NewAsset(kind)], keys := [KeyRow(id, key, true)])
  }

  lemma FirstListing(id: AssetId, kind: AssetKind, key: Key, facilities: set<string>)
    ensures Apply(Empty({}, facilities), Registering(id, kind, 1, [key], Operator, None))
      == Listed(id, kind, key, facilities)
  {
    var r := Empty({}, facilities);
    KeyAdded(r.keys, id, key);
    assert r.assets[id := NewAsset(kind)] == map[id := NewAsset(kind)];
  }

  lemma KeyAdded(rows: seq<KeyRow>, id: AssetId, key: Key)
    requires rows == []
    ensures FirstTaken(rows, [key]) == None && AddKeys(rows, id, [key]) == Ok([KeyRow(id, key, true)])
  {
    var more := rows + [KeyRow(id, key, true)];
    assert more == [KeyRow(id, key, true)];
    assert [key][1..] == [];
    assert AddKeys(more, id, []) == Ok(more);
  }

  function PartOf(gpu: AssetId, ownership: Ownership): Asset {
    Asset(MigPartition, 1, true, ownership, Unverified, Some(gpu), None, false)
  }

  lemma PartitionAdded(r: Registry, gpu: AssetId, child: AssetId)
    requires gpu in r.assets && r.assets[gpu].kind.PhysicalGpu? && r.assets[gpu].active && child !in r.assets
    ensures Apply(r, Partitioning(gpu, child, [], Operator))
         == r.(assets := r.assets[child := PartOf(gpu, r.assets[gpu].ownership)])
  {
    assert AddKeys(r.keys, child, []) == Ok(r.keys);
  }

  lemma Verified(r: Registry, id: AssetId)
    requires id in r.assets && !r.assets[id].eligible
    ensures Apply(r, Reviewing(id, Review.Verified, Owned, Underwriter))
         == r.(assets := r.assets[id := r.assets[id].(review := Review.Verified, ownership := Owned)])
  {
  }

  function RightOf(encumbranceId: string, id: AssetId, facility: string): Encumbrance {
    Encumbrance(encumbranceId, id, AssignmentOfRights, Some(facility), true)
  }

  lemma TakenAsCollateral(r: Registry, encumbranceId: string, id: AssetId, facility: string)
    requires id in r.assets && Eligible(r, id, Some(facility)) && FindFinancing(r.encumbrances, id).None?
    requires facility in r.facilities && !EncumbranceIdTaken(r.encumbrances, encumbranceId)
    ensures Apply(r, Financing(encumbranceId, id, facility, Underwriter))
         == r.(assets := r.assets[id := r.assets[id].(eligible := true)],
               encumbrances := r.encumbrances + [RightOf(encumbranceId, id, facility)])
  {
    hide Eligible, FindFinancing, EncumbranceIdTaken;
  }

  /** A verified, owned asset under no flag and no right of its own is eligible if its family does not stand in the
      way. */
  lemma FamilyDecides(r: Registry, id: AssetId, facility: string)
    requires id in r.assets && r.assets[id].active && r.assets[id].review.Verified? && r.assets[id].ownership.Owned?
    requires r.flags == [] && forall i :: 0 <= i < |r.encumbrances| ==> r.encumbrances[i].asset != id
    requires r.assets[id].parent.Some? ==> FinancedOnlyBy(r.encumbrances, r.assets[id].parent.value, Some(facility))
    requires forall c :: c in r.assets && r.assets[c].parent == Some(id) ==>
      FinancedOnlyBy(r.encumbrances, c, Some(facility))
    ensures Eligible(r, id, Some(facility)) && FindFinancing(r.encumbrances, id).None?
  {
    hide FinancedOnlyBy;
  }

  // ---- two partitions of one GPU

  /** Two rights under one root that name different facilities. */
  ghost predicate TwoFinanciersUnder(r: Registry, root: AssetId) {
    exists i, k :: 0 <= i < |r.encumbrances| && 0 <= k < |r.encumbrances|
      && Differ(r, root, r.encumbrances[i], r.encumbrances[k])
  }

  predicate Differ(r: Registry, root: AssetId, a: Encumbrance, b: Encumbrance) {
    IsFinancing(a) && IsFinancing(b) && Top(r.assets, a.asset) == Top(r.assets, b.asset) == root
      && a.facility != b.facility
  }

  /** Eligibility looks at the parent and at the asset's own partitions, not at its siblings: two partitions of one GPU
      are taken as collateral by two facilities. */
  lemma SiblingsGetTwoFinanciers(gpu: AssetId, a: AssetId, b: AssetId, key: Key, f: string, g: string, e: string,
                                 d: string)
    requires gpu != a && gpu != b && a != b && f != g && e != d
    ensures exists ops :: TwoFinanciersUnder(Run(Empty({}, {f, g}), ops), gpu)
  {
    hide Run, Apply, Empty;
    var r0 := Empty({}, {f, g});
    var ops := GpuWithParts(gpu, a, b, key, {f, g});
    var r := Run(r0, ops);
    var one, two := Financing(e, a, f, Underwriter), Financing(d, b, g, Underwriter);
    OneMore(r0, ops, one);
    OneMore(r0, ops + [one], two);
    PartTaken(r, gpu, a, b, f, e);
    var s := Apply(r, one);
    PartTaken(s, gpu, b, a, g, d);
    BothDiffer(Apply(s, two), gpu, a, b, f, g, e, d);
  }

  lemma BothDiffer(r: Registry, gpu: AssetId, a: AssetId, b: AssetId, f: string, g: string, e: string, d: string)
    requires a in r.assets && b in r.assets && r.assets[a].parent == r.assets[b].parent == Some(gpu) && f != g
    requires r.encumbrances == [] + [RightOf(e, a, f)] + [RightOf(d, b, g)]
    ensures TwoFinanciersUnder(r, gpu)
  {
    assert Differ(r, gpu, r.encumbrances[0], r.encumbrances[1]);
  }

  /** A reviewed partition is taken whatever its sibling's rights. */
  lemma PartTaken(r: Registry, gpu: AssetId, id: AssetId, other: AssetId, facility: string, encumbranceId: string)
    requires r.assets.Keys == {gpu, id, other} && r.assets[gpu].parent.None? && r.assets[other].parent == Some(gpu)
    requires gpu != id && gpu != other && id != other
    requires r.assets[id] == PartOf(gpu, Owned).(review := Review.Verified)
    requires r.flags == [] && facility in r.facilities
    requires forall i :: 0 <= i < |r.encumbrances| ==>
      r.encumbrances[i].asset == other && r.encumbrances[i].id != encumbranceId
    ensures Apply(r, Financing(encumbranceId, id, facility, Underwriter))
         == r.(assets := r.assets[id := r.assets[id].(eligible := true)],
               encumbrances := r.encumbrances + [RightOf(encumbranceId, id, facility)])
  {
    hide Apply, Eligible, FindFinancing, EncumbranceIdTaken;
    NotFinanced(r.encumbrances, gpu);
    NoSuchId(r.encumbrances, encumbranceId);
    FamilyDecides(r, id, facility);
    TakenAsCollateral(r, encumbranceId, id, facility);
  }

  lemma NotFinanced(rows: seq<Encumbrance>, id: AssetId)
    requires forall i :: 0 <= i < |rows| ==> rows[i].asset != id
    ensures FindFinancing(rows, id).None?
  {
  }

  lemma NoSuchId(rows: seq<Encumbrance>, id: string)
    requires forall i :: 0 <= i < |rows| ==> rows[i].id != id
    ensures !EncumbranceIdTaken(rows, id)
  {
  }

  /** A GPU with two reviewed partitions. */
  lemma GpuWithParts(gpu: AssetId, a: AssetId, b: AssetId, key: Key, facilities: set<string>) returns (ops: seq<Op>)
    requires gpu != a && gpu != b && a != b
    ensures var r := Run(Empty({}, facilities), ops);
      && r.assets.Keys == {gpu, a, b} && r.assets[gpu] == NewAsset(PhysicalGpu)
      && r.assets[a] == r.assets[b] == PartOf(gpu, Owned).(review := Review.Verified)
      && r.flags == [] && r.encumbrances == [] && r.assignments == [] && r.facilities == facilities
  {
    hide Run, Apply;
    var r0 := Empty({}, facilities);
    NothingRun(r0);
    var list, cutA := Registering(gpu, PhysicalGpu, 1, [key], Operator, None), Partitioning(gpu, a, [], Operator);
    var cutB, seeA := Partitioning(gpu, b, [], Operator), Reviewing(a, Review.Verified, Owned, Underwriter);
    var seeB := Reviewing(b, Review.Verified, Owned, Underwriter);
    FirstListing(gpu, PhysicalGpu, key, facilities);
    OneMore(r0, [], list);
    var r1 := Listed(gpu, PhysicalGpu, key, facilities);
    PartitionAdded(r1, gpu, a);
    OneMore(r0, [] + [list], cutA);
    var r2 := Apply(r1, cutA);
    PartitionAdded(r2, gpu, b);
    OneMore(r0, [] + [list] + [cutA], cutB);
    var r3 := Apply(r2, cutB);
    Verified(r3, a);
    OneMore(r0, [] + [list] + [cutA] + [cutB], seeA);
    var r4 := Apply(r3, seeA);
    Verified(r4, b);
    OneMore(r0, [] + [list] + [cutA] + [cutB] + [seeA], seeB);
    ops := [] + [list] + [cutA] + [cutB] + [seeA] + [seeB];
  }

  // ---- a replaced partition

  /** What a replacement leaves of the check on a GPU's partitions: the check on all of them but the one replaced. */
  lemma ReplacedPartitionIsForgotten(r: Registry, retired: AssetId, replacement: AssetId, moved: seq<Key>,
                                     added: seq<Key>,
                                     role: Role, assignmentId: string, carry: bool, gpu: AssetId,
                                       facility: Option<string>)
    requires RegistryOk(r) && ReplaceAsset(r, retired, replacement, moved, added, role, assignmentId, carry).1.Ok?
    ensures var after := ReplaceAsset(r, retired, replacement, moved, added, role, assignmentId, carry).0;
      PartsFinancedOnlyBy(after, gpu, {}, facility) <==> PartsFinancedOnlyBy(r, gpu, {retired}, facility)
  {
    ReplacementShape(r, retired, replacement, moved, added, role, assignmentId, carry);
    ReplacementKeeps(r, retired, replacement, moved, added, role, assignmentId, carry);
    var after := ReplaceAsset(r, retired, replacement, moved, added, role, assignmentId, carry).0;
    forall c | c in r.assets && c != retired
      ensures FinancedOnlyBy(after.encumbrances, c, facility) <==> FinancedOnlyBy(r.encumbrances, c, facility)
    {
      OtherAssetsKeepFinanciers(r, after, retired, replacement, c, facility);
    }
    RetiredHasNoFinancier(after, retired);
    hide ReplaceAsset, RegistryOk, RightsMove, AssignmentsMoved, FindFinancing;
  }

  /** A GPU's partitions, these excepted, are financed by nobody but this facility. */
  ghost predicate PartsFinancedOnlyBy(r: Registry, gpu: AssetId, excepted: set<AssetId>, facility: Option<string>) {
    forall c :: c in r.assets && c !in excepted && r.assets[c].parent == Some(gpu) ==>
      FinancedOnlyBy(r.encumbrances, c, facility)
  }

  lemma OtherAssetsKeepFinanciers(r: Registry, after: Registry, retired: AssetId, replacement: AssetId, c: AssetId,
                                  facility: Option<string>)
    requires RegistryOk(r) && RegistryOk(after) && Replaced(r, after, retired, replacement)
    requires c != retired && c != replacement
    ensures FinancedOnlyBy(after.encumbrances, c, facility) <==> FinancedOnlyBy(r.encumbrances, c, facility)
  {
    OnlyByRows(r, c, facility);
    OnlyByRows(after, c, facility);
    hide RegistryOk, FinancedOnlyBy, FindFinancing, AssignmentsMoved;
    var rows, later := r.encumbrances, after.encumbrances;
    forall i | 0 <= i < |later|
      ensures Finances(later[i], c) ==> i < |rows| && later[i] == rows[i]
      ensures i < |rows| && Finances(rows[i], c) ==> later[i] == rows[i]
    {
      if i < |rows| {
        assert later[i] == later[..|rows|][i];
      }
    }
  }

  lemma RetiredHasNoFinancier(r: Registry, id: AssetId)
    requires RegistryOk(r) && id !in ActiveIds(r.assets)
    ensures FindFinancing(r.encumbrances, id).None?
  {
    hide KeysOk, AssignmentsOk, ParentsOk, FamilyOk, EligibleOk, ActiveIds;
    assert forall i :: 0 <= i < |r.encumbrances| && IsFinancing(r.encumbrances[i]) ==>
        r.encumbrances[i].asset in ActiveIds(r.assets);
  }

  lemma PartReplaced(r: Registry, retired: AssetId, replacement: AssetId, e: Encumbrance, assignmentId: string)
    requires retired in r.assets && r.assets[retired].active && replacement !in r.assets
    requires r.encumbrances == [e] && Finances(e, retired) && r.assignments == []
    requires e.id != DeriveId(replacement, EncumbranceTag)
    ensures var after := Apply(r, Replacing(retired, replacement, [], [], Operator, assignmentId, true));
      && after.assets == ReplacedAssets(r.assets, retired, replacement)
      && after.encumbrances == [e.(open := false),
           Encumbrance(DeriveId(replacement, EncumbranceTag), replacement, e.kind, e.facility, true)]
      && after.flags == r.flags && after.facilities == r.facilities
  {
    hide DeriveId, RetireAll;
    assert FindFinancing(r.encumbrances, retired) == Some(0);
    assert FindAssignment(r.assignments, retired) == None;
    assert MoveKeys(r.keys, retired, replacement, []) == Ok(r.keys) && AddKeys(r.keys, replacement, []) == Ok(r.keys);
    NoSuchId(r.encumbrances, DeriveId(replacement, EncumbranceTag));
  }

  /** Two open rights, one on the GPU and one on the replacement of its partition, that name different facilities. */
  ghost predicate FinancedOnceMore(r: Registry, gpu: AssetId) {
    exists i, k :: 0 <= i < |r.encumbrances| && 0 <= k < |r.encumbrances|
      && OnReplacedPart(r, gpu, r.encumbrances[i], r.encumbrances[k])
  }

  predicate OnReplacedPart(r: Registry, gpu: AssetId, whole: Encumbrance, part: Encumbrance) {
    && Finances(whole, gpu) && IsFinancing(part) && whole.facility != part.facility
    && part.asset in r.assets && r.assets[part.asset].predecessor.Some?
    && var gone := r.assets[part.asset].predecessor.value;
    gone in r.assets && r.assets[gone].parent == Some(gpu)
  }

  /** A partition is financed and replaced; its GPU is then financed by another facility. */
  lemma ReplacedPartitionsGpuIsFinancedOnceMore(gpu: AssetId, a: AssetId, b: AssetId, c: AssetId, key: Key, f: string,
                                                g: string,
                                                e: string, d: string, assignmentId: string)
    requires gpu != a && gpu != b && a != b && c != gpu && c != a && c != b && f != g
    requires e != d && e != DeriveId(c, EncumbranceTag) && d != DeriveId(c, EncumbranceTag)
    ensures exists ops :: FinancedOnceMore(Run(Empty({}, {f, g}), ops), gpu)
  {
    hide Run, Apply, Empty, DeriveId;
    var r0 := Empty({}, {f, g});
    var ops := GpuWithParts(gpu, a, b, key, {f, g});
    var r := Run(r0, ops);
    var one, two := Financing(e, a, f, Underwriter), Replacing(a, c, [], [], Operator, assignmentId, true);
    var three, four := Reviewing(gpu, Review.Verified, Owned, Underwriter), Financing(d, gpu, g, Underwriter);
    OneMore(r0, ops, one);
    OneMore(r0, ops + [one], two);
    OneMore(r0, ops + [one] + [two], three);
    OneMore(r0, ops + [one] + [two] + [three], four);
    PartTaken(r, gpu, a, b, f, e);
    var s := Apply(r, one);
    PartReplaced(s, a, c, RightOf(e, a, f), assignmentId);
    var t := Apply(s, two);
    Verified(t, gpu);
    var u := Apply(t, three);
    GpuTaken(u, gpu, a, b, c, RightOf(e, a, f), DeriveId(c, EncumbranceTag), d, g);
  }

  lemma GpuTaken(r: Registry, gpu: AssetId, a: AssetId, b: AssetId, c: AssetId, e: Encumbrance, moved: string,
                 d: string, g: string)
    requires gpu != a && gpu != b && a != b && c != gpu && c != a && c != b
    requires r.assets.Keys == {gpu, a, b, c} && r.flags == [] && g in r.facilities
    requires r.assets[gpu] == NewAsset(PhysicalGpu).(review := Review.Verified, ownership := Owned)
    requires r.assets[a].parent == Some(gpu) && r.assets[c].parent == None && r.assets[c].predecessor == Some(a)
    requires e.asset == a && e.facility.Some? && e.facility != Some(g) && e.id != d && moved != d
    requires r.encumbrances == [e.(open := false), Encumbrance(moved, c, e.kind, e.facility, true)]
    ensures FinancedOnceMore(Apply(r, Financing(d, gpu, g, Underwriter)), gpu)
  {
    hide Apply, Eligible, FindFinancing, EncumbranceIdTaken;
    assert FindFinancing(r.encumbrances, a).None? && FindFinancing(r.encumbrances, b).None?;
    NoSuchId(r.encumbrances, d);
    FamilyDecides(r, gpu, g);
    TakenAsCollateral(r, d, gpu, g);
    var after := Apply(r, Financing(d, gpu, g, Underwriter));
    assert OnReplacedPart(after, gpu, after.encumbrances[2], after.encumbrances[1]);
  }

  // ---- rejecting an eligible asset

  /** A well-formed review of a known asset is refused exactly when the asset is eligible and the verdict would end
      that: the table's check constraint raises before the underwriter's finding is recorded. */
  lemma ReviewIsRefusedWhileEligible(r: Registry, id: AssetId, verdict: Review, ownership: Ownership)
    requires RegistryOk(r) && id in r.assets
    requires verdict.Verified? || verdict.Rejected?
    requires verdict.Verified? ==> !ownership.UnknownOwner?
    ensures ReviewOwnership(r, id, verdict, ownership, Underwriter).1.Ok?
      <==> !r.assets[id].eligible || verdict.Verified?
  {
    hide KeysOk, AssignmentsOk, RightsOk, ParentsOk, FamilyOk;
  }

  /** Such an asset is three calls away. */
  lemma EligibleAssetCannotBeRejected(id: AssetId, kind: AssetKind, key: Key, ownership: Ownership)
    ensures var ops := [Registering(id, kind, 1, [key], Operator, None),
      Reviewing(id, Review.Verified, Owned, Underwriter),
                        Deciding(id, None)];
      var r := Run(Empty({}, {}), ops);
      && id in r.assets && r.assets[id].eligible
      && ReviewOwnership(r, id, Rejected, ownership, Underwriter) == (r, Err(CheckViolation))
  {
    hide Run, Apply;
    var r0 := Empty({}, {});
    NothingRun(r0);
    var list, see := Registering(id, kind, 1, [key], Operator, None),
      Reviewing(id, Review.Verified, Owned, Underwriter);
    var decide := Deciding(id, None);
    FirstListing(id, kind, key, {});
    OneMore(r0, [], list);
    var r1 := Listed(id, kind, key, {});
    Verified(r1, id);
    OneMore(r0, [] + [list], see);
    var r2 := Apply(r1, see);
    Decided(r2, id);
    OneMore(r0, [] + [list] + [see], decide);
    assert [] + [list] + [see] + [decide] == [list, see, decide];
  }

  lemma Decided(r: Registry, id: AssetId)
    requires r.assets.Keys == {id} && r.assets[id].active && r.assets[id].review.Verified?
      && r.assets[id].ownership.Owned?
    requires r.assets[id].parent.None? && r.flags == [] && r.encumbrances == []
    ensures var after := Apply(r, Deciding(id, None)); after.assets == r.assets[id := r.assets[id].(eligible := true)]
  {
    assert Eligible(r, id, None);
  }

  /** Raising any flag first lets the rejection through. */
  lemma FlagUnblocksRejection(r: Registry, id: AssetId, flag: FlagKind, ownership: Ownership)
    requires RegistryOk(r) && id in r.assets
    ensures ReviewOwnership(RaiseFlag(r, id, flag), id, Rejected, ownership, Underwriter).1.Ok?
  {
    FlagsKeep(r, id, flag, 0, Underwriter);
    ReviewIsRefusedWhileEligible(RaiseFlag(r, id, flag), id, Rejected, ownership);
  }
}
