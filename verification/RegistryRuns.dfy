/** What the registry keeps over every run, and what a replacement moves. */
module RegistryRuns {
  import opened Results
  import opened Registry

  // ---- invariant

  ghost function ActiveIds(assets: map<AssetId, Asset>): set<AssetId> {
    set id | id in assets && assets[id].active
  }

  /** An active key names one asset, and that asset is not retired. */
  ghost predicate KeysOk(rows: seq<KeyRow>, live: set<AssetId>) {
    && (forall i :: 0 <= i < |rows| && rows[i].active ==> rows[i].asset in live)
    && (forall i, k :: 0 <= i < k < |rows| && rows[i].active && rows[k].active ==> rows[i].key != rows[k].key)
  }

  /** An asset has at most one open assignment, and a retired one has none. */
  ghost predicate AssignmentsOk(rows: seq<Assignment>, live: set<AssetId>) {
    && (forall i :: 0 <= i < |rows| && rows[i].open ==> rows[i].asset in live)
    && (forall i, k :: 0 <= i < k < |rows| && rows[i].open && rows[k].open ==> rows[i].asset != rows[k].asset)
  }

  predicate IsFinancing(e: Encumbrance) {
    e.open && e.facility.Some?
  }

  /** An asset is financed by at most one open right, and a retired one by none. */
  ghost predicate RightsOk(rows: seq<Encumbrance>, live: set<AssetId>) {
    && (forall i :: 0 <= i < |rows| && IsFinancing(rows[i]) ==> rows[i].asset in live)
    && (forall i, k :: 0 <= i < k < |rows| && IsFinancing(rows[i]) && IsFinancing(rows[k]) ==>
      rows[i].asset != rows[k].asset)
  }

  /** Parents are physical GPUs, and those have no parents. */
  ghost predicate ParentsOk(assets: map<AssetId, Asset>) {
    forall id :: id in assets ==> ParentOk(assets, assets[id])
  }

  predicate ParentOk(assets: map<AssetId, Asset>, a: Asset) {
    && (a.parent.Some? ==> a.kind.MigPartition? && a.parent.value in assets && assets[a.parent.value].kind.PhysicalGpu?)
    && a.unitCount > 0
  }

  /** A GPU and its partition are never financed by different facilities. */
  ghost predicate FamilyOk(rows: seq<Encumbrance>, assets: map<AssetId, Asset>) {
    forall i, k :: 0 <= i < |rows| && 0 <= k < |rows| ==> SameFinancier(assets, rows[i], rows[k])
  }

  predicate SameFinancier(assets: map<AssetId, Asset>, part: Encumbrance, whole: Encumbrance) {
    IsFinancing(part) && IsFinancing(whole) && part.asset in assets && assets[part.asset].parent == Some(whole.asset)
    ==> part.facility == whole.facility
  }

  /** An eligible asset is active, verified, of known ownership, and under no open flag. */
  ghost predicate EligibleOk(assets: map<AssetId, Asset>, flags: seq<Flag>) {
    && (forall id :: id in assets && assets[id].eligible ==>
          assets[id].active && assets[id].review.Verified? && !assets[id].ownership.UnknownOwner?)
    && (forall i :: 0 <= i < |flags| && flags[i].open ==> flags[i].asset in assets && !assets[flags[i].asset].eligible)
  }

  ghost predicate RegistryOk(r: Registry) {
    && KeysOk(r.keys, ActiveIds(r.assets))
    && AssignmentsOk(r.assignments, ActiveIds(r.assets))
    && RightsOk(r.encumbrances, ActiveIds(r.assets))
    && ParentsOk(r.assets)
    && FamilyOk(r.encumbrances, r.assets)
    && EligibleOk(r.assets, r.flags)
  }

  // ---- identity keys

  lemma {:induction false} AddKeysKeeps(rows: seq<KeyRow>, asset: AssetId, keys: seq<Key>, live: set<AssetId>)
    requires KeysOk(rows, live) && asset in live
    ensures AddKeys(rows, asset, keys).Ok? ==> KeysOk(AddKeys(rows, asset, keys).value, live)
    decreases |keys|
  {
    if keys != [] && FindKey(rows, keys[0]).None? {
      AddKeysKeeps(rows + [KeyRow(asset, keys[0], true)], asset, keys[1..], live);
    }
  }

  lemma {:induction false} MoveKeysKeeps(rows: seq<KeyRow>, retired: AssetId, replacement: AssetId, keys: seq<Key>,
                                         live: set<AssetId>)
    requires KeysOk(rows, live) && replacement in live
    ensures MoveKeys(rows, retired, replacement, keys).Ok? ==>
      KeysOk(MoveKeys(rows, retired, replacement, keys).value, live)
    decreases |keys|
  {
    if keys != [] {
      var found := FindKeyOn(rows, retired, keys[0]);
      if found.Some? {
        var next := Retire(rows, found.value) + [KeyRow(replacement, keys[0], true)];
        MoveKeysKeeps(next, retired, replacement, keys[1..], live);
      }
    }
  }

  lemma RetireAllKeeps(rows: seq<KeyRow>, asset: AssetId, live: set<AssetId>)
    requires KeysOk(rows, live)
    ensures KeysOk(RetireAll(rows, asset), live - {asset})
  {
    forall i, k | 0 <= i < k < |rows| && RetireAll(rows, asset)[i].active && RetireAll(rows, asset)[k].active
      ensures RetireAll(rows, asset)[i].key != RetireAll(rows, asset)[k].key
    {
      assert rows[i].active && rows[k].active;
    }
  }

  // ---- one step at a time

  /** Raising a flag, deciding eligibility and reviewing change no relation between assets. */
  ghost predicate SameRelations(a: map<AssetId, Asset>, b: map<AssetId, Asset>) {
    && a.Keys == b.Keys
    && forall id :: id in a ==>
      && a[id].active == b[id].active && a[id].parent == b[id].parent && a[id].kind == b[id].kind
      && a[id].unitCount == b[id].unitCount
  }

  lemma SameRelationsKeep(r: Registry, assets: map<AssetId, Asset>)
    requires RegistryOk(r) && SameRelations(r.assets, assets)
    ensures KeysOk(r.keys, ActiveIds(assets)) && AssignmentsOk(r.assignments, ActiveIds(assets))
    ensures RightsOk(r.encumbrances, ActiveIds(assets)) && ParentsOk(assets) && FamilyOk(r.encumbrances, assets)
  {
    hide KeysOk, AssignmentsOk, RightsOk, EligibleOk, IsFinancing;
    assert ActiveIds(assets) == ActiveIds(r.assets);
    forall i, k | 0 <= i < |r.encumbrances| && 0 <= k < |r.encumbrances|
      ensures SameFinancier(assets, r.encumbrances[i], r.encumbrances[k])
    {
      assert SameFinancier(r.assets, r.encumbrances[i], r.encumbrances[k]);
    }
    forall id | id in assets
      ensures ParentOk(assets, assets[id])
    {
      assert ParentOk(r.assets, r.assets[id]);
    }
  }

  lemma FlagsKeep(r: Registry, id: AssetId, kind: FlagKind, flag: nat, role: Role)
    requires RegistryOk(r) && id in r.assets
    ensures RegistryOk(RaiseFlag(r, id, kind)) && RegistryOk(ResolveFlag(r, flag, role).0)
  {
    SameRelationsKeep(r, RaiseFlag(r, id, kind).assets);
    hide KeysOk, AssignmentsOk, RightsOk, ParentsOk, FamilyOk;
  }

  lemma ResolvingKeeps(r: Registry, flag: nat, role: Role)
    requires RegistryOk(r)
    ensures RegistryOk(ResolveFlag(r, flag, role).0)
  {
    hide KeysOk, AssignmentsOk, RightsOk, ParentsOk, FamilyOk;
  }

  lemma ReviewKeeps(r: Registry, id: AssetId, verdict: Review, ownership: Ownership, role: Role)
    requires RegistryOk(r)
    ensures RegistryOk(ReviewOwnership(r, id, verdict, ownership, role).0)
  {
    SameRelationsKeep(r, ReviewOwnership(r, id, verdict, ownership, role).0.assets);
    hide KeysOk, AssignmentsOk, RightsOk, ParentsOk, FamilyOk;
  }

  lemma DecisionKeeps(r: Registry, id: AssetId, facility: Option<string>)
    requires RegistryOk(r)
    ensures RegistryOk(DecideEligibility(r, id, facility).0)
  {
    SameRelationsKeep(r, DecideEligibility(r, id, facility).0.assets);
    hide KeysOk, AssignmentsOk, RightsOk, ParentsOk, FamilyOk, FinancedOnlyBy, Harmless;
  }

  /** A new asset: nothing refers to it yet. */
  lemma NewAssetKeeps(r: Registry, id: AssetId, asset: Asset)
    requires RegistryOk(r) && id !in r.assets && asset.active && !asset.eligible && ParentOk(r.assets, asset)
    ensures RegistryOk(r.(assets := r.assets[id := asset]))
    ensures ActiveIds(r.assets[id := asset]) == ActiveIds(r.assets) + {id}
  {
    hide KeysOk, AssignmentsOk, RightsOk;
    var assets := r.assets[id := asset];
    assert ActiveIds(assets) == ActiveIds(r.assets) + {id};
    MoreLive(r, ActiveIds(assets));
    forall other | other in assets
      ensures ParentOk(assets, assets[other])
    {
      if other != id {
        assert ParentOk(r.assets, r.assets[other]);
      }
    }
    NewAssetFamily(r, id, asset);
  }

  lemma MoreLive(r: Registry, live: set<AssetId>)
    requires RegistryOk(r) && ActiveIds(r.assets) <= live
    ensures KeysOk(r.keys, live) && AssignmentsOk(r.assignments, live) && RightsOk(r.encumbrances, live)
  {
  }

  lemma NewAssetFamily(r: Registry, id: AssetId, asset: Asset)
    requires RegistryOk(r) && id !in r.assets
    ensures FamilyOk(r.encumbrances, r.assets[id := asset])
  {
    hide KeysOk, AssignmentsOk, ParentsOk, EligibleOk;
    var rows := r.encumbrances;
    forall i, k | 0 <= i < |rows| && 0 <= k < |rows|
      ensures SameFinancier(r.assets[id := asset], rows[i], rows[k])
    {
      assert SameFinancier(r.assets, rows[i], rows[k]);
      if IsFinancing(rows[i]) {
        assert rows[i].asset in ActiveIds(r.assets);
      }
    }
  }

  lemma WithKeys(r: Registry, rows: seq<KeyRow>)
    requires RegistryOk(r) && KeysOk(rows, ActiveIds(r.assets))
    ensures RegistryOk(r.(keys := rows))
  {
    hide KeysOk, AssignmentsOk, RightsOk, ParentsOk, FamilyOk, EligibleOk, ActiveIds;
  }

  lemma AssignmentKeeps(r: Registry, id: AssetId, account: string, role: Role, assignmentId: string)
    requires RegistryOk(r)
    ensures RegistryOk(AssignProvider(r, id, account, role, assignmentId).0)
  {
    hide KeysOk, RightsOk, ParentsOk, FamilyOk, EligibleOk, AssignmentIdTaken;
    if id in r.assets {
      FlagsKeep(r, id, DuplicateListing, 0, role);
    }
  }

  lemma EndingKeeps(r: Registry, id: AssetId, role: Role)
    requires RegistryOk(r)
    ensures RegistryOk(EndAssignment(r, id, role).0)
  {
    hide KeysOk, RightsOk, ParentsOk, FamilyOk, EligibleOk;
  }

  lemma RegistrationKeeps(r: Registry, id: AssetId, kind: AssetKind, unitCount: int, keys: seq<Key>, role: Role,
                          account: Option<string>)
    requires RegistryOk(r)
    ensures RegistryOk(RegisterAsset(r, id, kind, unitCount, keys, role, account).0)
  {
    hide RegistryOk, AssignProvider, RaiseFlag, DeriveId;
    var taken := FirstTaken(r.keys, keys);
    if taken.Some? && r.keys[taken.value].asset in r.assets {
      FlagsKeep(r, r.keys[taken.value].asset, DuplicateListing, 0, role);
    } else if taken.None? && id !in r.assets && unitCount > 0 && AddKeys(r.keys, id, keys).Ok? {
      var asset := Asset(kind, unitCount, true, UnknownOwner, Unverified, None, None, false);
      CreationKeeps(r, id, asset, keys);
      var created := r.(assets := r.assets[id := asset], keys := AddKeys(r.keys, id, keys).value);
      if account.Some? {
        AssignmentKeeps(created, id, account.value, role, DeriveId(id, AssignmentTag));
      }
    }
  }

  lemma CreationKeeps(r: Registry, id: AssetId, asset: Asset, keys: seq<Key>)
    requires RegistryOk(r) && id !in r.assets && asset.active && !asset.eligible && ParentOk(r.assets, asset)
    requires AddKeys(r.keys, id, keys).Ok?
    ensures RegistryOk(r.(assets := r.assets[id := asset], keys := AddKeys(r.keys, id, keys).value))
  {
    NewAssetKeeps(r, id, asset);
    var created := r.(assets := r.assets[id := asset]);
    AddKeysKeeps(created.keys, id, keys, ActiveIds(created.assets));
    WithKeys(created, AddKeys(r.keys, id, keys).value);
  }

  lemma PartitionKeeps(r: Registry, parent: AssetId, child: AssetId, keys: seq<Key>, role: Role)
    requires RegistryOk(r)
    ensures RegistryOk(RegisterPartition(r, parent, child, keys, role).0)
  {
    hide RegistryOk;
    if parent in r.assets && r.assets[parent].kind.PhysicalGpu? && child !in r.assets
      && AddKeys(r.keys, child, keys).Ok? {
      CreationKeeps(r, child,
        Asset(MigPartition, 1, true, r.assets[parent].ownership, Unverified, Some(parent), None, false), keys);
    }
  }

  lemma RekeyKeeps(r: Registry, id: AssetId, scheme: string, oldValue: Option<string>, newValue: string, role: Role)
    requires RegistryOk(r)
    ensures RegistryOk(ChangeIdentityKey(r, id, scheme, oldValue, newValue, role).0)
  {
    hide AssignmentsOk, RightsOk, ParentsOk, FamilyOk, EligibleOk;
  }

  // ---- financing

  /** An eligible asset's GPU and partitions are financed by the same facility or not at all. */
  lemma EligibleFamily(r: Registry, id: AssetId, facility: string, i: nat)
    requires RegistryOk(r) && id in r.assets && Eligible(r, id, Some(facility)) && i < |r.encumbrances|
    requires IsFinancing(r.encumbrances[i])
    ensures r.assets[id].parent == Some(r.encumbrances[i].asset) ==> r.encumbrances[i].facility == Some(facility)
    ensures r.encumbrances[i].asset in r.assets && r.assets[r.encumbrances[i].asset].parent == Some(id) ==>
      r.encumbrances[i].facility == Some(facility)
  {
    hide KeysOk, AssignmentsOk, ParentsOk, FamilyOk, EligibleOk, Harmless;
    var e := r.encumbrances[i];
    var found := FindFinancing(r.encumbrances, e.asset);
    assert Finances(e, e.asset);
    assert found.Some? && found.value == i;
  }

  lemma FinancingKeeps(r: Registry, encumbranceId: string, id: AssetId, facility: string, role: Role)
    requires RegistryOk(r)
    ensures RegistryOk(AssignToFacility(r, encumbranceId, id, facility, role).0)
  {
    var (after, result) := AssignToFacility(r, encumbranceId, id, facility, role);
    if result.Ok? {
      DecisionKeeps(r, id, Some(facility));
      var decided := DecideEligibility(r, id, Some(facility)).0;
      var e := Encumbrance(encumbranceId, id, AssignmentOfRights, Some(facility), true);
      RightsGrow(decided, e);
      FamilyGrows(r, id, facility, e);
      hide KeysOk, AssignmentsOk, RightsOk, ParentsOk, FamilyOk, EligibleOk, Eligible;
      SameRelationsKeep(decided, r.assets);
    }
  }

  lemma RightsGrow(r: Registry, e: Encumbrance)
    requires RightsOk(r.encumbrances, ActiveIds(r.assets)) && e.asset in ActiveIds(r.assets)
    requires FindFinancing(r.encumbrances, e.asset).None?
    ensures RightsOk(r.encumbrances + [e], ActiveIds(r.assets))
  {
    forall i | 0 <= i < |r.encumbrances| && IsFinancing(r.encumbrances[i])
      ensures r.encumbrances[i].asset != e.asset
    {
      assert !Finances(r.encumbrances[i], e.asset);
    }
  }

  lemma FamilyGrows(r: Registry, id: AssetId, facility: string, e: Encumbrance)
    requires RegistryOk(r) && id in r.assets && Eligible(r, id, Some(facility)) && e.asset == id
      && e.facility == Some(facility)
    ensures FamilyOk(r.encumbrances + [e], DecideEligibility(r, id, Some(facility)).0.assets)
  {
    hide Eligible, KeysOk, AssignmentsOk, EligibleOk, IsFinancing, RightsOk;
    var rows, assets := r.encumbrances + [e], DecideEligibility(r, id, Some(facility)).0.assets;
    assert ParentOk(r.assets, r.assets[id]);
    forall i, k | 0 <= i < |rows| && 0 <= k < |rows|
      ensures SameFinancier(assets, rows[i], rows[k])
    {
      if i < |rows| - 1 && k < |rows| - 1 {
        assert SameFinancier(r.assets, rows[i], rows[k]);
      } else if i < |rows| - 1 && IsFinancing(rows[i]) {
        EligibleFamily(r, id, facility, i);
      } else if k < |rows| - 1 && IsFinancing(rows[k]) {
        EligibleFamily(r, id, facility, k);
      }
    }
  }

  lemma ReleaseKeepsRights(rows: seq<Encumbrance>, i: nat, live: set<AssetId>, assets: map<AssetId, Asset>)
    requires i < |rows| && RightsOk(rows, live) && FamilyOk(rows, assets)
    ensures RightsOk(Release(rows, i), live) && FamilyOk(Release(rows, i), assets)
    ensures IsFinancing(rows[i]) ==> RightsOk(Release(rows, i), live - {rows[i].asset})
  {
    var after := Release(rows, i);
    forall j, k | 0 <= j < |after| && 0 <= k < |after|
      ensures SameFinancier(assets, after[j], after[k])
    {
      assert SameFinancier(assets, rows[j], rows[k]);
    }
  }

  lemma ReleasingKeeps(r: Registry, encumbranceId: string, role: Role)
    requires RegistryOk(r)
    ensures RegistryOk(ReleaseEncumbrance(r, encumbranceId, role).0)
  {
    hide KeysOk, AssignmentsOk, RightsOk, ParentsOk, FamilyOk, EligibleOk, EncumbranceIdTaken, Release;
    var found := FindEncumbrance(r.encumbrances, encumbranceId);
    if found.Some? {
      ReleaseKeepsRights(r.encumbrances, found.value, ActiveIds(r.assets), r.assets);
    }
  }

  lemma ThirdPartyKeeps(r: Registry, e: Encumbrance)
    requires RegistryOk(r) && e.facility.None?
    ensures RegistryOk(r.(encumbrances := r.encumbrances + [e]))
  {
    hide KeysOk, AssignmentsOk, ParentsOk, EligibleOk;
    var rows := r.encumbrances + [e];
    forall i, k | 0 <= i < |rows| && 0 <= k < |rows|
      ensures SameFinancier(r.assets, rows[i], rows[k])
    {
      if i < |r.encumbrances| && k < |r.encumbrances| {
        assert SameFinancier(r.assets, r.encumbrances[i], r.encumbrances[k]);
      }
    }
  }

  lemma RecordingKeeps(r: Registry, encumbranceId: string, id: AssetId, kind: RightKind, role: Role)
    requires RegistryOk(r)
    ensures RegistryOk(RecordThirdPartyRight(r, encumbranceId, id, kind, role).0)
  {
    hide RegistryOk, RaiseFlag, EncumbranceIdTaken;
    if id in r.assets {
      var e := Encumbrance(encumbranceId, id, kind, None, true);
      ThirdPartyKeeps(r, e);
      var flag := if kind.Lease? then LeaseUnverified else PriorityConflict;
      FlagsKeep(r.(encumbrances := r.encumbrances + [e]), id, flag, 0, role);
    }
  }
  // ---- replacement

  lemma LiveAfterReplacement(assets: map<AssetId, Asset>, retired: AssetId, replacement: AssetId)
    requires retired in assets && assets[retired].active && replacement !in assets
    ensures ActiveIds(ReplacedAssets(assets, retired, replacement)) == ActiveIds(assets) + {replacement} - {retired}
  {
  }

  lemma ReplacedKeysKeep(r: Registry, retired: AssetId, replacement: AssetId, moved: seq<Key>, added: seq<Key>)
    requires RegistryOk(r) && ReplacedKeys(r.keys, retired, replacement, moved, added).Ok?
    ensures KeysOk(ReplacedKeys(r.keys, retired, replacement, moved, added).value,
                   ActiveIds(r.assets) + {replacement} - {retired})
  {
    var live := ActiveIds(r.assets) + {replacement};
    hide RightsOk, AssignmentsOk, ParentsOk, FamilyOk, EligibleOk, ActiveIds;
    MoveKeysKeeps(r.keys, retired, replacement, moved, live);
    var m := MoveKeys(r.keys, retired, replacement, moved).value;
    AddKeysKeeps(m, replacement, added, live);
    RetireAllKeeps(AddKeys(m, replacement, added).value, retired, live);
  }

  /** The assignment rows after a replacement: untouched, or one closed and one opened on the same account. */
  lemma AssignmentsMove(r: Registry, q: Registry, retired: AssetId, replacement: AssetId, role: Role,
                        assignmentId: string)
    requires RegistryOk(r) && replacement !in r.assets && replacement in q.assets && q.assignments == r.assignments
    requires ReplacedAssignments(q, retired, replacement, role, assignmentId).1.Ok?
    ensures var current := FindAssignment(r.assignments, retired);
      var rows := r.assignments;
      ReplacedAssignments(q, retired, replacement, role, assignmentId).0 == q.(assignments :=
        if current.None? then rows
        else Close(rows, current.value) + [Assignment(assignmentId, replacement, rows[current.value].account, true)])
  {
    hide KeysOk, RightsOk, ParentsOk, FamilyOk, EligibleOk, AssignmentIdTaken, RaiseFlag;
  }

  lemma ReplacedAssignmentsKeep(r: Registry, retired: AssetId, replacement: AssetId, rows: seq<Assignment>,
                                newRow: Assignment)
    requires AssignmentsOk(r.assignments, ActiveIds(r.assets)) && replacement !in r.assets
    requires newRow.asset == replacement
    requires rows == var current := FindAssignment(r.assignments, retired);
      if current.None? then r.assignments else Close(r.assignments, current.value) + [newRow]
    ensures AssignmentsOk(rows, ActiveIds(r.assets) + {replacement} - {retired})
  {
    var current := FindAssignment(r.assignments, retired);
    forall i | 0 <= i < |rows| && rows[i].open
      ensures rows[i].asset != retired
    {
      if i < |r.assignments| {
        assert IsOpenOn(r.assignments[i], rows[i].asset);
      }
    }
  }

  /** The rights after a replacement: untouched, or one released and one opened for the same facility. */
  ghost predicate RightsMove(before: seq<Encumbrance>, after: seq<Encumbrance>, retired: AssetId, replacement: AssetId)
    {
    var held := FindFinancing(before, retired);
    if held.None? then after == before
    else
      && |after| == |before| + 1 && after[..|before|] == Release(before, held.value)
      && IsFinancing(after[|before|]) && after[|before|].asset == replacement
      && after[|before|].facility == before[held.value].facility
  }

  lemma RightsMoved(rows: seq<Encumbrance>, retired: AssetId, replacement: AssetId)
    requires ReplacedRights(rows, retired, replacement).Ok?
    ensures RightsMove(rows, ReplacedRights(rows, retired, replacement).value, retired, replacement)
  {
    hide DeriveId, EncumbranceIdTaken;
  }

  lemma ReplacedRightsKeep(r: Registry, retired: AssetId, replacement: AssetId, after: seq<Encumbrance>)
    requires RightsOk(r.encumbrances, ActiveIds(r.assets)) && replacement !in r.assets
    requires RightsMove(r.encumbrances, after, retired, replacement)
    ensures RightsOk(after, ActiveIds(r.assets) + {replacement} - {retired})
  {
    var rows := r.encumbrances;
    forall i | 0 <= i < |after| && IsFinancing(after[i])
      ensures after[i].asset in ActiveIds(r.assets) + {replacement} && after[i].asset != retired
      ensures i < |rows| ==> after[i] == rows[i]
    {
      if i < |rows| {
        assert after[i] == after[..|rows|][i];
        assert Finances(rows[i], rows[i].asset);
      }
    }
  }

  /** What follows a financed part or whole through a replacement was financed before it. */
  lemma ReplacedFamily(r: Registry, retired: AssetId, replacement: AssetId, after: seq<Encumbrance>)
    requires RightsOk(r.encumbrances, ActiveIds(r.assets)) && FamilyOk(r.encumbrances, r.assets) && ParentsOk(r.assets)
    requires retired in r.assets && replacement !in r.assets
    requires RightsMove(r.encumbrances, after, retired, replacement)
    ensures FamilyOk(after, ReplacedAssets(r.assets, retired, replacement))
  {
    hide RightsOk, FindFinancing;
    var rows, assets := r.encumbrances, ReplacedAssets(r.assets, retired, replacement);
    forall id | id in assets
      ensures assets[id].parent != Some(replacement)
    {
      assert ParentOk(r.assets, r.assets[if id == replacement then retired else id]);
    }
    forall i, k | 0 <= i < |after| && 0 <= k < |after|
      ensures SameFinancier(assets, after[i], after[k])
    {
      if i < |rows| && k < |rows| && IsFinancing(after[i]) && IsFinancing(after[k]) {
        assert after[i] == after[..|rows|][i] && after[k] == after[..|rows|][k];
        assert SameFinancier(r.assets, rows[i], rows[k]);
      }
    }
  }

  lemma ReplacedAssetsKeep(r: Registry, retired: AssetId, replacement: AssetId)
    requires RegistryOk(r) && retired in r.assets && replacement !in r.assets
    ensures ParentsOk(ReplacedAssets(r.assets, retired, replacement))
    ensures EligibleOk(ReplacedAssets(r.assets, retired, replacement), r.flags)
  {
    hide KeysOk, AssignmentsOk, RightsOk, FamilyOk;
    var assets := ReplacedAssets(r.assets, retired, replacement);
    forall id | id in assets
      ensures ParentOk(assets, assets[id])
    {
      assert ParentOk(r.assets, r.assets[if id == replacement then retired else id]);
    }
  }

  /** Everything a replacement does, in one statement: the old asset is retired and left with no active key, no open
      assignment and no financing; the new one is active and takes over the account and the financing facility. */
  ghost predicate Replaced(r: Registry, after: Registry, retired: AssetId, replacement: AssetId) {
    && retired in r.assets && after.assets == ReplacedAssets(r.assets, retired, replacement)
    && RightsMove(r.encumbrances, after.encumbrances, retired, replacement)
    && AssignmentsMoved(r.assignments, after.assignments, retired, replacement)
    && after.flags == r.flags && after.consents == r.consents
    && after.accounts == r.accounts && after.facilities == r.facilities
  }

  ghost predicate AssignmentsMoved(before: seq<Assignment>, after: seq<Assignment>, retired: AssetId,
                                   replacement: AssetId) {
    var current := FindAssignment(before, retired);
    if current.None? then after == before
    else
      var account := before[current.value].account;
      exists id :: after == Close(before, current.value) + [Assignment(id, replacement, account, true)]
  }

  lemma ReplacementShape(r: Registry, retired: AssetId, replacement: AssetId, moved: seq<Key>, added: seq<Key>,
                         role: Role,
                         assignmentId: string, carry: bool)
    requires RegistryOk(r) && ReplaceAsset(r, retired, replacement, moved, added, role, assignmentId, carry).1.Ok?
    ensures retired in r.assets && r.assets[retired].active && replacement !in r.assets
    ensures ReplacedKeys(r.keys, retired, replacement, moved, added).Ok?
    ensures var after := ReplaceAsset(r, retired, replacement, moved, added, role, assignmentId, carry).0;
      && Replaced(r, after, retired, replacement)
      && after.keys == ReplacedKeys(r.keys, retired, replacement, moved, added).value
  {
    hide RegistryOk, ReplacedKeys, ReplacedRights, ReplacedAssignments, RightsMove, Close;
    var keys := ReplacedKeys(r.keys, retired, replacement, moved, added).value;
    var q := r.(assets := ReplacedAssets(r.assets, retired, replacement), keys := keys);
    AssignmentsMove(r, q, retired, replacement, role, assignmentId);
    RightsMoved(r.encumbrances, retired, replacement);
  }

  lemma ReplacementKeeps(r: Registry, retired: AssetId, replacement: AssetId, moved: seq<Key>, added: seq<Key>,
                         role: Role,
                         assignmentId: string, carry: bool)
    requires RegistryOk(r)
    ensures RegistryOk(ReplaceAsset(r, retired, replacement, moved, added, role, assignmentId, carry).0)
  {
    var (after, result) := ReplaceAsset(r, retired, replacement, moved, added, role, assignmentId, carry);
    if result.Ok? {
      ReplacementShape(r, retired, replacement, moved, added, role, assignmentId, carry);
      ReplacedRegistryOk(r, after, retired, replacement, moved, added);
    } else {
      RefusedReplacement(r, retired, replacement, moved, added, role, assignmentId, carry);
    }
  }

  lemma RefusedReplacement(r: Registry, retired: AssetId, replacement: AssetId, moved: seq<Key>, added: seq<Key>,
                           role: Role,
                           assignmentId: string, carry: bool)
    requires ReplaceAsset(r, retired, replacement, moved, added, role, assignmentId, carry).1.Err?
    ensures ReplaceAsset(r, retired, replacement, moved, added, role, assignmentId, carry).0 == r
  {
    hide ReplacedKeys, ReplacedRights, ReplacedAssignments, ReplacedAssets;
  }

  lemma ReplacedRegistryOk(r: Registry, after: Registry, retired: AssetId, replacement: AssetId, moved: seq<Key>,
                           added: seq<Key>)
    requires RegistryOk(r) && retired in r.assets && r.assets[retired].active && replacement !in r.assets
    requires ReplacedKeys(r.keys, retired, replacement, moved, added).Ok?
    requires Replaced(r, after, retired, replacement)
    requires after.keys == ReplacedKeys(r.keys, retired, replacement, moved, added).value
    ensures RegistryOk(after)
  {
    hide KeysOk, AssignmentsOk, RightsOk, ParentsOk, FamilyOk, EligibleOk, ReplacedKeys, ReplacedAssets, ActiveIds;
    hide RightsMove, Close;
    LiveAfterReplacement(r.assets, retired, replacement);
    ReplacedKeysKeep(r, retired, replacement, moved, added);
    ReplacedAssetsKeep(r, retired, replacement);
    ReplacedRightsKeep(r, retired, replacement, after.encumbrances);
    ReplacedFamily(r, retired, replacement, after.encumbrances);
    var current := FindAssignment(r.assignments, retired);
    if current.Some? {
      var id :| after.assignments ==
        Close(r.assignments, current.value) + [Assignment(id, replacement, r.assignments[current.value].account, true)];
      ReplacedAssignmentsKeep(r, retired, replacement, after.assignments,
        Assignment(id, replacement, r.assignments[current.value].account, true));
    } else {
      ReplacedAssignmentsKeep(r, retired, replacement, after.assignments, Assignment("", replacement, "", true));
    }
  }

  // ---- every run

  lemma OperationKeeps(r: Registry, op: Op)
    requires RegistryOk(r)
    ensures RegistryOk(Apply(r, op))
  {
    hide RegistryOk, RegisterAsset, RegisterPartition, AssignProvider, EndAssignment, ChangeIdentityKey, ReplaceAsset;
    hide ReviewOwnership, ResolveFlag, DecideEligibility, AssignToFacility, ReleaseEncumbrance, RecordThirdPartyRight;
    match op
    case Registering(id, kind, unitCount, keys, role, account) =>
      RegistrationKeeps(r, id, kind, unitCount, keys, role, account);
    case Partitioning(parent, child, keys, role) => PartitionKeeps(r, parent, child, keys, role);
    case Assigning(id, account, role, assignmentId) =>
      if account.Some? {
        AssignmentKeeps(r, id, account.value, role, assignmentId);
      } else {
        EndingKeeps(r, id, role);
      }
    case Rekeying(id, scheme, oldValue, newValue, role) => RekeyKeeps(r, id, scheme, oldValue, newValue, role);
    case Replacing(retired, replacement, moved, added, role, assignmentId, carry) =>
      ReplacementKeeps(r, retired, replacement, moved, added, role, assignmentId, carry);
    case Reviewing(id, verdict, ownership, role) => ReviewKeeps(r, id, verdict, ownership, role);
    case Resolving(flag, role) => ResolvingKeeps(r, flag, role);
    case Deciding(id, candidate) => DecisionKeeps(r, id, candidate);
    case Financing(encumbranceId, id, facility, role) => FinancingKeeps(r, encumbranceId, id, facility, role);
    case Releasing(encumbranceId, role) => ReleasingKeeps(r, encumbranceId, role);
    case AttachingConsent(id, role) => ConsentKeeps(r, id, role);
    case RecordingRight(encumbranceId, id, right, role) => RecordingKeeps(r, encumbranceId, id, right, role);
  }

  lemma ConsentKeeps(r: Registry, id: AssetId, role: Role)
    requires RegistryOk(r)
    ensures RegistryOk(AttachConsent(r, id, role).0)
  {
    hide KeysOk, AssignmentsOk, RightsOk, ParentsOk, FamilyOk, EligibleOk, ActiveIds;
  }

  function Empty(accounts: set<string>, facilities: set<string>): Registry {
    Registry(map[], [], [], [], [], {}, accounts, facilities)
  }

  lemma {:induction false} RunsStayOk(r: Registry, ops: seq<Op>)
    requires RegistryOk(r)
    ensures RegistryOk(Run(r, ops))
  {
    hide RegistryOk, Apply;
    if ops != [] {
      RunsStayOk(r, ops[..|ops| - 1]);
      OperationKeeps(Run(r, ops[..|ops| - 1]), ops[|ops| - 1]);
    }
  }

  /** In every run from an empty registry: an active key names one asset, an asset has at most one open assignment and
      one financing right of its own, a retired asset has none of the three, and a partition is never financed by a
      facility other than its GPU's. Two partitions of one GPU may be: see `RegistryFinanciers`. */
  lemma KeysAssignmentsAndRightsStaySingle(accounts: set<string>, facilities: set<string>, ops: seq<Op>)
    ensures var r := Run(Empty(accounts, facilities), ops);
      && (forall i, k :: 0 <= i < k < |r.keys| && r.keys[i].active && r.keys[k].active ==>
        r.keys[i].key != r.keys[k].key)
      && AssignmentsOk(r.assignments, ActiveIds(r.assets)) && RightsOk(r.encumbrances, ActiveIds(r.assets))
      && (forall i :: 0 <= i < |r.keys| && r.keys[i].active ==>
        r.keys[i].asset in r.assets && r.assets[r.keys[i].asset].active)
      && FamilyOk(r.encumbrances, r.assets)
      && EligibleOk(r.assets, r.flags)
  {
    assert RegistryOk(Empty(accounts, facilities));
    RunsStayOk(Empty(accounts, facilities), ops);
  }
}
