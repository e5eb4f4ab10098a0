/** What each registry call does to the keys, assignments and rights of every asset, the ones it does not name
    included. */
module RegistryEffects {
  import opened Results
  import opened Registry
  import opened RegistryRuns

  ghost function KeysOf(rows: seq<KeyRow>, asset: AssetId): set<Key> {
    set i | 0 <= i < |rows| && rows[i].active && rows[i].asset == asset :: rows[i].key
  }

  ghost function SetOf(keys: seq<Key>): set<Key> {
    set i | 0 <= i < |keys| :: keys[i]
  }

  // ---- key rows

  lemma KeyRowAdded(rows: seq<KeyRow>, row: KeyRow, asset: AssetId)
    requires row.active
    ensures KeysOf(rows + [row], asset) == KeysOf(rows, asset) + if row.asset == asset then {row.key} else {}
  {
    var more := rows + [row];
    forall k | k in KeysOf(rows, asset)
      ensures k in KeysOf(more, asset)
    {
      var i :| 0 <= i < |rows| && rows[i].active && rows[i].asset == asset && rows[i].key == k;
      assert more[i] == rows[i];
    }
    assert more[|rows|] == row;
  }

  lemma KeyRowRetired(rows: seq<KeyRow>, i: nat, asset: AssetId, live: set<AssetId>)
    requires KeysOk(rows, live) && i < |rows| && rows[i].active
    ensures KeysOf(Retire(rows, i), asset) == KeysOf(rows, asset) - if rows[i].asset == asset then {rows[i].key} else {}
  {
    var fewer := Retire(rows, i);
    forall k | k in KeysOf(rows, asset) && !(rows[i].asset == asset && rows[i].key == k)
      ensures k in KeysOf(fewer, asset)
    {
      var j :| 0 <= j < |rows| && rows[j].active && rows[j].asset == asset && rows[j].key == k;
      assert fewer[j] == rows[j];
    }
    forall k | k in KeysOf(fewer, asset)
      ensures k in KeysOf(rows, asset) && !(rows[i].asset == asset && rows[i].key == k)
    {
      var j :| 0 <= j < |fewer| && fewer[j].active && fewer[j].asset == asset && fewer[j].key == k;
      assert fewer[j] == rows[j] && j != i;
    }
  }

  lemma {:induction false} KeysAdded(rows: seq<KeyRow>, target: AssetId, keys: seq<Key>, asset: AssetId)
    requires AddKeys(rows, target, keys).Ok?
    ensures KeysOf(AddKeys(rows, target, keys).value, asset)
      == KeysOf(rows, asset) + if target == asset then SetOf(keys) else {}
    decreases |keys|
  {
    hide KeysOf;
    if keys != [] {
      var row := KeyRow(target, keys[0], true);
      KeysAdded(rows + [row], target, keys[1..], asset);
      KeyRowAdded(rows, row, asset);
      assert SetOf(keys) == {keys[0]} + SetOf(keys[1..]);
    }
  }

  lemma {:induction false} KeysMoved(rows: seq<KeyRow>, retired: AssetId, replacement: AssetId, keys: seq<Key>,
                                     asset: AssetId,
                                     live: set<AssetId>)
    requires KeysOk(rows, live) && replacement in live && retired != replacement
    requires MoveKeys(rows, retired, replacement, keys).Ok?
    ensures SetOf(keys) <= KeysOf(rows, retired)
    ensures KeysOf(MoveKeys(rows, retired, replacement, keys).value, asset) ==
      if asset == retired then KeysOf(rows, asset) - SetOf(keys)
      else if asset == replacement then KeysOf(rows, asset) + SetOf(keys)
      else KeysOf(rows, asset)
    decreases |keys|
  {
    if keys != [] {
      var i := FindKeyOn(rows, retired, keys[0]).value;
      var row := KeyRow(replacement, keys[0], true);
      var next := Retire(rows, i) + [row];
      OneKeyMoved(rows, retired, replacement, keys[0], live);
      assert keys[0] in KeysOf(rows, retired);
      hide KeysOf, KeysOk, Retire;
      KeysMoved(next, retired, replacement, keys[1..], asset, live);
      KeyRowRetired(rows, i, asset, live);
      KeyRowRetired(rows, i, retired, live);
      KeyRowAdded(Retire(rows, i), row, asset);
      KeyRowAdded(Retire(rows, i), row, retired);
      assert SetOf(keys) == {keys[0]} + SetOf(keys[1..]);
    }
  }

  lemma OneKeyMoved(rows: seq<KeyRow>, retired: AssetId, replacement: AssetId, key: Key, live: set<AssetId>)
    requires KeysOk(rows, live) && replacement in live && FindKeyOn(rows, retired, key).Some?
    ensures KeysOk(Retire(rows, FindKeyOn(rows, retired, key).value) + [KeyRow(replacement, key, true)], live)
  {
  }

  lemma KeysRetired(rows: seq<KeyRow>, target: AssetId, asset: AssetId)
    ensures KeysOf(RetireAll(rows, target), asset) == if asset == target then {} else KeysOf(rows, asset)
  {
    var after := RetireAll(rows, target);
    if asset != target {
      forall k | k in KeysOf(rows, asset)
        ensures k in KeysOf(after, asset)
      {
        var i :| 0 <= i < |rows| && rows[i].active && rows[i].asset == asset && rows[i].key == k;
        assert after[i] == rows[i];
      }
    }
  }

  lemma NewAssetHasNoKeys(r: Registry, id: AssetId)
    requires RegistryOk(r) && id !in r.assets
    ensures KeysOf(r.keys, id) == {}
  {
  }

  // ---- calls

  /** After a replacement the new asset carries exactly the moved and the new keys, all moved keys having been the old
      one's; the old one carries none; and every other asset carries what it did. */
  lemma ReplacementMovesKeys(r: Registry, retired: AssetId, replacement: AssetId, moved: seq<Key>, added: seq<Key>,
                             role: Role,
                             assignmentId: string, carry: bool, asset: AssetId)
    requires RegistryOk(r) && ReplaceAsset(r, retired, replacement, moved, added, role, assignmentId, carry).1.Ok?
    ensures SetOf(moved) <= KeysOf(r.keys, retired)
    ensures KeysOf(ReplaceAsset(r, retired, replacement, moved, added, role, assignmentId, carry).0.keys, asset) ==
      if asset == replacement then SetOf(moved) + SetOf(added)
      else if asset == retired then {}
      else KeysOf(r.keys, asset)
  {
    ReplacementShape(r, retired, replacement, moved, added, role, assignmentId, carry);
    NewAssetHasNoKeys(r, replacement);
    var live := ActiveIds(r.assets) + {replacement};
    assert KeysOk(r.keys, live);
    hide RegistryOk, ReplaceAsset, KeysOf, SetOf, Replaced, KeysOk;
    var m := MoveKeys(r.keys, retired, replacement, moved).value;
    var a := AddKeys(m, replacement, added).value;
    KeysMoved(r.keys, retired, replacement, moved, asset, live);
    KeysAdded(m, replacement, added, asset);
    KeysRetired(a, retired, asset);
  }

  /** The new asset is live where the old one was and financed by the facility that financed it, and only then; the old
      one is neither. */
  lemma ReplacementMovesRights(r: Registry, retired: AssetId, replacement: AssetId, moved: seq<Key>, added: seq<Key>,
                               role: Role,
                               assignmentId: string, carry: bool)
    requires RegistryOk(r) && ReplaceAsset(r, retired, replacement, moved, added, role, assignmentId, carry).1.Ok?
    ensures var after := ReplaceAsset(r, retired, replacement, moved, added, role, assignmentId, carry).0;
      && LiveOn(after.assignments, replacement) == LiveOn(r.assignments, retired)
        && LiveOn(after.assignments, retired) == None
      && FinancedBy(after.encumbrances, replacement) == FinancedBy(r.encumbrances, retired)
      && FinancedBy(after.encumbrances, retired) == None
      && KindHeld(after.encumbrances, replacement) == KindHeld(r.encumbrances, retired)
  {
    ReplacementShape(r, retired, replacement, moved, added, role, assignmentId, carry);
    ReplacementKeeps(r, retired, replacement, moved, added, role, assignmentId, carry);
    hide ReplaceAsset, ParentsOk, FamilyOk, EligibleOk, KeysOk, ReplacedKeys;
    var after := ReplaceAsset(r, retired, replacement, moved, added, role, assignmentId, carry).0;
    NotLiveAnywhere(r, replacement);
    NotLiveAnywhere(after, retired);
    LastRowFound(after.assignments, replacement);
    LastRightFound(after.encumbrances, replacement);
  }

  function LiveOn(rows: seq<Assignment>, asset: AssetId): Option<string> {
    var found := FindAssignment(rows, asset);
    if found.None? then None else Some(rows[found.value].account)
  }

  function FinancedBy(rows: seq<Encumbrance>, asset: AssetId): Option<string> {
    var found := FindFinancing(rows, asset);
    if found.None? then None else rows[found.value].facility
  }

  function KindHeld(rows: seq<Encumbrance>, asset: AssetId): Option<RightKind> {
    var found := FindFinancing(rows, asset);
    if found.None? then None else Some(rows[found.value].kind)
  }

  lemma NotLiveAnywhere(r: Registry, id: AssetId)
    requires RegistryOk(r) && id !in ActiveIds(r.assets)
    ensures FindAssignment(r.assignments, id).None? && FindFinancing(r.encumbrances, id).None?
  {
    hide KeysOk, ParentsOk, FamilyOk, EligibleOk, ActiveIds;
    assert forall i :: 0 <= i < |r.assignments| && r.assignments[i].open ==>
      r.assignments[i].asset in ActiveIds(r.assets);
    assert forall i :: 0 <= i < |r.encumbrances| && IsFinancing(r.encumbrances[i]) ==>
        r.encumbrances[i].asset in ActiveIds(r.assets);
  }

  lemma LastRowFound(rows: seq<Assignment>, asset: AssetId)
    ensures rows != [] && IsOpenOn(rows[|rows| - 1], asset) ==> FindAssignment(rows, asset) == Some(|rows| - 1)
  {
  }

  lemma LastRightFound(rows: seq<Encumbrance>, asset: AssetId)
    ensures rows != [] && Finances(rows[|rows| - 1], asset) ==> FindFinancing(rows, asset) == Some(|rows| - 1)
  {
  }

  /** A registered asset is there as described, with its keys and, if one was given, live on the account; nobody else's
      keys or assignments change. */
  lemma RegistrationAddsTheAsset(r: Registry, id: AssetId, kind: AssetKind, unitCount: int, keys: seq<Key>, role: Role,
                                 account: Option<string>, asset: AssetId)
    requires RegistryOk(r) && RegisterAsset(r, id, kind, unitCount, keys, role, account).1 == Ok(Created)
    ensures var after := RegisterAsset(r, id, kind, unitCount, keys, role, account).0;
      && id !in r.assets
      && after.assets == r.assets[id := Asset(kind, unitCount, true, UnknownOwner, Unverified, None, None, false)]
      && KeysOf(after.keys, asset) == (if asset == id then SetOf(keys) else KeysOf(r.keys, asset))
      && LiveOn(after.assignments, asset) == (if asset == id then account else LiveOn(r.assignments, asset))
      && after.encumbrances == r.encumbrances
  {
    hide KeysOf, SetOf, RegistryOk, DeriveId, AssignProvider, LiveOn, FirstTaken, AddKeys;
    KeysAdded(r.keys, id, keys, asset);
    NewAssetHasNoKeys(r, id);
    NewAssetIsNotLive(r, id);
    var created := r.(assets :=
      r.assets[id := Asset(kind, unitCount, true, UnknownOwner, Unverified, None, None, false)],
                      keys := AddKeys(r.keys, id, keys).value);
    if account.Some? {
      NewAssetGoesLive(created, id, account.value, role, DeriveId(id, AssignmentTag), asset);
    }
  }

  lemma NewAssetIsNotLive(r: Registry, id: AssetId)
    requires RegistryOk(r) && id !in r.assets
    ensures FindAssignment(r.assignments, id).None? && LiveOn(r.assignments, id) == None
  {
    NotLiveAnywhere(r, id);
  }

  lemma NewAssetGoesLive(r: Registry, id: AssetId, account: string, role: Role, assignmentId: string, asset: AssetId)
    requires FindAssignment(r.assignments, id).None? && AssignProvider(r, id, account, role, assignmentId).1.Ok?
    ensures var after := AssignProvider(r, id, account, role, assignmentId).0;
      && after == r.(assignments := after.assignments)
      && LiveOn(after.assignments, asset) == if asset == id then Some(account) else LiveOn(r.assignments, asset)
  {
    hide AssignmentIdTaken;
    var after := AssignProvider(r, id, account, role, assignmentId).0;
    assert after.assignments[..|r.assignments|] == r.assignments;
  }

  /** A partition belongs to its GPU, with its owner and its own keys. */
  lemma PartitionJoinsItsGpu(r: Registry, parent: AssetId, child: AssetId, keys: seq<Key>, role: Role, asset: AssetId)
    requires RegistryOk(r) && RegisterPartition(r, parent, child, keys, role).1.Ok?
    ensures var after := RegisterPartition(r, parent, child, keys, role).0;
      && parent in r.assets && child !in r.assets
      && after.assets == r.assets[child :=
        Asset(MigPartition, 1, true, r.assets[parent].ownership, Unverified, Some(parent), None, false)]
      && KeysOf(after.keys, asset) == (if asset == child then SetOf(keys) else KeysOf(r.keys, asset))
      && after.assignments == r.assignments && after.encumbrances == r.encumbrances
  {
    hide KeysOf, SetOf, AssignmentsOk, RightsOk, ParentsOk, FamilyOk, EligibleOk, KeysOk;
    KeysAdded(r.keys, child, keys, asset);
    NewAssetHasNoKeys(r, child);
  }

  function OldKeys(scheme: string, oldValue: Option<string>): set<Key> {
    if oldValue.Some? then {Key(scheme, oldValue.value)} else {}
  }

  /** A changed key takes the old one's place on its asset and touches no other asset. */
  lemma RekeyingSwapsOneKey(r: Registry, id: AssetId, scheme: string, oldValue: Option<string>, newValue: string,
                            role: Role, asset: AssetId)
    requires RegistryOk(r) && ChangeIdentityKey(r, id, scheme, oldValue, newValue, role).1.Ok?
    ensures var after := ChangeIdentityKey(r, id, scheme, oldValue, newValue, role).0;
      && (oldValue.Some? ==> Key(scheme, oldValue.value) in KeysOf(r.keys, id))
      && KeysOf(after.keys, asset) ==
           (if asset != id then KeysOf(r.keys, asset)
            else KeysOf(r.keys, id) - OldKeys(scheme, oldValue) + {Key(scheme, newValue)})
  {
    hide AssignmentsOk, RightsOk, ParentsOk, FamilyOk, EligibleOk;
    var row := KeyRow(id, Key(scheme, newValue), true);
    if oldValue.Some? {
      var i := FindKeyOn(r.keys, id, Key(scheme, oldValue.value)).value;
      assert r.keys[i].key in KeysOf(r.keys, id);
      KeyRowRetired(r.keys, i, asset, ActiveIds(r.assets));
      KeyRowAdded(Retire(r.keys, i), row, asset);
    } else {
      KeyRowAdded(r.keys, row, asset);
    }
  }
}
