/** When each registry call is accepted and what it then records, read off the tables. */
module RegistryCalls {
  import opened Results
  import opened Registry
  import opened RegistryRuns
  import opened RegistryEffects

  // ---- roles

  /** Operators and the system register; underwriters review, resolve, finance and release; nobody else changes a thing.
      (Deciding eligibility is open to every role.) */
  lemma RolesAreChecked(r: Registry, op: Op)
    requires !op.Deciding? && Apply(r, op) != r
    ensures op.Registering? || op.Partitioning? || op.Assigning? || op.Rekeying? || op.Replacing? ==>
      op.role == Operator || op.role == System
    ensures op.Reviewing? || op.Resolving? || op.Financing? || op.Releasing? || op.RecordingRight? ==>
      op.role == Underwriter
    ensures op.AttachingConsent? ==> op.role == Operator || op.role == System || op.role == Underwriter
  {
    hide FirstTaken, AddKeys, ReplacedKeys, ReplacedAssignments, ReplacedRights, FindAssignment, FindFinancing;
    hide FindEncumbrance, Eligible, FindKey, FindKeyOn, RaiseFlag, EncumbranceIdTaken, AssignmentIdTaken;
  }

  // ---- identity keys

  /** No asset carries any of these keys. */
  ghost predicate NoneActive(rows: seq<KeyRow>, keys: seq<Key>) {
    forall i, k :: 0 <= i < |rows| && 0 <= k < |keys| && rows[i].active ==> rows[i].key != keys[k]
  }

  predicate AllDifferent(keys: seq<Key>) {
    forall i, k :: 0 <= i < k < |keys| ==> keys[i] != keys[k]
  }

  /** Keys can be added exactly when they differ from each other and no asset carries one. */
  lemma {:induction false} KeysCanBeAdded(rows: seq<KeyRow>, asset: AssetId, keys: seq<Key>)
    ensures AddKeys(rows, asset, keys).Ok? <==> NoneActive(rows, keys) && AllDifferent(keys)
    decreases |keys|
  {
    if keys != [] {
      var more, rest := rows + [KeyRow(asset, keys[0], true)], keys[1..];
      if FindKey(rows, keys[0]).None? {
        KeysCanBeAdded(more, asset, rest);
        if NoneActive(rows, keys) && AllDifferent(keys) {
          forall i, k | 0 <= i < |more| && 0 <= k < |rest| && more[i].active
            ensures more[i].key != rest[k]
          {
            assert rest[k] == keys[k + 1];
          }
          assert forall i, k :: 0 <= i < k < |rest| ==> rest[i] == keys[i + 1] && rest[k] == keys[k + 1];
        }
        if NoneActive(more, rest) && AllDifferent(rest) {
          assert more[|rows|] == KeyRow(asset, keys[0], true);
          forall i, k | 0 <= i < |rows| && 0 <= k < |keys| && rows[i].active
            ensures rows[i].key != keys[k]
          {
            assert more[i] == rows[i];
            assert k > 0 ==> keys[k] == rest[k - 1];
          }
          forall i, k | 0 <= i < k < |keys|
            ensures keys[i] != keys[k]
          {
            assert keys[k] == rest[k - 1] && (i > 0 ==> keys[i] == rest[i - 1]);
          }
        }
      } else {
        var i := FindKey(rows, keys[0]).value;
        assert rows[i].active && rows[i].key == keys[0];
      }
    }
  }

  /** A partition is created exactly under an active physical GPU, under a new id and keys nobody carries. */
  lemma PartitionedExactly(r: Registry, parent: AssetId, child: AssetId, keys: seq<Key>, role: Role)
    ensures RegisterPartition(r, parent, child, keys, role).1.Ok? <==>
      && (role == Operator || role == System)
      && parent in r.assets && r.assets[parent].kind == PhysicalGpu && r.assets[parent].active
      && child !in r.assets && NoneActive(r.keys, keys) && AllDifferent(keys)
    ensures RegisterPartition(r, parent, child, keys, role).1.Err? ==>
      RegisterPartition(r, parent, child, keys, role).0 == r
  {
    hide AddKeys, NoneActive, AllDifferent;
    KeysCanBeAdded(r.keys, child, keys);
  }

  /** An asset is created exactly with at least one key, none of them carried or repeated, under a new id, with units,
      and on a known account if one is given. */
  lemma CreatedExactly(r: Registry, id: AssetId, kind: AssetKind, unitCount: int, keys: seq<Key>, role: Role,
                       account: Option<string>)
    requires RegistryOk(r)
    ensures RegisterAsset(r, id, kind, unitCount, keys, role, account).1 == Ok(Created) <==>
      && (role == Operator || role == System)
      && keys != [] && NoneActive(r.keys, keys) && AllDifferent(keys) && id !in r.assets && unitCount > 0
      && (account.Some? ==>
            account.value in r.accounts && !AssignmentIdTaken(r.assignments, DeriveId(id, AssignmentTag)))
    ensures RegisterAsset(r, id, kind, unitCount, keys, role, account).1.Err? ==>
      RegisterAsset(r, id, kind, unitCount, keys, role, account).0 == r
  {
    hide AddKeys, NoneActive, AllDifferent, FirstTaken, RegistryOk, AssignProvider, AssignmentIdTaken, DeriveId;
    KeysCanBeAdded(r.keys, id, keys);
    TakenMeansActive(r.keys, keys);
    if id !in r.assets && AddKeys(r.keys, id, keys).Ok? && account.Some? {
      NewAssetIsNotLive(r, id);
      var asset := Asset(kind, unitCount, true, UnknownOwner, Unverified, None, None, false);
      var created := r.(assets := r.assets[id := asset], keys := AddKeys(r.keys, id, keys).value);
      AssignedToNobodyYet(created, id, account.value, role, DeriveId(id, AssignmentTag));
    }
  }

  lemma TakenMeansActive(rows: seq<KeyRow>, keys: seq<Key>)
    ensures FirstTaken(rows, keys).None? <==> NoneActive(rows, keys)
  {
    var found := FirstTaken(rows, keys);
    if found.Some? {
      var k :| 0 <= k < |keys| && keys[k] == rows[found.value].key;
    }
  }

  lemma AssignedToNobodyYet(r: Registry, id: AssetId, account: string, role: Role, assignmentId: string)
    requires id in r.assets && r.assets[id].active && FindAssignment(r.assignments, id).None?
    ensures AssignProvider(r, id, account, role, assignmentId).1.Ok? <==>
      (role == Operator || role == System) && account in r.accounts && !AssignmentIdTaken(r.assignments, assignmentId)
  {
    hide AssignmentIdTaken;
  }

  /** A key is changed exactly on an active asset that carries the old one, to one that nobody carries besides. */
  lemma RekeyedExactly(r: Registry, id: AssetId, scheme: string, oldValue: Option<string>, newValue: string, role: Role)
    requires RegistryOk(r)
    ensures ChangeIdentityKey(r, id, scheme, oldValue, newValue, role).1.Ok? <==>
      && (role == Operator || role == System) && id in r.assets && r.assets[id].active
      && (oldValue.Some? ==> Key(scheme, oldValue.value) in KeysOf(r.keys, id))
      && (oldValue == Some(newValue) || NoneActive(r.keys, [Key(scheme, newValue)]))
    ensures ChangeIdentityKey(r, id, scheme, oldValue, newValue, role).1.Err? ==>
      ChangeIdentityKey(r, id, scheme, oldValue, newValue, role).0 == r
  {
    hide AssignmentsOk, RightsOk, ParentsOk, FamilyOk, EligibleOk;
    var wanted := Key(scheme, newValue);
    assert NoneActive(r.keys, [wanted]) <==> FindKey(r.keys, wanted).None? by { OneKeyActive(r.keys, wanted); }
    if oldValue.Some? {
      var key := Key(scheme, oldValue.value);
      CarriedKeyIsFound(r.keys, id, key);
      var found := FindKeyOn(r.keys, id, key);
      if found.Some? {
        RetiredKeyIsFree(r.keys, found.value, wanted, ActiveIds(r.assets));
      }
    }
    hide RegistryOk, KeysOf, NoneActive, FindKey, FindKeyOn;
  }

  lemma OneKeyActive(rows: seq<KeyRow>, key: Key)
    ensures NoneActive(rows, [key]) <==> FindKey(rows, key).None?
  {
    var found := FindKey(rows, key);
    if found.Some? {
      assert rows[found.value].active && rows[found.value].key == [key][0];
    }
  }

  lemma CarriedKeyIsFound(rows: seq<KeyRow>, id: AssetId, key: Key)
    ensures FindKeyOn(rows, id, key).Some? <==> key in KeysOf(rows, id)
  {
    var found := FindKeyOn(rows, id, key);
    if found.Some? {
      assert rows[found.value].key in KeysOf(rows, id);
    }
  }

  /** Retiring a row frees its own key and no other. */
  lemma RetiredKeyIsFree(rows: seq<KeyRow>, i: nat, wanted: Key, live: set<AssetId>)
    requires KeysOk(rows, live) && i < |rows| && rows[i].active
    ensures FindKey(Retire(rows, i), wanted).None? <==> wanted == rows[i].key || FindKey(rows, wanted).None?
  {
    var fewer := Retire(rows, i);
    var before, after := FindKey(rows, wanted), FindKey(fewer, wanted);
    if after.Some? {
      assert rows[after.value].active && rows[after.value].key == wanted && after.value != i;
    }
    assert forall k :: 0 <= k < |rows| && k != i ==> fewer[k] == rows[k];
  }

  // ---- assignments

  /** An asset goes live exactly when it is active, known to be nowhere else, and the account exists; it is then live
      there, and nothing else changes. */
  lemma AssignedExactly(r: Registry, id: AssetId, account: string, role: Role, assignmentId: string, other: AssetId)
    ensures var (after, result) := AssignProvider(r, id, account, role, assignmentId);
      && (result == Ok(Assigned) <==>
        && (role == Operator || role == System)
        && id in r.assets && r.assets[id].active && account in r.accounts
        && LiveOn(r.assignments, id) == None && !AssignmentIdTaken(r.assignments, assignmentId))
      && (result == Ok(Assigned) ==>
        && after == r.(assignments := after.assignments)
        && LiveOn(after.assignments, other) == if other == id then Some(account) else LiveOn(r.assignments, other))
  {
    hide AssignmentIdTaken, RaiseFlag;
    if AssignProvider(r, id, account, role, assignmentId).1 == Ok(Assigned) {
      NewAssetGoesLive(r, id, account, role, assignmentId, other);
    }
  }

  /** An asset live on another account is not moved: it is flagged as listed twice and loses its eligibility. */
  lemma LiveElsewhereIsFlagged(r: Registry, id: AssetId, account: string, role: Role, assignmentId: string)
    ensures var (after, result) := AssignProvider(r, id, account, role, assignmentId);
      && (result == Ok(FlaggedDuplicate) <==>
        && (role == Operator || role == System)
        && id in r.assets && r.assets[id].active && account in r.accounts
        && LiveOn(r.assignments, id).Some? && LiveOn(r.assignments, id) != Some(account))
      && (result == Ok(FlaggedDuplicate) ==>
        && !after.assets[id].eligible && after.flags == r.flags + [Flag(id, DuplicateListing, true)]
        && after == r.(assets := r.assets[id := r.assets[id].(eligible := false)], flags := after.flags))
      && (result.Err? ==> after == r)
  {
    hide AssignmentIdTaken;
  }

  /** An assignment ends exactly when there is one, and only that one. */
  lemma EndedExactly(r: Registry, id: AssetId, role: Role, other: AssetId)
    requires RegistryOk(r)
    ensures var (after, result) := EndAssignment(r, id, role);
      && (result.Ok? <==> (role == Operator || role == System) && LiveOn(r.assignments, id).Some?)
      && (result.Err? ==> after == r)
      && (result.Ok? ==>
        && after == r.(assignments := after.assignments)
        && LiveOn(after.assignments, other) == if other == id then None else LiveOn(r.assignments, other))
  {
    hide KeysOk, RightsOk, ParentsOk, FamilyOk, EligibleOk;
    var current := FindAssignment(r.assignments, id);
    if current.Some? {
      ClosedRow(r.assignments, current.value, other, ActiveIds(r.assets));
    }
  }

  lemma ClosedRow(rows: seq<Assignment>, i: nat, other: AssetId, live: set<AssetId>)
    requires AssignmentsOk(rows, live) && i < |rows| && rows[i].open
    ensures LiveOn(Close(rows, i), other) == if other == rows[i].asset then None else LiveOn(rows, other)
  {
    var closed := Close(rows, i);
    var before, after := FindAssignment(rows, other), FindAssignment(closed, other);
    if after.Some? {
      assert IsOpenOn(rows[after.value], other) && after.value != i;
    }
    if before.Some? && other != rows[i].asset {
      assert IsOpenOn(closed[before.value], other);
    }
  }

  // ---- reviews and flags

  /** An open flag is closed by an underwriter; closing it gives nothing back. */
  lemma FlagIsResolved(r: Registry, flag: nat, role: Role)
    ensures var (after, result) := ResolveFlag(r, flag, role);
      && (result.Ok? <==> role == Underwriter && flag < |r.flags| && r.flags[flag].open)
      && (result.Err? ==> after == r)
      && (result.Ok? ==>
        && |after.flags| == |r.flags| && !after.flags[flag].open && after.flags[flag].asset == r.flags[flag].asset
        && (forall i :: 0 <= i < |r.flags| && i != flag ==> after.flags[i] == r.flags[i])
        && after == r.(flags := after.flags))
  {
  }

  /** An accepted review records verdict and ownership on the asset, and nothing else anywhere. */
  lemma ReviewIsRecorded(r: Registry, id: AssetId, verdict: Review, ownership: Ownership, role: Role)
    ensures var (after, result) := ReviewOwnership(r, id, verdict, ownership, role);
      && (result.Err? ==> after == r)
      && (result.Ok? ==>
        && role == Underwriter && id in r.assets && verdict != Unverified
        && !(verdict == Verified && ownership == UnknownOwner)
        && after.assets[id].review == verdict && after.assets[id].ownership == ownership
        && after == r.(assets := r.assets[id := after.assets[id]])
        && after.assets[id] == r.assets[id].(review := verdict, ownership := ownership))
  {
  }

  /** A consent document is on file from then on; it decides nothing. */
  lemma ConsentIsRecorded(r: Registry, id: AssetId, role: Role)
    ensures var (after, result) := AttachConsent(r, id, role);
      && (result.Ok? <==> id in r.assets && (role == Operator || role == System || role == Underwriter))
      && (result.Err? ==> after == r)
      && (result.Ok? ==> after == r.(consents := r.consents + {id}))
  {
  }

  /** A third party's right is recorded as given, open, and the asset flagged for it. */
  lemma RightIsRecorded(r: Registry, encumbranceId: string, id: AssetId, kind: RightKind, role: Role)
    ensures var (after, result) := RecordThirdPartyRight(r, encumbranceId, id, kind, role);
      && (result.Ok? <==>
        && role == Underwriter && id in r.assets
        && forall i :: 0 <= i < |r.encumbrances| ==> r.encumbrances[i].id != encumbranceId)
      && (result.Err? ==> after == r)
      && (result.Ok? ==>
        && after.encumbrances == r.encumbrances + [Encumbrance(encumbranceId, id, kind, None, true)]
        && !after.assets[id].eligible && |after.flags| == |r.flags| + 1
        && after.flags[|r.flags|].asset == id && after.flags[|r.flags|].open
        && (after.flags[|r.flags|].kind == LeaseUnverified <==> kind == Lease))
  {
  }

  /** A release closes one open right, the one named, and nothing else. */
  lemma RightIsReleased(r: Registry, encumbranceId: string, role: Role)
    ensures var (after, result) := ReleaseEncumbrance(r, encumbranceId, role);
      && (result.Err? ==> after == r)
      && (result.Ok? ==> role == Underwriter && exists i :: ReleasedAt(r, after, encumbranceId, i))
    ensures (forall i, k :: 0 <= i < k < |r.encumbrances| ==> r.encumbrances[i].id != r.encumbrances[k].id) ==>
      (ReleaseEncumbrance(r, encumbranceId, role).1.Ok? <==>
        && role == Underwriter
        && exists i :: 0 <= i < |r.encumbrances| && r.encumbrances[i].id == encumbranceId && r.encumbrances[i].open)
  {
    var found := FindEncumbrance(r.encumbrances, encumbranceId);
    if ReleaseEncumbrance(r, encumbranceId, role).1.Ok? {
      assert ReleasedAt(r, ReleaseEncumbrance(r, encumbranceId, role).0, encumbranceId, found.value);
    }
  }

  predicate ReleasedAt(r: Registry, after: Registry, encumbranceId: string, i: int) {
    && 0 <= i < |r.encumbrances| && r.encumbrances[i].id == encumbranceId && r.encumbrances[i].open
    && after == r.(encumbrances := r.encumbrances[i := r.encumbrances[i].(open := false)])
  }

  // ---- replacement

  /** Ids of 26 characters derived under one tag differ exactly when the assets' ids differ before the tag. */
  lemma DerivedIdsTellAssetsApart(a: AssetId, b: AssetId, tag: string)
    requires |a| == |b| == 26 && |tag| <= 26
    ensures |DeriveId(a, tag)| == 26 && DeriveId(a, tag)[26 - |tag|..] == tag
    ensures DeriveId(a, tag) == DeriveId(b, tag) <==> a[..26 - |tag|] == b[..26 - |tag|]
  {
    var kept := 26 - |tag|;
    assert DeriveId(a, tag)[..kept] == a[..kept] && DeriveId(b, tag)[..kept] == b[..kept];
  }

  /** Keys can be moved exactly when they differ from each other and the old asset carries them all. */
  lemma {:induction false} KeysCanBeMoved(rows: seq<KeyRow>, retired: AssetId, replacement: AssetId, keys: seq<Key>,
                                          live: set<AssetId>)
    requires KeysOk(rows, live) && replacement in live && retired != replacement
    ensures MoveKeys(rows, retired, replacement, keys).Ok? <==>
      SetOf(keys) <= KeysOf(rows, retired) && AllDifferent(keys)
    decreases |keys|
  {
    if keys != [] {
      CarriedKeyIsFound(rows, retired, keys[0]);
      var found, rest, row := FindKeyOn(rows, retired, keys[0]), keys[1..], KeyRow(replacement, keys[0], true);
      FirstOfMany(keys);
      if found.Some? {
        var next := Retire(rows, found.value) + [row];
        OneKeyMoved(rows, retired, replacement, keys[0], live);
        KeyRowRetired(rows, found.value, retired, live);
        KeyRowAdded(Retire(rows, found.value), row, retired);
        hide KeysOf, KeysOk, Retire, SetOf, AllDifferent;
        KeysCanBeMoved(next, retired, replacement, rest, live);
        assert KeysOf(next, retired) == KeysOf(rows, retired) - {keys[0]};
      }
    }
  }

  lemma FirstOfMany(keys: seq<Key>)
    requires keys != []
    ensures SetOf(keys) == {keys[0]} + SetOf(keys[1..])
    ensures AllDifferent(keys) <==> keys[0] !in SetOf(keys[1..]) && AllDifferent(keys[1..])
  {
    var rest := keys[1..];
    assert forall i :: 0 <= i < |rest| ==> rest[i] == keys[i + 1];
    assert forall i :: 0 < i < |keys| ==> keys[i] == rest[i - 1];
  }

  /** A key that moves is still carried, and no other is carried that was not before. */
  lemma {:induction false} MovingFreesNoKey(rows: seq<KeyRow>, retired: AssetId, replacement: AssetId, keys: seq<Key>,
                                            wanted: seq<Key>)
    requires MoveKeys(rows, retired, replacement, keys).Ok?
    ensures NoneActive(MoveKeys(rows, retired, replacement, keys).value, wanted) <==> NoneActive(rows, wanted)
    decreases |keys|
  {
    if keys != [] {
      var i := FindKeyOn(rows, retired, keys[0]).value;
      OneMoveFreesNoKey(rows, i, replacement, wanted);
      hide NoneActive;
      MovingFreesNoKey(Retire(rows, i) + [KeyRow(replacement, keys[0], true)], retired, replacement, keys[1..], wanted);
    }
  }

  lemma OneMoveFreesNoKey(rows: seq<KeyRow>, i: nat, replacement: AssetId, wanted: seq<Key>)
    requires i < |rows| && rows[i].active
    ensures NoneActive(Retire(rows, i) + [KeyRow(replacement, rows[i].key, true)], wanted) <==> NoneActive(rows, wanted)
  {
    var next := Retire(rows, i) + [KeyRow(replacement, rows[i].key, true)];
    assert next[|rows|].key == rows[i].key && next[|rows|].active;
    assert forall k :: 0 <= k < |rows| && k != i ==> next[k] == rows[k];
  }

  lemma ReplacedKeysExactly(rows: seq<KeyRow>, retired: AssetId, replacement: AssetId, moved: seq<Key>, added: seq<Key>,
                            live: set<AssetId>)
    requires KeysOk(rows, live) && replacement in live && retired != replacement
    ensures ReplacedKeys(rows, retired, replacement, moved, added).Ok? <==>
      && SetOf(moved) <= KeysOf(rows, retired) && AllDifferent(moved)
      && NoneActive(rows, added) && AllDifferent(added)
  {
    hide KeysOk, KeysOf, SetOf, AllDifferent, NoneActive, MoveKeys, AddKeys, RetireAll;
    KeysCanBeMoved(rows, retired, replacement, moved, live);
    var m := MoveKeys(rows, retired, replacement, moved);
    if m.Ok? {
      MovingFreesNoKey(rows, retired, replacement, moved, added);
      KeysCanBeAdded(m.value, replacement, added);
    }
  }

  lemma ReplacedAssignmentsExactly(r: Registry, q: Registry, retired: AssetId, replacement: AssetId, role: Role,
                                   assignmentId: string)
    requires RegistryOk(r) && replacement !in r.assets && MayRegister(role)
    requires q.assignments == r.assignments && q.accounts == r.accounts
    requires replacement in q.assets && q.assets[replacement].active
    ensures ReplacedAssignments(q, retired, replacement, role, assignmentId).1.Ok? <==>
      (LiveOn(r.assignments, retired).Some? ==>
         && LiveOn(r.assignments, retired).value in r.accounts
         && !AssignmentIdTaken(r.assignments, assignmentId))
  {
    NotLiveAnywhere(r, replacement);
    hide RegistryOk, RaiseFlag;
    var current := FindAssignment(r.assignments, retired);
    if current.Some? {
      var closed := Close(r.assignments, current.value);
      assert FindAssignment(closed, replacement).None? by {
        assert forall i :: 0 <= i < |closed| && i != current.value ==> closed[i] == r.assignments[i];
      }
      assert AssignmentIdTaken(closed, assignmentId) <==> AssignmentIdTaken(r.assignments, assignmentId) by {
        assert forall i :: 0 <= i < |closed| ==> closed[i].id == r.assignments[i].id;
      }
    }
  }

  /** An asset is replaced exactly when it is active, its replacement is new, it carries the keys to move and nobody the
      keys to add, its assignment can be opened again, and its right is to be carried over if it has one. A refusal
      changes nothing. */
  lemma ReplacedExactly(r: Registry, retired: AssetId, replacement: AssetId, moved: seq<Key>, added: seq<Key>,
                        role: Role, assignmentId: string, carry: bool)
    requires RegistryOk(r)
    ensures var (after, result) := ReplaceAsset(r, retired, replacement, moved, added, role, assignmentId, carry);
      && (result.Ok? <==>
        && (role == Operator || role == System)
        && retired in r.assets && r.assets[retired].active && replacement !in r.assets
        && SetOf(moved) <= KeysOf(r.keys, retired) && AllDifferent(moved)
        && NoneActive(r.keys, added) && AllDifferent(added)
        && (LiveOn(r.assignments, retired).Some? ==>
              && LiveOn(r.assignments, retired).value in r.accounts
              && !AssignmentIdTaken(r.assignments, assignmentId))
        && (FinancedBy(r.encumbrances, retired).Some? ==>
              carry && !EncumbranceIdTaken(r.encumbrances, DeriveId(replacement, EncumbranceTag))))
      && (result.Err? ==> after == r)
  {
    if MayRegister(role) && retired in r.assets && r.assets[retired].active && replacement !in r.assets {
      var live := ActiveIds(r.assets) + {replacement};
      assert KeysOk(r.keys, live);
      hide RegistryOk, KeysOk, NoneActive, AllDifferent, SetOf, KeysOf, ReplacedKeys, ReplacedAssignments;
      hide EncumbranceIdTaken, AssignmentIdTaken, DeriveId;
      ReplacedKeysExactly(r.keys, retired, replacement, moved, added, live);
      var keys := ReplacedKeys(r.keys, retired, replacement, moved, added);
      if keys.Ok? {
        var q := r.(assets := ReplacedAssets(r.assets, retired, replacement), keys := keys.value);
        ReplacedAssignmentsExactly(r, q, retired, replacement, role, assignmentId);
      }
    }
  }

  /** The replacement is what the old asset was, but for its parent, and has yet to be found eligible; the old one is
      retired and otherwise as it was. */
  lemma ReplacementTakesItsPlace(r: Registry, retired: AssetId, replacement: AssetId, moved: seq<Key>, added: seq<Key>,
                                 role: Role, assignmentId: string, carry: bool)
    requires RegistryOk(r) && ReplaceAsset(r, retired, replacement, moved, added, role, assignmentId, carry).1.Ok?
    ensures var after := ReplaceAsset(r, retired, replacement, moved, added, role, assignmentId, carry).0;
      && retired in r.assets && r.assets[retired].active && replacement !in r.assets
      && after.assets.Keys == r.assets.Keys + {replacement}
      && var was, is_, gone := r.assets[retired], after.assets[replacement], after.assets[retired];
         && is_.kind == was.kind && is_.unitCount == was.unitCount && is_.ownership == was.ownership
         && is_.review == was.review && is_.active && !is_.eligible
         && is_.parent == None && is_.predecessor == Some(retired)
         && gone == was.(active := false, eligible := false)
         && forall id :: id in r.assets && id != retired ==> after.assets[id] == r.assets[id]
  {
    ReplacementShape(r, retired, replacement, moved, added, role, assignmentId, carry);
    hide ReplaceAsset, RegistryOk, RightsMove, AssignmentsMoved, ReplacedKeys;
  }
}
