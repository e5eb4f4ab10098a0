/** The registry as the source keeps it: tables changed row by row inside one transaction per call. */
module AssetRegistry {
  import opened Results
  import opened R = Registry

  datatype Reason =
    | NotActive
    | ReviewIs(review: Review)
    | OwnershipUnknown
    | NoLeaseConsent
    | OpenFlag(kind: FlagKind)
    | FinancedBy(facility: string)
    | ThirdParty(right: RightKind)
    | ParentFinancedBy(facility: string)
    | PartitionFinancedBy(facility: string)

  /** Insert key rows one by one against the index on active keys. */
  method InsertKeys(rows: seq<KeyRow>, asset: AssetId, keys: seq<Key>) returns (r: Result<seq<KeyRow>, Error>)
    ensures r == AddKeys(rows, asset, keys)
  {
    var added := rows;
    for i := 0 to |keys|
      invariant AddKeys(added, asset, keys[i..]) == AddKeys(rows, asset, keys)
    {
      assert keys[i..][1..] == keys[i + 1..];
      var taken := FindKey(added, keys[i]);
      if taken.Some? {
        return Err(UniqueViolation);
      }
      added := added + [KeyRow(asset, keys[i], true)];
    }
    r := Ok(added);
  }

  /** Retire each moved key on the old asset and issue it again on the new one. */
  method MoveKeyRows(rows: seq<KeyRow>, retired: AssetId, replacement: AssetId, keys: seq<Key>)
    returns (r: Result<seq<KeyRow>, Error>)
    ensures r == MoveKeys(rows, retired, replacement, keys)
  {
    var moved := rows;
    for i := 0 to |keys|
      invariant MoveKeys(moved, retired, replacement, keys[i..]) == MoveKeys(rows, retired, replacement, keys)
    {
      assert keys[i..][1..] == keys[i + 1..];
      var row := FindKeyOn(moved, retired, keys[i]);
      if row.None? {
        return Err(NotFound);
      }
      moved := moved[row.value := moved[row.value].(active := false)];
      moved := moved + [KeyRow(replacement, keys[i], true)];
    }
    r := Ok(moved);
  }

  /** Nothing stays active on a retired device. */
  method RetireKeyRows(rows: seq<KeyRow>, asset: AssetId) returns (retired: seq<KeyRow>)
    ensures retired == RetireAll(rows, asset)
  {
    retired := rows;
    for i := 0 to |rows|
      invariant |retired| == |rows|
      invariant forall k :: 0 <= k < i ==> retired[k] == rows[k].(active := rows[k].active && rows[k].asset != asset)
      invariant forall k :: i <= k < |rows| ==> retired[k] == rows[k]
    {
      if rows[i].active && rows[i].asset == asset {
        retired := retired[i := rows[i].(active := false)];
      }
    }
  }

  class AssetRegistry {
    var assets: map<AssetId, Asset>
    var keys: seq<KeyRow>
    var assignments: seq<Assignment>
    var encumbrances: seq<Encumbrance>
    var flags: seq<Flag>
    var consents: set<AssetId>
    const accounts: set<string>
    const facilities: set<string>

    ghost function Book(): R.Registry
      reads this
    {
      R.Registry(assets, keys, assignments, encumbrances, flags, consents, accounts, facilities)
    }

    constructor (accounts: set<string>, facilities: set<string>)
      ensures Book() == R.Registry(map[], [], [], [], [], {}, accounts, facilities)
    {
      this.accounts, this.facilities := accounts, facilities;
      assets, keys, assignments, encumbrances, flags, consents := map[], [], [], [], [], {};
    }

    method RaiseFlag(id: AssetId, kind: FlagKind)
      requires id in assets
      modifies this
      ensures Book() == R.RaiseFlag(old(Book()), id, kind)
    {
      assets := assets[id := assets[id].(eligible := false)];
      flags := flags + [Flag(id, kind, true)];
    }

    method ResolveFlag(flag: nat, role: Role) returns (r: Result<(), Error>)
      modifies this
      ensures (Book(), r) == R.ResolveFlag(old(Book()), flag, role)
    {
      if !role.Underwriter? {
        return Err(Forbidden);
      }
      if flag >= |flags| {
        return Err(NotFound);
      }
      if !flags[flag].open {
        return Err(InvalidState);
      }
      flags := flags[flag := flags[flag].(open := false)];
      r := Ok(());
    }

    method ReviewOwnership(id: AssetId, verdict: Review, ownership: Ownership, role: Role)
      returns (r: Result<(), Error>)
      modifies this
      ensures (Book(), r) == R.ReviewOwnership(old(Book()), id, verdict, ownership, role)
    {
      if !role.Underwriter? {
        return Err(Forbidden);
      }
      if verdict.Unverified? || (verdict.Verified? && ownership.UnknownOwner?) {
        return Err(InvalidState);
      }
      if id !in assets {
        return Err(NotFound);
      }
      var reviewed := assets[id].(review := verdict, ownership := ownership);
      if reviewed.eligible && !(verdict.Verified? && reviewed.active) {
        return Err(CheckViolation);
      }
      assets := assets[id := reviewed];
      r := Ok(());
    }

    method AssignProvider(id: AssetId, account: string, role: Role, assignmentId: string)
      returns (r: Result<Live, Error>)
      modifies this
      ensures (Book(), r) == R.AssignProvider(old(Book()), id, account, role, assignmentId)
    {
      hide FindAssignment, AssignmentIdTaken;
      if !MayRegister(role) {
        return Err(Forbidden);
      }
      if id !in assets {
        return Err(NotFound);
      }
      if !assets[id].active {
        return Err(InvalidState);
      }
      if account !in accounts {
        return Err(NotFound);
      }
      var current := FindAssignment(assignments, id);
      if current.Some? {
        if assignments[current.value].account == account {
          return Err(InvalidState);
        }
        RaiseFlag(id, DuplicateListing);
        return Ok(FlaggedDuplicate);
      }
      if AssignmentIdTaken(assignments, assignmentId) {
        return Err(UniqueViolation);
      }
      assignments := assignments + [Assignment(assignmentId, id, account, true)];
      r := Ok(Assigned);
    }

    method EndAssignment(id: AssetId, role: Role) returns (r: Result<(), Error>)
      modifies this
      ensures (Book(), r) == R.EndAssignment(old(Book()), id, role)
    {
      if !MayRegister(role) {
        return Err(Forbidden);
      }
      var current := FindAssignment(assignments, id);
      if current.None? {
        return Err(NotFound);
      }
      assignments := assignments[current.value := assignments[current.value].(open := false)];
      r := Ok(());
    }

    /** Look every key up before creating anything. */
    method FindDuplicate(wanted: seq<Key>) returns (row: Option<nat>)
      ensures row == FirstTaken(keys, wanted)
    {
      for i := 0 to |wanted|
        invariant FirstTaken(keys, wanted[i..]) == FirstTaken(keys, wanted)
      {
        assert wanted[i..][1..] == wanted[i + 1..];
        row := FindKey(keys, wanted[i]);
        if row.Some? {
          return;
        }
      }
      row := None;
    }

    method RegisterAsset(id: AssetId, kind: AssetKind, unitCount: int, wanted: seq<Key>, role: Role,
                         account: Option<string>)
      returns (r: Result<Registration, Error>)
      modifies this
      ensures (Book(), r) == R.RegisterAsset(old(Book()), id, kind, unitCount, wanted, role, account)
    {
      hide FirstTaken, AddKeys, R.AssignProvider, R.RaiseFlag, DeriveId;
      if !MayRegister(role) {
        return Err(Forbidden);
      }
      if wanted == [] {
        return Err(InvalidState);
      }
      var taken := FindDuplicate(wanted);
      if taken.Some? {
        var existing := keys[taken.value].asset;
        if existing !in assets {
          return Err(NotFound);
        }
        RaiseFlag(existing, DuplicateListing);
        return Ok(Duplicate(existing));
      }
      if id in assets {
        return Err(UniqueViolation);
      }
      if unitCount <= 0 {
        return Err(CheckViolation);
      }
      var added := InsertKeys(keys, id, wanted);
      if added.Err? {
        return Err(added.error);
      }
      var assets0, keys0, assignments0, flags0 := assets, keys, assignments, flags;
      assets := assets[id := Asset(kind, unitCount, true, UnknownOwner, Unverified, None, None, false)];
      keys := added.value;
      r := Ok(Created);
      if account.Some? {
        AssignmentTouchesOnly(Book(), id, account.value, role, DeriveId(id, AssignmentTag));
        var live := AssignProvider(id, account.value, role, DeriveId(id, AssignmentTag));
        if live.Err? {
          assets, keys, assignments, flags := assets0, keys0, assignments0, flags0;
          r := Err(live.error);
        }
      }
    }

    method RegisterPartition(parent: AssetId, child: AssetId, wanted: seq<Key>, role: Role)
      returns (r: Result<(), Error>)
      modifies this
      ensures (Book(), r) == R.RegisterPartition(old(Book()), parent, child, wanted, role)
    {
      hide AddKeys;
      if !MayRegister(role) {
        return Err(Forbidden);
      }
      if parent !in assets {
        return Err(NotFound);
      }
      if !assets[parent].kind.PhysicalGpu? || !assets[parent].active {
        return Err(InvalidState);
      }
      if child in assets {
        return Err(UniqueViolation);
      }
      var added := InsertKeys(keys, child, wanted);
      if added.Err? {
        return Err(added.error);
      }
      assets := assets[child :=
        Asset(MigPartition, 1, true, assets[parent].ownership, Unverified, Some(parent), None, false)];
      keys := added.value;
      r := Ok(());
    }

    method ChangeIdentityKey(id: AssetId, scheme: string, oldValue: Option<string>, newValue: string, role: Role)
      returns (r: Result<(), Error>)
      modifies this
      ensures (Book(), r) == R.ChangeIdentityKey(old(Book()), id, scheme, oldValue, newValue, role)
    {
      hide FindKey, FindKeyOn;
      if !MayRegister(role) {
        return Err(Forbidden);
      }
      if id !in assets {
        return Err(NotFound);
      }
      if !assets[id].active {
        return Err(InvalidState);
      }
      var rows := keys;
      if oldValue.Some? {
        var row := FindKeyOn(keys, id, Key(scheme, oldValue.value));
        if row.None? {
          return Err(NotFound);
        }
        rows := rows[row.value := rows[row.value].(active := false)];
      }
      if FindKey(rows, Key(scheme, newValue)).Some? {
        return Err(InvalidState);
      }
      keys := rows + [KeyRow(id, Key(scheme, newValue), true)];
      r := Ok(());
    }

    method ReplaceAsset(retired: AssetId, replacement: AssetId, moved: seq<Key>, added: seq<Key>, role: Role,
                        assignmentId: string, carry: bool) returns (r: Result<(), Error>)
      modifies this
      ensures (Book(), r) == R.ReplaceAsset(old(Book()), retired, replacement, moved, added, role, assignmentId, carry)
    {
      hide MoveKeys, AddKeys, RetireAll, R.AssignProvider, R.RaiseFlag, CarryOver, DeriveId, FindAssignment;
      hide FindFinancing;
      if !MayRegister(role) {
        return Err(Forbidden);
      }
      if retired !in assets {
        return Err(NotFound);
      }
      if !assets[retired].active {
        return Err(InvalidState);
      }
      var held := FindFinancing(encumbrances, retired);
      if held.Some? && !carry {
        return Err(InvalidState);
      }
      var current := FindAssignment(assignments, retired);
      if replacement in assets {
        return Err(UniqueViolation);
      }
      var rows := MoveKeyRows(keys, retired, replacement, moved);
      if rows.Err? {
        return Err(rows.error);
      }
      rows := InsertKeys(rows.value, replacement, added);
      if rows.Err? {
        return Err(rows.error);
      }
      var assets0, keys0, assignments0, flags0 := assets, keys, assignments, flags;
      keys := RetireKeyRows(rows.value, retired);
      var gone := assets[retired];
      assets := assets[replacement :=
        Asset(gone.kind, gone.unitCount, true, gone.ownership, gone.review, None, Some(retired), false)];
      assets := assets[retired := gone.(active := false, eligible := false)];
      if current.Some? {
        var account := assignments[current.value].account;
        assignments := assignments[current.value := assignments[current.value].(open := false)];
        AssignmentTouchesOnly(Book(), replacement, account, role, assignmentId);
        var live := AssignProvider(replacement, account, role, assignmentId);
        if live.Err? {
          assets, keys, assignments, flags := assets0, keys0, assignments0, flags0;
          return Err(live.error);
        }
      }
      if held.Some? {
        var carried := CarryOver(encumbrances, held.value, replacement, DeriveId(replacement, EncumbranceTag));
        if carried.Err? {
          assets, keys, assignments, flags := assets0, keys0, assignments0, flags0;
          return Err(carried.error);
        }
        encumbrances := carried.value;
      }
      r := Ok(());
    }

    // ---- eligibility

    method FinancedByOther(id: AssetId, facility: Option<string>) returns (other: Option<string>)
      ensures other.None? <==> FinancedOnlyBy(encumbrances, id, facility)
    {
      var found := FindFinancing(encumbrances, id);
      other := None;
      if found.Some? && encumbrances[found.value].facility != facility {
        other := encumbrances[found.value].facility;
      }
    }

    /** Every fact that stands in the way; none is skipped because another was found first. */
    method Reasons(id: AssetId, facility: Option<string>) returns (reasons: seq<Reason>)
      requires id in assets
      ensures reasons == [] <==> Eligible(Book(), id, facility)
    {
      hide FindFinancing, FinancedOnlyBy;
      var a := assets[id];
      reasons := [];
      if !a.active {
        reasons := reasons + [NotActive];
      }
      if !a.review.Verified? {
        reasons := reasons + [ReviewIs(a.review)];
      }
      if a.ownership.UnknownOwner? {
        reasons := reasons + [OwnershipUnknown];
      }
      if a.ownership.Leased? && id !in consents {
        reasons := reasons + [NoLeaseConsent];
      }
      var found := FlagReasons(id);
      reasons := reasons + found;
      found := RightReasons(id, facility);
      reasons := reasons + found;
      if a.parent.Some? {
        var other := FinancedByOther(a.parent.value, facility);
        if other.Some? {
          reasons := reasons + [ParentFinancedBy(other.value)];
        }
      }
      found := PartitionReasons(id, facility);
      reasons := reasons + found;
    }

    method FlagReasons(id: AssetId) returns (reasons: seq<Reason>)
      ensures reasons == [] <==> forall i :: 0 <= i < |flags| ==> !(flags[i].open && flags[i].asset == id)
    {
      reasons := [];
      for i := 0 to |flags|
        invariant reasons == [] <==> forall k :: 0 <= k < i ==> !(flags[k].open && flags[k].asset == id)
      {
        if flags[i].open && flags[i].asset == id {
          reasons := reasons + [OpenFlag(flags[i].kind)];
        }
      }
    }

    method RightReasons(id: AssetId, facility: Option<string>) returns (reasons: seq<Reason>)
      ensures reasons == [] <==> forall i :: 0 <= i < |encumbrances| ==> Harmless(encumbrances[i], id, facility)
    {
      reasons := [];
      for i := 0 to |encumbrances|
        invariant reasons == [] <==> forall k :: 0 <= k < i ==> Harmless(encumbrances[k], id, facility)
      {
        var e := encumbrances[i];
        if e.open && e.asset == id {
          if e.facility.Some? {
            if facility.None? || e.facility != facility {
              reasons := reasons + [FinancedBy(e.facility.value)];
            }
          } else if !e.kind.Lease? {
            reasons := reasons + [ThirdParty(e.kind)];
          }
        }
      }
    }

    method PartitionReasons(id: AssetId, facility: Option<string>) returns (reasons: seq<Reason>)
      ensures reasons == [] <==>
        forall c :: c in assets && assets[c].parent == Some(id) ==> FinancedOnlyBy(encumbrances, c, facility)
    {
      hide FinancedOnlyBy;
      reasons := [];
      var todo := assets.Keys;
      while todo != {}
        invariant todo <= assets.Keys
        invariant reasons == [] <==>
          forall c :: c in assets && c !in todo && assets[c].parent == Some(id) ==>
            FinancedOnlyBy(encumbrances, c, facility)
        decreases todo
      {
        var c :| c in todo;
        todo := todo - {c};
        if assets[c].parent == Some(id) {
          var other := FinancedByOther(c, facility);
          if other.Some? {
            reasons := reasons + [PartitionFinancedBy(other.value)];
          }
        }
      }
    }

    method DecideEligibility(id: AssetId, facility: Option<string>) returns (r: Result<bool, Error>)
      modifies this
      ensures (Book(), r) == R.DecideEligibility(old(Book()), id, facility)
    {
      hide Eligible;
      if id !in assets {
        return Err(NotFound);
      }
      var reasons := Reasons(id, facility);
      assets := assets[id := assets[id].(eligible := reasons == [])];
      r := Ok(reasons == []);
    }

    method AssignToFacility(encumbranceId: string, id: AssetId, facility: string, role: Role)
      returns (r: Result<(), Error>)
      modifies this
      ensures (Book(), r) == R.AssignToFacility(old(Book()), encumbranceId, id, facility, role)
    {
      hide Eligible, FindFinancing, EncumbranceIdTaken;
      if !role.Underwriter? {
        return Err(Forbidden);
      }
      if facility !in facilities {
        return Err(NotFound);
      }
      var assets0 := assets;
      var eligible := DecideEligibility(id, Some(facility));
      if eligible.Err? {
        return Err(eligible.error);
      }
      if !eligible.value || FindFinancing(encumbrances, id).Some? {
        assets := assets0;
        return Err(InvalidState);
      }
      if EncumbranceIdTaken(encumbrances, encumbranceId) {
        assets := assets0;
        return Err(UniqueViolation);
      }
      encumbrances := encumbrances + [Encumbrance(encumbranceId, id, AssignmentOfRights, Some(facility), true)];
      r := Ok(());
    }

    method ReleaseEncumbrance(encumbranceId: string, role: Role) returns (r: Result<(), Error>)
      modifies this
      ensures (Book(), r) == R.ReleaseEncumbrance(old(Book()), encumbranceId, role)
    {
      hide EncumbranceIdTaken;
      if !role.Underwriter? {
        return Err(Forbidden);
      }
      var found := FindEncumbrance(encumbrances, encumbranceId);
      if found.None? {
        return Err(NotFound);
      }
      if !encumbrances[found.value].open {
        return Err(InvalidState);
      }
      encumbrances := encumbrances[found.value := encumbrances[found.value].(open := false)];
      r := Ok(());
    }

    method RecordThirdPartyRight(encumbranceId: string, id: AssetId, kind: RightKind, role: Role)
      returns (r: Result<(), Error>)
      modifies this
      ensures (Book(), r) == R.RecordThirdPartyRight(old(Book()), encumbranceId, id, kind, role)
    {
      hide EncumbranceIdTaken, R.RaiseFlag;
      if !role.Underwriter? {
        return Err(Forbidden);
      }
      if id !in assets {
        return Err(NotFound);
      }
      if EncumbranceIdTaken(encumbrances, encumbranceId) {
        return Err(UniqueViolation);
      }
      encumbrances := encumbrances + [Encumbrance(encumbranceId, id, kind, None, true)];
      RaiseFlag(id, if kind.Lease? then LeaseUnverified else PriorityConflict);
      r := Ok(());
    }
  }

  /** Assigning changes no table but assignments, flags and the asset's own eligibility. */
  lemma AssignmentTouchesOnly(r: R.Registry, id: AssetId, account: string, role: Role, assignmentId: string)
    ensures var after := R.AssignProvider(r, id, account, role, assignmentId).0;
      && after.keys == r.keys && after.encumbrances == r.encumbrances && after.consents == r.consents
      && after.accounts == r.accounts && after.facilities == r.facilities
  {
    hide FindAssignment, AssignmentIdTaken;
  }
}
