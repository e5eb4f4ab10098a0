/** Who owns, runs and finances which GPU: assets, identity keys, provider assignments, encumbrances and review flags.
    Every operation is one transaction: when it raises, nothing it did remains. */
module Registry {
  import opened Results

  type AssetId = string

  datatype Role = Operator | System | Underwriter | OtherRole

  datatype Error = Forbidden | NotFound | InvalidState | UniqueViolation | CheckViolation

  datatype AssetKind = PhysicalGpu | MigPartition | OtherKind(name: string)

  datatype Ownership = Owned | Leased | UnknownOwner

  datatype Review = Unverified | Verified | Rejected

  datatype Asset = Asset(kind: AssetKind, unitCount: int, active: bool, ownership: Ownership, review: Review,
                         parent: Option<AssetId>, predecessor: Option<AssetId>, eligible: bool)

  datatype Key = Key(scheme: string, value: string)

  /** A key row stays as history once it is retired. */
  datatype KeyRow = KeyRow(asset: AssetId, key: Key, active: bool)

  datatype Assignment = Assignment(id: string, asset: AssetId, account: string, open: bool)

  datatype RightKind = Lien | Pledge | AssignmentOfRights | Lease

  /** A right on an asset, held by one of our facilities or by a third party. */
  datatype Encumbrance = Encumbrance(id: string, asset: AssetId, kind: RightKind, facility: Option<string>, open: bool)

  datatype FlagKind = DuplicateListing | PriorityConflict | LeaseUnverified

  datatype Flag = Flag(asset: AssetId, kind: FlagKind, open: bool)

  datatype Registry = Registry(assets: map<AssetId, Asset>, keys: seq<KeyRow>, assignments: seq<Assignment>,
                               encumbrances: seq<Encumbrance>, flags: seq<Flag>, consents: set<AssetId>,
                               accounts: set<string>, facilities: set<string>)

  // ---- lookups

  function FindKey(rows: seq<KeyRow>, key: Key): (found: Option<nat>)
    ensures found.Some? ==> found.value < |rows| && rows[found.value].active && rows[found.value].key == key
    ensures found.None? ==> forall i :: 0 <= i < |rows| ==> !(rows[i].active && rows[i].key == key)
  {
    if rows == [] then None
    else
      var last := rows[|rows| - 1];
      if last.active && last.key == key then Some(|rows| - 1) else FindKey(rows[..|rows| - 1], key)
  }

  function FindKeyOn(rows: seq<KeyRow>, asset: AssetId, key: Key): (found: Option<nat>)
    ensures found.Some? ==> found.value < |rows| && rows[found.value] == KeyRow(asset, key, true)
    ensures found.None? ==> forall i :: 0 <= i < |rows| ==> rows[i] != KeyRow(asset, key, true)
  {
    if rows == [] then None
    else if rows[|rows| - 1] == KeyRow(asset, key, true) then Some(|rows| - 1)
    else FindKeyOn(rows[..|rows| - 1], asset, key)
  }

  predicate IsOpenOn(a: Assignment, asset: AssetId) {
    a.open && a.asset == asset
  }

  function FindAssignment(rows: seq<Assignment>, asset: AssetId): (found: Option<nat>)
    ensures found.Some? ==> found.value < |rows| && IsOpenOn(rows[found.value], asset)
    ensures found.None? ==> forall i :: 0 <= i < |rows| ==> !IsOpenOn(rows[i], asset)
  {
    if rows == [] then None
    else if IsOpenOn(rows[|rows| - 1], asset) then Some(|rows| - 1)
    else FindAssignment(rows[..|rows| - 1], asset)
  }

  /** An open right of one of our facilities. */
  predicate Finances(e: Encumbrance, asset: AssetId) {
    e.open && e.asset == asset && e.facility.Some?
  }

  function FindFinancing(rows: seq<Encumbrance>, asset: AssetId): (found: Option<nat>)
    ensures found.Some? ==> found.value < |rows| && Finances(rows[found.value], asset)
    ensures found.None? ==> forall i :: 0 <= i < |rows| ==> !Finances(rows[i], asset)
  {
    if rows == [] then None
    else if Finances(rows[|rows| - 1], asset) then Some(|rows| - 1)
    else FindFinancing(rows[..|rows| - 1], asset)
  }

  predicate AssignmentIdTaken(rows: seq<Assignment>, id: string) {
    exists i :: 0 <= i < |rows| && rows[i].id == id
  }

  predicate EncumbranceIdTaken(rows: seq<Encumbrance>, id: string) {
    exists i :: 0 <= i < |rows| && rows[i].id == id
  }

  // ---- flags

  /** A flag drops eligibility until it is resolved. */
  function RaiseFlag(r: Registry, id: AssetId, kind: FlagKind): Registry
    requires id in r.assets
  {
    r.(assets := r.assets[id := r.assets[id].(eligible := false)], flags := r.flags + [Flag(id, kind, true)])
  }

  function ResolveFlag(r: Registry, flag: nat, role: Role): (Registry, Result<(), Error>) {
    if !role.Underwriter? then (r, Err(Forbidden))
    else if flag >= |r.flags| then (r, Err(NotFound))
    else if !r.flags[flag].open then (r, Err(InvalidState))
    else (r.(flags := r.flags[flag := r.flags[flag].(open := false)]), Ok(()))
  }

  predicate MayRegister(role: Role) {
    role.Operator? || role.System?
  }

  // ---- identity keys

  /** New active rows; the index on active keys refuses a key that any asset already carries. */
  function AddKeys(rows: seq<KeyRow>, asset: AssetId, keys: seq<Key>): Result<seq<KeyRow>, Error>
    decreases |keys|
  {
    if keys == [] then Ok(rows)
    else if FindKey(rows, keys[0]).Some? then Err(UniqueViolation)
    else AddKeys(rows + [KeyRow(asset, keys[0], true)], asset, keys[1..])
  }

  function MoveKeys(rows: seq<KeyRow>, retired: AssetId, replacement: AssetId, keys: seq<Key>)
    : Result<seq<KeyRow>, Error>
    decreases |keys|
  {
    if keys == [] then Ok(rows)
    else
      var found := FindKeyOn(rows, retired, keys[0]);
      if found.None? then Err(NotFound)
      else MoveKeys(Retire(rows, found.value) + [KeyRow(replacement, keys[0], true)], retired, replacement, keys[1..])
  }

  function Retire(rows: seq<KeyRow>, i: nat): seq<KeyRow>
    requires i < |rows|
  {
    rows[i := rows[i].(active := false)]
  }

  function RetireAll(rows: seq<KeyRow>, asset: AssetId): (retired: seq<KeyRow>)
    ensures |retired| == |rows|
    ensures forall i :: 0 <= i < |rows| ==>
      retired[i] == rows[i].(active := rows[i].active && rows[i].asset != asset)
  {
    seq(|rows|, i requires 0 <= i < |rows| => rows[i].(active := rows[i].active && rows[i].asset != asset))
  }

  /** The first of these keys that some asset already carries. */
  function FirstTaken(rows: seq<KeyRow>, keys: seq<Key>): (found: Option<nat>)
    ensures found.Some? ==> found.value < |rows| && rows[found.value].active && rows[found.value].key in keys
    ensures found.None? ==> forall i :: 0 <= i < |rows| && rows[i].active ==> rows[i].key !in keys
  {
    if keys == [] then None
    else if FindKey(rows, keys[0]).Some? then FindKey(rows, keys[0])
    else FirstTaken(rows, keys[1..])
  }

  // ---- registration

  datatype Registration = Created | Duplicate(existing: AssetId)

  /** The id of a row that belongs to an asset: its own, with the last characters replaced by a tag. */
  function DeriveId(base: AssetId, tag: string): string
    requires |tag| <= 26
  {
    var kept := if |base| <= 26 - |tag| then base else base[..26 - |tag|];
    kept + tag
  }

  const AssignmentTag := "AS"
  const EncumbranceTag := "EN"

  function RegisterAsset(r: Registry, id: AssetId, kind: AssetKind, unitCount: int, keys: seq<Key>, role: Role,
                         account: Option<string>): (Registry, Result<Registration, Error>)
  {
    if !MayRegister(role) then (r, Err(Forbidden))
    else if keys == [] then (r, Err(InvalidState))
    else
      var taken := FirstTaken(r.keys, keys);
      if taken.Some? then
        var existing := r.keys[taken.value].asset;
        if existing !in r.assets then (r, Err(NotFound))
        else (RaiseFlag(r, existing, DuplicateListing), Ok(Duplicate(existing)))
      else if id in r.assets then (r, Err(UniqueViolation))
      else if unitCount <= 0 then (r, Err(CheckViolation))
      else
        var added := AddKeys(r.keys, id, keys);
        if added.Err? then (r, Err(added.error))
        else
          var asset := Asset(kind, unitCount, true, UnknownOwner, Unverified, None, None, false);
          var created := r.(assets := r.assets[id := asset], keys := added.value);
          if account.None? then (created, Ok(Created))
          else
            var (live, result) := AssignProvider(created, id, account.value, role, DeriveId(id, AssignmentTag));
            if result.Err? then (r, Err(result.error)) else (live, Ok(Created))
  }

  function RegisterPartition(r: Registry, parent: AssetId, child: AssetId, keys: seq<Key>, role: Role)
    : (Registry, Result<(), Error>)
  {
    if !MayRegister(role) then (r, Err(Forbidden))
    else if parent !in r.assets then (r, Err(NotFound))
    else if !r.assets[parent].kind.PhysicalGpu? || !r.assets[parent].active then (r, Err(InvalidState))
    else if child in r.assets then (r, Err(UniqueViolation))
    else
      var added := AddKeys(r.keys, child, keys);
      if added.Err? then (r, Err(added.error))
      else
        var asset := Asset(MigPartition, 1, true, r.assets[parent].ownership, Unverified, Some(parent), None, false);
        (r.(assets := r.assets[child := asset], keys := added.value), Ok(()))
  }

  // ---- assignments

  datatype Live = Assigned | FlaggedDuplicate

  function AssignProvider(r: Registry, id: AssetId, account: string, role: Role, assignmentId: string)
    : (Registry, Result<Live, Error>)
  {
    if !MayRegister(role) then (r, Err(Forbidden))
    else if id !in r.assets then (r, Err(NotFound))
    else if !r.assets[id].active then (r, Err(InvalidState))
    else if account !in r.accounts then (r, Err(NotFound))
    else
      var current := FindAssignment(r.assignments, id);
      if current.Some? then
        if r.assignments[current.value].account == account then (r, Err(InvalidState))
        else (RaiseFlag(r, id, DuplicateListing), Ok(FlaggedDuplicate))
      else if AssignmentIdTaken(r.assignments, assignmentId) then (r, Err(UniqueViolation))
      else (r.(assignments := r.assignments + [Assignment(assignmentId, id, account, true)]), Ok(Assigned))
  }

  function Close(rows: seq<Assignment>, i: nat): seq<Assignment>
    requires i < |rows|
  {
    rows[i := rows[i].(open := false)]
  }

  function EndAssignment(r: Registry, id: AssetId, role: Role): (Registry, Result<(), Error>) {
    if !MayRegister(role) then (r, Err(Forbidden))
    else
      var current := FindAssignment(r.assignments, id);
      if current.None? then (r, Err(NotFound))
      else (r.(assignments := Close(r.assignments, current.value)), Ok(()))
  }

  // ---- identity changes and replacement

  function ChangeIdentityKey(r: Registry, id: AssetId, scheme: string, oldValue: Option<string>, newValue: string,
                             role: Role)
    : (Registry, Result<(), Error>)
  {
    if !MayRegister(role) then (r, Err(Forbidden))
    else if id !in r.assets then (r, Err(NotFound))
    else if !r.assets[id].active then (r, Err(InvalidState))
    else
      var retired := if oldValue.None? then None else FindKeyOn(r.keys, id, Key(scheme, oldValue.value));
      if oldValue.Some? && retired.None? then (r, Err(NotFound))
      else
        var rows := if retired.None? then r.keys else Retire(r.keys, retired.value);
        if FindKey(rows, Key(scheme, newValue)).Some? then (r, Err(InvalidState))
        else (r.(keys := rows + [KeyRow(id, Key(scheme, newValue), true)]), Ok(()))
  }

  function Release(rows: seq<Encumbrance>, i: nat): seq<Encumbrance>
    requires i < |rows|
  {
    rows[i := rows[i].(open := false)]
  }

  /** The right moves: released on the old asset, opened on the new one. */
  function CarryOver(rows: seq<Encumbrance>, held: nat, replacement: AssetId, id: string)
    : Result<seq<Encumbrance>, Error>
    requires held < |rows|
  {
    if !rows[held].open || rows[held].facility.None? then Err(InvalidState)
    else if EncumbranceIdTaken(rows, id) then Err(UniqueViolation)
    else Ok(Release(rows, held) + [Encumbrance(id, replacement, rows[held].kind, rows[held].facility, true)])
  }

  /** The assets after a replacement: the new one like the old, without its parent; the old one retired. */
  function ReplacedAssets(assets: map<AssetId, Asset>, retired: AssetId, replacement: AssetId): map<AssetId, Asset>
    requires retired in assets
  {
    var o := assets[retired];
    assets[replacement := Asset(o.kind, o.unitCount, true, o.ownership, o.review, None, Some(retired), false)]
      [retired := o.(active := false, eligible := false)]
  }

  function ReplacedKeys(rows: seq<KeyRow>, retired: AssetId, replacement: AssetId, moved: seq<Key>, added: seq<Key>)
    : Result<seq<KeyRow>, Error> {
    var m := MoveKeys(rows, retired, replacement, moved);
    if m.Err? then m
    else
      var a := AddKeys(m.value, replacement, added);
      if a.Err? then a else Ok(RetireAll(a.value, retired))
  }

  function ReplacedRights(rows: seq<Encumbrance>, retired: AssetId, replacement: AssetId)
    : Result<seq<Encumbrance>, Error> {
    var held := FindFinancing(rows, retired);
    if held.None? then Ok(rows) else CarryOver(rows, held.value, replacement, DeriveId(replacement, EncumbranceTag))
  }

  /** The assignment moves, when the old asset was live. */
  function ReplacedAssignments(r: Registry, retired: AssetId, replacement: AssetId, role: Role, assignmentId: string)
    : (Registry, Result<(), Error>) {
    var current := FindAssignment(r.assignments, retired);
    if current.None? then (r, Ok(()))
    else
      var closed := r.(assignments := Close(r.assignments, current.value));
      var (live, result) := AssignProvider(closed, replacement, r.assignments[current.value].account, role,
        assignmentId);
      if result.Err? then (r, Err(result.error)) else (live, Ok(()))
  }

  function ReplaceAsset(r: Registry, retired: AssetId, replacement: AssetId, moved: seq<Key>, added: seq<Key>,
                        role: Role,
                        assignmentId: string, carry: bool): (Registry, Result<(), Error>)
  {
    if !MayRegister(role) then (r, Err(Forbidden))
    else if retired !in r.assets then (r, Err(NotFound))
    else if !r.assets[retired].active then (r, Err(InvalidState))
    else if FindFinancing(r.encumbrances, retired).Some? && !carry then (r, Err(InvalidState))
    else if replacement in r.assets then (r, Err(UniqueViolation))
    else
      var keys := ReplacedKeys(r.keys, retired, replacement, moved, added);
      if keys.Err? then (r, Err(keys.error))
      else
        var replaced := r.(assets := ReplacedAssets(r.assets, retired, replacement), keys := keys.value);
        var (live, result) := ReplacedAssignments(replaced, retired, replacement, role, assignmentId);
        if result.Err? then (r, Err(result.error))
        else
          var rights := ReplacedRights(r.encumbrances, retired, replacement);
          if rights.Err? then (r, Err(rights.error)) else (live.(encumbrances := rights.value), Ok(()))
  }

  function ReviewOwnership(r: Registry, id: AssetId, verdict: Review, ownership: Ownership, role: Role)
    : (Registry, Result<(), Error>) {
    if !role.Underwriter? then (r, Err(Forbidden))
    else if verdict.Unverified? || (verdict.Verified? && ownership.UnknownOwner?) then (r, Err(InvalidState))
    else if id !in r.assets then (r, Err(NotFound))
    else
      var reviewed := r.assets[id].(review := verdict, ownership := ownership);
      if reviewed.eligible && !(verdict.Verified? && reviewed.active) then (r, Err(CheckViolation))
      else (r.(assets := r.assets[id := reviewed]), Ok(()))
  }

  // ---- eligibility and financing

  /** A right that does not stand in the way of this facility. */
  predicate Harmless(e: Encumbrance, id: AssetId, facility: Option<string>) {
    e.open && e.asset == id ==> if e.facility.Some? then e.facility == facility else e.kind.Lease?
  }

  predicate FinancedOnlyBy(rows: seq<Encumbrance>, id: AssetId, facility: Option<string>) {
    var found := FindFinancing(rows, id);
    found.Some? ==> rows[found.value].facility == facility
  }

  /** Nothing stands in the way: the facts a review found, no open flag, no other right, neither on the asset nor on its
      parent or partitions. */
  predicate Eligible(r: Registry, id: AssetId, facility: Option<string>)
    requires id in r.assets
  {
    var a := r.assets[id];
    && a.active && a.review.Verified? && !a.ownership.UnknownOwner?
    && (a.ownership.Leased? ==> id in r.consents)
    && (forall i :: 0 <= i < |r.flags| ==> !(r.flags[i].open && r.flags[i].asset == id))
    && (forall i :: 0 <= i < |r.encumbrances| ==> Harmless(r.encumbrances[i], id, facility))
    && (a.parent.Some? ==> FinancedOnlyBy(r.encumbrances, a.parent.value, facility))
    && (forall c :: c in r.assets && r.assets[c].parent == Some(id) ==> FinancedOnlyBy(r.encumbrances, c, facility))
  }

  /** Decide and persist. */
  function DecideEligibility(r: Registry, id: AssetId, facility: Option<string>): (Registry, Result<bool, Error>) {
    if id !in r.assets then (r, Err(NotFound))
    else
      var eligible := Eligible(r, id, facility);
      (r.(assets := r.assets[id := r.assets[id].(eligible := eligible)]), Ok(eligible))
  }

  function AssignToFacility(r: Registry, encumbranceId: string, id: AssetId, facility: string, role: Role)
    : (Registry, Result<(), Error>)
  {
    if !role.Underwriter? then (r, Err(Forbidden))
    else if facility !in r.facilities then (r, Err(NotFound))
    else
      var (decided, eligible) := DecideEligibility(r, id, Some(facility));
      if eligible.Err? then (r, Err(eligible.error))
      else if !eligible.value then (r, Err(InvalidState))
      else if FindFinancing(r.encumbrances, id).Some? then (r, Err(InvalidState))
      else if EncumbranceIdTaken(r.encumbrances, encumbranceId) then (r, Err(UniqueViolation))
      else
        (decided.(encumbrances :=
          r.encumbrances + [Encumbrance(encumbranceId, id, AssignmentOfRights, Some(facility), true)]), Ok(()))
  }

  function FindEncumbrance(rows: seq<Encumbrance>, id: string): (found: Option<nat>)
    ensures found.Some? ==> found.value < |rows| && rows[found.value].id == id
    ensures found.None? ==> !EncumbranceIdTaken(rows, id)
  {
    if rows == [] then None
    else if rows[|rows| - 1].id == id then Some(|rows| - 1)
    else FindEncumbrance(rows[..|rows| - 1], id)
  }

  function ReleaseEncumbrance(r: Registry, encumbranceId: string, role: Role): (Registry, Result<(), Error>) {
    if !role.Underwriter? then (r, Err(Forbidden))
    else
      var found := FindEncumbrance(r.encumbrances, encumbranceId);
      if found.None? then (r, Err(NotFound))
      else if !r.encumbrances[found.value].open then (r, Err(InvalidState))
      else (r.(encumbrances := Release(r.encumbrances, found.value)), Ok(()))
  }

  function RecordThirdPartyRight(r: Registry, encumbranceId: string, id: AssetId, kind: RightKind, role: Role)
    : (Registry, Result<(), Error>)
  {
    if !role.Underwriter? then (r, Err(Forbidden))
    else if id !in r.assets then (r, Err(NotFound))
    else if EncumbranceIdTaken(r.encumbrances, encumbranceId) then (r, Err(UniqueViolation))
    else
      var recorded := r.(encumbrances := r.encumbrances + [Encumbrance(encumbranceId, id, kind, None, true)]);
      (RaiseFlag(recorded, id, if kind.Lease? then LeaseUnverified else PriorityConflict), Ok(()))
  }

  /** A lease-consent document; attaching it decides nothing. */
  function AttachConsent(r: Registry, id: AssetId, role: Role): (Registry, Result<(), Error>) {
    if role.OtherRole? then (r, Err(Forbidden))
    else if id !in r.assets then (r, Err(NotFound))
    else (r.(consents := r.consents + {id}), Ok(()))
  }

  // ---- runs

  datatype Op =
    | Registering(id: AssetId, kind: AssetKind, unitCount: int, keys: seq<Key>, role: Role, account: Option<string>)
    | Partitioning(parent: AssetId, child: AssetId, keys: seq<Key>, role: Role)
    | Assigning(id: AssetId, account: Option<string>, role: Role, assignmentId: string)
    | Rekeying(id: AssetId, scheme: string, oldValue: Option<string>, newValue: string, role: Role)
    | Replacing(retired: AssetId, replacement: AssetId, moved: seq<Key>, added: seq<Key>, role: Role,
      assignmentId: string, carry: bool)
    | Reviewing(id: AssetId, verdict: Review, ownership: Ownership, role: Role)
    | Resolving(flag: nat, role: Role)
    | Deciding(id: AssetId, candidate: Option<string>)
    | Financing(encumbranceId: string, id: AssetId, facility: string, role: Role)
    | Releasing(encumbranceId: string, role: Role)
    | AttachingConsent(id: AssetId, role: Role)
    | RecordingRight(encumbranceId: string, id: AssetId, right: RightKind, role: Role)

  /** `Assigning` without an account ends the open assignment. */
  function Apply(r: Registry, op: Op): Registry {
    match op
    case Registering(id, kind, unitCount, keys, role, account) =>
      RegisterAsset(r, id, kind, unitCount, keys, role, account).0
    case Partitioning(parent, child, keys, role) => RegisterPartition(r, parent, child, keys, role).0
    case Assigning(id, account, role, assignmentId) =>
      if account.Some? then AssignProvider(r, id, account.value, role, assignmentId).0 else EndAssignment(r, id, role).0
    case Rekeying(id, scheme, oldValue, newValue, role) => ChangeIdentityKey(r, id, scheme, oldValue, newValue, role).0
    case Replacing(retired, replacement, moved, added, role, assignmentId, carry) =>
      ReplaceAsset(r, retired, replacement, moved, added, role, assignmentId, carry).0
    case Reviewing(id, verdict, ownership, role) => ReviewOwnership(r, id, verdict, ownership, role).0
    case Resolving(flag, role) => ResolveFlag(r, flag, role).0
    case Deciding(id, candidate) => DecideEligibility(r, id, candidate).0
    case Financing(encumbranceId, id, facility, role) => AssignToFacility(r, encumbranceId, id, facility, role).0
    case Releasing(encumbranceId, role) => ReleaseEncumbrance(r, encumbranceId, role).0
    case AttachingConsent(id, role) => AttachConsent(r, id, role).0
    case RecordingRight(encumbranceId, id, right, role) => RecordThirdPartyRight(r, encumbranceId, id, right, role).0
  }

  function Run(r: Registry, ops: seq<Op>): Registry {
    if ops == [] then r else Apply(Run(r, ops[..|ops| - 1]), ops[|ops| - 1])
  }
}
