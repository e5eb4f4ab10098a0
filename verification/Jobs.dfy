/** The job queue: one row per job, changed only by atomic updates. Every call carries its own `now`; clocks of
    different calls need not agree, so nothing here rests on time moving forward. */
module Jobs {
  import opened Results

  /** A job id is a fixed-width ULID, so it compares as the number it spells. */
  type JobId = nat

  datatype State = Pending | Leased | Succeeded | Dead

  datatype FailureKind = Transient | Terminal

  datatype Error =
    | KeyRequired
    | AttemptsConstraint
    | DuplicateId
    | LeaseLost
    | ResumeRequiresReason
    | NotFound
    | NotDead
    | NoHandler

  datatype Job = Job(kind: string, key: string, state: State, attempt: int, maxAttempts: int,
                     leasedBy: Option<string>, leaseUntil: Option<int>, nextRunAt: int, lastError: Option<string>)

  /** What `claim` hands to a worker; `(worker, attempt)` is the fencing token. */
  datatype ClaimedJob = ClaimedJob(jobId: JobId, kind: string, key: string, attempt: int, maxAttempts: int,
                                   worker: string, leaseUntil: int)

  /** A row, the leases it has granted, and the handler transactions that committed under them. */
  datatype Record = Record(row: Job, claims: seq<ClaimedJob>, effects: seq<ClaimedJob>)

  type Db = map<JobId, Record>

  // ---- enqueue

  ghost predicate KeyTaken(db: Db, key: string) {
    exists id :: id in db && db[id].row.key == key
  }

  function NewRecord(kind: string, key: string, maxAttempts: int, runAt: int): Record {
    Record(Job(kind, key, Pending, 0, maxAttempts, None, None, runAt, None), [], [])
  }

  /** `runAt` is the given start, or the time of the call. */
  ghost function Enqueue(db: Db, id: JobId, kind: string, key: string, maxAttempts: int, runAt: int)
    : (Db, Result<JobId, Error>) {
    if key == [] then (db, Err(KeyRequired))
    else if maxAttempts < 1 then (db, Err(AttemptsConstraint))
    else if KeyTaken(db, key) then
      var existing :| existing in db && db[existing].row.key == key;
      (db, Ok(existing))
    else if id in db then (db, Err(DuplicateId))
    else (db[id := NewRecord(kind, key, maxAttempts, runAt)], Ok(id))
  }

  // ---- claim

  predicate Leasable(j: Job, now: int) {
    && (j.state.Pending? || j.state.Leased?)
    && j.attempt < j.maxAttempts
    && j.nextRunAt <= now
    && (j.leaseUntil.None? || j.leaseUntil.value < now)
  }

  function Granted(id: JobId, j: Job, worker: string, seconds: int, now: int): ClaimedJob {
    ClaimedJob(id, j.kind, j.key, j.attempt + 1, j.maxAttempts, worker, now + seconds)
  }

  /** The atomic check-and-increment behind `claim`. */
  function Lease(r: Record, id: JobId, worker: string, seconds: int, now: int): (Record, Option<ClaimedJob>) {
    if !Leasable(r.row, now) then (r, None)
    else
      var c := Granted(id, r.row, worker, seconds, now);
      (r.(row := r.row.(state := Leased, leasedBy := Some(worker), leaseUntil := Some(now + seconds),
                        attempt := r.row.attempt + 1),
          claims := r.claims + [c]), Some(c))
  }

  // ---- fenced updates

  /** The guard of every fenced update. */
  predicate Holds(j: Job, c: ClaimedJob, now: int) {
    && j.state.Leased?
    && j.leasedBy == Some(c.worker)
    && j.attempt == c.attempt
    && j.leaseUntil.Some? && j.leaseUntil.value >= now
  }

  function Renew(r: Record, c: ClaimedJob, seconds: int, now: int): (Record, Result<(), Error>) {
    if Holds(r.row, c, now) then (r.(row := r.row.(leaseUntil := Some(now + seconds))), Ok(()))
    else (r, Err(LeaseLost))
  }

  /** The handler's effect and the completion, in one transaction. */
  function Complete(r: Record, c: ClaimedJob, now: int): (Record, Result<(), Error>) {
    if Holds(r.row, c, now) then
      (r.(row := r.row.(state := Succeeded, leaseUntil := None, leasedBy := None, lastError := None),
          effects := r.effects + [c]), Ok(()))
    else (r, Err(LeaseLost))
  }

  function KindText(kind: FailureKind): string {
    if kind.Transient? then "TRANSIENT" else "TERMINAL"
  }

  function FailureText(kind: FailureKind, reason: string, exhausted: bool): string {
    KindText(kind) + ": " + (if |reason| <= 2000 then reason else reason[..2000]) +
    (if exhausted && kind.Transient? then " (attempts exhausted)" else "")
  }

  /** A failure goes by the attempts the claim was granted with, not by the row's. */
  function FailedState(c: ClaimedJob, kind: FailureKind): State {
    if kind.Terminal? || c.attempt >= c.maxAttempts then Dead else Pending
  }

  function Fail(r: Record, c: ClaimedJob, kind: FailureKind, reason: string, delay: int, now: int)
    : (Record, Result<State, Error>) {
    if !Holds(r.row, c, now) then (r, Err(LeaseLost))
    else
      var state := FailedState(c, kind);
      var error := FailureText(kind, reason, c.attempt >= c.maxAttempts);
      var failed := r.row.(state := state, leaseUntil := None, leasedBy := None, lastError := Some(error));
      (r.(row := if state.Dead? then failed else failed.(nextRunAt := now + delay)), Ok(state))
  }

  // ---- resume

  predicate IsSpace(c: char) {
    || '\t' <= c <= '\r' || '\U{1c}' <= c <= ' ' || c == '\U{85}' || c == '\U{a0}' || c == '\U{1680}'
    || '\U{2000}' <= c <= '\U{200a}' || c == '\U{2028}' || c == '\U{2029}' || c == '\U{202f}' || c == '\U{205f}'
    || c == '\U{3000}'
  }

  predicate Blank(text: string) {
    forall i :: 0 <= i < |text| ==> IsSpace(text[i])
  }

  predicate KnownRole(role: string) {
    role in ["borrower", "lp", "underwriter", "operator", "keeper", "guardian", "treasury", "system"]
  }

  predicate Audited(actor: string, role: string, reason: string) {
    actor != [] && !Blank(reason) && KnownRole(role)
  }

  /** The budget grows by the attempts already used, so the token never restarts. */
  function Resume(r: Record, actor: string, role: string, reason: string, now: int): (Record, Result<(), Error>) {
    if !Audited(actor, role, reason) then (r, Err(ResumeRequiresReason))
    else if !r.row.state.Dead? then (r, Err(NotDead))
    else
      (r.(row := r.row.(state := Pending, maxAttempts := r.row.maxAttempts + r.row.attempt,
                        leaseUntil := None, leasedBy := None, nextRunAt := now)), Ok(()))
  }

  // ---- runs

  datatype Action =
    | Leasing(worker: string, seconds: int, now: int)
    | Renewing(claim: ClaimedJob, seconds: int, now: int)
    | Completing(claim: ClaimedJob, now: int)
    | Failing(claim: ClaimedJob, kind: FailureKind, reason: string, delay: int, now: int)
    | Resuming(actor: string, role: string, reason: string, now: int)

  /** One committed transaction; a transaction that rolls back is no event at all. */
  datatype Event =
    | Enqueuing(id: JobId, kind: string, key: string, maxAttempts: int, runAt: int)
    | On(id: JobId, action: Action)

  function Act(r: Record, id: JobId, a: Action): Record {
    match a
    case Leasing(worker, seconds, now) => Lease(r, id, worker, seconds, now).0
    case Renewing(c, seconds, now) => Renew(r, c, seconds, now).0
    case Completing(c, now) => Complete(r, c, now).0
    case Failing(c, kind, reason, delay, now) => Fail(r, c, kind, reason, delay, now).0
    case Resuming(actor, role, reason, now) => Resume(r, actor, role, reason, now).0
  }

  ghost function Step(db: Db, e: Event): Db {
    match e
    case Enqueuing(id, kind, key, maxAttempts, runAt) => Enqueue(db, id, kind, key, maxAttempts, runAt).0
    case On(id, a) => if id in db then db[id := Act(db[id], id, a)] else db
  }

  /** Workers act only under leases they were granted, however old. */
  predicate Granting(r: Record, a: Action) {
    (a.Renewing? || a.Completing? || a.Failing?) ==> a.claim in r.claims
  }

  predicate Possible(db: Db, e: Event) {
    e.On? && e.id in db ==> Granting(db[e.id], e.action)
  }

  ghost function Run(db: Db, events: seq<Event>): Db {
    if events == [] then db else Step(Run(db, events[..|events| - 1]), events[|events| - 1])
  }

  /** Any interleaving of any number of workers, crashed or stale. */
  ghost predicate Happens(db: Db, events: seq<Event>) {
    forall i :: 0 <= i < |events| ==> Possible(Run(db, events[..i]), events[i])
  }
}
