/** What every interleaving of workers, expiries, failures and resumes keeps. */
module JobRuns {
  import opened Results
  import opened FloorArithmetic
  import opened Jobs

  // ---- invariant

  /** One claim per attempt; a live lease belongs to the last claim; an effect exists exactly when the job succeeded,
      and it is the last claim's. */
  ghost predicate RecordValid(id: JobId, r: Record) {
    var j := r.row;
    && 1 <= j.maxAttempts
    && j.attempt == |r.claims| <= j.maxAttempts
    && (forall k :: 0 <= k < |r.claims| ==> ClaimFits(id, j, k + 1, r.claims[k]))
    && (j.state.Pending? ==> j.attempt < j.maxAttempts)
    && (if j.state.Leased? then
          && j.attempt > 0
          && j.leasedBy == Some(r.claims[j.attempt - 1].worker) && j.leaseUntil.Some?
          && r.claims[j.attempt - 1].maxAttempts == j.maxAttempts
        else j.leasedBy.None? && j.leaseUntil.None?)
    && (j.state.Succeeded? ==> j.attempt > 0)
    && r.effects == if j.state.Succeeded? then [r.claims[j.attempt - 1]] else []
  }

  predicate ClaimFits(id: JobId, j: Job, attempt: int, c: ClaimedJob) {
    c.jobId == id && c.kind == j.kind && c.key == j.key && c.attempt == attempt <= c.maxAttempts <= j.maxAttempts
  }

  ghost predicate KeysUnique(db: Db) {
    forall a, b :: a in db && b in db && db[a].row.key == db[b].row.key ==> a == b
  }

  ghost predicate DbValid(db: Db) {
    KeysUnique(db) && forall id :: id in db ==> RecordValid(id, db[id])
  }

  lemma LeaseStaysValid(r: Record, id: JobId, worker: string, seconds: int, now: int)
    requires RecordValid(id, r)
    ensures RecordValid(id, Lease(r, id, worker, seconds, now).0)
  {
  }

  lemma FencedUpdatesStayValid(r: Record, id: JobId, c: ClaimedJob, kind: FailureKind, reason: string, n: int, now: int)
    requires RecordValid(id, r) && c in r.claims
    ensures RecordValid(id, Renew(r, c, n, now).0)
    ensures RecordValid(id, Complete(r, c, now).0)
    ensures RecordValid(id, Fail(r, c, kind, reason, n, now).0)
  {
    hide FailureText;
    if Holds(r.row, c, now) {
      HolderIsTheLastClaim(r, id, c, now);
    }
  }

  /** Only the last claim can hold the lease, and its copy of the budget is then the row's. */
  lemma HolderIsTheLastClaim(r: Record, id: JobId, c: ClaimedJob, now: int)
    requires RecordValid(id, r) && c in r.claims && Holds(r.row, c, now)
    ensures |r.claims| > 0 && c == r.claims[|r.claims| - 1]
    ensures c.maxAttempts == r.row.maxAttempts
  {
    var k :| 0 <= k < |r.claims| && r.claims[k] == c;
    assert ClaimFits(id, r.row, k + 1, r.claims[k]);
  }

  lemma ActStaysValid(r: Record, id: JobId, a: Action)
    requires RecordValid(id, r) && Granting(r, a)
    ensures RecordValid(id, Act(r, id, a))
  {
    hide RecordValid, Lease, Renew, Complete, Fail;
    match a
    case Leasing(worker, seconds, now) => LeaseStaysValid(r, id, worker, seconds, now);
    case Renewing(c, n, now) => FencedUpdatesStayValid(r, id, c, Transient, c.worker, n, now);
    case Completing(c, now) => FencedUpdatesStayValid(r, id, c, Transient, c.worker, 0, now);
    case Failing(c, kind, reason, n, now) => FencedUpdatesStayValid(r, id, c, kind, reason, n, now);
    case Resuming(actor, role, reason, now) => ResumeStaysValid(r, id, actor, role, reason, now);
  }

  lemma ResumeStaysValid(r: Record, id: JobId, actor: string, role: string, reason: string, now: int)
    requires RecordValid(id, r)
    ensures RecordValid(id, Resume(r, actor, role, reason, now).0)
  {
    hide Audited;
  }

  // ---- one record's life

  /** What no step of a record ever undoes. */
  ghost predicate Grows(before: Record, after: Record) {
    && after.row.key == before.row.key && after.row.kind == before.row.kind
    && before.row.attempt <= after.row.attempt
    && before.row.maxAttempts <= after.row.maxAttempts
    && before.claims <= after.claims
    && before.effects <= after.effects
    && (before.row.state.Succeeded? ==> after == before)
  }

  /** The claim's lease is over: the row is not leased, or is leased for another attempt. */
  predicate Over(r: Record, c: ClaimedJob) {
    !(r.row.state.Leased? && r.row.attempt == c.attempt)
  }

  lemma ActGrows(r: Record, id: JobId, a: Action)
    requires RecordValid(id, r)
    ensures Grows(r, Act(r, id, a))
  {
    hide FailureText, Audited;
  }

  lemma OverStaysOver(r: Record, id: JobId, a: Action, c: ClaimedJob)
    requires RecordValid(id, r) && c in r.claims && Over(r, c)
    ensures Over(Act(r, id, a), c)
  {
    hide FailureText, Audited;
    var k :| 0 <= k < |r.claims| && r.claims[k] == c;
    assert ClaimFits(id, r.row, k + 1, r.claims[k]);
  }

  lemma StepStaysValid(db: Db, e: Event)
    requires DbValid(db) && Possible(db, e)
    ensures DbValid(Step(db, e))
  {
    hide RecordValid, Act;
    match e
    case Enqueuing(id, kind, key, maxAttempts, runAt) => NewRecordValid(id, kind, key, maxAttempts, runAt);
    case On(id, a) =>
      if id in db {
        ActStaysValid(db[id], id, a);
        ActKeeps(db[id], id, a);
      }
  }

  lemma NewRecordValid(id: JobId, kind: string, key: string, maxAttempts: int, runAt: int)
    ensures 1 <= maxAttempts ==> RecordValid(id, NewRecord(kind, key, maxAttempts, runAt))
  {
  }

  lemma ActKeeps(r: Record, id: JobId, a: Action)
    requires RecordValid(id, r)
    ensures Act(r, id, a).row.key == r.row.key
  {
    hide Act;
    ActGrows(r, id, a);
  }

  // ---- every run

  lemma HappensBefore(db: Db, events: seq<Event>)
    requires events != [] && Happens(db, events)
    ensures var prior := events[..|events| - 1];
      Happens(db, prior) && Possible(Run(db, prior), events[|events| - 1])
  {
    hide Run, Possible;
    var prior := events[..|events| - 1];
    assert forall i :: 0 <= i < |prior| ==> prior[..i] == events[..i];
  }

  lemma {:induction false} RunsStayValid(db: Db, events: seq<Event>)
    requires DbValid(db) && Happens(db, events)
    ensures DbValid(Run(db, events))
  {
    hide DbValid, Step, Happens, Possible;
    if events != [] {
      HappensBefore(db, events);
      RunsStayValid(db, events[..|events| - 1]);
      StepStaysValid(Run(db, events[..|events| - 1]), events[|events| - 1]);
    }
  }

  lemma StepGrows(db: Db, e: Event)
    requires DbValid(db)
    ensures forall id :: id in db ==> id in Step(db, e) && Grows(db[id], Step(db, e)[id])
  {
    hide RecordValid, Act;
    if e.On? && e.id in db {
      ActGrows(db[e.id], e.id, e.action);
    }
  }

  /** Attempts and budgets never fall, claims and effects are never taken back, and a succeeded job never changes. */
  lemma {:induction false} RunsOnlyGrow(db: Db, events: seq<Event>, id: JobId)
    requires DbValid(db) && Happens(db, events) && id in db
    ensures id in Run(db, events) && Grows(db[id], Run(db, events)[id])
  {
    hide DbValid, Step, Happens, Possible;
    if events != [] {
      var prior := events[..|events| - 1];
      HappensBefore(db, events);
      RunsStayValid(db, prior);
      RunsOnlyGrow(db, prior, id);
      StepGrows(Run(db, prior), events[|events| - 1]);
    }
  }

  /** A lease that is over stays over: not expiry, failure, re-claim, reuse of the worker's name nor resume brings it
      back. */
  lemma {:induction false} FencingHolds(db: Db, events: seq<Event>, id: JobId, c: ClaimedJob)
    requires DbValid(db) && Happens(db, events) && id in db && c in db[id].claims && Over(db[id], c)
    ensures id in Run(db, events) && Over(Run(db, events)[id], c)
    ensures forall now :: !Holds(Run(db, events)[id].row, c, now)
  {
    hide RecordValid, Act, Happens, Possible;
    if events != [] {
      var prior, e := events[..|events| - 1], events[|events| - 1];
      HappensBefore(db, events);
      RunsStayValid(db, prior);
      RunsOnlyGrow(db, prior, id);
      FencingHolds(db, prior, id, c);
      if e.On? && e.id == id {
        OverStaysOver(Run(db, prior)[id], id, e.action, c);
      }
    }
  }

  /** A token superseded by a later claim never again passes a fenced update. */
  lemma {:induction false} SupersededTokensNeverPass(db: Db, events: seq<Event>, id: JobId, c: ClaimedJob,
                                                     later: ClaimedJob)
    requires DbValid(db) && Happens(db, events) && id in db
    requires c in db[id].claims && later in db[id].claims && c.attempt < later.attempt
    ensures id in Run(db, events) && forall now :: !Holds(Run(db, events)[id].row, c, now)
  {
    assert RecordValid(id, db[id]);
    assert Over(db[id], c);
    FencingHolds(db, events, id, c);
  }

  /** At any moment at most one claim of a job passes the guard, whatever clocks the two callers read. */
  lemma AtMostOneHolds(db: Db, id: JobId, c: ClaimedJob, d: ClaimedJob, now: int, other: int)
    requires DbValid(db) && id in db && c in db[id].claims && d in db[id].claims
    requires Holds(db[id].row, c, now) && Holds(db[id].row, d, other)
    ensures c == d
  {
    HolderIsTheLastClaim(db[id], id, c, now);
    HolderIsTheLastClaim(db[id], id, d, other);
  }

  /** From an empty table: each attempt was granted once, within the budget, and the handler's effect committed at most
      once, exactly when the job is SUCCEEDED. */
  lemma {:induction false} EveryJobTakesEffectOnce(events: seq<Event>, id: JobId)
    requires Happens(map[], events) && id in Run(map[], events)
    ensures var r := Run(map[], events)[id];
      && (forall i, k :: 0 <= i < k < |r.claims| ==> r.claims[i].attempt < r.claims[k].attempt)
      && |r.claims| == r.row.attempt <= r.row.maxAttempts
      && |r.effects| <= 1
      && (|r.effects| == 1 <==> r.row.state.Succeeded?)
  {
    RunsStayValid(map[], events);
    assert RecordValid(id, Run(map[], events)[id]);
  }

  /** One effect per semantic key: two jobs that both took effect were enqueued under different keys. */
  lemma {:induction false} OneEffectPerKey(events: seq<Event>, a: JobId, b: JobId)
    requires Happens(map[], events) && a in Run(map[], events) && b in Run(map[], events)
    requires var db := Run(map[], events);
      db[a].effects != [] && db[b].effects != [] && db[a].row.key == db[b].row.key
    ensures a == b && |Run(map[], events)[a].effects| == 1
  {
    RunsStayValid(map[], events);
  }

  /** Enqueuing a key again returns the job there is and changes nothing. */
  lemma EnqueueIsIdempotent(db: Db, id: JobId, again: JobId, kind: string, key: string, n: int, m: int, runAt: int,
                            runAt': int)
    requires DbValid(db) && Enqueue(db, id, kind, key, n, runAt).1.Ok? && 1 <= m
    ensures var (db', r) := Enqueue(db, id, kind, key, n, runAt);
      Enqueue(db', again, kind, key, m, runAt') == (db', r)
  {
    hide RecordValid;
    var (db', r) := Enqueue(db, id, kind, key, n, runAt);
    assert r.value in db' && db'[r.value].row.key == key;
    assert KeyTaken(db', key);
    assert KeysUnique(db');
  }

  // ---- what enqueuing sets up

  /** A key and a budget are required; a job is inserted under a free id exactly when its key is new. */
  lemma EnqueueRefusesOrInserts(db: Db, id: JobId, kind: string, key: string, maxAttempts: int, runAt: int)
    ensures var (db', r) := Enqueue(db, id, kind, key, maxAttempts, runAt);
      && (r.Ok? <==> key != [] && 1 <= maxAttempts && (KeyTaken(db, key) || id !in db))
      && (db' != db <==> key != [] && 1 <= maxAttempts && !KeyTaken(db, key) && id !in db)
  {
    hide NewRecord;
  }

  /** An inserted job has the kind, key and budget asked for, has not been tried or leased, and can be leased from its
      start on and no sooner; every other row is as it was. */
  lemma NewJobIsAsAsked(db: Db, id: JobId, kind: string, key: string, maxAttempts: int, runAt: int)
    requires key != [] && 1 <= maxAttempts && !KeyTaken(db, key) && id !in db
    ensures var (db', r) := Enqueue(db, id, kind, key, maxAttempts, runAt);
      && r == Ok(id) && db'.Keys == db.Keys + {id}
      && (forall other :: other in db ==> db'[other] == db[other])
      && var row := db'[id].row;
         && row.kind == kind && row.key == key && row.maxAttempts == maxAttempts && row.attempt == 0
         && row.state.Pending?
         && row.leasedBy.None? && row.leaseUntil.None? && row.lastError.None?
         && db'[id].claims == [] && db'[id].effects == []
         && forall t :: Leasable(row, t) <==> t >= runAt
  {
  }

  /** The job claimed and failed for a passing reason. */
  function Retried(r: Record, id: JobId, worker: string, reason: string, now: int): Record {
    var (leased, c) := Lease(r, id, worker, 60, now);
    if c.None? then r else Fail(leased, c.value, Transient, reason, 0, now).0
  }

  function RetriedTimes(r: Record, id: JobId, worker: string, reason: string, now: int, n: nat): Record {
    if n == 0 then r else Retried(RetriedTimes(r, id, worker, reason, now, n - 1), id, worker, reason, now)
  }

  /** A job can be tried exactly as often as its budget says: until then a passing failure leaves it runnable, the last
      one leaves it dead. */
  lemma {:induction false} BudgetIsSpentExactly(r: Record, id: JobId, worker: string, reason: string, now: int, n: nat)
    requires r.row.state.Pending? && r.row.attempt == 0 && r.row.leaseUntil.None? && r.row.nextRunAt <= now
    requires n <= r.row.maxAttempts && r.row.maxAttempts >= 1
    ensures var row := RetriedTimes(r, id, worker, reason, now, n).row;
      && row.attempt == n && row.maxAttempts == r.row.maxAttempts && row.leaseUntil.None? && row.nextRunAt <= now
      && (n < r.row.maxAttempts ==> row.state.Pending? && Leasable(row, now))
      && (n == r.row.maxAttempts ==> row.state.Dead? && forall t :: !Leasable(row, t))
  {
    hide FailureText;
    if n > 0 {
      BudgetIsSpentExactly(r, id, worker, reason, now, n - 1);
    }
  }

  /** So a new job is tried as often as it was enqueued for. */
  lemma NewJobHasItsBudget(db: Db, id: JobId, kind: string, key: string, maxAttempts: int, runAt: int, worker: string,
                           reason: string, n: nat)
    requires key != [] && n <= maxAttempts && 1 <= maxAttempts && !KeyTaken(db, key) && id !in db
    ensures var db' := Enqueue(db, id, kind, key, maxAttempts, runAt).0;
      id in db' && (RetriedTimes(db'[id], id, worker, reason, runAt, n).row.state.Dead? <==> n == maxAttempts)
  {
    hide Enqueue, RetriedTimes;
    NewJobIsAsAsked(db, id, kind, key, maxAttempts, runAt);
    var db' := Enqueue(db, id, kind, key, maxAttempts, runAt).0;
    assert Leasable(db'[id].row, runAt);
    BudgetIsSpentExactly(db'[id], id, worker, reason, runAt, n);
  }

  // ---- what the records say

  /** The guard passes exactly the worker and the attempt the row is leased to, while the lease lasts. */
  lemma HeldExactly(j: Job, c: ClaimedJob, now: int)
    ensures Holds(j, c, now) <==>
      && j.state == Leased && j.leasedBy == Some(c.worker) && j.attempt == c.attempt
      && j.leaseUntil.Some? && now <= j.leaseUntil.value
    ensures Holds(j, c, now) ==> forall other: string :: other != c.worker ==> !Holds(j, c.(worker := other), now)
  {
  }

  /** A completion leaves the row succeeded, unleased and without an error, and the effect committed; nothing else is
      touched. */
  lemma CompletedExactly(r: Record, c: ClaimedJob, now: int)
    ensures var (r', result) := Complete(r, c, now);
      && (result.Ok? <==> Holds(r.row, c, now))
      && (result.Err? ==> r' == r)
      && (result.Ok? ==>
        && r'.row.state == Succeeded && r'.row.leasedBy == None && r'.row.leaseUntil == None && r'.row.lastError == None
        && r'.row.attempt == r.row.attempt && r'.row.maxAttempts == r.row.maxAttempts
        && r'.effects == r.effects + [c] && r'.claims == r.claims)
  {
  }

  /** A failure keeps its kind and its reason, or as much of it as the column takes, and says when it was the last. */
  lemma FailureKeepsItsReason(r: Record, c: ClaimedJob, kind: FailureKind, reason: string, delay: int, now: int)
    requires Holds(r.row, c, now)
    ensures var error := Fail(r, c, kind, reason, delay, now).0.row.lastError;
      && error.Some?
      && var prefix := if kind == Terminal then "TERMINAL: " else "TRANSIENT: ";
         var kept := reason[..if |reason| <= 2000 then |reason| else 2000];
         && prefix + kept <= error.value
         && error.value[|prefix + kept|..]
            == if kind == Transient && c.attempt >= c.maxAttempts then " (attempts exhausted)" else ""
  {
  }

  /** A dead job is resumed exactly by a named actor in a known role with a reason that is more than white space. */
  lemma ResumeNeedsAReason(r: Record, actor: string, role: string, reason: string, now: int)
    requires r.row.state.Dead?
    ensures Resume(r, actor, role, reason, now).1.Ok?
      <==> actor != [] && KnownRole(role) && exists i :: 0 <= i < |reason| && !IsSpace(reason[i])
    ensures (forall i :: 0 <= i < |reason| ==> reason[i] in {' ', '\t', '\n', '\r'}) ==>
      Resume(r, actor, role, reason, now) == (r, Err(ResumeRequiresReason))
  {
    hide KnownRole;
  }

  // ---- leases

  /** While a lease is live by a caller's clock, that caller cannot take it, whoever it is. */
  lemma LiveLeaseIsExclusive(r: Record, id: JobId, c: ClaimedJob, worker: string, seconds: int, now: int)
    requires Holds(r.row, c, now)
    ensures Lease(r, id, worker, seconds, now) == (r, None)
  {
  }

  /** A granted lease is its holder's, and nobody else's, up to its end and not beyond; so is a renewed one. */
  lemma LeaseLastsUntilItsEnd(r: Record, id: JobId, worker: string, seconds: int, now: int, t: int, other: string)
    requires Lease(r, id, worker, seconds, now).1.Some?
    ensures var (r', c) := Lease(r, id, worker, seconds, now);
      && c.value.worker == worker && c.value.leaseUntil == now + seconds && c.value.attempt == r.row.attempt + 1
      && (Holds(r'.row, c.value, t) <==> t <= now + seconds)
      && (t <= now + seconds ==> Lease(r', id, other, seconds, t) == (r', None))
  {
    if t <= now + seconds {
      var (r', c) := Lease(r, id, worker, seconds, now);
      LiveLeaseIsExclusive(r', id, c.value, other, seconds, t);
    }
  }

  lemma RenewalMovesTheEnd(r: Record, id: JobId, c: ClaimedJob, seconds: int, now: int, t: int, other: string)
    requires Holds(r.row, c, now)
    ensures var r' := Renew(r, c, seconds, now).0;
      && (Holds(r'.row, c, t) <==> t <= now + seconds)
      && (t <= now + seconds ==> Lease(r', id, other, seconds, t) == (r', None))
      && r'.claims == r.claims && r'.effects == r.effects
  {
    if t <= now + seconds {
      LiveLeaseIsExclusive(Renew(r, c, seconds, now).0, id, c, other, seconds, t);
    }
  }

  /** An expired lease is taken over exactly when attempts are left. */
  lemma ExpiredLeaseIsRetakenWithinBudget(r: Record, id: JobId, worker: string, seconds: int, now: int)
    requires RecordValid(id, r) && r.row.state.Leased? && r.row.leaseUntil.value < now && r.row.nextRunAt <= now
    ensures Lease(r, id, worker, seconds, now).1.Some? <==> r.row.attempt < r.row.maxAttempts
  {
  }

  function TimeOf(a: Action): int {
    match a
    case Leasing(_, _, now) => now
    case Renewing(_, _, now) => now
    case Completing(_, now) => now
    case Failing(_, _, _, _, now) => now
    case Resuming(_, _, _, now) => now
  }

  /** Every event on the job is dated after its lease ran out. */
  predicate Late(events: seq<Event>, id: JobId, until: int) {
    forall i :: 0 <= i < |events| && events[i].On? && events[i].id == id ==> TimeOf(events[i].action) > until
  }

  lemma LateActionOnExpiredLease(r: Record, id: JobId, a: Action)
    requires r.row.state.Leased? && r.row.leaseUntil.Some? && TimeOf(a) > r.row.leaseUntil.value
    requires r.row.attempt >= r.row.maxAttempts
    ensures Act(r, id, a) == r
  {
    hide FailureText, Audited;
  }

  /** A worker that crashes on its last attempt leaves a row nobody can move once the lease has run out: it never
      becomes SUCCEEDED or DEAD, so it cannot be resumed either. */
  lemma {:induction false} LastAttemptCrashIsStuck(db: Db, events: seq<Event>, id: JobId)
    requires id in db && db[id].row.state.Leased? && db[id].row.leaseUntil.Some?
    requires db[id].row.attempt >= db[id].row.maxAttempts
    requires Late(events, id, db[id].row.leaseUntil.value)
    ensures id in Run(db, events) && Run(db, events)[id] == db[id]
  {
    hide Act;
    if events != [] {
      var prior, e := events[..|events| - 1], events[|events| - 1];
      assert forall i :: 0 <= i < |prior| ==> prior[i] == events[i];
      LastAttemptCrashIsStuck(db, prior, id);
      if e.On? && e.id == id {
        LateActionOnExpiredLease(db[id], id, e.action);
      }
    }
  }

  /** And a run reaches such a row: one enqueue, one claim, one crash. */
  lemma LastAttemptCrashHappens(id: JobId, kind: string, key: string, worker: string, seconds: int)
    requires key != []
    ensures var events := [Enqueuing(id, kind, key, 1, 0), On(id, Leasing(worker, seconds, 0))];
      && Happens(map[], events) && id in Run(map[], events)
      && var j := Run(map[], events)[id].row;
        j.state.Leased? && j.leaseUntil == Some(seconds) && j.attempt == j.maxAttempts
  {
    var events := [Enqueuing(id, kind, key, 1, 0), On(id, Leasing(worker, seconds, 0))];
    assert events[..2] == events && events[..1] == [events[0]] && events[..0] == [];
    assert Run(map[], events[..1]) == map[id := NewRecord(kind, key, 1, 0)];
  }

  lemma ClaimThenComplete(db: Db, id: JobId, worker: string, now: int)
    requires id in db && Leasable(db[id].row, now)
    ensures var events := [On(id, Leasing(worker, 0, now)),
      On(id, Completing(Granted(id, db[id].row, worker, 0, now), now))];
      && Happens(db, events) && id in Run(db, events) && Run(db, events)[id].row.state.Succeeded?
  {
    var c := Granted(id, db[id].row, worker, 0, now);
    var events := [On(id, Leasing(worker, 0, now)), On(id, Completing(c, now))];
    assert events[..2] == events && events[..1] == [events[0]] && events[..0] == [];
    var leased := Step(db, events[0]);
    assert Run(db, events[..0]) == db && Run(db, events[..1]) == leased;
    assert c in leased[id].claims && Holds(leased[id].row, c, now);
  }

  lemma NothingHappens(db: Db)
    ensures Happens(db, []) && Run(db, []) == db
  {
  }

  lemma StepOn(db: Db, id: JobId, a: Action)
    requires id in db
    ensures Step(db, On(id, a)) == db[id := Act(db[id], id, a)]
  {
  }

  lemma HappensFrom(db: Db, first: Event, rest: seq<Event>)
    requires Possible(db, first) && Happens(Step(db, first), rest)
    ensures Happens(db, [first] + rest)
  {
    hide Possible, Step, Run;
    var events := [first] + rest;
    forall i | 0 <= i < |events|
      ensures Possible(Run(db, events[..i]), events[i])
    {
      if i == 0 {
        NothingHappens(db);
        assert events[..0] == [];
      } else {
        assert events[..i] == [first] + rest[..i - 1];
        RunFrom(db, first, rest[..i - 1]);
      }
    }
  }

  lemma {:induction false} RunFrom(db: Db, first: Event, rest: seq<Event>)
    ensures Run(db, [first] + rest) == Run(Step(db, first), rest)
  {
    var events := [first] + rest;
    if rest == [] {
      assert events == [first] && events[..0] == [];
    } else {
      assert events[..|events| - 1] == [first] + rest[..|rest| - 1];
      RunFrom(db, first, rest[..|rest| - 1]);
    }
  }

  /** Every other job can still succeed, however late: a pending one by a claim, an expired one by a re-claim, a dead
      one by a resume. Together with `LastAttemptCrashIsStuck` this says exactly which jobs are lost. */
  lemma CanStillSucceed(db: Db, id: JobId, after: int, worker: string, actor: string, role: string, reason: string)
    requires DbValid(db) && id in db && Audited(actor, role, reason)
    requires !(db[id].row.state.Leased? && db[id].row.attempt >= db[id].row.maxAttempts)
    ensures exists events ::
      && Happens(db, events) && Late(events, id, after)
      && id in Run(db, events) && Run(db, events)[id].row.state.Succeeded?
  {
    hide Audited, Run, Step, Happens, FailureText;
    var r := db[id];
    assert RecordValid(id, r);
    if r.row.state.Succeeded? {
      NothingHappens(db);
      assert Late([], id, after);
    } else if r.row.state.Dead? {
      var now := after + 1;
      var resuming := On(id, Resuming(actor, role, reason, now));
      var resumed := Step(db, resuming);
      assert resumed == db[id := Resume(r, actor, role, reason, now).0] by { StepOn(db, id, resuming.action); }
      var rest := [On(id, Leasing(worker, 0, now)),
        On(id, Completing(Granted(id, resumed[id].row, worker, 0, now), now))];
      ClaimThenComplete(resumed, id, worker, now);
      RunFrom(db, resuming, rest);
      HappensFrom(db, resuming, rest);
      assert Late([resuming] + rest, id, after);
    } else {
      var now := Max(after + 1,
        Max(r.row.nextRunAt, if r.row.leaseUntil.Some? then r.row.leaseUntil.value + 1 else after));
      var events := [On(id, Leasing(worker, 0, now)), On(id, Completing(Granted(id, r.row, worker, 0, now), now))];
      ClaimThenComplete(db, id, worker, now);
      assert Late(events, id, after);
    }
  }

  /** A dead job stays as it is until somebody resumes it by name and with a reason. */
  lemma DeadOnlyLeavesByResume(r: Record, id: JobId, a: Action)
    requires r.row.state.Dead?
    ensures Act(r, id, a) != r ==> a.Resuming? && Audited(a.actor, a.role, a.reason)
  {
    hide FailureText, Audited;
  }

  /** A resumed job has its whole budget again and can be claimed at once, under a token no earlier claim carries. */
  lemma ResumeGivesAFreshToken(r: Record, id: JobId, actor: string, role: string, reason: string, now: int,
                               worker: string, seconds: int)
    requires RecordValid(id, r) && r.row.state.Dead? && Audited(actor, role, reason)
    ensures var resumed := Resume(r, actor, role, reason, now).0;
      && resumed.row.maxAttempts - resumed.row.attempt == r.row.maxAttempts
      && (forall t :: Leasable(resumed.row, t) <==> t >= now)
      && Lease(resumed, id, worker, seconds, now).1.Some?
      && forall c :: c in r.claims ==> c.attempt < Lease(resumed, id, worker, seconds, now).1.value.attempt
  {
    hide Audited;
    forall c | c in r.claims
      ensures c.attempt <= r.row.attempt
    {
      var k :| 0 <= k < |r.claims| && r.claims[k] == c;
      assert ClaimFits(id, r.row, k + 1, r.claims[k]);
    }
  }

  /** A failure reported by the lease holder is dead-lettered exactly when it is terminal or the row's own budget, and
      not just the claim's copy of it, is spent. */
  lemma FailureFollowsTheRowsBudget(r: Record, id: JobId, c: ClaimedJob, kind: FailureKind, reason: string, delay: int,
                                    now: int)
    requires RecordValid(id, r) && c in r.claims && Holds(r.row, c, now)
    ensures var (r', state) := Fail(r, c, kind, reason, delay, now);
      && state == Ok(r'.row.state)
      && (r'.row.state.Dead? <==> kind.Terminal? || r.row.attempt == r.row.maxAttempts)
      && (!r'.row.state.Dead? ==> forall t :: Leasable(r'.row, t) <==> t >= now + delay)
  {
    hide FailureText;
    HolderIsTheLastClaim(r, id, c, now);
  }
}
