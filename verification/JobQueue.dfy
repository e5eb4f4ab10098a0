/** The queue and the worker as the source has them: a table updated in place by one guarded update at a time. */
module JobQueue {
  import opened Results
  import opened J = Jobs

  /** The order in which runnable jobs are tried. */
  predicate Before(db: Db, a: JobId, b: JobId) {
    && a in db && b in db
    && (|| db[a].row.nextRunAt < db[b].row.nextRunAt
        || (db[a].row.nextRunAt == db[b].row.nextRunAt && a <= b))
  }

  predicate Candidate(db: Db, id: JobId, kinds: seq<string>, jobIds: Option<seq<JobId>>, now: int) {
    && id in db && Leasable(db[id].row, now) && db[id].row.kind in kinds
    && (jobIds.Some? ==> id in jobIds.value)
  }

  /** What it takes to be tried, read off the row and the call. */
  lemma CandidatesAreRunnable(db: Db, id: JobId, kinds: seq<string>, jobIds: Option<seq<JobId>>, now: int)
    ensures Candidate(db, id, kinds, jobIds, now) <==>
      && id in db && db[id].row.kind in kinds && (jobIds.None? || id in jobIds.value)
      && !db[id].row.state.Succeeded? && !db[id].row.state.Dead?
      && db[id].row.attempt < db[id].row.maxAttempts && db[id].row.nextRunAt <= now
      && (db[id].row.leaseUntil.None? || db[id].row.leaseUntil.value < now)
  {
  }

  /** Of two jobs the one due sooner comes first, and of two due at once the older id. */
  lemma SoonerComesFirst(db: Db, a: JobId, b: JobId)
    requires a in db && b in db
    ensures db[a].row.nextRunAt < db[b].row.nextRunAt ==> Before(db, a, b) && !Before(db, b, a)
    ensures db[a].row.nextRunAt == db[b].row.nextRunAt && a < b ==> Before(db, a, b) && !Before(db, b, a)
    ensures Before(db, a, b) || Before(db, b, a)
  {
  }

  class JobQueue {
    var records: Db

    constructor ()
      ensures records == map[]
    {
      records := map[];
    }

    method Enqueue(id: JobId, kind: string, key: string, maxAttempts: int, runAt: Option<int>, now: int)
      returns (r: Result<JobId, Error>)
      requires forall a, b :: a in records && b in records && records[a].row.key == records[b].row.key ==> a == b
      modifies this
      ensures var start := if runAt.Some? then runAt.value else now;
        (records, r) == J.Enqueue(old(records), id, kind, key, maxAttempts, start)
    {
      if key == [] {
        return Err(KeyRequired);
      }
      if maxAttempts < 1 {
        return Err(AttemptsConstraint);
      }
      var todo := records.Keys;
      while todo != {}
        invariant todo <= records.Keys && records == old(records)
        invariant forall j :: j in records && j !in todo ==> records[j].row.key != key
        decreases todo
      {
        var j :| j in todo;
        if records[j].row.key == key {
          return Ok(j);
        }
        todo := todo - {j};
      }
      if id in records {
        return Err(DuplicateId);
      }
      records := records[id := NewRecord(kind, key, maxAttempts, if runAt.Some? then runAt.value else now)];
      r := Ok(id);
    }

    /** The runnable jobs, soonest first, at most `limit` of them. */
    method Select(kinds: seq<string>, limit: nat, jobIds: Option<seq<JobId>>, now: int) returns (rows: seq<JobId>)
      ensures forall i :: 0 <= i < |rows| ==> Candidate(records, rows[i], kinds, jobIds, now)
      ensures forall i, k :: 0 <= i < k < |rows| ==> rows[i] != rows[k] && Before(records, rows[i], rows[k])
      ensures |rows| <= limit
      ensures |rows| < limit ==> forall id :: Candidate(records, id, kinds, jobIds, now) ==> id in rows
      ensures forall id, i :: Candidate(records, id, kinds, jobIds, now) && id !in rows && 0 <= i < |rows| ==>
                Before(records, rows[i], id)
    {
      hide Leasable;
      rows := [];
      var left := set id | id in records && Candidate(records, id, kinds, jobIds, now);
      while |rows| < limit && left != {}
        invariant |rows| <= limit
        invariant forall id :: id in left ==> Candidate(records, id, kinds, jobIds, now) && id !in rows
        invariant forall id :: Candidate(records, id, kinds, jobIds, now) ==> id in left || id in rows
        invariant forall i :: 0 <= i < |rows| ==> Candidate(records, rows[i], kinds, jobIds, now)
        invariant forall i, k :: 0 <= i < k < |rows| ==> rows[i] != rows[k] && Before(records, rows[i], rows[k])
        invariant forall i, id :: 0 <= i < |rows| && id in left ==> Before(records, rows[i], id)
        decreases left
      {
        var first := Soonest(left);
        rows, left := rows + [first], left - {first};
      }
    }

    method Soonest(ids: set<JobId>) returns (first: JobId)
      requires ids != {} && ids <= records.Keys
      ensures first in ids && forall id :: id in ids ==> Before(records, first, id)
    {
      first :| first in ids;
      var todo := ids - {first};
      while todo != {}
        invariant first in ids && todo <= ids
        invariant forall id :: id in ids && id !in todo ==> Before(records, first, id)
        decreases todo
      {
        var id :| id in todo;
        if records[id].row.nextRunAt < records[first].row.nextRunAt
           || (records[id].row.nextRunAt == records[first].row.nextRunAt && id < first) {
          first := id;
        }
        todo := todo - {id};
      }
    }

    /** The database's atomic lease; the token goes to the caller that won the row. */
    method LeaseJob(id: JobId, worker: string, seconds: int, now: int) returns (won: Option<ClaimedJob>)
      modifies this
      ensures records == J.Step(old(records), On(id, Leasing(worker, seconds, now)))
      ensures won == if id in old(records) then Lease(old(records)[id], id, worker, seconds, now).1 else None
      ensures won.None? ==> records == old(records)
    {
      if id in records && Leasable(records[id].row, now) {
        var j := records[id].row;
        var c := Granted(id, j, worker, seconds, now);
        records := records[id := Record(j.(state := Leased, leasedBy := Some(worker), leaseUntil := Some(now + seconds),
                                           attempt := j.attempt + 1),
                                        records[id].claims + [c], records[id].effects)];
        won := Some(c);
      } else {
        assert id in records ==> records[id := records[id]] == records;
        won := None;
      }
    }

    /** Try rows read earlier, possibly stale, until one is won. */
    method LeaseFirst(rows: seq<JobId>, worker: string, seconds: int, now: int) returns (won: Option<ClaimedJob>)
      modifies this
      ensures won.None? ==> records == old(records)
      ensures won.None? <==> forall i :: 0 <= i < |rows| && rows[i] in old(records) ==>
        !Leasable(old(records)[rows[i]].row, now)
      ensures won.Some? ==> won.value.jobId in old(records) && exists i ::
          && 0 <= i < |rows| && rows[i] == won.value.jobId
          && (forall k :: 0 <= k < i && rows[k] in old(records) ==> !Leasable(old(records)[rows[k]].row, now))
      ensures won.Some? ==> var id := won.value.jobId;
        && Leasable(old(records)[id].row, now)
        && won.value == Granted(id, old(records)[id].row, worker, seconds, now)
        && records == J.Step(old(records), On(id, Leasing(worker, seconds, now)))
    {
      for i := 0 to |rows|
        invariant records == old(records)
        invariant forall k :: 0 <= k < i && rows[k] in records ==> !Leasable(records[rows[k]].row, now)
      {
        won := LeaseJob(rows[i], worker, seconds, now);
        if won.Some? {
          return;
        }
      }
      won := None;
    }

    /** A job is granted exactly when one is runnable, and then the soonest. */
    method Claim(worker: string, kinds: seq<string>, seconds: int, candidates: nat, jobIds: Option<seq<JobId>>,
                 now: int)
      returns (won: Option<ClaimedJob>)
      modifies this
      ensures won.None? ==> records == old(records)
      ensures won.None? <==> candidates == 0 || forall id :: !Candidate(old(records), id, kinds, jobIds, now)
      ensures won.Some? ==> var id := won.value.jobId;
        && Candidate(old(records), id, kinds, jobIds, now)
        && (forall other :: Candidate(old(records), other, kinds, jobIds, now) ==> Before(old(records), id, other))
        && won.value == Granted(id, old(records)[id].row, worker, seconds, now)
        && records == J.Step(old(records), On(id, Leasing(worker, seconds, now)))
    {
      hide Leasable, J.Step;
      if kinds == [] || (jobIds.Some? && jobIds.value == []) {
        return None;
      }
      var rows := Select(kinds, candidates, jobIds, now);
      assert rows != [] ==> Leasable(records[rows[0]].row, now);
      won := LeaseFirst(rows, worker, seconds, now);
    }

    /** One update of one row, applied only under the caller's own live lease. */
    method FencedUpdate(c: ClaimedJob, change: Record -> Record, now: int) returns (r: Result<(), Error>)
      modifies this
      ensures r.Ok? <==> c.jobId in old(records) && Holds(old(records)[c.jobId].row, c, now)
      ensures r == Ok(()) || r == Err(LeaseLost)
      ensures r.Ok? ==> records == old(records)[c.jobId := change(old(records)[c.jobId])]
      ensures r.Err? ==> records == old(records)
    {
      if c.jobId !in records || !Holds(records[c.jobId].row, c, now) {
        return Err(LeaseLost);
      }
      records := records[c.jobId := change(records[c.jobId])];
      r := Ok(());
    }

    method RenewLease(c: ClaimedJob, seconds: int, now: int) returns (r: Result<(), Error>)
      modifies this
      ensures records == J.Step(old(records), On(c.jobId, Renewing(c, seconds, now)))
      ensures r == if c.jobId in old(records) then Renew(old(records)[c.jobId], c, seconds, now).1 else Err(LeaseLost)
    {
      r := FencedUpdate(c, (x: Record) => x.(row := x.row.(leaseUntil := Some(now + seconds))), now);
      assert c.jobId in records ==> records[c.jobId := records[c.jobId]] == records;
    }

    /** Called in the handler's own transaction, so the effect commits with it or not at all. */
    method Complete(c: ClaimedJob, now: int) returns (r: Result<(), Error>)
      modifies this
      ensures records == J.Step(old(records), On(c.jobId, Completing(c, now)))
      ensures r == if c.jobId in old(records) then J.Complete(old(records)[c.jobId], c, now).1 else Err(LeaseLost)
    {
      r := FencedUpdate(c, (x: Record) =>
        Record(x.row.(state := Succeeded, leaseUntil := None, leasedBy := None, lastError := None), x.claims,
               x.effects + [c]), now);
      assert c.jobId in records ==> records[c.jobId := records[c.jobId]] == records;
    }

    method Fail(c: ClaimedJob, kind: FailureKind, reason: string, delay: int, now: int)
      returns (r: Result<State, Error>)
      modifies this
      ensures records == J.Step(old(records), On(c.jobId, Failing(c, kind, reason, delay, now)))
      ensures r == if c.jobId in old(records) then J.Fail(old(records)[c.jobId], c, kind, reason, delay, now).1
        else Err(LeaseLost)
    {
      hide FailureText;
      var exhausted := c.attempt >= c.maxAttempts;
      var error := Some(FailureText(kind, reason, exhausted));
      var done: Result<(), Error>;
      if kind.Terminal? || exhausted {
        done := FencedUpdate(c, (x: Record) =>
          x.(row := x.row.(state := Dead, leaseUntil := None, leasedBy := None, lastError := error)), now);
        r := Ok(Dead);
      } else {
        done := FencedUpdate(c, (x: Record) =>
          x.(row := x.row.(state := Pending, leaseUntil := None, leasedBy := None, lastError := error,
                           nextRunAt := now + delay)), now);
        r := Ok(Pending);
      }
      assert c.jobId in records ==> records[c.jobId := records[c.jobId]] == records;
      if done.Err? {
        r := Err(LeaseLost);
      }
    }

    method Resume(id: JobId, actor: string, role: string, reason: string, now: int) returns (r: Result<(), Error>)
      modifies this
      ensures records == J.Step(old(records), On(id, Resuming(actor, role, reason, now)))
      ensures r == if !Audited(actor, role, reason) then Err(ResumeRequiresReason)
                   else if id !in old(records) then Err(NotFound)
                   else J.Resume(old(records)[id], actor, role, reason, now).1
    {
      hide KnownRole, Blank;
      assert id in records ==> records[id := records[id]] == records;
      if actor == [] || Blank(reason) || !KnownRole(role) {
        return Err(ResumeRequiresReason);
      }
      if id !in records {
        return Err(NotFound);
      }
      var row := records[id].row;
      if !row.state.Dead? {
        return Err(NotDead);
      }
      var maxAttempts := row.maxAttempts + row.attempt;
      records := records[id :=
        records[id].(row := row.(state := Pending, maxAttempts := maxAttempts, leaseUntil := None,
                                                       leasedBy := None, nextRunAt := now))];
      r := Ok(());
    }
  }

  // ---- worker

  /** How a handler ends. */
  datatype Outcome =
    | Returned
    | RaisedLeaseLost
    | RaisedTerminal(error: string)
    | RaisedTransient(error: string)
    | RaisedOther(exception: string, error: string)

  datatype Reported = JobSucceeded | JobPending | JobDead | JobLeaseLost | HandlerMissing

  /** A raised handler is recorded as a failure: terminal ones as such, everything else as transient. */
  function FailureOf(outcome: Outcome): Option<(FailureKind, string)> {
    match outcome
    case Returned => None
    case RaisedLeaseLost => None
    case RaisedTerminal(error) => Some((Terminal, error))
    case RaisedTransient(error) => Some((Transient, error))
    case RaisedOther(exception, error) => Some((Transient, exception + ": " + error))
  }

  /** What a worker does to the table with one claimed job; `now` is the handler transaction's time, `later` the
      failure's. */
  ghost function Outcomes(db: Db, kinds: seq<string>, c: ClaimedJob, outcome: Outcome, delay: int, now: int, later: int)
    : Db {
    if c.kind !in kinds then db
    else if outcome.Returned? then J.Step(db, On(c.jobId, Completing(c, now)))
    else if FailureOf(outcome).None? then db
    else J.Step(db, On(c.jobId, Failing(c, FailureOf(outcome).value.0, FailureOf(outcome).value.1, delay, later)))
  }

  /** A handler that returned succeeds; one that raised for good is dead-lettered; any other exception is retried after
      the delay, or dead-lettered when the attempts are spent; and a lost lease records nothing. */
  lemma OutcomeDecidesTheState(db: Db, kinds: seq<string>, c: ClaimedJob, outcome: Outcome, delay: int, now: int,
                               later: int)
    requires c.kind in kinds && c.jobId in db
    ensures var before, after := db[c.jobId], Outcomes(db, kinds, c, outcome, delay, now, later)[c.jobId];
      match outcome
      case Returned => Holds(before.row, c, now) ==> after.row.state.Succeeded? && after.effects == before.effects + [c]
      case RaisedLeaseLost => after == before
      case RaisedTerminal(_) => Holds(before.row, c, later) ==> after.row.state.Dead? && after.effects == before.effects
      case _ => Holds(before.row, c, later) ==>
        && after.effects == before.effects
        && (if c.attempt < c.maxAttempts then after.row.state.Pending? && after.row.nextRunAt == later + delay
            else after.row.state.Dead?)
    ensures forall other :: other in db && other != c.jobId ==>
      other in Outcomes(db, kinds, c, outcome, delay, now, later)
      && Outcomes(db, kinds, c, outcome, delay, now, later)[other] == db[other]
  {
    hide FailureText;
  }

  class Worker {
    const queue: JobQueue
    const kinds: seq<string>
    const workerId: string
    const leaseSeconds: int

    constructor (queue: JobQueue, kinds: seq<string>, workerId: string, leaseSeconds: int)
      ensures this.queue == queue && this.kinds == kinds && this.workerId == workerId
        && this.leaseSeconds == leaseSeconds
    {
      this.queue, this.kinds, this.workerId, this.leaseSeconds := queue, kinds, workerId, leaseSeconds;
    }

    method RunOne(job: ClaimedJob, outcome: Outcome, delay: int, now: int, later: int) returns (state: Reported)
      modifies queue
      ensures queue.records == Outcomes(old(queue.records), kinds, job, outcome, delay, now, later)
      ensures state.JobSucceeded? <==>
        && job.kind in kinds && outcome.Returned?
        && job.jobId in old(queue.records) && Holds(old(queue.records)[job.jobId].row, job, now)
      ensures state.JobSucceeded? ==>
        queue.records[job.jobId].effects == old(queue.records)[job.jobId].effects + [job]
      ensures state.JobPending? || state.JobDead? ==>
        && job.jobId in old(queue.records) && Holds(old(queue.records)[job.jobId].row, job, later)
        && queue.records[job.jobId].row.state == (if state.JobDead? then Dead else Pending)
      ensures !state.JobSucceeded? ==> forall id :: id in old(queue.records) ==>
        id in queue.records && queue.records[id].effects == old(queue.records)[id].effects
      ensures state.HandlerMissing? <==> job.kind !in kinds
      ensures state.JobLeaseLost? || state.HandlerMissing? ==> queue.records == old(queue.records)
    {
      hide FailureText;
      if job.kind !in kinds {
        return HandlerMissing;
      }
      match outcome {
        case Returned =>
          var completed := queue.Complete(job, now);
          state := if completed.Ok? then JobSucceeded else JobLeaseLost;
        case RaisedLeaseLost =>
          state := JobLeaseLost;
        case RaisedTerminal(error) =>
          state := RecordFailure(job, Terminal, error, delay, later);
        case RaisedTransient(error) =>
          state := RecordFailure(job, Transient, error, delay, later);
        case RaisedOther(exception, error) =>
          state := RecordFailure(job, Transient, exception + ": " + error, delay, later);
      }
    }

    method RecordFailure(job: ClaimedJob, kind: FailureKind, reason: string, delay: int, now: int)
      returns (state: Reported)
      modifies queue
      ensures queue.records == J.Step(old(queue.records), On(job.jobId, Failing(job, kind, reason, delay, now)))
      ensures state.JobLeaseLost? || state.JobPending? || state.JobDead?
      ensures state.JobLeaseLost?
        <==> !(job.jobId in old(queue.records) && Holds(old(queue.records)[job.jobId].row, job, now))
      ensures state.JobPending? || state.JobDead? ==>
        queue.records[job.jobId].row.state == (if state.JobDead? then Dead else Pending)
      ensures forall id :: id in old(queue.records) ==>
        id in queue.records && queue.records[id].effects == old(queue.records)[id].effects
    {
      hide FailureText;
      var r := queue.Fail(job, kind, reason, delay, now);
      state := match r
        case Err(_) => JobLeaseLost
        case Ok(s) => if s.Dead? then JobDead else JobPending;
    }

    /** Claim and run at most one job. */
    method RunOnce(outcome: Outcome, delay: int, claimedAt: int, now: int, later: int) returns (state: Option<Reported>)
      modifies queue
      ensures state.None? <==> forall id :: !Candidate(old(queue.records), id, kinds, None, claimedAt)
      ensures state.None? ==> queue.records == old(queue.records)
      ensures state.Some? ==> !state.value.HandlerMissing? && exists id ::
        && Candidate(old(queue.records), id, kinds, None, claimedAt)
        && var c := Granted(id, old(queue.records)[id].row, workerId, leaseSeconds, claimedAt);
        && queue.records == Outcomes(J.Step(old(queue.records), On(id, Leasing(workerId, leaseSeconds, claimedAt))),
                                     kinds, c, outcome, delay, now, later)
    {
      hide Leasable, J.Step, Outcomes, Before;
      var job := queue.Claim(workerId, kinds, leaseSeconds, 8, None, claimedAt);
      if job.None? {
        return None;
      }
      var reported := RunOne(job.value, outcome, delay, now, later);
      state := Some(reported);
    }
  }
}
