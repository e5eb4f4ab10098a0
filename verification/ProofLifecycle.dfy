/** The proof request's life: job outcomes move its status, and the database lets a status in only with its evidence. */
module ProofLifecycle {
  import opened Results
  import opened Jobs

  datatype Status =
    | Observed | WaitingAttestation | ProofReady | Submitted | NativeAccepted | Consumed
    | Unsupported | Invalid | Expired

  datatype Kind = WaitAttestation | FetchArtifact | Submit | Confirm | Consume | Other(name: string)

  datatype Outcome = Done | NotReady | NetworkError | IsUnsupported | IsInvalid | IsExpired

  datatype Refusal =
    | UnknownKind
    | RequestNotFound
    | CheckViolation
    | RaisedTransient
    | RaisedTerminal

  /** Rows that prove what a status claims; none is ever deleted. */
  datatype Evidence = Evidence(artifacts: nat, accepted: nat, consumptions: nat)

  datatype Request = Request(status: Status, attempt: nat, lastError: Option<string>, evidence: Evidence)

  datatype Transition = Transition(before: Status, after: Status, next: Option<Kind>)

  // ---- tables

  function Classify(o: Outcome): Option<FailureKind> {
    match o
    case Done => None
    case NotReady => Some(Transient)
    case NetworkError => Some(Transient)
    case IsUnsupported => Some(Terminal)
    case IsInvalid => Some(Terminal)
    case IsExpired => Some(Terminal)
  }

  function DoneStatus(k: Kind): Status
    requires !k.Other?
  {
    match k
    case WaitAttestation => WaitingAttestation
    case FetchArtifact => ProofReady
    case Submit => Submitted
    case Confirm => NativeAccepted
    case Consume => Consumed
  }

  predicate MayStart(k: Kind, s: Status) {
    match k
    case WaitAttestation => s.Observed? || s.WaitingAttestation?
    case FetchArtifact => s.WaitingAttestation?
    case Submit => s.ProofReady?
    case Confirm => s.Submitted?
    case Consume => s.NativeAccepted?
    case Other(_) => false
  }

  function NextKind(k: Kind): Option<Kind> {
    match k
    case WaitAttestation => Some(FetchArtifact)
    case FetchArtifact => Some(Submit)
    case Submit => Some(Confirm)
    case Confirm => Some(Consume)
    case Consume => None
    case Other(_) => None
  }

  function FailedStatus(o: Outcome, k: Kind, s: Status): Status {
    match o
    case IsUnsupported => Unsupported
    case IsInvalid => Invalid
    case IsExpired => Expired
    case _ => if k.WaitAttestation? && s.Observed? then WaitingAttestation else s
  }

  predicate Closed(s: Status) {
    s.Invalid? || s.Unsupported? || s.Expired? || s.Consumed?
  }

  // ---- the database's own guards

  /** The trigger on `status`. */
  predicate Evidenced(s: Status, e: Evidence) {
    && (s.ProofReady? || s.Submitted? || s.NativeAccepted? || s.Consumed? ==> e.artifacts > 0)
    && (s.NativeAccepted? || s.Consumed? ==> e.accepted > 0)
    && (s.Consumed? ==> e.consumptions > 0)
  }

  function Added(e: Evidence, written: Evidence): Evidence {
    Evidence(e.artifacts + written.artifacts, e.accepted + written.accepted, e.consumptions + written.consumptions)
  }

  /** The trigger on consumptions: each refers to an accepted verification. */
  predicate MayWrite(e: Evidence, written: Evidence) {
    written.consumptions > 0 ==> e.accepted + written.accepted > 0
  }

  // ---- apply

  /** One handler transaction that writes evidence rows and then applies its outcome, with `error` the text to record.
      What it wrote stays only when the outcome is accepted; a failure's status is recorded on its own. */
  function Apply(r: Request, k: Kind, o: Outcome, written: Evidence, error: string)
    : (Request, Result<Transition, Refusal>) {
    if !MayWrite(r.evidence, written) then (r, Err(CheckViolation))
    else if k.Other? then (r, Err(UnknownKind))
    else if Closed(r.status) then (r, Err(RaisedTerminal))
    else if o.Done? then
      if !MayStart(k, r.status) then (r, Err(RaisedTerminal))
      else if !Evidenced(DoneStatus(k), Added(r.evidence, written)) then (r, Err(CheckViolation))
      else (Request(DoneStatus(k), r.attempt + 1, None, Added(r.evidence, written)),
            Ok(Transition(r.status, DoneStatus(k), NextKind(k))))
    else
      var after := FailedStatus(o, k, r.status);
      if !Evidenced(after, r.evidence) then (r, Err(CheckViolation))
      else (Request(after, r.attempt + 1, Some(error), r.evidence),
            Err(if Classify(o) == Some(Transient) then RaisedTransient else RaisedTerminal))
  }

  class ProofRequests {
    var requests: map<string, Request>

    constructor ()
      ensures requests == map[]
    {
      requests := map[];
    }

    method ApplyOutcome(id: string, k: Kind, o: Outcome, written: Evidence, error: string)
      returns (r: Result<Transition, Refusal>)
      modifies this
      ensures id !in old(requests) ==>
        requests == old(requests) && r == Err(if k.Other? then UnknownKind else RequestNotFound)
      ensures id in old(requests) ==>
        && requests == old(requests)[id := Apply(old(requests)[id], k, o, written, error).0]
        && r == Apply(old(requests)[id], k, o, written, error).1
    {
      if id !in requests {
        return Err(if k.Other? then UnknownKind else RequestNotFound);
      }
      var row := requests[id];
      assert requests[id := row] == requests;
      if !MayWrite(row.evidence, written) {
        return Err(CheckViolation);
      }
      if k.Other? {
        return Err(UnknownKind);
      }
      var before := row.status;
      if Closed(before) {
        return Err(RaisedTerminal);
      }
      var failure := Classify(o);
      if o.Done? {
        if !MayStart(k, before) {
          return Err(RaisedTerminal);
        }
        var after := DoneStatus(k);
        var evidence := Added(row.evidence, written);
        if !Evidenced(after, evidence) {
          return Err(CheckViolation);
        }
        requests := requests[id := Request(after, row.attempt + 1, None, evidence)];
        return Ok(Transition(before, after, NextKind(k)));
      }
      var after := FailedStatus(o, k, before);
      if !Evidenced(after, row.evidence) {
        return Err(CheckViolation);
      }
      requests := requests[id := Request(after, row.attempt + 1, Some(error), row.evidence)];
      r := Err(if failure == Some(Transient) then RaisedTransient else RaisedTerminal);
    }
  }

  // ---- runs

  datatype Event = Event(kind: Kind, outcome: Outcome, written: Evidence, error: string)

  function Run(r: Request, events: seq<Event>): Request {
    if events == [] then r
    else
      var e := events[|events| - 1];
      Apply(Run(r, events[..|events| - 1]), e.kind, e.outcome, e.written, e.error).0
  }

  /** The kinds whose outcome was accepted, in order. */
  function Accepted(r: Request, events: seq<Event>): (kinds: seq<Kind>)
    ensures |kinds| <= |events|
  {
    if events == [] then []
    else
      var prior, e := events[..|events| - 1], events[|events| - 1];
      Accepted(r, prior) +
      if Apply(Run(r, prior), e.kind, e.outcome, e.written, e.error).1.Ok? then [e.kind] else []
  }

  const Opened := Request(Observed, 0, None, Evidence(0, 0, 0))

  function Rank(s: Status): nat {
    match s
    case Observed => 0
    case WaitingAttestation => 1
    case ProofReady => 2
    case Submitted => 3
    case NativeAccepted => 4
    case Consumed => 5
    case _ => 6
  }

  const Route := [FetchArtifact, Submit, Confirm, Consume]

  /** Any number of waits, and then the first `n` kinds of the route, each once. */
  ghost predicate WaitsThenRoute(kinds: seq<Kind>, n: nat) {
    n <= 4 && n <= |kinds|
    && kinds[|kinds| - n..] == Route[..n]
    && forall i :: 0 <= i < |kinds| - n ==> kinds[i].WaitAttestation?
  }

  /** How far along the route a status is. */
  function Travelled(s: Status): nat {
    if Rank(s) < 2 then 0 else Rank(s) - 1
  }

  /** A request's status claims nothing its rows do not show, in every run. */
  lemma {:induction false} StatusIsAlwaysEvidenced(r: Request, events: seq<Event>)
    requires Evidenced(r.status, r.evidence)
    ensures Evidenced(Run(r, events).status, Run(r, events).evidence)
  {
    if events != [] {
      StatusIsAlwaysEvidenced(r, events[..|events| - 1]);
    }
  }

  /** From its opening on, in every run: no proof is ready, submitted, accepted or consumed without an artifact, none
      accepted or consumed without an accepted verification, none consumed without a consumption, and no consumption
      without an accepted verification. */
  lemma {:induction false} StatusShowsItsRows(events: seq<Event>)
    ensures var r := Run(Opened, events);
      && (2 <= Rank(r.status) < 6 ==> r.evidence.artifacts > 0)
      && (4 <= Rank(r.status) < 6 ==> r.evidence.accepted > 0)
      && (r.status == Consumed ==> r.evidence.consumptions > 0)
      && (r.evidence.consumptions > 0 ==> r.evidence.accepted > 0)
  {
    if events != [] {
      StatusShowsItsRows(events[..|events| - 1]);
    }
  }

  /** The rank never falls before a request closes, and a closed request never changes. */
  lemma {:induction false} StatusOnlyMovesForward(r: Request, events: seq<Event>)
    ensures Rank(r.status) <= Rank(Run(r, events).status)
    ensures r.attempt <= Run(r, events).attempt
    ensures Closed(r.status) ==> Run(r, events) == r
  {
    if events != [] {
      StatusOnlyMovesForward(r, events[..|events| - 1]);
    }
  }

  lemma WaitsThenRouteGrows(kinds: seq<Kind>, n: nat, k: Kind)
    requires WaitsThenRoute(kinds, n) && n < 4 && k == Route[n]
    ensures WaitsThenRoute(kinds + [k], n + 1)
  {
    var longer := kinds + [k];
    assert longer[|longer| - (n + 1)..] == kinds[|kinds| - n..] + [k];
    assert Route[..n + 1] == Route[..n] + [Route[n]];
  }

  /** Where a request with these accepted kinds may stand. */
  ghost predicate OnRoute(s: Status, kinds: seq<Kind>, n: nat) {
    WaitsThenRoute(kinds, n) && (Rank(s) < 6 ==> n == Travelled(s))
  }

  lemma RouteContinues(r: Request, e: Event, kinds: seq<Kind>, n: nat)
    requires OnRoute(r.status, kinds, n)
    ensures var (r', t) := Apply(r, e.kind, e.outcome, e.written, e.error);
      if t.Err? then OnRoute(r'.status, kinds, n)
      else OnRoute(r'.status, kinds + [e.kind], if e.kind.WaitAttestation? then 0 else n + 1)
  {
    hide WaitsThenRoute, Evidenced, Added, MayWrite;
    if Apply(r, e.kind, e.outcome, e.written, e.error).1.Ok? {
      if e.kind.WaitAttestation? {
        WaitsOnly(kinds);
      } else {
        WaitsThenRouteGrows(kinds, n, e.kind);
      }
    }
  }

  lemma NoKindsYet()
    ensures OnRoute(Observed, [], 0)
  {
    assert Route[..0] == [];
  }

  lemma WaitsOnly(kinds: seq<Kind>)
    requires WaitsThenRoute(kinds, 0)
    ensures WaitsThenRoute(kinds + [WaitAttestation], 0)
  {
    assert (kinds + [WaitAttestation])[|kinds| + 1..] == Route[..0];
  }

  /** The accepted kinds are always waits followed by fetch, submit, confirm, consume in that order, each at most once;
      an unfailed request's status says how many of them there were. */
  lemma {:induction false} AcceptedKindsFollowTheRoute(events: seq<Event>)
    ensures exists n: nat :: OnRoute(Run(Opened, events).status, Accepted(Opened, events), n)
  {
    hide Apply, OnRoute, Run, Accepted;
    if events == [] {
      NothingHappens(Opened);
      NoKindsYet();
    } else {
      var prior, e := events[..|events| - 1], events[|events| - 1];
      AcceptedKindsFollowTheRoute(prior);
      var n: nat :| OnRoute(Run(Opened, prior).status, Accepted(Opened, prior), n);
      RouteContinues(Run(Opened, prior), e, Accepted(Opened, prior), n);
      OneMore(Opened, prior, e);
      assert events == prior + [e];
      assert Accepted(Opened, prior) + [] == Accepted(Opened, prior);
      if Apply(Run(Opened, prior), e.kind, e.outcome, e.written, e.error).1.Ok? {
        var more := if e.kind.WaitAttestation? then 0 else n + 1;
        assert OnRoute(Run(Opened, events).status, Accepted(Opened, events), more);
      }
    }
  }

  /** CONSUMED is reached only through a successful fetch, submit, confirm and consume, in that order and each once,
      with an artifact, an accepted verification and a consumption on record. */
  lemma ConsumedOnlyByTheWholeRoute(events: seq<Event>)
    requires Run(Opened, events).status.Consumed?
    ensures WaitsThenRoute(Accepted(Opened, events), 4)
    ensures var e := Run(Opened, events).evidence; e.artifacts > 0 && e.accepted > 0 && e.consumptions > 0
  {
    AcceptedKindsFollowTheRoute(events);
    StatusIsAlwaysEvidenced(Opened, events);
  }

  // ---- how a request leaves OBSERVED

  /** A wait whose outcome is done, or merely transient. */
  predicate WaitsOn(held: Evidence, e: Event) {
    MayWrite(held, e.written) && e.kind.WaitAttestation? && (e.outcome.Done? || Classify(e.outcome) == Some(Transient))
  }

  predicate FailsForGood(held: Evidence, e: Event) {
    MayWrite(held, e.written) && !e.kind.Other? && Classify(e.outcome) == Some(Terminal)
  }

  /** An observed request starts waiting exactly on such a wait: being not ready, or a network error, is enough. */
  lemma WaitingStartsOnAnyWait(r: Request, e: Event)
    requires r.status.Observed?
    ensures var after := Apply(r, e.kind, e.outcome, e.written, e.error).0;
      && (after.status.WaitingAttestation? <==> WaitsOn(r.evidence, e))
      && (after.status.Observed? <==> !WaitsOn(r.evidence, e) && !FailsForGood(r.evidence, e))
      && (after.status.Observed? ==> after.evidence == r.evidence)
  {
  }

  /** Over every run, a request is still observed exactly when no wait was done or transient and no outcome terminal. */
  lemma {:induction false} StillObserved(r: Request, events: seq<Event>)
    requires r.status.Observed?
    ensures Run(r, events).status.Observed?
      <==> forall i :: 0 <= i < |events| ==> !WaitsOn(r.evidence, events[i]) && !FailsForGood(r.evidence, events[i])
    ensures Run(r, events).status.Observed? ==> Run(r, events).evidence == r.evidence
  {
    hide Apply, WaitsOn, FailsForGood;
    if events != [] {
      var prior, e := events[..|events| - 1], events[|events| - 1];
      StillObserved(r, prior);
      StatusOnlyMovesForward(Run(r, prior), [e]);
      assert [e][..0] == [];
      if Run(r, prior).status.Observed? {
        WaitingStartsOnAnyWait(Run(r, prior), e);
      }
    }
  }

  /** Over every run, a request on its way that never had a wait accepted had one that was only transient. */
  lemma {:induction false} OnItsWayWithoutASuccessfulWait(r: Request, events: seq<Event>)
    requires r.status.Observed? && 1 <= Rank(Run(r, events).status) < 6 && WaitAttestation !in Accepted(r, events)
    ensures exists i :: 0 <= i < |events| && WaitsOn(r.evidence, events[i]) && !events[i].outcome.Done?
  {
    hide Apply, WaitsOn;
    var prior, e := events[..|events| - 1], events[|events| - 1];
    OneMore(r, prior, e);
    assert prior + [e] == events;
    StatusOnlyMovesForward(Run(r, prior), [e]);
    RunOfOne(Run(r, prior), e);
    if Run(r, prior).status.Observed? {
      StillObserved(r, prior);
      WaitingStartsOnAnyWait(Run(r, prior), e);
      NothingElseFirst(Run(r, prior), e);
      assert WaitsOn(r.evidence, events[|prior|]);
    } else {
      OnItsWayWithoutASuccessfulWait(r, prior);
      var i :| 0 <= i < |prior| && WaitsOn(r.evidence, prior[i]) && !prior[i].outcome.Done?;
      assert WaitsOn(r.evidence, events[i]);
    }
  }

  lemma RunOfOne(r: Request, e: Event)
    ensures Run(r, [e]) == Apply(r, e.kind, e.outcome, e.written, e.error).0
  {
    hide Apply;
    assert [e][..0] == [];
  }

  /** From OBSERVED the only step on the way is a wait; if it was done, it was accepted. */
  lemma NothingElseFirst(r: Request, e: Event)
    requires r.status.Observed?
    ensures var (after, t) := Apply(r, e.kind, e.outcome, e.written, e.error);
      && (1 <= Rank(after.status) < 6 ==> WaitsOn(r.evidence, e))
      && (WaitsOn(r.evidence, e) && e.outcome.Done? ==> t.Ok? && e.kind == WaitAttestation)
  {
  }

  /** And such runs go all the way: after any transient wait the whole route is open. */
  lemma NoSuccessfulWaitNeeded(r: Request, o: Outcome, error: string)
    requires r.status.Observed? && Classify(o) == Some(Transient)
    ensures exists events :: Run(r, events).status.Consumed? && WaitAttestation !in Accepted(r, events)
  {
    hide Apply, Run, Accepted;
    NothingHappens(r);
    var none := Evidence(0, 0, 0);
    var waited := Refused(r, [], WaitAttestation, o, none, error);
    var fetched := Succeeds(r, waited, FetchArtifact, Evidence(1, 0, 0), error);
    var submitted := Succeeds(r, fetched, Submit, none, error);
    var confirmed := Succeeds(r, submitted, Confirm, Evidence(0, 1, 0), error);
    var consumed := Succeeds(r, confirmed, Consume, Evidence(0, 0, 1), error);
  }

  lemma Refused(r: Request, events: seq<Event>, k: Kind, o: Outcome, written: Evidence, error: string)
    returns (longer: seq<Event>)
    requires var q := Run(r, events);
      && !Closed(q.status) && !k.Other? && !o.Done?
      && MayWrite(q.evidence, written) && Evidenced(FailedStatus(o, k, q.status), q.evidence)
    ensures Run(r, longer).status == FailedStatus(o, k, Run(r, events).status)
    ensures Run(r, longer).evidence == Run(r, events).evidence
    ensures Accepted(r, longer) == Accepted(r, events)
  {
    hide Run, Accepted;
    longer := events + [Event(k, o, written, error)];
    OneMore(r, events, Event(k, o, written, error));
  }

  lemma Succeeds(r: Request, events: seq<Event>, k: Kind, written: Evidence, error: string)
    returns (longer: seq<Event>)
    requires var q := Run(r, events);
      && MayWrite(q.evidence, written) && MayStart(k, q.status)
      && Evidenced(DoneStatus(k), Added(q.evidence, written))
    ensures Run(r, longer).status == DoneStatus(k) && Run(r, longer).evidence == Added(Run(r, events).evidence, written)
    ensures forall x :: x in Accepted(r, longer) ==> x in Accepted(r, events) || x == k
  {
    hide Run, Accepted;
    longer := events + [Event(k, Done, written, error)];
    OneMore(r, events, Event(k, Done, written, error));
  }

  lemma NothingHappens(r: Request)
    ensures Run(r, []) == r && Accepted(r, []) == []
  {
  }

  lemma OneMore(r: Request, events: seq<Event>, e: Event)
    ensures var (r', t) := Apply(Run(r, events), e.kind, e.outcome, e.written, e.error);
      && Run(r, events + [e]) == r'
      && Accepted(r, events + [e]) == Accepted(r, events) + if t.Ok? then [e.kind] else []
  {
    hide Apply;
    assert (events + [e])[..|events|] == events;
  }

  /** When a handler's success is accepted, read off the request and the rows it has once the handler has written. */
  lemma AcceptedExactly(r: Request, k: Kind, written: Evidence, error: string)
    ensures var artifacts := r.evidence.artifacts + written.artifacts;
      var accepted := r.evidence.accepted + written.accepted;
      var consumptions := r.evidence.consumptions + written.consumptions;
      Apply(r, k, Done, written, error).1.Ok? <==>
        && (written.consumptions > 0 ==> accepted > 0)
        && match k
           case WaitAttestation => r.status == Observed || r.status == WaitingAttestation
           case FetchArtifact => r.status == WaitingAttestation && artifacts > 0
           case Submit => r.status == ProofReady && artifacts > 0
           case Confirm => r.status == Submitted && artifacts > 0 && accepted > 0
           case Consume => r.status == NativeAccepted && artifacts > 0 && accepted > 0 && consumptions > 0
           case Other(_) => false
  {
  }

  /** The kind scheduled next can always start where its predecessor left the request, its success takes the request one
      step further, and none follows the end. */
  lemma NextKindCanStart(r: Request, k: Kind, written: Evidence, error: string, more: Evidence)
    requires Apply(r, k, Done, written, error).1.Ok?
    ensures var (r', t) := Apply(r, k, Done, written, error);
      && t.value.before == r.status && t.value.after == r'.status
      && match t.value.next
         case Some(next) =>
           var (further, u) := Apply(r', next, Done, more, error);
           && (u.Ok? <==> MayWrite(r'.evidence, more) && Evidenced(DoneStatus(next), Added(r'.evidence, more)))
           && (u.Ok? ==> Rank(further.status) == Rank(r'.status) + 1)
         case None => r'.status == Consumed
  {
  }

  // ---- what a request has to show

  /** The rows written by handlers whose outcome was accepted. */
  function AcceptedRows(r: Request, events: seq<Event>): Evidence {
    if events == [] then Evidence(0, 0, 0)
    else
      var prior, e := events[..|events| - 1], events[|events| - 1];
      var rows := AcceptedRows(r, prior);
      if Apply(Run(r, prior), e.kind, e.outcome, e.written, e.error).1.Ok? then Added(rows, e.written) else rows
  }

  /** A failure reported on an open request. */
  predicate ReportsFailure(r: Request, e: Event) {
    !Closed(r.status) && !e.kind.Other? && !e.outcome.Done? && MayWrite(r.evidence, e.written)
  }

  function FailuresReported(r: Request, events: seq<Event>): nat {
    if events == [] then 0
    else
      FailuresReported(r, events[..|events| - 1])
      + if ReportsFailure(Run(r, events[..|events| - 1]), events[|events| - 1]) then 1 else 0
  }

  lemma OneOutcome(r: Request, e: Event)
    requires Evidenced(r.status, r.evidence)
    ensures var (after, t) := Apply(r, e.kind, e.outcome, e.written, e.error);
      && after.attempt == r.attempt + (if t.Ok? || ReportsFailure(r, e) then 1 else 0)
      && !(t.Ok? && ReportsFailure(r, e))
      && after.evidence == (if t.Ok? then Added(r.evidence, e.written) else r.evidence)
  {
  }

  /** Over every run, the rows on record are exactly those of accepted handlers, and the attempts are the accepted
      outcomes and the failures reported while the request was open: a refused outcome leaves neither. */
  lemma {:induction false} RecordsAreAcceptedOutcomes(r: Request, events: seq<Event>)
    requires Evidenced(r.status, r.evidence)
    ensures Run(r, events).evidence == Added(r.evidence, AcceptedRows(r, events))
    ensures Run(r, events).attempt == r.attempt + |Accepted(r, events)| + FailuresReported(r, events)
  {
    hide Apply, Evidenced, ReportsFailure;
    if events != [] {
      var prior := events[..|events| - 1];
      RecordsAreAcceptedOutcomes(r, prior);
      StatusIsAlwaysEvidenced(r, prior);
      OneOutcome(Run(r, prior), events[|events| - 1]);
    }
  }

  /** A failed outcome on an open request is always recorded, whatever the job's kind, and the job fails the same way: a
      terminal outcome closes the request and dead-letters the job, any other does neither. What the handler wrote is
      gone. */
  lemma FailuresAreRecorded(r: Request, k: Kind, o: Outcome, written: Evidence, error: string)
    requires !k.Other? && !o.Done? && !Closed(r.status)
    requires Evidenced(r.status, r.evidence) && MayWrite(r.evidence, written)
    ensures var (r', t) := Apply(r, k, o, written, error);
      && r'.lastError == Some(error) && r'.evidence == r.evidence && r'.attempt == r.attempt + 1
      && (Closed(r'.status) <==> t == Err(RaisedTerminal))
      && (Classify(o) == Some(Terminal) <==> Closed(r'.status))
      && match o
         case IsUnsupported => r'.status == Unsupported
         case IsInvalid => r'.status == Invalid
         case IsExpired => r'.status == Expired
         case _ => r'.status == if k == WaitAttestation && r.status == Observed then WaitingAttestation else r.status
  {
  }
}
