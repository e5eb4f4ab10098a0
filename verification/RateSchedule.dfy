/**
 The piecewise rate of a facility: a list of segments, each in force from its start until a later listed
 segment takes over, and the interest earned second by second.
 */
module RateSchedule {
  import opened Results

  datatype RateSegment = RateSegment(start: int, rateBps: int)

  /** The last listed segment that has started by `at`. */
  function Started(segments: seq<RateSegment>, at: int): Option<RateSegment> {
    if segments == [] then None
    else
      var last := segments[|segments| - 1];
      if last.start <= at then Some(last) else Started(segments[..|segments| - 1], at)
  }

  /** The rate in force; before any segment has started, the first one's. (No ledger's list is ever empty.) */
  function RateAt(segments: seq<RateSegment>, at: int): int {
    match Started(segments, at)
    case Some(segment) => segment.rateBps
    case None => if segments == [] then 0 else segments[0].rateBps
  }

  /** Reference definition of accrual: principal times rate, added up over every second of [from, until). */
  function Integral(principal: int, segments: seq<RateSegment>, from: int, until: int): int
    decreases until - from
  {
    if until <= from then 0
    else Integral(principal, segments, from, until - 1) + principal * RateAt(segments, until - 1)
  }

  predicate NoStartWithin(segments: seq<RateSegment>, after: int, upTo: int) {
    forall segment <- segments :: !(after < segment.start <= upTo)
  }

  lemma {:induction false} StartedIsStable(segments: seq<RateSegment>, t: int, s: int)
    requires t <= s && NoStartWithin(segments, t, s)
    ensures Started(segments, s) == Started(segments, t)
  {
    if segments != [] {
      var last := segments[|segments| - 1];
      assert last in segments;
      if last.start > t {
        StartedIsStable(segments[..|segments| - 1], t, s);
      }
    }
  }

  lemma {:induction false} IntegralSplits(principal: int, segments: seq<RateSegment>, from: int, mid: int, until: int)
    requires from <= mid <= until
    ensures Integral(principal, segments, from, until)
         == Integral(principal, segments, from, mid) + Integral(principal, segments, mid, until)
    decreases until - mid
  {
    if mid < until {
      IntegralSplits(principal, segments, from, mid, until - 1);
    }
  }

  /** One stretch of the source's loop: no segment starts inside it, so it earns at a single rate. */
  lemma {:induction false} IntegralOfStretch(principal: int, segments: seq<RateSegment>, t: int, nxt: int)
    requires t <= nxt && NoStartWithin(segments, t, nxt - 1)
    ensures Integral(principal, segments, t, nxt) == principal * RateAt(segments, t) * (nxt - t)
    decreases nxt - t
  {
    if t < nxt {
      IntegralOfStretch(principal, segments, t, nxt - 1);
      StartedIsStable(segments, t, nxt - 1);
      var each := principal * RateAt(segments, t);
      assert each * (nxt - 1 - t) + each == each * (nxt - t);
    }
  }

  predicate NonNegativeRates(segments: seq<RateSegment>) {
    forall segment <- segments :: segment.rateBps >= 0
  }

  lemma {:induction false} StartedIsListed(segments: seq<RateSegment>, at: int)
    ensures Started(segments, at).Some? ==> Started(segments, at).value in segments
  {
    if segments != [] && segments[|segments| - 1].start > at {
      StartedIsListed(segments[..|segments| - 1], at);
    }
  }

  lemma {:induction false} IntegralNonNegative(principal: int, segments: seq<RateSegment>, from: int, until: int)
    requires principal >= 0 && NonNegativeRates(segments)
    ensures Integral(principal, segments, from, until) >= 0
    decreases until - from
  {
    if from < until {
      IntegralNonNegative(principal, segments, from, until - 1);
      StartedIsListed(segments, until - 1);
    }
  }

  // ---- rate changes

  function Without(segments: seq<RateSegment>, at: int): seq<RateSegment> {
    if segments == [] then []
    else
      var last := segments[|segments| - 1];
      Without(segments[..|segments| - 1], at) + if last.start == at then [] else [last]
  }

  /** Insert keeping the order by start, after any segment with the same start. */
  function Insert(segments: seq<RateSegment>, segment: RateSegment): seq<RateSegment> {
    if segments == [] || segments[|segments| - 1].start <= segment.start then segments + [segment]
    else Insert(segments[..|segments| - 1], segment) + [segments[|segments| - 1]]
  }

  /** The stable sort by start. */
  function SortByStart(segments: seq<RateSegment>): seq<RateSegment> {
    if segments == [] then [] else Insert(SortByStart(segments[..|segments| - 1]), segments[|segments| - 1])
  }

  /** The segment list after a rate change: any segment starting at `at` gives way, and the list is sorted again. */
  function WithRate(segments: seq<RateSegment>, at: int, rateBps: int): seq<RateSegment> {
    SortByStart(Without(segments, at) + [RateSegment(at, rateBps)])
  }

  predicate SortedByStart(segments: seq<RateSegment>) {
    forall i, j :: 0 <= i < j < |segments| ==> segments[i].start <= segments[j].start
  }

  lemma {:induction false} InsertKeeps(segments: seq<RateSegment>, segment: RateSegment)
    ensures |Insert(segments, segment)| == |segments| + 1
    ensures forall s :: s in Insert(segments, segment) <==> s in segments || s == segment
    ensures SortedByStart(segments) ==> SortedByStart(Insert(segments, segment))
  {
    if segments != [] {
      var n := |segments| - 1;
      assert segments == segments[..n] + [segments[n]];
      if segments[n].start > segment.start {
        InsertKeeps(segments[..n], segment);
        var inserted := Insert(segments[..n], segment);
        assert forall i :: 0 <= i < |inserted| ==> inserted[i] in inserted;
      }
    }
  }

  lemma {:induction false} SortKeeps(segments: seq<RateSegment>)
    ensures SortedByStart(SortByStart(segments)) && |SortByStart(segments)| == |segments|
    ensures forall s :: s in SortByStart(segments) <==> s in segments
    ensures SortedByStart(segments) ==> SortByStart(segments) == segments
  {
    if segments != [] {
      var n := |segments| - 1;
      assert segments == segments[..n] + [segments[n]];
      SortKeeps(segments[..n]);
      InsertKeeps(SortByStart(segments[..n]), segments[n]);
    }
  }

  lemma {:induction false} WithoutKeeps(segments: seq<RateSegment>, at: int)
    ensures forall s :: s in Without(segments, at) <==> s in segments && s.start != at
    ensures SortedByStart(segments) ==> SortedByStart(Without(segments, at))
  {
    if segments != [] {
      var n := |segments| - 1;
      assert segments == segments[..n] + [segments[n]];
      WithoutKeeps(segments[..n], at);
    }
  }

  lemma {:induction false} WithoutKeepsEarlier(segments: seq<RateSegment>, at: int, s: int)
    requires s < at
    ensures Started(Without(segments, at), s) == Started(segments, s)
  {
    if segments != [] {
      var n := |segments| - 1;
      WithoutKeepsEarlier(segments[..n], at, s);
      var rest := Without(segments[..n], at);
      assert (rest + [segments[n]])[..|rest|] == rest;
      assert rest + [] == rest;
    }
  }

  lemma {:induction false} StartedAfterInsert(segments: seq<RateSegment>, segment: RateSegment, s: int)
    ensures s < segment.start ==> Started(Insert(segments, segment), s) == Started(segments, s)
    ensures segment.start <= s && NoStartWithin(segments, segment.start, s)
        ==> Started(Insert(segments, segment), s) == Some(segment)
  {
    if segments == [] || segments[|segments| - 1].start <= segment.start {
      assert (segments + [segment])[..|segments|] == segments;
    } else {
      var n := |segments| - 1;
      assert segments[n] in segments;
      StartedAfterInsert(segments[..n], segment, s);
      var inserted := Insert(segments[..n], segment);
      assert (inserted + [segments[n]])[..|inserted|] == inserted;
    }
  }

  /** A rate change applies forward only: every earlier second keeps its rate, and later ones get the new rate. */
  lemma RateChangeIsForwardOnly(segments: seq<RateSegment>, at: int, rateBps: int, s: int)
    requires segments != [] && SortedByStart(segments)
    ensures WithRate(segments, at, rateBps) != [] && SortedByStart(WithRate(segments, at, rateBps))
    ensures segments[0].start <= s < at ==> RateAt(WithRate(segments, at, rateBps), s) == RateAt(segments, s)
    ensures at <= s && NoStartWithin(segments, at, s) ==> RateAt(WithRate(segments, at, rateBps), s) == rateBps
  {
    var rest, segment := Without(segments, at), RateSegment(at, rateBps);
    WithoutKeeps(segments, at);
    SortKeeps(rest);
    SortKeeps(rest + [segment]);
    assert (rest + [segment])[..|rest|] == rest;
    assert WithRate(segments, at, rateBps) == Insert(rest, segment);
    StartedAfterInsert(rest, segment, s);
    if segments[0].start <= s < at {
      WithoutKeepsEarlier(segments, at, s);
      SomethingStarted(segments, s);
    }
  }

  lemma {:induction false} SomethingStarted(segments: seq<RateSegment>, at: int)
    requires segments != [] && segments[0].start <= at
    ensures Started(segments, at).Some?
  {
    if segments[|segments| - 1].start > at {
      SomethingStarted(segments[..|segments| - 1], at);
    }
  }

  lemma WithRateKeepsSigns(segments: seq<RateSegment>, at: int, rateBps: int)
    requires NonNegativeRates(segments) && rateBps >= 0
    ensures WithRate(segments, at, rateBps) != [] && NonNegativeRates(WithRate(segments, at, rateBps))
  {
    WithoutKeeps(segments, at);
    SortKeeps(Without(segments, at) + [RateSegment(at, rateBps)]);
  }
}
