/** A backfill: overlapping chunks, each collected on a cursor of its own. */
module Backfill {
  import opened Results
  import opened FloorArithmetic
  import opened I = Ingestion
  import opened IngestionRuns
  import opened Collector

  function ChunkAt(start: int, end: int, cursor: int, chunk: int, overlap: int): Window {
    Window(Max(start, cursor - overlap), Min(end, cursor + chunk))
  }

  /** The chunks from `cursor` on. */
  function Chunks(start: int, end: int, cursor: int, chunk: nat, overlap: nat): seq<Window>
    requires chunk > overlap
    decreases end - cursor
  {
    if cursor >= end then []
    else [ChunkAt(start, end, cursor, chunk, overlap)] + Chunks(start, end, Min(end, cursor + chunk), chunk, overlap)
  }

  predicate Inside(w: Window, t: int) {
    w.start <= t < w.end
  }

  predicate Covers(ws: seq<Window>, t: int) {
    exists i :: 0 <= i < |ws| && Inside(ws[i], t)
  }

  /** The chunks cover every instant of the range. */
  lemma {:induction false} ChunksCoverTheRange(start: int, end: int, cursor: int, chunk: nat, overlap: nat, t: int)
    requires chunk > overlap && start <= cursor <= t < end
    ensures Covers(Chunks(start, end, cursor, chunk, overlap), t)
    decreases end - cursor
  {
    var ws := Chunks(start, end, cursor, chunk, overlap);
    var next := Min(end, cursor + chunk);
    if t < next {
      assert Inside(ws[0], t);
    } else {
      ChunksCoverTheRange(start, end, next, chunk, overlap, t);
      var rest := Chunks(start, end, next, chunk, overlap);
      var i :| 0 <= i < |rest| && Inside(rest[i], t);
      assert ws[i + 1] == rest[i];
    }
  }

  /** No chunk reaches outside the range or is longer than a chunk and its overlap. Each ends one chunk after the one
      before it, or at the range's end, and starts `overlap` before that one's end, or at the range's start; so no two
      share a cursor. */
  lemma {:induction false} ChunksOverlap(start: int, end: int, cursor: int, chunk: nat, overlap: nat)
    requires chunk > overlap && start <= cursor
    ensures var ws := Chunks(start, end, cursor, chunk, overlap);
      && (forall i :: 0 <= i < |ws| ==> start <= ws[i].start <= ws[i].end <= end && cursor < ws[i].end)
      && (forall i, k :: 0 <= i < k < |ws| ==> ws[i].end < ws[k].end)
      && (forall i :: 0 <= i < |ws| - 1 ==> Adjoin(ws, i, start, end, chunk, overlap))
      && (ws != [] ==> ws[0] == Window(Max(start, cursor - overlap), Min(end, cursor + chunk)))
      && (ws != [] ==> ws[|ws| - 1].end == end)
      && (forall i :: 0 <= i < |ws| ==> ws[i].end - ws[i].start <= chunk + overlap)
    decreases end - cursor
  {
    if cursor < end {
      var next := Min(end, cursor + chunk);
      ChunksOverlap(start, end, next, chunk, overlap);
      var ws, rest := Chunks(start, end, cursor, chunk, overlap), Chunks(start, end, next, chunk, overlap);
      forall i | 0 <= i < |ws| - 1
        ensures Adjoin(ws, i, start, end, chunk, overlap)
      {
        if i > 0 {
          assert Adjoin(rest, i - 1, start, end, chunk, overlap);
        }
      }
    }
  }

  predicate Adjoin(ws: seq<Window>, i: nat, start: int, end: int, chunk: int, overlap: int)
    requires i < |ws| - 1
  {
    && ws[i + 1].start == Max(start, ws[i].end - overlap)
    && ws[i + 1].end == Min(end, ws[i].end + chunk)
  }

  datatype Refusal = EndNotAfterStart | ChunkNotLongerThanOverlap | Collecting(error: Error)

  /** Every chunk's stream has read its window to the end, or is reported as a gap. */
  predicate AllDone(db: Db, feed: Feed, ws: seq<Window>, results: seq<Collected>) {
    |results| == |ws| && forall i :: 0 <= i < |ws| ==> Accounted(db, feed, ws[i], results[i])
  }

  predicate Accounted(db: Db, feed: Feed, w: Window, result: Collected) {
    if result.gap then (Backfilling(feed, w), w) in db.gaps else Completed(db, feed, w)
  }

  predicate Completed(db: Db, feed: Feed, w: Window) {
    && Backfilling(feed, w) in db.streams
    && var commits := db.streams[Backfilling(feed, w)].commits;
    exists i: nat :: i < |commits| && Ends(commits[i], w)
  }

  predicate Ends(c: Commit, w: Window) {
    !c.page.hasMore && c.window == w
  }

  /** Neither commits nor reports are ever taken back. */
  lemma {:induction false} AccountedStays(src: Source, db: Db, events: seq<Event>, feed: Feed, w: Window, r: Collected)
    requires Accounted(db, feed, w, r)
    ensures Accounted(Run(src, db, events), feed, w, r)
  {
    hide Step;
    if events != [] {
      AccountedStays(src, db, events[..|events| - 1], feed, w, r);
      StepKeepsAccounted(src, Run(src, db, events[..|events| - 1]), events[|events| - 1], feed, w, r);
    }
  }

  lemma StepKeepsAccounted(src: Source, db: Db, e: Event, feed: Feed, w: Window, r: Collected)
    requires Accounted(db, feed, w, r)
    ensures Accounted(Step(src, db, e), feed, w, r)
  {
    if r.gap {
      hide PutAll, PlanFor, NextCursor;
      assert db.gaps <= Step(src, db, e).gaps;
    } else {
      StepKeepsCompleted(src, db, e, feed, w);
    }
  }

  lemma StepKeepsCompleted(src: Source, db: Db, e: Event, feed: Feed, w: Window)
    requires Completed(db, feed, w)
    ensures Completed(Step(src, db, e), feed, w)
  {
    hide PutAll, PlanFor, NextCursor;
    var name := Backfilling(feed, w);
    var i: nat :| i < |db.streams[name].commits| && Ends(db.streams[name].commits[i], w);
    var after := Step(src, db, e);
    assert name in after.streams && db.streams[name].commits <= after.streams[name].commits;
    assert Ends(after.streams[name].commits[i], w);
  }

  /** Collect every chunk in turn; `turns(n)` is what happens around the pages of the n-th chunk. */
  method BackfillAccount(c: Collector, feed: Feed, start: int, end: int, chunk: nat, overlap: nat,
                         turns: nat -> seq<Turn>)
    returns (r: Result<seq<Collected>, Refusal>)
    requires NamesNextPage(c.src) && DbValid(c.src, c.db)
    modifies c
    ensures DbValid(c.src, c.db)
    ensures r == Err(EndNotAfterStart) <==> end <= start
    ensures r == Err(ChunkNotLongerThanOverlap) <==> start < end && chunk <= overlap
    ensures end <= start || chunk <= overlap ==> c.db == old(c.db)
    ensures r.Ok? ==> AllDone(c.db, feed, Chunks(start, end, start, chunk, overlap), r.value)
    ensures (forall n :: Undisturbed(turns(n))) && start < end && chunk > overlap ==>
      || (r.Ok? && forall i :: 0 <= i < |r.value| ==> !r.value[i].gap)
      || r == Err(Collecting(Crashed))
  {
    hide DbValid, Run, AllDone, Completed, Chunks, EndedWith;
    assert AllDone(c.db, feed, [], []) by { NoChunksYet(c.db, feed); }
    if end <= start {
      return Err(EndNotAfterStart);
    }
    if chunk <= overlap {
      return Err(ChunkNotLongerThanOverlap);
    }
    var results := [];
    var cursor := start;
    ghost var done := [];
    while cursor < end
      invariant start <= cursor <= end
      invariant DbValid(c.src, c.db)
      invariant done + Chunks(start, end, cursor, chunk, overlap) == Chunks(start, end, start, chunk, overlap)
      invariant AllDone(c.db, feed, done, results)
      invariant (forall n :: Undisturbed(turns(n))) ==> forall i :: 0 <= i < |results| ==> !results[i].gap
      decreases end - cursor
    {
      var chunkEnd := Min(end, cursor + chunk);
      var chunkStart := Max(start, cursor - overlap);
      var w := Window(chunkStart, chunkEnd);
      ghost var before := c.db;
      var collected, events := c.CollectWindow(feed, w, turns(|results|));
      if collected.Err? {
        return Err(Collecting(collected.error));
      }
      if !collected.value.gap {
        EndedIsCompleted(c.db, feed, w);
      }
      OneChunkMore(c.src, before, events, feed, done, results, w, collected.value);
      NextChunk(start, end, cursor, chunk, overlap, done);
      done, results := done + [w], results + [collected.value];
      cursor := chunkEnd;
    }
    NoMoreChunks(start, end, cursor, chunk, overlap, done);
    r := Ok(results);
  }

  lemma NoChunksYet(db: Db, feed: Feed)
    ensures AllDone(db, feed, [], [])
  {
  }

  lemma NoMoreChunks(start: int, end: int, cursor: int, chunk: nat, overlap: nat, done: seq<Window>)
    requires chunk > overlap && cursor >= end
    ensures done + Chunks(start, end, cursor, chunk, overlap) == done
  {
  }

  lemma NextChunk(start: int, end: int, cursor: int, chunk: nat, overlap: nat, done: seq<Window>)
    requires chunk > overlap && cursor < end
    ensures done + Chunks(start, end, cursor, chunk, overlap)
         == done + [ChunkAt(start, end, cursor, chunk, overlap)]
           + Chunks(start, end, Min(end, cursor + chunk), chunk, overlap)
  {
  }

  lemma OneChunkMore(src: Source, before: Db, events: seq<Event>, feed: Feed, done: seq<Window>,
                     results: seq<Collected>,
                     w: Window, collected: Collected)
    requires AllDone(before, feed, done, results)
    requires Accounted(Run(src, before, events), feed, w, collected)
    ensures AllDone(Run(src, before, events), feed, done + [w], results + [collected])
  {
    hide Completed, Run, Accounted;
    forall i | 0 <= i < |done|
      ensures Accounted(Run(src, before, events), feed, done[i], results[i])
    {
      AccountedStays(src, before, events, feed, done[i], results[i]);
    }
  }

  lemma EndedIsCompleted(db: Db, feed: Feed, w: Window)
    requires EndedWith(db, Backfilling(feed, w), w)
    ensures Completed(db, feed, w)
  {
    var commits := db.streams[Backfilling(feed, w)].commits;
    assert Ends(commits[|commits| - 1], w);
  }

  /** A backfill that came through without a gap has stored every observation of its range. */
  lemma BackfillStoresTheRange(src: Source, db: Db, feed: Feed, start: int, end: int, chunk: nat, overlap: nat,
                               results: seq<Collected>, observations: set<Body>, time: Body -> int, o: Body)
    requires DbValid(src, db) && chunk > overlap
    requires AllDone(db, feed, Chunks(start, end, start, chunk, overlap), results)
    requires forall i :: 0 <= i < |results| ==> !results[i].gap
    requires LeavesNothingOut(src, feed, observations, time) && o in observations && start <= time(o) < end
    ensures src.hash(o) in db.shelf.rows
  {
    hide DbValid, LeavesNothingOut;
    ChunksCoverTheRange(start, end, start, chunk, overlap, time(o));
    var ws := Chunks(start, end, start, chunk, overlap);
    var i :| 0 <= i < |ws| && Inside(ws[i], time(o));
    assert Accounted(db, feed, ws[i], results[i]) && !results[i].gap;
    var name := Backfilling(feed, ws[i]);
    var k: nat :| k < |db.streams[name].commits| && Ends(db.streams[name].commits[k], ws[i]);
    assert CoveredBy(db.streams[name], time(o), k);
    CompletedWindowIsStored(src, db, name, k, observations, time, o);
  }
}
