/** Any run of crashing, racing collectors stores what clean passes would have stored. */
module IngestionRuns {
  import opened Results
  import opened Ingestion

  // ---- invariant

  /** Where a pass over a new window starts, given the pass before it. */
  function NextStart(name: Name, initial: int, overlap: int, before: seq<Commit>): int {
    if name.Backfilling? then name.window.start - overlap
    else (if before == [] then initial else before[|before| - 1].window.end) - overlap
  }

  /** The last commit follows from those before it: the next page of the same window, or the first page of a window that
      starts where the last one ended. */
  ghost predicate Follows(src: Source, name: Name, initial: int, overlap: int, before: seq<Commit>, c: Commit) {
    && c.page == src.fetch(name.feed, c.window, c.token)
    && (name.Backfilling? ==> c.window == name.window)
    && (if before != [] && before[|before| - 1].page.hasMore then
          c.window == before[|before| - 1].window && c.token == before[|before| - 1].page.token
        else
          c.token.None? && c.window.start == NextStart(name, initial, overlap, before)
          && (name.Polling? ==> c.window.end > c.window.start + overlap))
  }

  ghost predicate Chained(src: Source, name: Name, initial: int, overlap: int, commits: seq<Commit>) {
    forall i :: 0 <= i < |commits| ==> Follows(src, name, initial, overlap, commits[..i], commits[i])
  }

  /** The cursor says where the last commit left the stream. */
  ghost predicate CursorFits(name: Name, s: Stream) {
    var c := s.cursor;
    if s.commits == [] then c == Cursor(s.initial, None, None, c.overlap)
    else
      var last := s.commits[|s.commits| - 1];
      if last.page.hasMore then
        && c.pageToken == last.page.token && c.pageToken.Some? && c.windowEnd == Some(last.window.end)
        && last.window.start == WindowStart(name, c)
        && (name.Polling? ==> c.highWater < last.window.end)
      else c == Cursor(last.window.end, None, None, c.overlap)
  }

  ghost predicate StreamValid(src: Source, name: Name, s: Stream) {
    && 0 <= s.cursor.overlap && (name.Backfilling? ==> s.cursor.overlap == 0)
    && Chained(src, name, s.initial, s.cursor.overlap, s.commits)
    && CursorFits(name, s)
  }

  predicate Distinct(rows: seq<Hash>) {
    forall i, k :: 0 <= i < k < |rows| ==> rows[i] != rows[k]
  }

  /** Some committed page holds an observation of this hash. */
  ghost predicate Committed(src: Source, db: Db, h: Hash) {
    exists name, i: nat, k: nat :: InCommit(src, db, name, i, k, h)
  }

  ghost predicate InCommit(src: Source, db: Db, name: Name, i: nat, k: nat, h: Hash) {
    && name in db.streams && i < |db.streams[name].commits|
    && k < |db.streams[name].commits[i].page.items|
    && src.hash(db.streams[name].commits[i].page.items[k]) == h
  }

  /** Rows and outbox events are the committed observations, once each. */
  ghost predicate ShelfFits(src: Source, db: Db) {
    && db.shelf.outbox == db.shelf.rows && Distinct(db.shelf.rows)
    && forall h :: h in db.shelf.rows <==> Committed(src, db, h)
  }

  ghost predicate DbValid(src: Source, db: Db) {
    && ShelfFits(src, db)
    && forall name :: name in db.streams ==> StreamValid(src, name, db.streams[name])
  }

  // ---- storing a page

  lemma {:induction false} PutAllAddsOnce(src: Source, shelf: Shelf, items: seq<Body>)
    requires shelf.outbox == shelf.rows && Distinct(shelf.rows)
    ensures var after := PutAll(src, shelf, items);
      && after.outbox == after.rows && Distinct(after.rows) && shelf.rows <= after.rows
      && forall h :: h in after.rows <==> h in shelf.rows || exists k :: 0 <= k < |items| && src.hash(items[k]) == h
  {
    if items != [] {
      var fewer := items[..|items| - 1];
      PutAllAddsOnce(src, shelf, fewer);
      var between, h := PutAll(src, shelf, fewer), src.hash(items[|items| - 1]);
      forall x
        ensures x in Put(between, h).rows
          <==> x in shelf.rows || exists k :: 0 <= k < |items| && src.hash(items[k]) == x
      {
        if x == h {
          assert src.hash(items[|items| - 1]) == x;
        } else if x in between.rows && x !in shelf.rows {
          var k :| 0 <= k < |fewer| && src.hash(fewer[k]) == x;
          assert src.hash(items[k]) == x;
        }
      }
    }
  }

  // ---- one commit

  lemma CommitKeepsStream(src: Source, name: Name, s: Stream, until: int, maxWindow: int)
    requires NamesNextPage(src) && StreamValid(src, name, s)
    requires PlanFor(name, s.cursor, until, maxWindow).Fetch?
    ensures var plan := PlanFor(name, s.cursor, until, maxWindow);
      var page := src.fetch(name.feed, plan.window, plan.token);
      && Follows(src, name, s.initial, s.cursor.overlap, s.commits, Commit(plan.window, plan.token, page))
      && CursorFits(name, s.(cursor := NextCursor(s.cursor, plan.window, page),
                             commits := s.commits + [Commit(plan.window, plan.token, page)]))
  {
    if s.commits != [] {
      assert Follows(src, name, s.initial, s.cursor.overlap, s.commits[..|s.commits| - 1], s.commits[|s.commits| - 1]);
    }
  }

  lemma ChainGrows(src: Source, name: Name, initial: int, overlap: int, commits: seq<Commit>, c: Commit)
    requires Chained(src, name, initial, overlap, commits) && Follows(src, name, initial, overlap, commits, c)
    ensures Chained(src, name, initial, overlap, commits + [c])
  {
    hide Follows;
    forall i | 0 <= i < |commits + [c]|
      ensures Follows(src, name, initial, overlap, (commits + [c])[..i], (commits + [c])[i])
    {
      assert (commits + [c])[..i] == commits[..i];
      assert commits[..|commits|] == commits;
    }
  }

  lemma CommitKeepsShelf(src: Source, db: Db, name: Name, held: Cursor, w: Window, token: Option<Token>)
    requires ShelfFits(src, db) && CommitPage(src, db, name, held, w, token).1.Ok?
    ensures ShelfFits(src, CommitPage(src, db, name, held, w, token).0)
  {
    hide PutAll, Distinct, NextCursor;
    var page, after := src.fetch(name.feed, w, token), CommitPage(src, db, name, held, w, token).0;
    var n := |db.streams[name].commits|;
    PutAllAddsOnce(src, db.shelf, page.items);
    forall h
      ensures h in after.shelf.rows <==> Committed(src, after, h)
    {
      if h in db.shelf.rows {
        var other, i: nat, k: nat :| InCommit(src, db, other, i, k, h);
        assert InCommit(src, after, other, i, k, h);
      } else if h in after.shelf.rows {
        var k :| 0 <= k < |page.items| && src.hash(page.items[k]) == h;
        assert InCommit(src, after, name, n, k, h);
      }
      if Committed(src, after, h) {
        var other, i: nat, k: nat :| InCommit(src, after, other, i, k, h);
        if other == name && i == n {
          assert src.hash(page.items[k]) == h;
        } else {
          assert InCommit(src, db, other, i, k, h);
        }
      }
    }
  }

  lemma ShelfStillFits(src: Source, db: Db, after: Db)
    requires ShelfFits(src, db) && after.shelf == db.shelf
    requires forall name, i: nat, k: nat, h :: InCommit(src, db, name, i, k, h) <==> InCommit(src, after, name, i, k, h)
    ensures ShelfFits(src, after)
  {
    hide Distinct, InCommit;
    forall h
      ensures Committed(src, db, h) <==> Committed(src, after, h)
    {
    }
  }

  lemma OpenKeeps(src: Source, db: Db, name: Name, initial: int, overlap: int)
    requires DbValid(src, db) && 0 <= overlap && (name.Backfilling? ==> overlap == 0)
    ensures DbValid(src, Open(db, name, Some(initial), overlap).0)
  {
    hide ShelfFits;
    ShelfStillFits(src, db, Open(db, name, Some(initial), overlap).0);
  }

  lemma GapsKeep(src: Source, db: Db, gaps: seq<(Name, Window)>)
    requires DbValid(src, db)
    ensures DbValid(src, db.(gaps := gaps))
  {
    hide ShelfFits, StreamValid;
    ShelfStillFits(src, db, db.(gaps := gaps));
  }

  lemma CommitKeeps(src: Source, db: Db, name: Name, held: Cursor, until: int, maxWindow: int)
    requires NamesNextPage(src) && DbValid(src, db)
    ensures DbValid(src, Step(src, db, Committing(name, held, until, maxWindow)))
  {
    hide PlanFor, ShelfFits, Follows, CursorFits, Chained, NextCursor;
    var plan := PlanFor(name, held, until, maxWindow);
    if plan.Fetch? && name in db.streams && db.streams[name].cursor == held {
      var s := db.streams[name];
      var c := Commit(plan.window, plan.token, src.fetch(name.feed, plan.window, plan.token));
      CommitKeepsShelf(src, db, name, held, plan.window, plan.token);
      CommitKeepsStream(src, name, s, until, maxWindow);
      ChainGrows(src, name, s.initial, s.cursor.overlap, s.commits, c);
      OverlapStays(s.cursor, plan.window, c.page);
    }
  }

  lemma OverlapStays(c: Cursor, w: Window, page: Page)
    ensures NextCursor(c, w, page).overlap == c.overlap
  {
  }

  lemma StepKeeps(src: Source, db: Db, e: Event)
    requires NamesNextPage(src) && DbValid(src, db)
    ensures DbValid(src, Step(src, db, e))
  {
    hide DbValid, Open, PlanFor, CommitPage;
    match e
    case Opening(name, initial, overlap) =>
      if name.Backfilling? {
        OpenKeeps(src, db, name, name.window.start, 0);
      } else {
        OpenKeeps(src, db, name, initial, overlap);
      }
    case Committing(name, held, until, maxWindow) => CommitKeeps(src, db, name, held, until, maxWindow);
    case ReportingGap(name, w) => GapsKeep(src, db, db.gaps + [(name, w)]);
  }

  lemma {:induction false} RunsStayValid(src: Source, db: Db, events: seq<Event>)
    requires NamesNextPage(src) && DbValid(src, db)
    ensures DbValid(src, Run(src, db, events))
  {
    hide DbValid, Step;
    if events != [] {
      RunsStayValid(src, db, events[..|events| - 1]);
      StepKeeps(src, Run(src, db, events[..|events| - 1]), events[|events| - 1]);
    }
  }

  lemma EmptyIsValid(src: Source)
    ensures DbValid(src, Empty)
  {
  }

  // ---- what was stored

  /** Whatever crashed or raced, every committed observation is stored and announced exactly once, and nothing else
      is. */
  lemma StoredExactlyOnce(src: Source, events: seq<Event>)
    requires NamesNextPage(src)
    ensures var db := Run(src, Empty, events);
      && Distinct(db.shelf.rows) && db.shelf.outbox == db.shelf.rows
      && forall h :: h in db.shelf.rows <==> Committed(src, db, h)
  {
    EmptyIsValid(src);
    RunsStayValid(src, Empty, events);
  }

  /** There is only one clean pass over a window. */
  lemma {:induction false} PassIsUnique(src: Source, feed: Feed, w: Window, a: seq<Page>, b: seq<Page>)
    requires IsPass(src, feed, w, a) && IsPass(src, feed, w, b)
    ensures a == b
  {
    PassIsNoLonger(src, feed, w, a, b);
    PassIsNoLonger(src, feed, w, b, a);
    forall i | 0 <= i < |a|
      ensures a[i] == b[i]
    {
      PassesAgree(src, feed, w, a, b, i);
    }
  }

  lemma PassIsNoLonger(src: Source, feed: Feed, w: Window, a: seq<Page>, b: seq<Page>)
    requires IsPass(src, feed, w, a) && IsPass(src, feed, w, b)
    ensures |b| <= |a|
  {
    if |a| < |b| {
      assert LinksToNext(src, feed, w, b, |a| - 1);
      PassesAgree(src, feed, w, a, b, |a| - 1);
    }
  }

  lemma {:induction false} PassesAgree(src: Source, feed: Feed, w: Window, a: seq<Page>, b: seq<Page>, i: nat)
    requires IsPass(src, feed, w, a) && IsPass(src, feed, w, b)
    requires i < |a| && i < |b|
    ensures a[i] == b[i]
  {
    if i > 0 {
      PassesAgree(src, feed, w, a, b, i - 1);
      assert LinksToNext(src, feed, w, a, i - 1) && LinksToNext(src, feed, w, b, i - 1);
    }
  }

  function Pages(commits: seq<Commit>): seq<Page> {
    seq(|commits|, i requires 0 <= i < |commits| => commits[i].page)
  }

  /** The commits that end a window are preceded by the rest of that window's one clean pass, in order. */
  lemma {:induction false} CompletedWindowIsOnePass(src: Source, name: Name, s: Stream, end: nat) returns (begin: nat)
    requires StreamValid(src, name, s) && end < |s.commits| && !s.commits[end].page.hasMore
    ensures begin <= end && IsPass(src, name.feed, s.commits[end].window, Pages(s.commits[begin..end + 1]))
    ensures forall i :: begin <= i <= end ==> s.commits[i].window == s.commits[end].window
  {
    hide StreamValid;
    begin := PassBegins(src, name, s, end);
    var pages := Pages(s.commits[begin..end + 1]);
    forall i: nat | i < |pages| - 1
      ensures LinksToNext(src, name.feed, s.commits[end].window, pages, i)
    {
      CommitFollows(src, name, s, begin + i + 1);
    }
  }

  /** What the invariant says of one commit. */
  lemma CommitFollows(src: Source, name: Name, s: Stream, i: nat)
    requires StreamValid(src, name, s) && i < |s.commits|
    ensures s.commits[i].page == src.fetch(name.feed, s.commits[i].window, s.commits[i].token)
    ensures i > 0 && s.commits[i - 1].page.hasMore ==>
      s.commits[i].window == s.commits[i - 1].window && s.commits[i].token == s.commits[i - 1].page.token
    ensures i == 0 || !s.commits[i - 1].page.hasMore ==> s.commits[i].token.None?
  {
    hide CursorFits;
    assert Follows(src, name, s.initial, s.cursor.overlap, s.commits[..i], s.commits[i]);
  }

  lemma {:induction false} PassBegins(src: Source, name: Name, s: Stream, end: nat) returns (begin: nat)
    requires StreamValid(src, name, s) && end < |s.commits|
    ensures begin <= end && s.commits[begin].page == src.fetch(name.feed, s.commits[end].window, None)
    ensures forall i :: begin <= i <= end ==> s.commits[i].window == s.commits[end].window
    ensures forall i :: begin <= i < end ==> s.commits[i].page.hasMore
  {
    hide StreamValid;
    CommitFollows(src, name, s, end);
    begin := end;
    if end > 0 && s.commits[end - 1].page.hasMore {
      begin := PassBegins(src, name, s, end - 1);
    }
  }

  // ---- what was covered

  /** A window of this stream that covers `t` and was read to its last page. */
  ghost predicate CoveredBy(s: Stream, t: int, i: nat) {
    i < |s.commits| && !s.commits[i].page.hasMore && s.commits[i].window.start <= t < s.commits[i].window.end
  }

  /** The mark the commits so far have reached. */
  function Mark(s: Stream, n: nat): int
    requires n <= |s.commits|
  {
    if n == 0 then s.initial
    else if s.commits[n - 1].page.hasMore then Mark(s, n - 1) else s.commits[n - 1].window.end
  }

  lemma {:induction false} MarkIsNextStart(src: Source, name: Name, s: Stream, n: nat)
    requires StreamValid(src, name, s) && name.Polling? && 0 < n <= |s.commits|
    ensures s.commits[n - 1].window.start == Mark(s, n - 1) - s.cursor.overlap
    ensures s.commits[n - 1].window.end > Mark(s, n - 1)
  {
    hide CursorFits;
    var c := s.commits[n - 1];
    assert Follows(src, name, s.initial, s.cursor.overlap, s.commits[..n - 1], c);
    if n > 1 {
      assert s.commits[..n - 1][n - 2] == s.commits[n - 2];
      if s.commits[n - 2].page.hasMore {
        MarkIsNextStart(src, name, s, n - 1);
      }
    }
  }

  lemma CursorIsAtTheMark(src: Source, name: Name, s: Stream)
    requires StreamValid(src, name, s) && name.Polling?
    ensures s.cursor.highWater == Mark(s, |s.commits|)
  {
    if s.commits != [] && s.commits[|s.commits| - 1].page.hasMore {
      MarkIsNextStart(src, name, s, |s.commits|);
    }
  }

  lemma {:induction false} MarkIsCovered(src: Source, name: Name, s: Stream, n: nat, t: int)
    requires StreamValid(src, name, s) && name.Polling? && n <= |s.commits| && s.initial <= t < Mark(s, n)
    ensures exists i :: CoveredBy(s, t, i)
  {
    hide StreamValid;
    if t < Mark(s, n - 1) {
      MarkIsCovered(src, name, s, n - 1, t);
    } else {
      MarkIsNextStart(src, name, s, n) by { assert StreamValid(src, name, s); }
      OverlapIsNatural(src, name, s);
      assert CoveredBy(s, t, n - 1);
    }
  }

  lemma OverlapIsNatural(src: Source, name: Name, s: Stream)
    requires StreamValid(src, name, s)
    ensures s.cursor.overlap >= 0
  {
  }

  /** Completed poll windows leave no gap between the initial start and the high-water mark. */
  lemma NoGap(src: Source, events: seq<Event>, feed: Feed, t: int)
    requires NamesNextPage(src)
    requires var db := Run(src, Empty, events);
      Polling(feed) in db.streams && db.streams[Polling(feed)].initial <= t < db.streams[Polling(feed)].cursor.highWater
    ensures exists i :: CoveredBy(Run(src, Empty, events).streams[Polling(feed)], t, i)
  {
    hide StreamValid, Run, ShelfFits;
    EmptyIsValid(src);
    RunsStayValid(src, Empty, events);
    var s := Run(src, Empty, events).streams[Polling(feed)];
    CursorIsAtTheMark(src, Polling(feed), s);
    MarkIsCovered(src, Polling(feed), s, |s.commits|, t);
  }

  /** The provider leaves nothing out of a clean pass: every observation dated inside the window is on one of its
      pages. */
  ghost predicate LeavesNothingOut(src: Source, feed: Feed, observations: set<Body>, time: Body -> int) {
    forall w, pages, o :: IsPass(src, feed, w, pages) && o in observations && w.start <= time(o) < w.end ==>
      OnSomePage(pages, o)
  }

  ghost predicate OnSomePage(pages: seq<Page>, o: Body) {
    exists i :: 0 <= i < |pages| && o in pages[i].items
  }

  /** A window read to its end has all its observations stored. */
  lemma CompletedWindowIsStored(src: Source, db: Db, name: Name, i: nat, observations: set<Body>, time: Body -> int,
                                o: Body)
    requires DbValid(src, db) && name in db.streams && CoveredBy(db.streams[name], time(o), i)
    requires LeavesNothingOut(src, name.feed, observations, time) && o in observations
    ensures src.hash(o) in db.shelf.rows
  {
    hide StreamValid, IsPass, Distinct;
    var s := db.streams[name];
    var begin := CompletedWindowIsOnePass(src, name, s, i);
    var pages := Pages(s.commits[begin..i + 1]);
    assert OnSomePage(pages, o);
    var p :| 0 <= p < |pages| && o in pages[p].items;
    var k :| 0 <= k < |pages[p].items| && pages[p].items[k] == o;
    assert s.commits[begin + p].page == pages[p];
    assert InCommit(src, db, name, begin + p, k, src.hash(o));
  }

  /** Nothing is missed: in any run of crashing and racing collectors, every observation dated between a feed's initial
      start and its high-water mark is stored. */
  lemma NothingIsMissed(src: Source, events: seq<Event>, feed: Feed, observations: set<Body>, time: Body -> int,
                        o: Body)
    requires NamesNextPage(src) && LeavesNothingOut(src, feed, observations, time) && o in observations
    requires var db := Run(src, Empty, events);
      Polling(feed) in db.streams
        && db.streams[Polling(feed)].initial <= time(o) < db.streams[Polling(feed)].cursor.highWater
    ensures src.hash(o) in Run(src, Empty, events).shelf.rows
  {
    hide DbValid, LeavesNothingOut, Run, CoveredBy;
    EmptyIsValid(src);
    RunsStayValid(src, Empty, events);
    NoGap(src, events, feed, time(o));
    var i :| CoveredBy(Run(src, Empty, events).streams[Polling(feed)], time(o), i);
    CompletedWindowIsStored(src, Run(src, Empty, events), Polling(feed), i, observations, time, o);
  }

  // ---- the high-water mark

  lemma StepNeverGoesBack(src: Source, db: Db, e: Event, feed: Feed)
    requires DbValid(src, db) && Polling(feed) in db.streams
    ensures var after := Step(src, db, e);
      && Polling(feed) in after.streams
      && after.streams[Polling(feed)].initial == db.streams[Polling(feed)].initial
      && after.streams[Polling(feed)].cursor.highWater >= db.streams[Polling(feed)].cursor.highWater
      && db.streams[Polling(feed)].commits <= after.streams[Polling(feed)].commits
  {
    hide PutAll, ShelfFits, Chained;
    assert StreamValid(src, Polling(feed), db.streams[Polling(feed)]);
  }

  lemma {:induction false} HighWaterNeverGoesBack(src: Source, db: Db, events: seq<Event>, feed: Feed)
    requires NamesNextPage(src) && DbValid(src, db) && Polling(feed) in db.streams
    ensures var after := Run(src, db, events);
      && Polling(feed) in after.streams
      && after.streams[Polling(feed)].initial == db.streams[Polling(feed)].initial
      && after.streams[Polling(feed)].cursor.highWater >= db.streams[Polling(feed)].cursor.highWater
      && db.streams[Polling(feed)].commits <= after.streams[Polling(feed)].commits
  {
    hide DbValid, Step, NamesNextPage;
    if events != [] {
      HighWaterNeverGoesBack(src, db, events[..|events| - 1], feed);
      RunsStayValid(src, db, events[..|events| - 1]);
      StepNeverGoesBack(src, Run(src, db, events[..|events| - 1]), events[|events| - 1], feed);
    }
  }

  /** With no window in flight, a poll fetches anything at all exactly when there is time to cover and a window is
      longer than its overlap; otherwise the stream stands still however often it is polled. */
  lemma PollProgresses(feed: Feed, c: Cursor, until: int, maxWindow: int)
    requires c.pageToken.None? && 0 <= c.overlap
    ensures PlanFor(Polling(feed), c, until, maxWindow).Fetch? <==> until > c.highWater && maxWindow > c.overlap
    ensures !PlanFor(Polling(feed), c, until, maxWindow).Fetch? ==>
      PlanFor(Polling(feed), c, until, maxWindow).NothingNew?
  {
  }

  // ---- how far a window reaches

  /** With no window in flight, a poll's window starts one overlap before the mark, goes beyond it, and ends at `until`
      or after a full window, whichever comes first. */
  lemma PollWindowIsBounded(feed: Feed, c: Cursor, until: int, maxWindow: int)
    requires c.pageToken.None? || c.windowEnd.None?
    ensures var plan := PlanFor(Polling(feed), c, until, maxWindow);
      plan.Fetch? ==>
        var w := plan.window;
        && plan.token.None? && w.start == c.highWater - c.overlap && c.highWater < w.end
        && w.end <= until && w.end - w.start <= maxWindow
        && (w.end == until || w.end - w.start == maxWindow)
  {
  }

  /** A window in flight is resumed where it stopped, whatever `until` has become since. */
  lemma WindowInFlightIsResumed(feed: Feed, c: Cursor, until: int, maxWindow: int)
    requires c.pageToken.Some? && c.windowEnd.Some?
    ensures var plan := PlanFor(Polling(feed), c, until, maxWindow);
      if c.windowEnd.value < c.highWater - c.overlap then plan.BadWindow?
      else plan == Fetch(Window(c.highWater - c.overlap, c.windowEnd.value), c.pageToken)
  {
  }

  /** Nobody has opened this stream yet. */
  ghost predicate NotOpenedBy(events: seq<Event>, name: Name) {
    forall i :: 0 <= i < |events| ==> !(events[i].Opening? && events[i].name == name)
  }

  /** Over every run, a feed keeps the start and the overlap it was first opened with, whatever later openings ask. */
  lemma {:induction false} FirstOpeningCounts(src: Source, events: seq<Event>, feed: Feed, i: nat)
    requires i < |events| && events[i].Opening? && events[i].name == Polling(feed)
    requires NotOpenedBy(events[..i], Polling(feed))
    ensures var db := Run(src, Empty, events);
      && Polling(feed) in db.streams
      && db.streams[Polling(feed)].initial == events[i].initial
      && db.streams[Polling(feed)].cursor.overlap == events[i].overlap
  {
    var before := events[..|events| - 1];
    if i < |before| {
      assert before[..i] == events[..i];
      FirstOpeningCounts(src, before, feed, i);
      hide Step;
      StepKeepsOpening(src, Run(src, Empty, before), events[|events| - 1], Polling(feed));
    } else {
      assert before == events[..i];
      OnlyOpeningsOpen(src, before, Polling(feed));
    }
  }

  lemma StepKeepsOpening(src: Source, db: Db, e: Event, name: Name)
    requires name in db.streams
    ensures var after := Step(src, db, e);
      && name in after.streams && after.streams[name].initial == db.streams[name].initial
      && after.streams[name].cursor.overlap == db.streams[name].cursor.overlap
  {
    hide PlanFor, PutAll;
  }

  lemma {:induction false} OnlyOpeningsOpen(src: Source, events: seq<Event>, name: Name)
    requires NotOpenedBy(events, name)
    ensures name !in Run(src, Empty, events).streams
  {
    hide PlanFor, PutAll, NextCursor;
    if events != [] {
      OnlyOpeningsOpen(src, events[..|events| - 1], name);
    }
  }

  /** A new pass over a chunk is over the chunk. */
  lemma ChunkWindowIsTheChunk(feed: Feed, chunk: Window, c: Cursor, until: int, maxWindow: int)
    requires (c.pageToken.None? || c.windowEnd.None?) && c.overlap == 0
    ensures var plan := PlanFor(Backfilling(feed, chunk), c, until, maxWindow);
      if chunk.end < chunk.start then plan.BadWindow? else plan == Fetch(chunk, None)
  {
  }

  /** Neither the feed's mark nor a window in flight lies beyond the bound. */
  predicate CursorWithin(c: Cursor, bound: int) {
    c.highWater <= bound && (c.windowEnd.Some? ==> c.windowEnd.value <= bound)
  }

  predicate FeedWithin(db: Db, feed: Feed, bound: int) {
    Polling(feed) in db.streams ==> CursorWithin(db.streams[Polling(feed)].cursor, bound)
  }

  /** Nobody polls this feed, or opens it, beyond the bound. */
  predicate PollsWithin(e: Event, feed: Feed, bound: int) {
    match e
    case Opening(name, initial, _) => name == Polling(feed) ==> initial <= bound
    case Committing(name, _, until, _) => name == Polling(feed) ==> until <= bound
    case ReportingGap(_, _) => true
  }

  lemma StepStaysWithin(src: Source, db: Db, e: Event, feed: Feed, bound: int)
    requires FeedWithin(db, feed, bound) && PollsWithin(e, feed, bound)
    ensures FeedWithin(Step(src, db, e), feed, bound)
  {
    hide PutAll, PlanFor;
    if e.Committing? && e.name == Polling(feed) {
      PlanStaysWithin(feed, e.held, e.until, e.maxWindow, bound);
    }
  }

  lemma PlanStaysWithin(feed: Feed, c: Cursor, until: int, maxWindow: int, bound: int)
    requires CursorWithin(c, bound) ==> until <= bound
    ensures var plan := PlanFor(Polling(feed), c, until, maxWindow);
      plan.Fetch? && CursorWithin(c, bound) ==> plan.window.end <= bound
  {
  }

  /** Over every run of racing collectors, a feed's mark passes nothing that nobody asked for: it stays within the old
      mark, a window in flight, and what the collectors were told to go up to. */
  lemma {:induction false} MarkNeverPassesWhatWasAsked(src: Source, db: Db, events: seq<Event>, feed: Feed, bound: int)
    requires FeedWithin(db, feed, bound) && forall i :: 0 <= i < |events| ==> PollsWithin(events[i], feed, bound)
    ensures FeedWithin(Run(src, db, events), feed, bound)
  {
    hide Step, PollsWithin, FeedWithin;
    if events != [] {
      MarkNeverPassesWhatWasAsked(src, db, events[..|events| - 1], feed, bound);
      StepStaysWithin(src, Run(src, db, events[..|events| - 1]), events[|events| - 1], feed, bound);
    }
  }

  // ---- racers

  /** Of two collectors holding the same cursor, the second commits only if the first left the cursor as it was. */
  lemma OnlyOneOfTwoRacersCommits(src: Source, db: Db, name: Name, held: Cursor, w: Window, t: Option<Token>,
                                  w': Window, t': Option<Token>)
    requires CommitPage(src, db, name, held, w, t).1.Ok?
    ensures var (after, r) := CommitPage(src, db, name, held, w, t);
      CommitPage(src, after, name, held, w', t').1.Ok? <==> r.value == held
  {
    hide PutAll, NextCursor;
  }

  /** Running on is running the two parts one after the other. */
  lemma {:induction false} RunsCompose(src: Source, db: Db, first: seq<Event>, second: seq<Event>)
    ensures Run(src, db, first + second) == Run(src, Run(src, db, first), second)
  {
    hide Step;
    if second == [] {
      assert first + second == first;
    } else {
      RunsCompose(src, db, first, second[..|second| - 1]);
      assert (first + second)[..|first + second| - 1] == first + second[..|second| - 1];
    }
  }
}
