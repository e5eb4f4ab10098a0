/** The collector as the source has it: a page loop over local cursor state, racing other collectors of the database. */
module Collector {
  import opened Results
  import opened FloorArithmetic
  import opened I = Ingestion
  import opened IngestionRuns

  datatype Fault = NoFault | ExpiredData | TooManyRequests | CrashBeforeCommit | CrashAfterCommit

  /** What happens around one page: what other collectors commit while it is in flight, and how this one fares. */
  datatype Turn = Turn(others: seq<Event>, fault: Fault)

  datatype Collected = Collected(pages: nat, fetched: nat, stored: nat, duplicates: nat, tokens: seq<Option<Token>>,
                                 gap: bool)

  predicate Alone(turns: seq<Turn>) {
    forall i :: 0 <= i < |turns| ==> turns[i].others == []
  }

  /** Nobody else commits, the provider answers, and the process survives. */
  predicate Undisturbed(turns: seq<Turn>) {
    Alone(turns) && forall i :: 0 <= i < |turns| ==> turns[i].fault.NoFault?
  }

  /** The pages committed on this stream so far. */
  function CommitsOf(db: Db, name: Name): seq<Commit> {
    if name in db.streams then db.streams[name].commits else []
  }

  function ItemCount(commits: seq<Commit>): nat {
    if commits == [] then 0
    else ItemCount(commits[..|commits| - 1]) + |commits[|commits| - 1].page.items|
  }

  /** The account a collector gives is that of these commits, page by page. */
  predicate Tallies(r: Collected, commits: seq<Commit>) {
    && r.pages == |commits| == |r.tokens| && r.fetched == ItemCount(commits)
    && forall i :: 0 <= i < |commits| ==> r.tokens[i] == TokenLeft(commits[i])
  }

  /** The page token the cursor keeps after a commit. */
  function TokenLeft(c: Commit): Option<Token> {
    if c.page.hasMore then c.page.token else None
  }

  predicate TalliesSince(before: Db, after: Db, name: Name, r: Collected) {
    && CommitsOf(before, name) <= CommitsOf(after, name)
    && Tallies(r, CommitsOf(after, name)[|CommitsOf(before, name)|..])
  }

  /** Left undisturbed, a collector reads its window to the end, or commits a page at every turn it lives for. */
  predicate RunsItsCourse(before: Db, after: Db, name: Name, turns: seq<Turn>, r: Result<Collected, Error>) {
    || (r.Ok? && !r.value.gap)
    || (r == Err(Crashed) && |CommitsOf(after, name)| == |CommitsOf(before, name)| + |turns|)
  }

  /** A transaction of a collector at work on this stream up to `until`. */
  predicate IsOwn(e: Event, name: Name, until: int) {
    match e
    case Opening(_, _, _) => false
    case Committing(n, _, u, _) => n == name && u == until
    case ReportingGap(n, _) => n == name
  }

  /** The stream's last committed page ended this window. */
  predicate EndedWith(db: Db, name: Name, w: Window) {
    && name in db.streams && db.streams[name].commits != []
    && var last := db.streams[name].commits[|db.streams[name].commits| - 1];
    !last.page.hasMore && last.window == w
  }

  function PollUntil(until: Option<int>, now: int): int {
    if until.Some? then Min(until.value, now) else now
  }

  /** What a poll sets out to fetch: from the feed's cursor, or from one opened at `initial`. */
  function PollPlan(db: Db, feed: Feed, initial: Option<int>, overlap: int, until: int, maxWindow: int): Plan
    requires Polling(feed) in db.streams || initial.Some?
  {
    var start := if Polling(feed) in db.streams then db.streams[Polling(feed)].cursor
      else Cursor(initial.value, None, None, overlap);
    PlanFor(Polling(feed), start, until, maxWindow)
  }

  /** A poll goes up to what it was asked for, but not into the future. */
  lemma PollsNoFurtherThanNow(until: Option<int>, now: int)
    ensures PollUntil(until, now) <= now
    ensures until.Some? ==> PollUntil(until, now) <= until.value
    ensures until.Some? && until.value <= now ==> PollUntil(until, now) == until.value
    ensures until.None? ==> PollUntil(until, now) == now
  {
  }

  /** The first poll of a feed starts one overlap before the start it was given, and goes no further than asked. */
  lemma FirstPollStartsAtTheStart(db: Db, feed: Feed, initial: int, overlap: int, until: int, maxWindow: int)
    requires Polling(feed) !in db.streams
    ensures var plan := PollPlan(db, feed, Some(initial), overlap, until, maxWindow);
      plan.Fetch? ==>
        && plan.token.None? && plan.window.start == initial - overlap && plan.window.end <= until
        && plan.window.end - plan.window.start <= maxWindow
  {
  }

  /** The largest of the mark a poll starts from, the end of a window in flight, and what it is to go up to. */
  function PollReach(db: Db, feed: Feed, initial: Option<int>, until: int): int
    requires Polling(feed) in db.streams || initial.Some?
  {
    if Polling(feed) !in db.streams then Max(initial.value, until)
    else
      var c := db.streams[Polling(feed)].cursor;
      Max(Max(c.highWater, until), if c.windowEnd.Some? then c.windowEnd.value else until)
  }

  /** A poll that returns found nothing new, or read its window to the end, or reported it as a gap. */
  predicate PollEnds(plan: Plan, db: Db, feed: Feed, r: Result<Collected, Error>) {
    && (plan.NothingNew? <==> r == Ok(Collected(0, 0, 0, 0, [], false)))
    && (plan.BadWindow? <==> r == Err(WindowEndBeforeStart))
    && (r.Ok? && plan.Fetch? ==>
          if r.value.gap then db.gaps != [] && db.gaps[|db.gaps| - 1] == (Polling(feed), plan.window)
          else EndedWith(db, Polling(feed), plan.window))
  }

  class Collector {
    const src: Source
    const overlap: nat
    const maxWindow: int
    var db: Db

    constructor (src: Source, overlap: nat, maxWindow: int)
      ensures this.src == src && this.overlap == overlap && this.maxWindow == maxWindow && db == I.Empty
    {
      this.src, this.overlap, this.maxWindow, db := src, overlap, maxWindow, I.Empty;
    }

    /** Insert what is not there yet, and announce what was inserted. */
    method StorePage(items: seq<Body>) returns (stored: nat, duplicates: nat)
      modifies this
      ensures db == old(db).(shelf := PutAll(src, old(db.shelf), items))
      ensures stored + duplicates == |items| && |db.shelf.rows| == |old(db.shelf.rows)| + stored
    {
      stored, duplicates := 0, 0;
      for i := 0 to |items|
        invariant db == old(db).(shelf := PutAll(src, old(db.shelf), items[..i]))
        invariant stored + duplicates == i && |db.shelf.rows| == |old(db.shelf.rows)| + stored
      {
        assert items[..i + 1][..i] == items[..i];
        var h := src.hash(items[i]);
        if h in db.shelf.rows {
          duplicates := duplicates + 1;
        } else {
          var outbox := if h in db.shelf.outbox then db.shelf.outbox else db.shelf.outbox + [h];
          db := db.(shelf := Shelf(db.shelf.rows + [h], outbox));
          stored := stored + 1;
        }
      }
      assert items[..|items|] == items;
    }

    /** The page's transaction. */
    method CommitFetched(name: Name, held: Cursor, w: Window, token: Option<Token>, page: Page)
      returns (r: Result<(nat, nat), Error>)
      requires page == src.fetch(name.feed, w, token)
      modifies this
      ensures db == CommitPage(src, old(db), name, held, w, token).0
      ensures r.Ok? <==> CommitPage(src, old(db), name, held, w, token).1.Ok?
      ensures match r
        case Ok(counts) => counts.0 + counts.1 == |page.items| && |db.shelf.rows| == |old(db.shelf.rows)| + counts.0
        case Err(e) => e == CursorChanged
    {
      if name !in db.streams || db.streams[name].cursor != held {
        return Err(CursorChanged);
      }
      var stored, duplicates := StorePage(page.items);
      var s := db.streams[name];
      var next := if page.hasMore then WithPage(held, page.token, w.end) else Advanced(held, w.end);
      db := db.(streams := db.streams[name := Stream(s.initial, next, s.commits + [Commit(w, token, page)])]);
      r := Ok((stored, duplicates));
    }

    /** Page after page from the given cursor. The process lives for at most `|turns|` pages; whatever becomes of it,
        the database is where a run of committed transactions, its own and others', leaves it. */
    method Collect(name: Name, start: Cursor, until: int, turns: seq<Turn>)
      returns (r: Result<Collected, Error>, ghost events: seq<Event>)
      requires NamesNextPage(src)
      modifies this
      ensures db == Run(src, old(db), events)
      ensures r != Err(MissingCursor)
      ensures PlanFor(name, start, until, maxWindow).NothingNew? <==> r == Ok(Collected(0, 0, 0, 0, [], false))
      ensures PlanFor(name, start, until, maxWindow).BadWindow? <==> r == Err(WindowEndBeforeStart)
      ensures r.Ok? && PlanFor(name, start, until, maxWindow).Fetch? ==>
        var w := PlanFor(name, start, until, maxWindow).window;
        if r.value.gap then db.gaps != [] && db.gaps[|db.gaps| - 1] == (name, w) else EndedWith(db, name, w)
      ensures r.Ok? ==> r.value.fetched == r.value.stored + r.value.duplicates
      ensures r.Ok? && Alone(turns) ==> |db.shelf.rows| == |old(db.shelf.rows)| + r.value.stored
      ensures r.Ok? && Alone(turns) ==> TalliesSince(old(db), db, name, r.value)
      ensures Alone(turns) ==> forall i :: 0 <= i < |events| ==> IsOwn(events[i], name, until)
      ensures Undisturbed(turns) && name in old(db).streams && old(db).streams[name].cursor == start
        && r != Err(WindowEndBeforeStart)
        ==> RunsItsCourse(old(db), db, name, turns, r)
    {
      hide PutAll, PlanFor, Run, Step, CommitPage, CommitsOf, Tallies, TalliesSince, ItemCount;
      NothingTallies(db, name);
      events := [];
      NothingYet(src, db);
      var plan := PlanFor(name, start, until, maxWindow);
      if plan.NothingNew? {
        return Ok(Collected(0, 0, 0, 0, [], false)), [];
      }
      if plan.BadWindow? {
        return Err(WindowEndBeforeStart), [];
      }
      var w, token, held := plan.window, plan.token, start;
      var result := Collected(0, 0, 0, 0, [], false);
      ghost var done: seq<Commit> := [];
      ghost var current := name in db.streams && db.streams[name].cursor == start;
      for i := 0 to |turns|
        invariant db == Run(src, old(db), events)
        invariant PlanFor(name, held, until, maxWindow) == Fetch(w, token)
        invariant w == PlanFor(name, start, until, maxWindow).window
        invariant result.fetched == result.stored + result.duplicates && !result.gap && result.pages == i
        invariant Alone(turns) ==> |db.shelf.rows| == |old(db.shelf.rows)| + result.stored
        invariant Alone(turns) ==> forall k :: 0 <= k < |events| ==> IsOwn(events[k], name, until)
        invariant Tallies(result, done) && |done| == i
        invariant Alone(turns) ==> CommitsOf(db, name) == CommitsOf(old(db), name) + done
        invariant Alone(turns) && current ==> name in db.streams && db.streams[name].cursor == held
      {
        RunsCompose(src, old(db), events, turns[i].others);
        NothingYet(src, db);
        db := Run(src, db, turns[i].others);
        events := events + turns[i].others;
        if turns[i].fault.TooManyRequests? {
          return Err(RateLimited), events;
        }
        if turns[i].fault.ExpiredData? {
          ReportsGap(src, old(db), db, events, name, w);
          db := db.(gaps := db.gaps + [(name, w)]);
          if Alone(turns) {
            TalliedSince(old(db), db, name, result.(gap := true), done);
          }
          return Ok(result.(gap := true)), events + [ReportingGap(name, w)];
        }
        var page := src.fetch(name.feed, w, token);
        if name !in db.streams || db.streams[name].cursor != held {
          return Err(CursorChanged), events;
        }
        if turns[i].fault.CrashBeforeCommit? {
          return Err(Crashed), events;
        }
        CommitsPage(src, old(db), db, events, name, until, maxWindow, w, token);
        var counts := CommitFetched(name, held, w, token, page);
        events := events + [Committing(name, held, until, maxWindow)];
        if turns[i].fault.CrashAfterCommit? {
          return Err(Crashed), events;
        }
        ghost var earlier := result;
        result := Collected(i + 1, result.fetched + |page.items|, result.stored + counts.value.0,
                            result.duplicates + counts.value.1,
                            result.tokens + [if page.hasMore then page.token else None], false);
        OneMoreTallies(earlier, done, Commit(w, token, page), result);
        done := done + [Commit(w, token, page)];
        if !page.hasMore {
          if Alone(turns) {
            TalliedSince(old(db), db, name, result, done);
          }
          return Ok(result), events;
        }
        SameWindow(name, held, until, maxWindow, page);
        held, token := WithPage(held, page.token, w.end), page.token;
      }
      r := Err(Crashed);
    }

    /** Collect what a feed has brought since its high-water mark. */
    method Poll(feed: Feed, initial: Option<int>, until: Option<int>, now: int, turns: seq<Turn>)
      returns (r: Result<Collected, Error>, ghost events: seq<Event>)
      requires NamesNextPage(src)
      modifies this
      ensures db == Run(src, old(db), events)
      ensures r == Err(MissingCursor) <==> Polling(feed) !in old(db).streams && initial.None?
      ensures Polling(feed) !in old(db).streams && initial.None? ==> db == old(db)
      ensures Polling(feed) in old(db).streams || initial.Some? ==>
        PollEnds(PollPlan(old(db), feed, initial, overlap, PollUntil(until, now), maxWindow), db, feed, r)
      ensures r.Ok? ==> r.value.fetched == r.value.stored + r.value.duplicates
      ensures r.Ok? && Alone(turns) ==> |db.shelf.rows| == |old(db.shelf.rows)| + r.value.stored
      ensures r.Ok? && Alone(turns) ==> TalliesSince(old(db), db, Polling(feed), r.value)
      ensures Undisturbed(turns) && (Polling(feed) in old(db).streams || initial.Some?)
        && r != Err(WindowEndBeforeStart)
        ==> RunsItsCourse(old(db), db, Polling(feed), turns, r)
      ensures Alone(turns) && (Polling(feed) in old(db).streams || initial.Some?) ==>
        FeedWithin(db, feed, PollReach(old(db), feed, initial, PollUntil(until, now)))
    {
      hide Run;
      NothingYet(src, db);
      var name := Polling(feed);
      if name !in db.streams && initial.None? {
        return Err(MissingCursor), [];
      }
      if name !in db.streams {
        db := db.(streams := db.streams[name := Stream(initial.value, Cursor(initial.value, None, None, overlap), [])]);
        OneMore(src, old(db), [], Opening(name, initial.value, overlap));
        events := [] + [Opening(name, initial.value, overlap)];
      } else {
        events := [];
      }
      ghost var own, reach := [], PollReach(db, feed, initial, PollUntil(until, now));
      ghost var begun := db;
      r, own := Collect(name, db.streams[name].cursor, PollUntil(until, now), turns);
      if Alone(turns) {
        MarkNeverPassesWhatWasAsked(src, begun, own, feed, reach);
      }
      RunsCompose(src, old(db), events, own);
      events := events + own;
    }

    /** Collect one chunk of a backfill on a cursor of its own. */
    method CollectWindow(feed: Feed, w: Window, turns: seq<Turn>)
      returns (r: Result<Collected, Error>, ghost events: seq<Event>)
      requires NamesNextPage(src) && DbValid(src, db)
      modifies this
      ensures db == Run(src, old(db), events) && DbValid(src, db)
      ensures r.Ok? && !r.value.gap ==> EndedWith(db, Backfilling(feed, w), w)
      ensures r.Ok? && r.value.gap ==> db.gaps != [] && db.gaps[|db.gaps| - 1] == (Backfilling(feed, w), w)
      ensures r == Err(WindowEndBeforeStart) <==> w.end < w.start
      ensures r.Ok? && Alone(turns) ==> TalliesSince(old(db), db, Backfilling(feed, w), r.value)
      ensures Undisturbed(turns) && w.start <= w.end ==> RunsItsCourse(old(db), db, Backfilling(feed, w), turns, r)
    {
      hide Run, DbValid;
      NothingYet(src, db);
      var name := Backfilling(feed, w);
      OneMore(src, old(db), [], Opening(name, w.start, 0));
      StepKeeps(src, db, Opening(name, w.start, 0));
      if name !in db.streams {
        db := db.(streams := db.streams[name := Stream(w.start, Cursor(w.start, None, None, 0), [])]);
      }
      BackfillPlansItsWindow(src, db, name, w.end, maxWindow);
      ghost var own;
      r, own := Collect(name, db.streams[name].cursor, w.end, turns);
      RunsCompose(src, old(db), [] + [Opening(name, w.start, 0)], own);
      RunsStayValid(src, old(db), [] + [Opening(name, w.start, 0)] + own);
      events := [] + [Opening(name, w.start, 0)] + own;
    }
  }

  // ---- steps of the loop

  lemma NothingYet(src: Source, db: Db)
    ensures Run(src, db, []) == db
  {
  }

  lemma OneMore(src: Source, db: Db, events: seq<Event>, e: Event)
    ensures Run(src, db, events + [e]) == Step(src, Run(src, db, events), e)
  {
    hide Step;
    assert (events + [e])[..|events|] == events;
  }

  /** One page more, committed on the cursor the collector holds. */
  lemma CommitsPage(src: Source, before: Db, db: Db, events: seq<Event>, name: Name, until: int, maxWindow: int,
                    w: Window, token: Option<Token>)
    requires db == Run(src, before, events) && name in db.streams
    requires PlanFor(name, db.streams[name].cursor, until, maxWindow) == Fetch(w, token)
    ensures var held, page := db.streams[name].cursor, src.fetch(name.feed, w, token);
      var (after, r) := CommitPage(src, db, name, held, w, token);
      && r == Ok(if page.hasMore then WithPage(held, page.token, w.end) else Advanced(held, w.end))
      && after == Run(src, before, events + [Committing(name, held, until, maxWindow)])
      && CommitsOf(after, name) == CommitsOf(db, name) + [Commit(w, token, page)]
      && name in after.streams && after.streams[name].cursor == r.value
      && (!page.hasMore ==> EndedWith(after, name, w))
  {
    hide PlanFor, Run, PutAll;
    OneMore(src, before, events, Committing(name, db.streams[name].cursor, until, maxWindow));
  }

  lemma ReportsGap(src: Source, before: Db, db: Db, events: seq<Event>, name: Name, w: Window)
    requires db == Run(src, before, events)
    ensures Run(src, before, events + [ReportingGap(name, w)]) == db.(gaps := db.gaps + [(name, w)])
    ensures CommitsOf(db.(gaps := db.gaps + [(name, w)]), name) == CommitsOf(db, name)
  {
    hide Run;
    OneMore(src, before, events, ReportingGap(name, w));
  }

  lemma NothingTallies(db: Db, name: Name)
    ensures TalliesSince(db, db, name, Collected(0, 0, 0, 0, [], false))
    ensures Tallies(Collected(0, 0, 0, 0, [], false), [])
  {
  }

  lemma OneMoreTallies(before: Collected, done: seq<Commit>, c: Commit, after: Collected)
    requires Tallies(before, done)
    requires after.pages == before.pages + 1 && after.fetched == before.fetched + |c.page.items|
    requires after.tokens == before.tokens + [TokenLeft(c)]
    ensures Tallies(after, done + [c])
  {
    assert (done + [c])[..|done|] == done;
  }

  lemma TalliedSince(before: Db, after: Db, name: Name, r: Collected, done: seq<Commit>)
    requires CommitsOf(after, name) == CommitsOf(before, name) + done && Tallies(r.(gap := false), done)
    ensures TalliesSince(before, after, name, r)
  {
    hide ItemCount;
    assert CommitsOf(after, name)[|CommitsOf(before, name)|..] == done;
  }

  /** Going on from a stored page plans the next page of the same window. */
  lemma SameWindow(name: Name, held: Cursor, until: int, maxWindow: int, page: Page)
    requires PlanFor(name, held, until, maxWindow).Fetch? && page.hasMore && page.token.Some?
    ensures var w := PlanFor(name, held, until, maxWindow).window;
      PlanFor(name, WithPage(held, page.token, w.end), until, maxWindow) == Fetch(w, page.token)
  {
  }

  /** A chunk's cursor, fresh, interrupted or finished, plans nothing but the chunk's own window. */
  lemma BackfillPlansItsWindow(src: Source, db: Db, name: Name, until: int, maxWindow: int)
    requires DbValid(src, db) && name.Backfilling? && name in db.streams
    ensures var plan := PlanFor(name, db.streams[name].cursor, until, maxWindow);
      && !plan.NothingNew? && (plan.Fetch? ==> plan.window == name.window)
      && (plan.BadWindow? <==> name.window.end < name.window.start)
  {
    var s := db.streams[name];
    assert StreamValid(src, name, s);
    if s.commits != [] {
      assert Follows(src, name, s.initial, s.cursor.overlap, s.commits[..|s.commits| - 1], s.commits[|s.commits| - 1]);
    }
  }
}
