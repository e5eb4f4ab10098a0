/** The collector: provider pages committed one transaction at a time against a persisted cursor. */
module Ingestion {
  import opened Results
  import opened FloorArithmetic

  type Token = string
  type Hash = string
  type Body = string
  type Feed = string

  datatype Window = Window(start: int, end: int)

  datatype Page = Page(items: seq<Body>, token: Option<Token>, hasMore: bool)

  /** The provider as a function of feed, window and page token, and the hash payloads are stored under. */
  datatype Source = Source(fetch: (Feed, Window, Option<Token>) -> Page, hash: Body -> Hash)

  /** What the provider must promise: a page that is not the last names the next one. */
  ghost predicate NamesNextPage(src: Source) {
    forall feed, w, t :: src.fetch(feed, w, t).hasMore ==> src.fetch(feed, w, t).token.Some?
  }

  // ---- cursors

  datatype Cursor = Cursor(highWater: int, pageToken: Option<Token>, windowEnd: Option<int>, overlap: int)

  function WithPage(c: Cursor, token: Option<Token>, windowEnd: int): Cursor {
    c.(pageToken := token, windowEnd := Some(windowEnd))
  }

  function Advanced(c: Cursor, windowEnd: int): Cursor {
    c.(highWater := windowEnd, pageToken := None, windowEnd := None)
  }

  /** A feed's poll cursor, or the cursor of one backfill chunk, which is named after its window. */
  datatype Name = Polling(feed: Feed) | Backfilling(feed: Feed, window: Window)

  datatype Error = MissingCursor | WindowEndBeforeStart | CursorChanged | Crashed | RateLimited

  // ---- stored rows

  /** Raw rows and outbox events, each unique by payload hash. */
  datatype Shelf = Shelf(rows: seq<Hash>, outbox: seq<Hash>)

  function Put(shelf: Shelf, h: Hash): Shelf {
    if h in shelf.rows then shelf
    else Shelf(shelf.rows + [h], if h in shelf.outbox then shelf.outbox else shelf.outbox + [h])
  }

  function PutAll(src: Source, shelf: Shelf, items: seq<Body>): Shelf {
    if items == [] then shelf
    else Put(PutAll(src, shelf, items[..|items| - 1]), src.hash(items[|items| - 1]))
  }

  // ---- the database

  datatype Commit = Commit(window: Window, token: Option<Token>, page: Page)

  /** A cursor row, where it was opened, and the pages committed under it. */
  datatype Stream = Stream(initial: int, cursor: Cursor, commits: seq<Commit>)

  datatype Db = Db(streams: map<Name, Stream>, shelf: Shelf, gaps: seq<(Name, Window)>)

  const Empty := Db(map[], Shelf([], []), [])

  function Open(db: Db, name: Name, initial: Option<int>, overlap: int): (Db, Result<Cursor, Error>) {
    if name in db.streams then (db, Ok(db.streams[name].cursor))
    else if initial.None? then (db, Err(MissingCursor))
    else
      var c := Cursor(initial.value, None, None, overlap);
      (db.(streams := db.streams[name := Stream(initial.value, c, [])]), Ok(c))
  }

  // ---- one page

  datatype Plan = NothingNew | BadWindow | Fetch(window: Window, token: Option<Token>)

  function WindowStart(name: Name, c: Cursor): int {
    (if name.Backfilling? then name.window.start else c.highWater) - c.overlap
  }

  /** What a collector holding this cursor fetches next: the page an interrupted window stopped at, or a new window. */
  function PlanFor(name: Name, c: Cursor, until: int, maxWindow: int): Plan {
    var start := WindowStart(name, c);
    if c.pageToken.Some? && c.windowEnd.Some? then Fetching(start, c.windowEnd.value, c.pageToken)
    else
      var end := if name.Backfilling? then name.window.end else Min(until, start + maxWindow);
      if end <= c.highWater && name.Polling? then NothingNew else Fetching(start, end, None)
  }

  function Fetching(start: int, end: int, token: Option<Token>): Plan {
    if end < start then BadWindow else Fetch(Window(start, end), token)
  }

  function NextCursor(c: Cursor, w: Window, page: Page): Cursor {
    if page.hasMore then WithPage(c, page.token, w.end) else Advanced(c, w.end)
  }

  /** One transaction: compare the cursor, store the page, move the cursor. `held` is the cursor the collector read,
      perhaps long ago; when another collector moved it the transaction rolls back. */
  function CommitPage(src: Source, db: Db, name: Name, held: Cursor, w: Window, token: Option<Token>)
    : (Db, Result<Cursor, Error>) {
    if name !in db.streams || db.streams[name].cursor != held then (db, Err(CursorChanged))
    else
      var page := src.fetch(name.feed, w, token);
      var s := db.streams[name];
      var next := NextCursor(held, w, page);
      (db.(streams := db.streams[name := s.(cursor := next, commits := s.commits + [Commit(w, token, page)])],
           shelf := PutAll(src, db.shelf, page.items)), Ok(next))
  }

  // ---- runs

  /** One committed transaction of some collector; a crash before commit is no event, and a crash after it only means
      that this collector commits nothing more. `until` and `maxWindow` may differ from collector to collector. */
  datatype Event =
    | Opening(name: Name, initial: int, overlap: nat)
    | Committing(name: Name, held: Cursor, until: int, maxWindow: int)
    | ReportingGap(name: Name, window: Window)

  function Step(src: Source, db: Db, e: Event): Db {
    match e
    case Opening(name, initial, overlap) =>
      if name.Backfilling? then Open(db, name, Some(name.window.start), 0).0
        else Open(db, name, Some(initial), overlap).0
    case Committing(name, held, until, maxWindow) =>
      (match PlanFor(name, held, until, maxWindow)
       case Fetch(w, token) => CommitPage(src, db, name, held, w, token).0
       case _ => db)
    case ReportingGap(name, w) => db.(gaps := db.gaps + [(name, w)])
  }

  function Run(src: Source, db: Db, events: seq<Event>): Db {
    if events == [] then db else Step(src, Run(src, db, events[..|events| - 1]), events[|events| - 1])
  }

  /** The pages one uninterrupted collector commits for a window: from the first, each naming the next, to the last. */
  ghost predicate IsPass(src: Source, feed: Feed, w: Window, pages: seq<Page>) {
    && pages != []
    && pages[0] == src.fetch(feed, w, None)
    && !pages[|pages| - 1].hasMore
    && forall i :: 0 <= i < |pages| - 1 ==> LinksToNext(src, feed, w, pages, i)
  }

  ghost predicate LinksToNext(src: Source, feed: Feed, w: Window, pages: seq<Page>, i: nat)
    requires i < |pages| - 1
  {
    pages[i].hasMore && pages[i + 1] == src.fetch(feed, w, pages[i].token)
  }
}
