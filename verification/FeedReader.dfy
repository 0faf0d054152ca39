// Reading one reader's feed: the snapshot keys in Redis and the page-building loops of the service.
module FeedReader {
  import opened SeckillModel
  import opened FeedScroll

  datatype Cursor = Cursor(snapshot: string, max: int, offset: int)

  datatype View = View(items: seq<nat>, hasMore: bool, next: Option<Cursor>)

  // ^[A-Z2-7]{26}$
  predicate ValidToken(s: string) {
    |s| == 26 && forall i :: 0 <= i < |s| ==> 'A' <= s[i] <= 'Z' || '2' <= s[i] <= '7'
  }

  predicate ValidCursor(c: Cursor) {
    ValidToken(c.snapshot) && 0 <= c.max <= MAX_EXACT && c.offset >= 0
  }

  // The answer for a page of snapshot `es`, with the cursor issued only when more follows.
  function Show(es: seq<Entry>, token: string, pos: Position, size: nat, visible: set<nat>): View {
    var page := ReadPage(es, pos, size, visible);
    View(page.items, page.hasMore,
         if page.hasMore then Some(Cursor(token, page.next.max, page.next.offset)) else None)
  }

  // What the reader sees of the snapshot from index i on: of the next `size` candidates exactly the visible blogs, in
  // order, and a cursor right behind these candidates when more follow.
  ghost predicate Shown(es: seq<Entry>, i: nat, token: string, size: nat, visible: set<nat>, view: View)
    requires i <= |es|
  {
    && view.hasMore == (i + size < |es|) && Picks(Slice(es, i, size), visible, view.items)
    && (view.next.Some? <==> view.hasMore)
    && (view.next.Some? ==>
          && view.next.value.snapshot == token && 0 <= view.next.value.offset
          && Denotes(es, Position(view.next.value.max, view.next.value.offset), i + size))
  }

  lemma ShowIsShown(es: seq<Entry>, token: string, pos: Position, size: nat, visible: set<nat>)
    requires ValidSnapshot(es) && size > 0
    ensures forall i: nat :: Denotes(es, pos, i) ==> Shown(es, i, token, size, visible, Show(es, token, pos, size, visible))
  {
    hide ReadPage, Picks, ValidSnapshot;
    forall i: nat | Denotes(es, pos, i) ensures Shown(es, i, token, size, visible, Show(es, token, pos, size, visible)) {
      PageIsExact(es, pos, i, size, visible);
    }
  }

  class FeedStore {
    var live: seq<Entry>                  // the reader's sorted set, highest score first
    var copies: map<string, seq<Entry>>   // snapshot keys; an empty sorted set has no key
    var counts: map<string, nat>          // ":count" markers
    ghost var taken: map<string, seq<Entry>>  // every snapshot as it was when it was taken

    // A snapshot key or its marker may expire, but while both hold they describe the index as copied.
    ghost predicate Valid()
      reads this
    {
      && ValidSnapshot(live) && (forall t :: t in taken ==> ValidSnapshot(taken[t]))
      && (forall t :: t in copies ==> t in taken && copies[t] == taken[t] != [])
      && (forall t :: t in counts ==> t in taken && counts[t] == |taken[t]|)
    }

    constructor (entries: seq<Entry>)
      requires ValidSnapshot(entries)
      ensures Valid() && live == entries && taken == map[]
    {
      live, copies, counts, taken := entries, map[], map[], map[];
    }

    // Copies the index and its cardinality in one script; the token is random, so never used before.
    method Snapshot(token: string)
      requires Valid() && token !in taken
      modifies this`copies, this`counts, this`taken
      ensures Valid() && taken == old(taken)[token := live]
      ensures counts == old(counts)[token := |live|]
      ensures copies == if live == [] then old(copies) else old(copies)[token := live]
    {
      if live != [] { copies := copies[token := live]; }
      counts := counts[token := |live|];
      taken := taken[token := live];
    }

    // A push or a rebuild: the index is a sorted set again, and no snapshot notices.
    method Change(entries: seq<Entry>)
      requires Valid() && ValidSnapshot(entries)
      modifies this`live
      ensures Valid() && live == entries
    {
      live := entries;
    }

    // Redis drops one of the two keys: at the end of its five minutes, or earlier under eviction.
    method Expire(token: string, marker: bool)
      requires Valid()
      modifies this`copies, this`counts
      ensures Valid() && taken == old(taken)
      ensures copies == (if marker then old(copies) else old(copies) - {token})
      ensures counts == (if marker then old(counts) - {token} else old(counts))
    {
      if marker { counts := counts - {token}; } else { copies := copies - {token}; }
    }

    // One transaction reads marker, cardinality and range: what it returns is the original snapshot or a conflict.
    method Page(token: string, pos: Position, limit: nat) returns (reply: Reply<seq<Entry>>)
      requires Valid()
      ensures reply == Err(Conflict) || (token in taken && reply == Ok(Range(taken[token], pos, limit)))
      ensures reply.Ok? <==> token in counts && (token in copies || taken[token] == [])
    {
      if token !in counts { return Err(Conflict); }
      var stored := if token in copies then copies[token] else [];
      if |stored| != counts[token] { return Err(Conflict); }
      reply := Ok(Range(stored, pos, limit));
    }
  }

  // The rows of the visible blogs among ids, each once.
  method VisibleByIDs(visible: set<nat>, ids: seq<nat>) returns (rows: seq<nat>)
    ensures forall id :: id in rows <==> id in ids && id in visible
  {
    rows := [];
    for i := 0 to |ids|
      invariant forall id :: id in rows <==> id in ids[..i] && id in visible
    {
      assert ids[..i + 1] == ids[..i] + [ids[i]];
      if ids[i] in visible && ids[i] !in rows { rows := rows + [ids[i]]; }
    }
    assert ids[..|ids|] == ids;
  }

  method BlogIds(entries: seq<Entry>) returns (ids: seq<nat>)
    ensures |ids| == |entries| && forall i :: 0 <= i < |ids| ==> ids[i] == entries[i].blog
  {
    ids := [];
    for i := 0 to |entries|
      invariant |ids| == i && forall j :: 0 <= j < i ==> ids[j] == entries[j].blog
    {
      ids := ids + [entries[i].blog];
    }
  }

  // Keeps the candidates' order and drops those without a visible row.
  method Join(entries: seq<Entry>, visible: set<nat>) returns (items: seq<nat>)
    ensures items == Items(entries, visible)
    ensures Picks(entries, visible, items)
  {
    ItemsPick(entries, visible);
    hide Picks;
    var ids := BlogIds(entries);
    var rows := VisibleByIDs(visible, ids);
    var byId: set<nat> := {};
    for i := 0 to |rows|
      invariant forall id :: id in byId <==> id in rows[..i]
    {
      assert rows[..i + 1] == rows[..i] + [rows[i]];
      byId := byId + {rows[i]};
    }
    assert rows[..|rows|] == rows;
    items := [];
    for i := 0 to |entries|
      invariant items == Items(entries[..i], visible)
    {
      assert entries[..i + 1][..i] == entries[..i];
      assert entries[i].blog == ids[i] && ids[i] in ids;
      if entries[i].blog in byId { items := items + [entries[i].blog]; }
    }
    assert entries[..|entries|] == entries;
  }

  // Counts the run of the last score from the end.
  method Next(pos: Position, entries: seq<Entry>) returns (next: Position)
    requires entries != []
    ensures next == Advance(pos, entries)
  {
    var lastScore := entries[|entries|-1].score;
    var consumed, i := 0, |entries|;
    assert entries[..|entries|] == entries;
    while i > 0 && entries[i - 1].score == lastScore
      invariant 0 <= i <= |entries|
      invariant Trailing(entries, lastScore) == consumed + Trailing(entries[..i], lastScore)
    {
      assert entries[..i][..i - 1] == entries[..i - 1];
      consumed, i := consumed + 1, i - 1;
    }
    if lastScore == pos.max { consumed := consumed + pos.offset; }
    next := Position(lastScore, consumed);
  }

  lemma ReadIsShown(store: FeedStore, cursor: Option<Cursor>, size: nat, token: string, visible: set<nat>)
    requires store.Valid() && size > 0
    ensures Shown(store.live, 0, token, size, visible, Show(store.live, token, START, size, visible))
    ensures cursor.Some? && ValidCursor(cursor.value) && cursor.value.snapshot in store.taken ==>
      var c := cursor.value; var es, pos := store.taken[c.snapshot], Position(c.max, c.offset);
      forall i: nat :: Denotes(es, pos, i) ==> Shown(es, i, c.snapshot, size, visible, Show(es, c.snapshot, pos, size, visible))
  {
    hide Shown, Show, ValidSnapshot, Denotes;
    StartDenotes(store.live);
    ShowIsShown(store.live, token, START, size, visible);
    if cursor.Some? && ValidCursor(cursor.value) && cursor.value.snapshot in store.taken {
      var c := cursor.value;
      ShowIsShown(store.taken[c.snapshot], c.snapshot, Position(c.max, c.offset), size, visible);
    }
  }

  // One request of user `userId`; cursor None is the empty cursor, which takes a snapshot first.
  method Read(store: FeedStore, userId: nat, cursor: Option<Cursor>, size: int, token: string, visible: set<nat>)
    returns (reply: Reply<View>)
    requires store.Valid() && (cursor == None ==> token !in store.taken)
    modifies store`copies, store`counts, store`taken
    ensures store.Valid()
    ensures userId == 0 ==> reply == Err(Unauthorized) && store.taken == old(store.taken)
    ensures userId != 0 && (!(1 <= size <= 50) || (cursor.Some? && !ValidCursor(cursor.value))) ==>
              reply == Err(Validation) && store.taken == old(store.taken)
    ensures userId != 0 && 1 <= size <= 50 && cursor == None ==>
              && store.taken == old(store.taken)[token := store.live]
              && reply == Ok(Show(store.live, token, START, size, visible))
              && Shown(store.live, 0, token, size, visible, reply.value)
    ensures userId != 0 && 1 <= size <= 50 && cursor.Some? && ValidCursor(cursor.value) ==>
              && var c := cursor.value;
              && store.taken == old(store.taken)
              && (reply.Ok? <==> c.snapshot in store.counts && (c.snapshot in store.copies || store.taken[c.snapshot] == []))
              && (reply.Ok? ==> reply == Ok(Show(store.taken[c.snapshot], c.snapshot, Position(c.max, c.offset), size, visible)))
              && (reply.Ok? ==>
                    forall i: nat :: Denotes(store.taken[c.snapshot], Position(c.max, c.offset), i) ==>
                      Shown(store.taken[c.snapshot], i, c.snapshot, size, visible, reply.value))
              && (reply.Err? ==> reply == Err(Conflict))
  {
    if userId == 0 { return Err(Unauthorized); }
    if size < 1 || size > 50 { return Err(Validation); }
    ReadIsShown(store, cursor, size, token, visible);
    hide Shown, Denotes, ValidSnapshot;
    var key, position := token, START;
    if cursor == None {
      store.Snapshot(token);
    } else {
      if !ValidCursor(cursor.value) { return Err(Validation); }
      key, position := cursor.value.snapshot, Position(cursor.value.max, cursor.value.offset);
    }
    var fetched := store.Page(key, position, size + 1);
    if fetched.Err? { return Err(fetched.kind); }
    var entries := fetched.value;
    var hasMore := |entries| > size;
    if hasMore { entries := entries[..size]; }
    if entries == [] { return Ok(View([], hasMore, None)); }
    var items := Join(entries, visible);
    var next: Option<Cursor> := None;
    if hasMore {
      var following := Next(position, entries);
      next := Some(Cursor(key, following.max, following.offset));
    }
    reply := Ok(View(items, hasMore, next));
  }

  // ---- A client ---------------------------------------------------------------------------------------------

  // What others do to the reader's keys between two requests.
  datatype Meanwhile = Nothing | Changed(entries: seq<Entry>) | Expired(token: string, marker: bool)

  method Interfere(store: FeedStore, event: Meanwhile)
    requires store.Valid() && (event.Changed? ==> ValidSnapshot(event.entries))
    modifies store`live, store`copies, store`counts
    ensures store.Valid() && store.taken == old(store.taken)
  {
    match event
    case Nothing =>
    case Changed(entries) => store.Change(entries);
    case Expired(token, marker) => store.Expire(token, marker);
  }

  // The views show the pages.
  ghost predicate Shows(views: seq<View>, pages: seq<Page>) {
    |views| == |pages| && forall k :: 0 <= k < |views| ==> views[k].items == pages[k].items && views[k].hasMore == pages[k].hasMore
  }

  lemma ShowsMore(views: seq<View>, pages: seq<Page>, view: View, page: Page)
    requires Shows(views, pages) && view.items == page.items && view.hasMore == page.hasMore
    ensures Shows(views + [view], pages + [page])
  {
  }

  lemma NothingShown()
    ensures Shows([], [])
  {
  }

  // How far a scroll has come: what is shown, and what it still shows from request i on.
  ghost predicate Along(views: seq<View>, all: seq<Page>, rest: seq<Page>) {
    exists done: seq<Page> :: done + rest == all && Shows(views, done)
  }

  lemma AlongNext(views: seq<View>, all: seq<Page>, page: Page, rest: seq<Page>, view: View)
    requires Along(views, all, [page] + rest) && view.items == page.items && view.hasMore == page.hasMore
    ensures Along(views + [view], all, rest)
  {
    var done: seq<Page> :| done + ([page] + rest) == all && Shows(views, done);
    ShowsMore(views, done, view, page);
    assert (done + [page]) + rest == all;
  }

  lemma AlongShows(views: seq<View>, all: seq<Page>, rest: seq<Page>)
    requires Along(views, all, rest)
    ensures |views| <= |all| && Shows(views, all[..|views|]) && (rest == [] ==> |views| == |all|)
    ensures rest == [] && all != [] ==> views[|views|-1].hasMore == all[|all|-1].hasMore
  {
    var done: seq<Page> :| done + rest == all && Shows(views, done);
    assert all[..|views|] == done;
  }

  lemma ScrollFrom(es: seq<Entry>, pos: Position, sizes: seq<nat>, visible: seq<set<nat>>, i: nat)
    requires |visible| == |sizes| && i < |sizes|
    ensures var page := ReadPage(es, pos, sizes[i], visible[i]);
      Scroll(es, pos, sizes[i..], visible[i..]) ==
      [page] + if page.hasMore then Scroll(es, page.next, sizes[i + 1..], visible[i + 1..]) else []
  {
    assert sizes[i..][1..] == sizes[i + 1..] && visible[i..][1..] == visible[i + 1..];
  }

  lemma ShowsPage(es: seq<Entry>, token: string, pos: Position, size: nat, visible: set<nat>)
    ensures var view, page := Show(es, token, pos, size, visible), ReadPage(es, pos, size, visible);
      && view.items == page.items && view.hasMore == page.hasMore
      && view.next == if page.hasMore then Some(Cursor(token, page.next.max, page.next.offset)) else None
  {
  }

  // The client's cursor stands before index `at` of the snapshot and passes validation.
  ghost predicate Holds(cursor: Cursor, token: string, es: seq<Entry>, pos: Position, at: nat) {
    cursor == Cursor(token, pos.max, pos.offset) && ValidCursor(cursor) && ValidSnapshot(es) && Denotes(es, pos, at)
  }

  lemma HoldsNext(es: seq<Entry>, token: string, pos: Position, at: nat, size: nat, visible: set<nat>)
    requires ValidSnapshot(es) && Denotes(es, pos, at) && size > 0 && ValidToken(token)
    requires ReadPage(es, pos, size, visible).hasMore
    ensures Holds(Show(es, token, pos, size, visible).next.value, token, es, ReadPage(es, pos, size, visible).next, at + size)
  {
    PageIsExact(es, pos, at, size, visible);
    IssuedCursorIsValid(es, pos, at, size, visible, token);
  }

  lemma StartAlong(all: seq<Page>)
    ensures Along([], all, all)
  {
    NothingShown();
    assert [] + all == all;
  }

  lemma NoRequests(es: seq<Entry>, pos: Position, sizes: seq<nat>, visible: seq<set<nat>>)
    requires sizes == [] && visible == []
    ensures Scroll(es, pos, sizes, visible) == []
  {
  }

  // An issued cursor passes the validation of the next request.
  lemma IssuedCursorIsValid(es: seq<Entry>, pos: Position, i: nat, size: nat, visible: set<nat>, token: string)
    requires ValidSnapshot(es) && Denotes(es, pos, i) && size > 0 && ValidToken(token)
    requires ReadPage(es, pos, size, visible).hasMore
    ensures ValidCursor(Show(es, token, pos, size, visible).next.value)
  {
    PageIsExact(es, pos, i, size, visible);
    var page := ReadPage(es, pos, size, visible);
    var last := page.candidates[size - 1];
    assert last == es[i + size - 1] && last in es;
    assert page.next.max == last.score;
  }

  // One request of a scroll of `es`: the first takes the snapshot, the others hold a cursor into it.
  method Request(store: FeedStore, userId: nat, cursor: Option<Cursor>, size: nat, visible: set<nat>, token: string,
                 ghost es: seq<Entry>, ghost pos: Position, ghost at: nat)
    returns (view: View, lost: bool)
    requires store.Valid() && userId != 0 && 1 <= size <= 50
    requires if cursor == None then pos == START && store.live == es && token !in store.taken
             else token in store.taken && store.taken[token] == es && Holds(cursor.value, token, es, pos, at)
    modifies store`copies, store`counts, store`taken
    ensures store.Valid() && token in store.taken && store.taken[token] == es
    ensures !lost ==> view == Show(es, token, pos, size, visible)
  {
    hide Show, ValidToken, ValidSnapshot, Denotes;
    var reply := Read(store, userId, cursor, size, token, visible);
    if reply.Err? { return View([], false, None), true; }
    assert cursor.Some? ==> Position(cursor.value.max, cursor.value.offset) == pos;
    view, lost := reply.value, false;
  }

  // Starts with the empty cursor and follows next_cursor while it is issued, with any page sizes, while the index
  // changes and keys expire. Unless a snapshot key is lost on the way, the views are the whole scroll of the index
  // as it was at the first request: every entry in order, without a gap or a repeat.
  method ReadAll(store: FeedStore, userId: nat, sizes: seq<nat>, visible: seq<set<nat>>, token: string, events: nat -> Meanwhile)
    returns (views: seq<View>, lost: bool)
    requires store.Valid() && userId != 0 && ValidToken(token) && token !in store.taken
    requires |visible| == |sizes| && forall k :: 0 <= k < |sizes| ==> 1 <= sizes[k] <= 50
    requires forall k :: events(k).Changed? ==> ValidSnapshot(events(k).entries)
    modifies store
    ensures store.Valid()
    ensures var es := old(store.live); var pages := Scroll(es, START, sizes, visible);
      && Covers(pages, es, 0, visible)
      && |views| <= |pages| && Shows(views, pages[..|views|]) && (!lost ==> |views| == |pages|)
      && (!lost && |sizes| > |es| ==> views != [] && !views[|views|-1].hasMore)
  {
    hide Covers, ReadPage, ValidSnapshot, Denotes, ValidToken, ValidCursor, Along, Shows, Scroll, Show, Holds;
    views, lost := [], false;
    ghost var es := store.live;
    ghost var all := Scroll(es, START, sizes, visible);
    StartDenotes(es);
    ScrollIsExact(es, START, 0, sizes, visible);
    StartAlong(all);
    assert sizes[0..] == sizes && visible[0..] == visible;
    var cursor: Option<Cursor> := None;
    ghost var pos: Position, at: nat := START, 0;
    var i := 0;
    while i < |sizes|
      invariant i <= |sizes| && !lost && store.Valid() && ValidSnapshot(es) && Denotes(es, pos, at)
      invariant if cursor == None then pos == START && store.live == es && token !in store.taken
                else token in store.taken && store.taken[token] == es && Holds(cursor.value, token, es, pos, at)
      invariant Along(views, all, Scroll(es, pos, sizes[i..], visible[i..]))
      decreases |sizes| - i
    {
      ScrollFrom(es, pos, sizes, visible, i);
      ghost var page := ReadPage(es, pos, sizes[i], visible[i]);
      ghost var rest := if page.hasMore then Scroll(es, page.next, sizes[i + 1..], visible[i + 1..]) else [];
      var view;
      view, lost := Request(store, userId, cursor, sizes[i], visible[i], token, es, pos, at);
      if lost {
        AlongShows(views, all, [page] + rest);
        return;
      }
      ShowsPage(es, token, pos, sizes[i], visible[i]);
      AlongNext(views, all, page, rest, view);
      views := views + [view];
      if !view.hasMore {
        AlongShows(views, all, rest);
        return;
      }
      HoldsNext(es, token, pos, at, sizes[i], visible[i]);
      cursor, pos, at, i := view.next, page.next, at + sizes[i], i + 1;
      Interfere(store, events(i));
    }
    NoRequests(es, pos, sizes[i..], visible[i..]);
    AlongShows(views, all, []);
  }
}
