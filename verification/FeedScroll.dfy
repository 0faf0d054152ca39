// Scrolling a snapshot of a scored index with a (max score, equal-score offset) cursor.
module FeedScroll {
  import opened SeckillModel
  import opened Slices

  datatype Entry = Entry(blog: nat, score: int)

  datatype Position = Position(max: int, offset: nat)

  const START := Position(MAX_EXACT, 0)

  // ZREVRANGE order: scores never rise; ties keep the one order of the stored set.
  ghost predicate Sorted(es: seq<Entry>) {
    forall i, j :: 0 <= i < j < |es| ==> es[i].score >= es[j].score
  }

  ghost predicate ValidSnapshot(es: seq<Entry>) {
    Sorted(es) && forall e :: e in es ==> 0 <= e.score <= MAX_EXACT
  }

  // ---- One page -------------------------------------------------------------------------------------

  function AtMost(es: seq<Entry>, max: int): seq<Entry> {
    if es == [] then []
    else
      var init, last := AtMost(es[..|es|-1], max), es[|es|-1];
      if last.score <= max then init + [last] else init
  }

  // ZREVRANGEBYSCORE max -inf LIMIT offset limit
  function Range(es: seq<Entry>, pos: Position, limit: nat): seq<Entry> {
    var all := AtMost(es, pos.max);
    if |all| <= pos.offset then []
    else if |all| - pos.offset <= limit then all[pos.offset..]
    else all[pos.offset..pos.offset + limit]
  }

  datatype Page = Page(candidates: seq<Entry>, items: seq<nat>, hasMore: bool, next: Position)

  function Items(es: seq<Entry>, visible: set<nat>): seq<nat> {
    if es == [] then []
    else
      var init, last := Items(es[..|es|-1], visible), es[|es|-1];
      if last.blog in visible then init + [last.blog] else init
  }

  // The items are the blogs of the visible candidates, each once and in the candidates' order: `at` holds the indexes
  // of the candidates that are shown.
  ghost predicate PicksAt(es: seq<Entry>, visible: set<nat>, items: seq<nat>, at: seq<nat>) {
    && |at| == |items| && (forall k :: 0 <= k < |at| ==> at[k] < |es| && items[k] == es[at[k]].blog)
    && (forall j, k :: 0 <= j < k < |at| ==> at[j] < at[k])
    && (forall i: nat :: i < |es| ==> (i in at <==> es[i].blog in visible))
  }

  ghost predicate Picks(es: seq<Entry>, visible: set<nat>, items: seq<nat>) {
    exists at: seq<nat> :: PicksAt(es, visible, items, at)
  }

  lemma PickedIsBefore(es: seq<Entry>, visible: set<nat>, items: seq<nat>, at: seq<nat>)
    requires PicksAt(es, visible, items, at)
    ensures forall i :: i in at ==> i < |es|
  {
  }

  lemma PickMore(init: seq<Entry>, last: Entry, visible: set<nat>, items: seq<nat>, at: seq<nat>)
    requires PicksAt(init, visible, items, at) && last.blog in visible
    ensures PicksAt(init + [last], visible, items + [last.blog], at + [|init|])
  {
    PickedIsBefore(init, visible, items, at);
    var es, more := init + [last], at + [|init|];
    assert forall k :: 0 <= k < |at| ==> at[k] in at && more[k] == at[k] && es[at[k]] == init[at[k]];
    forall i: nat | i < |es| ensures i in more <==> es[i].blog in visible {
      if i < |init| { assert es[i] == init[i]; } else { assert more[|at|] == i; }
    }
  }

  lemma PickNoMore(init: seq<Entry>, last: Entry, visible: set<nat>, items: seq<nat>, at: seq<nat>)
    requires PicksAt(init, visible, items, at) && last.blog !in visible
    ensures PicksAt(init + [last], visible, items, at)
  {
    PickedIsBefore(init, visible, items, at);
    var es := init + [last];
    assert forall i :: 0 <= i < |init| ==> es[i] == init[i];
  }

  lemma OneMoreItem(init: seq<Entry>, last: Entry, visible: set<nat>)
    ensures Items(init + [last], visible) == Items(init, visible) + if last.blog in visible then [last.blog] else []
  {
    assert (init + [last])[..|init|] == init;
  }

  lemma {:induction false} ItemsPick(es: seq<Entry>, visible: set<nat>)
    ensures Picks(es, visible, Items(es, visible))
  {
    if es == [] {
      assert PicksAt(es, visible, Items(es, visible), []);
    } else {
      hide PicksAt, Items;
      var init, last := es[..|es|-1], es[|es|-1];
      ItemsPick(init, visible);
      var items := Items(init, visible);
      var at: seq<nat> :| PicksAt(init, visible, items, at);
      assert init + [last] == es;
      OneMoreItem(init, last, visible);
      if last.blog in visible { PickMore(init, last, visible, items, at); } else { PickNoMore(init, last, visible, items, at); }
    }
  }

  // Entries at the end that share the last score.
  function Trailing(es: seq<Entry>, score: int): nat {
    if es == [] || es[|es|-1].score != score then 0 else 1 + Trailing(es[..|es|-1], score)
  }

  function Advance(pos: Position, entries: seq<Entry>): Position
    requires entries != []
  {
    var last := entries[|entries|-1].score;
    Position(last, Trailing(entries, last) + if last == pos.max then pos.offset else 0)
  }

  function ReadPage(es: seq<Entry>, pos: Position, size: nat, visible: set<nat>): Page {
    var fetched := Range(es, pos, size + 1);
    var hasMore := |fetched| > size;
    var entries := if hasMore then fetched[..size] else fetched;
    Page(entries, Items(entries, visible), hasMore, if hasMore && entries != [] then Advance(pos, entries) else pos)
  }

  // ---- What an issued cursor denotes ------------------------------------------------------------------

  function CountAbove(es: seq<Entry>, score: int): nat {
    if es == [] then 0 else CountAbove(es[..|es|-1], score) + if es[|es|-1].score > score then 1 else 0
  }

  // The cursor stands before index i of the snapshot: i entries are consumed, namely all entries above
  // max and the first `offset` of those equal to max.
  ghost predicate Denotes(es: seq<Entry>, pos: Position, i: nat) {
    && i == CountAbove(es, pos.max) + pos.offset && i <= |es|
    && forall j :: CountAbove(es, pos.max) <= j < i ==> es[j].score == pos.max
  }

  lemma OneMoreEntry(init: seq<Entry>, last: Entry, max: int)
    ensures AtMost(init + [last], max) == AtMost(init, max) + if last.score <= max then [last] else []
    ensures CountAbove(init + [last], max) == CountAbove(init, max) + if last.score > max then 1 else 0
  {
    assert (init + [last])[..|init|] == init;
  }

  lemma LastIsLeast(init: seq<Entry>, last: Entry)
    requires Sorted(init + [last])
    ensures Sorted(init) && forall e :: e in init ==> e.score >= last.score
  {
    var es := init + [last];
    assert es[|init|] == last && forall j :: 0 <= j < |init| ==> es[j] == init[j];
  }

  lemma NoEntries(max: int)
    ensures AtMost([], max) == [] && CountAbove([], max) == 0
  {
  }

  lemma {:induction false} AllAbove(es: seq<Entry>, max: int)
    requires forall e :: e in es ==> e.score > max
    ensures AtMost(es, max) == [] && CountAbove(es, max) == |es|
  {
    if es != [] { AllAbove(es[..|es|-1], max); }
  }

  lemma {:induction false} SplitAt(es: seq<Entry>, max: int)
    requires Sorted(es)
    ensures CountAbove(es, max) <= |es| && AtMost(es, max) == es[CountAbove(es, max)..]
    ensures forall j :: 0 <= j < CountAbove(es, max) ==> es[j].score > max
    ensures forall j :: CountAbove(es, max) <= j < |es| ==> es[j].score <= max
  {
    hide AtMost, CountAbove, Sorted;
    if es == [] {
      NoEntries(max);
    } else {
      var init, last := es[..|es|-1], es[|es|-1];
      assert es == init + [last];
      LastIsLeast(init, last);
      SplitAt(init, max);
      OneMoreEntry(init, last, max);
      var k := CountAbove(init, max);
      if last.score <= max {
        assert es[k..] == init[k..] + [last];
      } else {
        AllAbove(init, max);
        assert init[|init|..] == es[|es|..] == [];
      }
    }
  }

  lemma CountAboveIs(es: seq<Entry>, max: int, k: nat)
    requires Sorted(es) && k <= |es|
    requires k > 0 ==> es[k - 1].score > max
    requires k < |es| ==> es[k].score <= max
    ensures CountAbove(es, max) == k
  {
    SplitAt(es, max);
  }

  lemma {:induction false} TrailingSplit(es: seq<Entry>, score: int)
    ensures Trailing(es, score) <= |es|
    ensures forall j :: |es| - Trailing(es, score) <= j < |es| ==> es[j].score == score
    ensures Trailing(es, score) < |es| ==> es[|es| - Trailing(es, score) - 1].score != score
  {
    if es != [] && es[|es|-1].score == score { TrailingSplit(es[..|es|-1], score); }
  }

  lemma RangeIsSlice(es: seq<Entry>, pos: Position, i: nat, limit: nat)
    requires Sorted(es) && Denotes(es, pos, i)
    ensures Range(es, pos, limit) == if |es| - i <= limit then es[i..] else es[i..i + limit]
  {
    SplitAt(es, pos.max);
  }

  // A page that ends at the cursor's own score consists of that score only.
  lemma AdvanceWithinScore(es: seq<Entry>, pos: Position, i: nat, n: nat)
    requires Sorted(es) && Denotes(es, pos, i) && 0 < n && i + n <= |es|
    requires es[i + n - 1].score == pos.max
    ensures Trailing(es[i..i + n], pos.max) == n
    ensures Denotes(es, Position(pos.max, n + pos.offset), i + n)
  {
    var page := es[i..i + n];
    SplitAt(es, pos.max);
    assert forall j :: i <= j < i + n ==> es[j].score == pos.max;
    assert forall j :: 0 <= j < n ==> page[j].score == pos.max;
    TrailingSplit(page, pos.max);
  }

  // Before a cursor lie scores at least max, after it scores at most max.
  lemma AroundCursor(es: seq<Entry>, pos: Position, i: nat)
    requires Sorted(es) && Denotes(es, pos, i)
    ensures i > 0 ==> es[i - 1].score >= pos.max
    ensures forall j :: i <= j < |es| ==> es[j].score <= pos.max
  {
    SplitAt(es, pos.max);
  }

  // A page that ends below the cursor's score: its trailing run is the whole run of the new score so far.
  lemma AdvanceToLower(es: seq<Entry>, pos: Position, i: nat, n: nat, last: int)
    requires Sorted(es) && Denotes(es, pos, i) && 0 < n && i + n <= |es|
    requires es[i + n - 1].score == last && last != pos.max
    ensures Denotes(es, Position(last, Trailing(es[i..i + n], last)), i + n)
  {
    AroundCursor(es, pos, i);
    var page := es[i..i + n];
    var t := Trailing(page, last);
    TrailingSplit(page, last);
    var k := i + n - t;
    assert page[n - 1] == es[i + n - 1];
    assert forall j :: k <= j < i + n ==> es[j] == page[j - i];
    assert k > 0 ==> es[k - 1].score > last by {
      hide Trailing;
      if t < n { assert es[k - 1] == page[n - t - 1]; assert es[k - 1].score >= es[i + n - 1].score; }
    }
    assert t > 0;
    CountAboveIs(es, last, k);
  }

  // The next cursor denotes the index right after the page, although equal scores span pages.
  lemma AdvanceDenotes(es: seq<Entry>, pos: Position, i: nat, n: nat)
    requires Sorted(es) && Denotes(es, pos, i) && 0 < n && i + n <= |es|
    ensures Denotes(es, Advance(pos, es[i..i + n]), i + n)
  {
    hide Sorted, Denotes, CountAbove, Trailing;
    if es[i + n - 1].score == pos.max {
      AdvanceWithinScore(es, pos, i, n);
    } else {
      AdvanceToLower(es, pos, i, n, es[i + n - 1].score);
    }
  }

  // The page of candidates at index i.
  function Slice(es: seq<Entry>, i: nat, size: nat): seq<Entry>
    requires i <= |es|
  {
    if i + size < |es| then es[i..i + size] else es[i..]
  }

  lemma SliceIs(es: seq<Entry>, i: nat, size: nat)
    requires i <= |es|
    ensures var fetched := if |es| - i <= size + 1 then es[i..] else es[i..i + size + 1];
      && (|fetched| > size <==> i + size < |es|)
      && (if |fetched| > size then fetched[..size] else fetched) == Slice(es, i, size)
  {
  }

  lemma PageIs(es: seq<Entry>, pos: Position, i: nat, size: nat, visible: set<nat>)
    requires ValidSnapshot(es) && Denotes(es, pos, i) && size > 0
    ensures var page := ReadPage(es, pos, size, visible);
      && page.hasMore == (i + size < |es|) && page.candidates == Slice(es, i, size)
      && page.items == Items(page.candidates, visible)
      && (page.hasMore ==> page.next == Advance(pos, page.candidates))
  {
    RangeIsSlice(es, pos, i, size + 1);
    SliceIs(es, i, size);
    hide Range, Items, Advance, Denotes, ValidSnapshot, Slice;
  }

  // Reading from an issued cursor returns exactly the next `size` candidates, and of them exactly the visible ones in
  // order; has_more is false exactly at the end, and the issued cursor continues right after them.
  lemma PageIsExact(es: seq<Entry>, pos: Position, i: nat, size: nat, visible: set<nat>)
    requires ValidSnapshot(es) && Denotes(es, pos, i) && size > 0
    ensures var page := ReadPage(es, pos, size, visible);
      && page.hasMore == (i + size < |es|)
      && page.candidates == Slice(es, i, size)
      && Picks(page.candidates, visible, page.items)
      && (page.hasMore ==> Denotes(es, page.next, i + size))
  {
    assert i <= |es|;
    hide ReadPage, Items, Picks, Advance, Denotes;
    PageIs(es, pos, i, size, visible);
    ItemsPick(Slice(es, i, size), visible);
    if i + size < |es| { AdvanceDenotes(es, pos, i, size); }
  }

  lemma StartDenotes(es: seq<Entry>)
    requires ValidSnapshot(es)
    ensures Denotes(es, START, 0)
  {
    if es != [] { assert es[0] in es; }
    CountAboveIs(es, MAX_EXACT, 0);
  }

  // ---- A whole scroll ---------------------------------------------------------------------------------

  // The pages a client reads by following next_cursor, one size and one visible set per request.
  function Scroll(es: seq<Entry>, pos: Position, sizes: seq<nat>, visible: seq<set<nat>>): seq<Page>
    requires |visible| == |sizes|
    decreases |sizes|
  {
    if sizes == [] then []
    else
      var page := ReadPage(es, pos, sizes[0], visible[0]);
      if page.hasMore then [page] + Scroll(es, page.next, sizes[1..], visible[1..]) else [page]
  }

  function Candidates(pages: seq<Page>): seq<Entry> {
    if pages == [] then [] else pages[0].candidates + Candidates(pages[1..])
  }

  // The pages show the snapshot from index i on: in order, without a gap or a repeat, of each page exactly the blogs
  // visible to its own request; has_more is true before the last page, and false on it exactly at the end.
  ghost predicate Covers(pages: seq<Page>, es: seq<Entry>, i: nat, visible: seq<set<nat>>) {
    && |pages| <= |visible| && (forall k :: 0 <= k < |pages| ==> Picks(pages[k].candidates, visible[k], pages[k].items))
    && i + |Candidates(pages)| <= |es| && Candidates(pages) == es[i..i + |Candidates(pages)|]
    && (forall k :: 0 <= k < |pages| - 1 ==> pages[k].hasMore)
    && (pages != [] ==> (!pages[|pages|-1].hasMore <==> i + |Candidates(pages)| == |es|))
  }

  lemma LastPage(page: Page, es: seq<Entry>, i: nat, visible: seq<set<nat>>)
    requires visible != [] && Picks(page.candidates, visible[0], page.items)
    requires !page.hasMore && i <= |es| && page.candidates == es[i..]
    ensures Covers([page], es, i, visible)
  {
    hide Picks;
    assert Candidates([page]) == page.candidates + Candidates([]) == es[i..];
  }

  lemma CandidatesCons(page: Page, rest: seq<Page>)
    ensures Candidates([page] + rest) == page.candidates + Candidates(rest)
  {
    assert ([page] + rest)[1..] == rest;
  }

  lemma MorePages(page: Page, rest: seq<Page>, es: seq<Entry>, i: nat, n: nat, visible: seq<set<nat>>)
    requires visible != [] && Picks(page.candidates, visible[0], page.items)
    requires page.hasMore && n > 0 && i + n < |es| && page.candidates == es[i..i + n]
    requires Covers(rest, es, i + n, visible[1..])
    ensures Covers([page] + rest, es, i, visible)
  {
    hide Picks, Candidates;
    var pages := [page] + rest;
    CandidatesCons(page, rest);
    SliceJoin(es, i, i + n, i + n + |Candidates(rest)|);
    assert forall k :: 0 < k < |pages| ==> pages[k] == rest[k - 1] && visible[k] == visible[1..][k - 1];
    if rest == [] {
      assert Candidates(rest) == [] by { NoCandidates(); }
    } else {
      assert pages[|pages|-1] == rest[|rest|-1];
    }
  }

  lemma NoCandidates()
    ensures Candidates([]) == []
  {
  }

  // Following next_cursor with any page sizes covers the snapshot, and ends within |snapshot| + 1 requests.
  lemma {:induction false} ScrollIsExact(es: seq<Entry>, pos: Position, i: nat, sizes: seq<nat>, visible: seq<set<nat>>)
    requires ValidSnapshot(es) && Denotes(es, pos, i)
    requires |visible| == |sizes| && forall k :: 0 <= k < |sizes| ==> sizes[k] > 0
    ensures Covers(Scroll(es, pos, sizes, visible), es, i, visible)
    ensures |sizes| > |es| - i ==>
              Scroll(es, pos, sizes, visible) != [] && !Scroll(es, pos, sizes, visible)[|Scroll(es, pos, sizes, visible)| - 1].hasMore
    decreases |sizes|
  {
    hide ReadPage, ValidSnapshot, Covers, Picks;
    if sizes == [] {
      NothingRead(es, i);
    } else {
      var page := ReadPage(es, pos, sizes[0], visible[0]);
      PageIsExact(es, pos, i, sizes[0], visible[0]);
      if page.hasMore {
        ScrollIsExact(es, page.next, i + sizes[0], sizes[1..], visible[1..]);
        MorePages(page, Scroll(es, page.next, sizes[1..], visible[1..]), es, i, sizes[0], visible);
      } else {
        LastPage(page, es, i, visible);
      }
    }
  }

  lemma NothingRead(es: seq<Entry>, i: nat)
    requires i <= |es|
    ensures Covers([], es, i, [])
  {
    assert es[i..i] == [];
  }
}
