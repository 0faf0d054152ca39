// Scanning the active activities in pages while more of them open, and how many rounds its cycles take.
module SeckillPaging {
  import opened ProtocolInvariant

  const PAGE := 100

  // ---- Pages ----------------------------------------------------------------------------------------------

  predicate Ascending(ids: seq<nat>) {
    forall i, j :: 0 <= i < j < |ids| ==> ids[i] < ids[j]
  }

  // The ids beyond the scan cursor, in order.
  function Beyond(act: seq<nat>, after: nat): seq<nat> {
    if act == [] then []
    else
      var init, last := Beyond(act[..|act|-1], after), act[|act|-1];
      if last > after then init + [last] else init
  }

  function First(ids: seq<nat>, limit: nat): seq<nat> {
    if |ids| <= limit then ids else ids[..limit]
  }

  function PageAfter(act: seq<nat>, after: nat): seq<nat> {
    First(Beyond(act, after), PAGE)
  }

  lemma NothingBeyond(after: nat)
    ensures Beyond([], after) == []
  {
  }

  lemma {:induction false} BeyondIs(act: seq<nat>, after: nat)
    requires Ascending(act)
    ensures Ascending(Beyond(act, after))
    ensures forall id :: id in Beyond(act, after) <==> id in act && id > after
  {
    if act != [] {
      var init, last := act[..|act|-1], act[|act|-1];
      BeyondIs(init, after);
      assert act == init + [last];
      var before := Beyond(init, after);
      forall i | 0 <= i < |before| ensures before[i] < last { assert before[i] in before && before[i] in init; }
    }
  }

  lemma {:induction false} BeyondPrefix(a: seq<nat>, b: seq<nat>, after: nat)
    requires a <= b
    ensures Beyond(a, after) <= Beyond(b, after)
    decreases |b|
  {
    if |a| < |b| {
      BeyondPrefix(a, b[..|b|-1], after);
    } else {
      assert a == b;
    }
  }

  lemma BeyondSnoc(init: seq<nat>, last: nat, after: nat)
    ensures Beyond(init + [last], after) == Beyond(init, after) + if last > after then [last] else []
  {
    assert (init + [last])[..|init|] == init;
  }

  // A page holds active ids beyond the cursor in ascending order, and skips none: the others come after it, and
  // then it is full.
  lemma PageIs(act: seq<nat>, after: nat)
    requires Ascending(act)
    ensures var page := PageAfter(act, after);
      && Ascending(page) && |page| <= PAGE
      && (forall id :: id in page ==> id in act && id > after)
      && (forall id :: id in act && id > after && id !in page ==> |page| == PAGE && id > page[PAGE - 1])
  {
    BeyondIs(act, after);
    var all, page := Beyond(act, after), PageAfter(act, after);
    hide Beyond;
    assert forall i :: 0 <= i < |page| ==> page[i] == all[i] && page[i] in page;
    forall id | id in page ensures id in all {
      var i :| 0 <= i < |page| && page[i] == id;
      assert all[i] in all;
    }
    forall id | id in act && id > after && id !in page ensures |page| == PAGE && id > page[PAGE - 1] {
      var i :| 0 <= i < |all| && all[i] == id;
      assert |page| <= i < |all| && page == all[..PAGE] && page[PAGE - 1] == all[PAGE - 1] < all[i];
    }
  }

  // The pages of one cycle: each is a new query, acts[k] being what is active when page k is asked for, and a
  // page that is not full ends the cycle.
  function PagesOf(acts: seq<seq<nat>>, after: nat): seq<seq<nat>> {
    if acts == [] then []
    else
      var page := PageAfter(acts[0], after);
      if |page| < PAGE then [page] else [page] + PagesOf(acts[1..], page[|page|-1])
  }

  lemma NoPages(after: nat)
    ensures PagesOf([], after) == []
  {
  }

  lemma PagesOfCons(act: seq<nat>, acts: seq<seq<nat>>, after: nat)
    ensures var page := PageAfter(act, after);
      PagesOf([act] + acts, after) == if |page| < PAGE then [page] else [page] + PagesOf(acts, page[|page|-1])
  {
    assert ([act] + acts)[1..] == acts;
  }

  function Flatten(pages: seq<seq<nat>>): seq<nat> {
    if pages == [] then [] else pages[0] + Flatten(pages[1..])
  }

  lemma FlattenCons(page: seq<nat>, rest: seq<seq<nat>>)
    ensures Flatten([page] + rest) == page + Flatten(rest)
  {
    assert ([page] + rest)[1..] == rest;
  }

  lemma AscendingJoin(a: seq<nat>, b: seq<nat>)
    requires Ascending(a) && Ascending(b) && a != [] && forall id :: id in b ==> id > a[|a|-1]
    ensures Ascending(a + b)
  {
    forall i, j | 0 <= i < j < |a + b| ensures (a + b)[i] < (a + b)[j] {
      if i < |a| <= j { assert b[j - |a|] in b; }
    }
  }

  lemma NothingAscends()
    ensures Flatten([]) == [] && Ascending([])
  {
  }

  lemma {:induction false} CycleAscends(acts: seq<seq<nat>>, after: nat)
    requires forall k :: 0 <= k < |acts| ==> Ascending(acts[k])
    ensures Ascending(Flatten(PagesOf(acts, after)))
    ensures forall id :: id in Flatten(PagesOf(acts, after)) ==> id > after
    decreases |acts|
  {
    hide PageAfter, Ascending, Flatten;
    NothingAscends();
    if acts != [] {
      var page := PageAfter(acts[0], after);
      PageIs(acts[0], after);
      if |page| < PAGE {
        FlattenCons(page, []);
        assert [page] + [] == [page] && page + [] == page;
      } else {
        assert page[|page|-1] in page;
        CycleAscends(acts[1..], page[|page|-1]);
        FlattenCons(page, PagesOf(acts[1..], page[|page|-1]));
        AscendingJoin(page, Flatten(PagesOf(acts[1..], page[|page|-1])));
      }
    }
  }

  lemma {:induction false} CycleMissesNone(acts: seq<seq<nat>>, after: nat, id: nat)
    requires forall k :: 0 <= k < |acts| ==> Ascending(acts[k]) && id in acts[k]
    requires PagesOf(acts, after) != [] && |PagesOf(acts, after)[|PagesOf(acts, after)|-1]| < PAGE && id > after
    ensures id in Flatten(PagesOf(acts, after))
    decreases |acts|
  {
    hide PageAfter, Ascending, Flatten;
    var page := PageAfter(acts[0], after);
    PageIs(acts[0], after);
    if |page| == PAGE {
      var last := page[PAGE - 1];
      var rest := PagesOf(acts[1..], last);
      assert PagesOf(acts, after) == [page] + rest;
      hide PagesOf;
      FlattenCons(page, rest);
      if id !in page {
        assert rest != [] && ([page] + rest)[|rest|] == rest[|rest|-1];
        CycleMissesNone(acts[1..], last, id);
      }
    } else {
      FlattenCons(page, []);
      assert [page] + [] == [page];
    }
  }

  lemma {:induction false} CycleAsks(acts: seq<seq<nat>>, after: nat, k: nat)
    requires forall k :: 0 <= k < |acts| ==> Ascending(acts[k])
    ensures |PagesOf(acts, after)| <= |acts|
    ensures k < |PagesOf(acts, after)| ==> forall id :: id in PagesOf(acts, after)[k] ==> id in acts[k]
    decreases |acts|
  {
    if acts != [] {
      hide PageAfter, Ascending;
      PageIs(acts[0], after);
      var page := PageAfter(acts[0], after);
      if |page| == PAGE { CycleAsks(acts[1..], page[PAGE - 1], if k == 0 then 0 else k - 1); }
    }
  }

  // However many activities open between its pages, a cycle visits no activity twice, visits each when it was
  // active, and, once a short page has ended it, has visited every activity that was active throughout.
  lemma CycleVisitsAll(acts: seq<seq<nat>>, start: set<nat>)
    requires forall k :: 0 <= k < |acts| ==> Ascending(acts[k]) && forall id :: id in start ==> id in acts[k]
    requires 0 !in start
    ensures var pages := PagesOf(acts, 0);
      && |pages| <= |acts| && (forall k, id :: 0 <= k < |pages| && id in pages[k] ==> id in acts[k])
      && Ascending(Flatten(pages))
      && (pages != [] && |pages[|pages|-1]| < PAGE ==> forall id :: id in start ==> id in Flatten(pages))
  {
    hide PagesOf, Flatten, Ascending;
    var pages := PagesOf(acts, 0);
    CycleAscends(acts, 0);
    CycleAsks(acts, 0, 0);
    forall k, id | 0 <= k < |pages| && id in pages[k] ensures id in acts[k] { CycleAsks(acts, 0, k); }
    if pages != [] && |pages[|pages|-1]| < PAGE {
      forall id | id in start ensures id in Flatten(pages) { CycleMissesNone(acts, 0, id); }
    }
  }

  // ---- Rounds ---------------------------------------------------------------------------------------------

  // Rounds in one paging cycle: a page that is not full ends it.
  function Cycle(act: seq<nat>): nat {
    |act| / PAGE + 1
  }

  function Passed(act: seq<nat>, after: nat): set<nat> {
    set id | id in act && id <= after
  }

  // `spent` rounds since the calm began make up the full cycles, the unfinished first one and q rounds of the
  // current one, which have passed a full page each.
  ghost predicate InTime(act: seq<nat>, after: nat, cycles: int, late: nat, q: nat, spent: nat) {
    && cycles + late >= 0 && spent <= (cycles + late) * Cycle(act) + q && PAGE * q <= |Passed(act, after)|
  }

  lemma SpentNothing(act: seq<nat>, after: nat, late: nat)
    ensures InTime(act, after, 0 - late, late, 0, 0)
  {
  }

  function Members(ids: seq<nat>): set<nat> {
    set id | id in ids
  }

  lemma MembersSnoc(init: seq<nat>, last: nat)
    ensures Members(init + [last]) == Members(init) + {last}
  {
  }

  lemma {:induction false} MembersCount(ids: seq<nat>)
    ensures |Members(ids)| <= |ids|
    ensures Ascending(ids) ==> |Members(ids)| == |ids|
  {
    if ids != [] {
      var init, last := ids[..|ids|-1], ids[|ids|-1];
      MembersCount(init);
      MembersSnoc(init, last);
      assert ids == init + [last];
      if Ascending(ids) { assert last !in Members(init); }
    }
  }

  lemma PassedCount(act: seq<nat>, after: nat)
    ensures |Passed(act, after)| <= |act|
  {
    MembersCount(act);
    SubsetCounts(Passed(act, after), Members(act));
  }

  lemma PageIsBelow(page: seq<nat>, id: nat)
    requires Ascending(page) && id in page
    ensures id <= page[|page|-1]
  {
  }

  lemma FullPagePasses(act: seq<nat>, after: nat)
    requires Ascending(act) && |PageAfter(act, after)| == PAGE
    ensures |Passed(act, PageAfter(act, after)[PAGE - 1])| >= |Passed(act, after)| + PAGE
  {
    hide PageAfter, Ascending;
    var page := PageAfter(act, after);
    PageIs(act, after);
    MembersCount(page);
    assert page[PAGE - 1] in page;
    var passed, now := Passed(act, after), Passed(act, page[PAGE - 1]);
    forall id | id in page ensures id in now - passed { PageIsBelow(page, id); }
    SubsetCounts(Members(page), now - passed);
    SubsetCounts(passed, now);
  }

  lemma TimesMonotone(x: nat, y: nat, k: nat)
    ensures x <= y ==> x * k <= y * k && k * x <= k * y
  {
  }

  lemma CycleGrows(a: nat, b: nat, n: nat)
    requires a <= b
    ensures a / PAGE <= b / PAGE && n * (a / PAGE + 1) <= n * (b / PAGE + 1)
  {
    TimesMonotone(a / PAGE + 1, b / PAGE + 1, n);
  }

  // Activities that open lengthen a cycle, but the rounds spent so far still fit.
  lemma MoreActives(a: seq<nat>, b: seq<nat>, after: nat, cycles: int, late: nat, q: nat, spent: nat)
    requires InTime(a, after, cycles, late, q, spent) && |a| <= |b| && forall id :: id in a ==> id in b
    ensures InTime(b, after, cycles, late, q, spent)
  {
    CycleGrows(|a|, |b|, cycles + late);
    SubsetCounts(Passed(a, after), Passed(b, after));
  }

  lemma OneMoreCycle(c: nat, k: nat)
    ensures (c + 1) * k == c * k + k
  {
  }

  lemma PagesFit(q: nat, n: nat)
    requires PAGE * q <= n
    ensures q <= n / PAGE
  {
  }

  lemma RoundSpent(act: seq<nat>, after: nat, cycles: int, late: nat, q: nat, spent: nat)
    requires InTime(act, after, cycles, late, q, spent) && Ascending(act)
    ensures var ids := PageAfter(act, after);
      && (|ids| == PAGE ==> InTime(act, ids[PAGE - 1], cycles, late, q + 1, spent + 1))
      && (|ids| < PAGE ==> InTime(act, 0, cycles + 1, late, 0, spent + 1))
  {
    hide PageAfter, Ascending, Passed;
    if |PageAfter(act, after)| == PAGE {
      FullPagePasses(act, after);
    } else {
      PassedCount(act, after);
      PagesFit(q, |act|);
      OneMoreCycle(cycles + late, Cycle(act));
    }
  }

  // Arithmetic of whole paging cycles of k rounds.
  lemma CyclesReached(c: nat, k: nat, r: nat, b: nat)
    requires r < k && c * k + r >= k * b
    ensures c >= b
  {
    TimesMonotone(c + 1, b, k);
  }

  // The round by which an activity of this weight is drained, in cycles of k rounds. When the worker does not start
  // in the calm, the cycle it is in comes first, and its claim cursor may have to wrap.
  function Due(calm: nat, k: nat, weight: nat): nat {
    if calm == 0 then k * weight else calm + k * (weight + 2)
  }
}
