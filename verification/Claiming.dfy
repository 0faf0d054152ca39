// The recovery scan over the pending list: what one claim looks at, and what repeated claims look at until the
// cursor wraps.
module SeckillClaiming {
  import opened SeckillModel
  import R = Admission
  import opened ProtocolInvariant

  // A stream that claims work on: its log is in id order, and what is pending was delivered.
  ghost predicate Claimable(r: R.Redis) {
    && r.stream.Some? && R.GROUP in r.stream.value.groups
    && InOrder(r.stream.value.delivered) && r.stream.value.pending <= R.Ids(r.stream.value.delivered)
  }

  // The pending ids from the cursor on.
  function From(pending: set<StreamId>, start: StreamId): set<StreamId> {
    set id | id in pending && !Before(id, start)
  }

  // The pending ids between two cursors; 0-0 as the second one stands for the end of the list.
  function Looked(pending: set<StreamId>, start: StreamId, next: StreamId): set<StreamId> {
    set id | id in pending && !Before(id, start) && (next == ZERO_ID || Before(id, next))
  }

  lemma InOrderTail(es: seq<Event>)
    requires InOrder(es) && es != []
    ensures InOrder(es[1..]) && forall e :: e in es[1..] ==> Before(es[0].id, e.id)
  {
    assert forall e :: e in es[1..] ==> e in es;
  }

  lemma InOrderCons(e: Event, es: seq<Event>)
    requires InOrder(es) && Before(ZERO_ID, e.id) && forall f :: f in es ==> Before(e.id, f.id)
    ensures InOrder([e] + es)
  {
    forall j | 0 <= j < |es| ensures Before(e.id, es[j].id) { assert es[j] in es; }
  }

  lemma {:induction false} InOrderCount(es: seq<Event>)
    requires InOrder(es)
    ensures |R.Ids(es)| == |es|
  {
    if es == [] {
      assert R.Ids(es) == {};
    } else {
      InOrderTail(es);
      hide InOrder;
      InOrderCount(es[1..]);
      var first, rest := {es[0].id}, R.Ids(es[1..]);
      assert es == [es[0]] + es[1..] && R.Ids(es) == first + rest;
      assert first !! rest && |first + rest| == |first| + |rest|;
    }
  }

  // The pending list from a cursor on, in id order.
  lemma {:induction false} ListedIs(es: seq<Event>, pending: set<StreamId>, start: StreamId)
    requires InOrder(es)
    ensures InOrder(R.Listed(es, pending, start))
    ensures forall e :: e in R.Listed(es, pending, start) <==> e in es && e.id in pending && !Before(e.id, start)
  {
    if es != [] {
      InOrderTail(es);
      ListedIs(es[1..], pending, start);
      var rest := R.Listed(es[1..], pending, start);
      assert es == [es[0]] + es[1..];
      hide InOrder, Before;
      if es[0].id in pending && !Before(es[0].id, start) {
        assert Before(ZERO_ID, es[0].id) by { FirstIsNotZero(es); }
        InOrderCons(es[0], rest);
      }
    }
  }

  lemma FirstIsNotZero(es: seq<Event>)
    requires InOrder(es) && es != []
    ensures Before(ZERO_ID, es[0].id)
  {
  }

  // The walk looks at a prefix of the list, claims exactly what is idle there, and stops early only for a limit.
  lemma {:induction false} WalkIs(list: seq<Event>, idle: set<StreamId>, count: nat, tries: nat) returns (n: nat)
    requires InOrder(list)
    ensures var (claimed, rest) := R.Walk(list, idle, count, tries);
      && n <= |list| && rest == list[n..] && n <= tries && |claimed| <= count
      && InOrder(claimed) && (forall e :: e in claimed <==> e in list[..n] && e.id in idle)
      && (n == |list| || |claimed| == count || n == tries)
    decreases |list|
  {
    if list == [] || count == 0 || tries == 0 {
      n := 0;
    } else {
      InOrderTail(list);
      FirstIsNotZero(list);
      hide InOrder, Before;
      var m := WalkIs(list[1..], idle, if list[0].id in idle then count - 1 else count, tries - 1);
      n := m + 1;
      assert list[..n] == [list[0]] + list[1..][..m] && list[n..] == list[1..][m..];
      assert forall e :: e in list[1..][..m] ==> e in list[1..];
      if list[0].id in idle {
        InOrderCons(list[0], R.Walk(list[1..], idle, count - 1, tries - 1).0);
      }
    }
  }

  lemma PrefixInOrder(list: seq<Event>, n: nat)
    requires InOrder(list) && n <= |list|
    ensures InOrder(list[..n])
    ensures n < |list| ==> forall e :: e in list ==> (e in list[..n] <==> Before(e.id, list[n].id))
  {
    assert forall e :: e in list[..n] ==> e in list;
    if n < |list| {
      forall e | e in list ensures e in list[..n] <==> Before(e.id, list[n].id) {
        var i :| 0 <= i < |list| && list[i] == e;
        if i < n { assert list[..n][i] == e; }
        if e in list[..n] { var j :| 0 <= j < n && list[..n][j] == e; }
      }
    }
  }

  // One claim. What it looks at lies between its cursor and the one it returns; it claims exactly the idle ones of
  // these, in id order; it looks at ten times `count` entries at most and claims `count` at most; and it stops before
  // the end of the list, at the next pending entry, only because of one of these limits.
  lemma ClaimMovesOn(r: R.Redis, start: StreamId, idle: set<StreamId>, count: nat)
    requires Claimable(r)
    ensures var q, reply := r.stream.value, R.Claim(r, start, idle, count);
      && reply.Ok?
      && var (claimed, next) := reply.value;
      && InOrder(claimed) && (forall e :: e in claimed ==> e in q.delivered)
      && R.Ids(claimed) == Looked(q.pending, start, next) * idle
      && |claimed| <= count && |Looked(q.pending, start, next)| <= 10 * count
      && (next != ZERO_ID ==>
            && next in q.pending && !Before(next, start)
            && (|claimed| == count || |Looked(q.pending, start, next)| == 10 * count))
  {
    var q := r.stream.value;
    var list := R.Listed(q.delivered, q.pending, start);
    ListedIs(q.delivered, q.pending, start);
    var n := WalkIs(list, idle, count, 10 * count);
    var (claimed, next) := R.Claim(r, start, idle, count).value;
    PrefixInOrder(list, n);
    InOrderCount(list[..n]);
    LookedIsPrefix(q, start, list, n, next);
    hide Looked, InOrder, R.Walk, R.Listed;
    assert R.Ids(claimed) == R.Ids(list[..n]) * idle;
    assert forall e :: e in list[..n] ==> e in list;
    if n < |list| { assert list[n] in list && next == list[n].id; }
  }

  lemma LookedIsPrefix(q: R.Stream, start: StreamId, list: seq<Event>, n: nat, next: StreamId)
    requires InOrder(list) && n <= |list| && q.pending <= R.Ids(q.delivered)
    requires forall e :: e in list <==> e in q.delivered && e.id in q.pending && !Before(e.id, start)
    requires next == if n == |list| then ZERO_ID else list[n].id
    ensures R.Ids(list[..n]) == Looked(q.pending, start, next)
    ensures n < |list| ==> next != ZERO_ID
  {
    PrefixInOrder(list, n);
    if n < |list| { assert list[n] in list; }
    assert forall e :: e in list[..n] ==> e in list;
    assert n == |list| ==> list[..n] == list;
    forall id | id in Looked(q.pending, start, next) ensures id in R.Ids(list[..n]) {
      var e :| e in q.delivered && e.id == id;
      assert e in list && (n == |list| || Before(e.id, list[n].id));
      assert e in list[..n];
    }
  }

  // ---- Repeated claims -----------------------------------------------------------------------------------------

  // A claim that does not wrap has looked at `count` entries at least, and the rest of the list lies beyond its cursor.
  lemma ClaimAdvances(r: R.Redis, start: StreamId, idle: set<StreamId>, count: nat)
    requires Claimable(r) && count > 0
    ensures R.Claim(r, start, idle, count).Ok?
    ensures var pending, next := r.stream.value.pending, R.Claim(r, start, idle, count).value.1;
      var looked := Looked(pending, start, next);
      && (next == ZERO_ID ==> looked == From(pending, start))
      && (next != ZERO_ID ==> looked + From(pending, next) == From(pending, start) && looked !! From(pending, next))
      && (next != ZERO_ID ==> |From(pending, next)| + count <= |From(pending, start)|)
  {
    ClaimMovesOn(r, start, idle, count);
    var pending, claimed, next := r.stream.value.pending, R.Claim(r, start, idle, count).value.0, R.Claim(r, start, idle, count).value.1;
    hide Claimable, R.Claim;
    if next == ZERO_ID {
      assert Looked(pending, start, next) == From(pending, start);
    } else {
      var looked, beyond := Looked(pending, start, next), From(pending, next);
      assert looked + beyond == From(pending, start);
      InOrderCount(claimed);
      SubsetCounts(R.Ids(claimed), looked);
      assert |looked + beyond| == |looked| + |beyond|;
    }
  }

  // The looks use up a set of ids one after the other, all but the last at least `count` at a time.
  ghost predicate Splits(ids: set<StreamId>, looks: seq<set<StreamId>>, count: nat)
    decreases |looks|
  {
    && looks != [] && looks[0] <= ids
    && if |looks| == 1 then looks[0] == ids else count <= |looks[0]| && Splits(ids - looks[0], looks[1..], count)
  }

  lemma OneSplit(ids: set<StreamId>, count: nat)
    ensures Splits(ids, [ids], count)
  {
  }

  lemma MoreSplits(ids: set<StreamId>, looked: set<StreamId>, beyond: set<StreamId>, rest: seq<set<StreamId>>, count: nat)
    requires ids == looked + beyond && looked !! beyond && |beyond| + count <= |ids| && Splits(beyond, rest, count)
    ensures Splits(ids, [looked] + rest, count)
  {
    assert ids - looked == beyond && ([looked] + rest)[1..] == rest;
    assert |looked + beyond| == |looked| + |beyond|;
  }

  lemma OneMoreClaim(n: nat, count: nat)
    ensures n * count == (n - 1) * count + count
  {
  }

  lemma {:induction false} SplitsOnce(ids: set<StreamId>, looks: seq<set<StreamId>>, count: nat, id: StreamId)
    requires Splits(ids, looks, count)
    ensures (|looks| - 1) * count <= |ids|
    ensures (exists i :: 0 <= i < |looks| && id in looks[i]) <==> id in ids
    ensures forall i, j :: 0 <= i < j < |looks| && id in looks[i] ==> id !in looks[j]
    decreases |looks|
  {
    if |looks| == 1 {
      if id in ids { assert id in looks[0]; }
    } else {
      var rest, left := looks[1..], ids - looks[0];
      SplitsOnce(left, rest, count, id);
      OneMoreClaim(|rest|, count);
      SubsetCounts(looks[0], ids);
      assert ids == looks[0] + left && |looks[0] + left| == |looks[0]| + |left|;
      assert looks == [looks[0]] + rest;
      if id in looks[0] {
        assert forall j :: 0 < j < |looks| ==> looks[j] == rest[j - 1];
      } else if id in ids {
        var i :| 0 <= i < |rest| && id in rest[i];
        assert id in looks[i + 1];
      }
      assert forall j :: 0 < j < |looks| ==> looks[j] == rest[j - 1];
    }
  }

  // What the claims look at that follow the returned cursor until it wraps, idle(k) being what is old enough at the
  // k-th of them.
  ghost function Sweep(r: R.Redis, start: StreamId, idle: nat -> set<StreamId>, k: nat, count: nat): (looks: seq<set<StreamId>>)
    requires Claimable(r) && count > 0
    ensures Splits(From(r.stream.value.pending, start), looks, count)
    decreases |From(r.stream.value.pending, start)|
  {
    hide Splits, From, Looked, R.Claim;
    ClaimAdvances(r, start, idle(k), count);
    var pending, next := r.stream.value.pending, R.Claim(r, start, idle(k), count).value.1;
    var looked := Looked(pending, start, next);
    if next == ZERO_ID then
      OneSplit(looked, count);
      [looked]
    else
      var rest := Sweep(r, next, idle, k + 1, count);
      MoreSplits(From(pending, start), looked, From(pending, next), rest, count);
      [looked] + rest
  }

  // From 0-0 on the whole pending list is looked at, each entry in one claim, within a bounded number of claims.
  lemma SweepLooksAtAll(r: R.Redis, idle: nat -> set<StreamId>, count: nat, id: StreamId)
    requires Claimable(r) && count > 0 && id in r.stream.value.pending
    ensures var looks := Sweep(r, ZERO_ID, idle, 0, count);
      && (|looks| - 1) * count <= |r.stream.value.pending|
      && (exists i :: 0 <= i < |looks| && id in looks[i])
      && (forall i, j :: 0 <= i < |looks| && 0 <= j < |looks| && id in looks[i] && id in looks[j] ==> i == j)
  {
    assert From(r.stream.value.pending, ZERO_ID) == r.stream.value.pending;
    SplitsOnce(r.stream.value.pending, Sweep(r, ZERO_ID, idle, 0, count), count, id);
  }
}
