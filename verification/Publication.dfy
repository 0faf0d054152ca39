// Replacing a live index by one built in batches under a temporary key: the feed and the GEO index share it.
module Publication {
  import opened SeckillModel
  import opened Slices

  const BATCH := 500

  // One member and its payload: a score for the feed, a pair of coordinates for the GEO index.
  datatype Row<V> = Row(id: nat, payload: V)

  // A sorted set holds each member once; adding it again overwrites the payload.
  function Indexed<V>(rows: seq<Row<V>>): map<nat, V> {
    if rows == [] then map[]
    else Indexed(rows[..|rows|-1])[rows[|rows|-1].id := rows[|rows|-1].payload]
  }

  ghost predicate Distinct<V>(rows: seq<Row<V>>) {
    forall i, j :: 0 <= i < j < |rows| ==> rows[i].id != rows[j].id
  }

  lemma {:induction false} IndexedKeys<V>(rows: seq<Row<V>>)
    ensures forall id :: id in Indexed(rows) <==> exists i :: 0 <= i < |rows| && rows[i].id == id
  {
    if rows != [] {
      var init, last := rows[..|rows|-1], rows[|rows|-1];
      IndexedKeys(init);
      forall id ensures id in Indexed(rows) <==> exists i :: 0 <= i < |rows| && rows[i].id == id {
        if i :| 0 <= i < |init| && init[i].id == id { assert rows[i].id == id; }
        if id == last.id { assert rows[|rows|-1].id == id; }
      }
    }
  }

  lemma UpdateCounts<V>(m: map<nat, V>, key: nat, value: V)
    ensures |m[key := value]| == |m| + if key in m then 0 else 1
  {
    assert m[key := value].Keys == m.Keys + {key};
  }

  lemma DistinctSnoc<V>(rows: seq<Row<V>>)
    requires rows != []
    ensures var init, last := rows[..|rows|-1], rows[|rows|-1];
      Distinct(rows) <==> Distinct(init) && !exists i :: 0 <= i < |init| && init[i].id == last.id
  {
    var init, last := rows[..|rows|-1], rows[|rows|-1];
    assert forall i :: 0 <= i < |init| ==> init[i] == rows[i];
    if i :| 0 <= i < |init| && init[i].id == last.id { assert rows[i].id == rows[|rows|-1].id; }
  }

  lemma NothingRepeats<V>()
    ensures Distinct<V>([])
  {
  }

  // The cardinality check of the scripts: the count matches exactly when no member came twice.
  lemma {:induction false} CardinalityDetectsDuplicates<V>(rows: seq<Row<V>>)
    ensures |Indexed(rows)| <= |rows|
    ensures |Indexed(rows)| == |rows| <==> Distinct(rows)
  {
    hide Distinct;
    if rows == [] {
      NothingRepeats<V>();
    } else {
      var init, last := rows[..|rows|-1], rows[|rows|-1];
      CardinalityDetectsDuplicates(init);
      IndexedKeys(init);
      UpdateCounts(Indexed(init), last.id, last.payload);
      DistinctSnoc(rows);
    }
  }

  lemma {:induction false} IndexedAt<V>(rows: seq<Row<V>>, i: nat)
    requires Distinct(rows) && i < |rows|
    ensures rows[i].id in Indexed(rows) && Indexed(rows)[rows[i].id] == rows[i].payload
  {
    if i < |rows| - 1 {
      var init := rows[..|rows|-1];
      assert init[i] == rows[i] && rows[i].id != rows[|rows|-1].id;
      IndexedAt(init, i);
    }
  }

  lemma NoRows<V>()
    ensures Indexed<V>([]) == map[]
  {
  }

  lemma {:induction false} IndexedConcat<V>(a: seq<Row<V>>, b: seq<Row<V>>)
    ensures Indexed(a + b) == Indexed(a) + Indexed(b)
  {
    if b == [] {
      assert a + b == a;
    } else {
      IndexedConcat(a, b[..|b|-1]);
      assert (a + b)[..|a + b|-1] == a + b[..|b|-1];
    }
  }

  // What became of one command: executed and acknowledged, not executed, or executed with the reply lost.
  datatype Outcome = Executed | Rejected | ReplyLost

  function Batches(n: nat): nat {
    (n + BATCH - 1) / BATCH
  }

  // After k batches this many rows have been sent.
  function Sent(n: nat, k: nat): nat {
    if k * BATCH < n then k * BATCH else n
  }

  lemma SentIs(n: nat, k: nat)
    ensures Sent(n, k) < n ==> k < Batches(n) && Sent(n, k + 1) == (if Sent(n, k) + BATCH < n then Sent(n, k) + BATCH else n)
    ensures Sent(n, k) == n && k <= Batches(n) ==> k == Batches(n)
    ensures Sent(n, k) > 0 <==> k > 0 && n > 0
  {
  }

  // The first k commands were acknowledged.
  ghost predicate Acknowledged(outcome: nat -> Outcome, k: nat) {
    forall j: nat :: j < k ==> outcome(j) == Executed
  }

  // The temporary key vanished before one of the commands 1..k-1.
  ghost predicate LostWithin(lost: nat -> bool, k: nat) {
    exists j: nat :: 0 < j < k && lost(j)
  }

  lemma OneMore(lost: nat -> bool, outcome: nat -> Outcome, k: nat)
    ensures Acknowledged(outcome, k + 1) == (Acknowledged(outcome, k) && outcome(k) == Executed)
    ensures LostWithin(lost, k + 1) == (LostWithin(lost, k) || (k > 0 && lost(k)))
  {
  }

  lemma NothingYet(lost: nat -> bool, outcome: nat -> Outcome)
    ensures Acknowledged(outcome, 0) && !LostWithin(lost, 0)
  {
  }

  lemma StopsEarly(outcome: nat -> Outcome, k: nat, n: nat)
    requires k < n && outcome(k) != Executed
    ensures !Acknowledged(outcome, n)
  {
  }

  // Every command, the script included, was acknowledged and the temporary key survived until its publication.
  ghost predicate Undisturbed(n: nat, lost: nat -> bool, outcome: nat -> Outcome) {
    Acknowledged(outcome, Batches(n) + 1) && !LostWithin(lost, Batches(n) + 1)
  }

  class Index<V(==)> {
    var live: map<nat, V>       // an empty sorted set has no key
    var ready: Option<nat>      // the GEO category's marker; the feed has none
    var temporary: map<nat, V>

    constructor ()
      ensures live == map[] && ready == None && temporary == map[]
    {
      live, ready, temporary := map[], None, map[];
    }

    // The marker never disagrees with the index it was published with.
    ghost predicate Consistent()
      reads this
    {
      ready.Some? ==> |live| == ready.value
    }

    // One MULTI of ZADD or GEOADD and EXPIRE.
    method Add(batch: seq<Row<V>>)
      modifies this`temporary
      ensures temporary == old(temporary) + Indexed(batch)
    {
      for i := 0 to |batch|
        modifies this`temporary
        invariant temporary == old(temporary) + Indexed(batch[..i])
      {
        assert batch[..i + 1][..i] == batch[..i];
        temporary := temporary[batch[i].id := batch[i].payload];
      }
      assert batch[..|batch|] == batch;
    }

    // feed_replace.lua and geo_publish.lua; only the latter sets a marker.
    method Publish(count: nat, marker: bool) returns (ok: bool)
      modifies this
      ensures ok == (count == 0 || |old(temporary)| == count)
      ensures live == (if !ok then old(live) else if count == 0 then map[] else old(temporary))
      ensures ready == (if ok && marker then Some(count) else old(ready))
    {
      if count == 0 {
        live := map[];
      } else {
        if |temporary| != count { return false; }
        live, temporary := temporary, map[];
      }
      if marker { ready := Some(count); }
      ok := true;
    }

    // The reader of the GEO index refuses an index that contradicts its marker.
    method Search() returns (reply: Reply<map<nat, V>>)
      ensures reply.Ok? ==> ready.Some? && reply.value == live && (ready.value == 0 <==> live == map[])
      ensures Consistent() ==> (reply.Ok? <==> ready.Some?)
    {
      if ready.None? || (ready.value > 0 && live == map[]) || (ready.value == 0 && live != map[]) { return Err(Dependency); }
      reply := Ok(live);
    }

    // The batches before the script. A key lost between them comes back holding later batches only.
    method Build(rows: seq<Row<V>>, lost: nat -> bool, outcome: nat -> Outcome) returns (ok: bool)
      requires temporary == map[]
      modifies this`temporary
      ensures ok == Acknowledged(outcome, Batches(|rows|))
      ensures ok && !LostWithin(lost, Batches(|rows|)) ==> temporary == Indexed(rows)
      ensures ok && LostWithin(lost, Batches(|rows|)) ==> |temporary| < |rows|
    {
      hide Indexed, Batches, Sent, Acknowledged, LostWithin, Distinct;
      var start, k := 0, 0;
      SentIs(|rows|, 0);
      NothingYet(lost, outcome);
      ghost var from := 0;
      NoRows<V>();
      while start < |rows|
        modifies this`temporary
        invariant start == Sent(|rows|, k) && k <= Batches(|rows|) && from <= start <= |rows|
        invariant temporary == Indexed(rows[from..start])
        invariant from > 0 <==> LostWithin(lost, k)
        invariant Acknowledged(outcome, k)
      {
        SentIs(|rows|, k);
        OneMore(lost, outcome, k);
        if outcome(k) != Executed { StopsEarly(outcome, k, Batches(|rows|)); }
        if lost(k) { temporary, from := map[], start; NoRows<V>(); }
        if outcome(k) == Rejected { return false; }
        var end := if start + BATCH < |rows| then start + BATCH else |rows|;
        Add(rows[start..end]);
        IndexedConcat(rows[from..start], rows[start..end]);
        SliceJoin(rows, from, start, end);
        if outcome(k) == ReplyLost { return false; }
        start, k := end, k + 1;
      }
      SentIs(|rows|, k);
      assert rows[0..] == rows && rows[from..start] == rows[from..];
      CardinalityDetectsDuplicates(rows[from..]);
      ok := true;
    }

    // lost(k) says that the temporary key vanishes before the k-th command; command Batches(|rows|) is the script.
    method Replace(owner: nat, rows: seq<Row<V>>, valid: Row<V> -> bool, marker: bool,
                   lost: nat -> bool, outcome: nat -> Outcome) returns (reply: Reply<nat>)
      requires temporary == map[]
      modifies this
      ensures reply.Ok? <==> owner != 0 && (forall r :: r in rows ==> valid(r)) && Distinct(rows) && Undisturbed(|rows|, lost, outcome)
      ensures reply.Ok? ==> reply == Ok(|rows|) && live == Indexed(rows) && ready == (if marker then Some(|rows|) else old(ready))
      // A failed rebuild shows nothing of the build. The one exception is a faultless one whose script ran and whose
      // reply was lost: then the complete new index is live.
      ensures reply.Err? ==>
                if owner != 0 && (forall r :: r in rows ==> valid(r)) && Distinct(rows) && Acknowledged(outcome, Batches(|rows|))
                   && !LostWithin(lost, Batches(|rows|) + 1) && outcome(Batches(|rows|)) == ReplyLost
                then live == Indexed(rows) && ready == (if marker then Some(|rows|) else old(ready))
                else live == old(live) && ready == old(ready)
      ensures old(Consistent()) && (marker || ready == None) ==> Consistent()
      ensures temporary == map[]
    {
      if owner == 0 { return Err(Dependency); }
      for i := 0 to |rows|
        invariant forall j :: 0 <= j < i ==> valid(rows[j])
      {
        if !valid(rows[i]) { return Err(Dependency); }
      }
      var built := Build(rows, lost, outcome);
      if !built { temporary := map[]; return Err(Dependency); }
      var last := Batches(|rows|);
      OneMore(lost, outcome, last);
      if lost(last) { temporary := map[]; }
      CardinalityDetectsDuplicates(rows);
      if outcome(last) == Rejected { temporary := map[]; return Err(Dependency); }
      var published := Publish(|rows|, marker);
      temporary := map[];
      if !published || outcome(last) == ReplyLost { return Err(Dependency); }
      reply := Ok(|rows|);
    }
  }
}
