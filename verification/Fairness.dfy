// No starvation: a pending delivery that this worker may claim is settled within a bounded number of its visits,
// although every other delivery stays too young to be claimed and other workers act in between.
module SeckillFairness {
  import opened SeckillModel
  import R = Admission
  import opened ProtocolInvariant
  import opened SeckillClaiming
  import opened SeckillDelivery

  lemma GoodIsClaimable(st: Stores)
    requires Good(st)
    ensures Claimable(st.redis) && st.redis.stream.value.pending <= Owed(st)
  {
    var q := st.redis.stream.value;
    assert LogInv(st.redis.hash.value.seed, st.redis.hash.value.buyers, R.Entries(q), q.lastId);
    PrefixOfLog(q.delivered, q.waiting);
  }

  lemma PrefixOfLog(es: seq<Event>, more: seq<Event>)
    requires InOrder(es + more)
    ensures InOrder(es)
  {
    assert forall e :: e in es ==> e in es + more;
    assert forall i :: 0 <= i < |es| ==> es[i] == (es + more)[i];
  }

  // ---- What a visit serves --------------------------------------------------------------------------------------

  // The whole of what was claimed and of what was read is fetched.
  lemma FetchHolds(st: Stores, cursor: StreamId, luck: Luck)
    requires st.redis.stream.Some?
    ensures var (events, read, next) := Fetch(st, cursor, luck);
      var claim := R.Claim(st.redis, cursor, st.redis.stream.value.pending - luck.busy, BATCH);
      var fetched := R.Read(luck.others(1)(st).redis, BATCH).1;
      && (luck.claim && claim.Ok? ==> next == claim.value.1 && forall e :: e in claim.value.0 ==> e in events)
      && (luck.read == Given && fetched.Ok? ==> forall e :: e in fetched.value ==> e in events)
  {
    hide R.Claim, R.Read;
  }

  lemma GoodHasGroup(st: Stores)
    requires Good(st)
    ensures R.GROUP in st.redis.stream.value.groups
  {
  }

  lemma ServeIs(st: Stores, cursor: StreamId, luck: Luck)
    ensures var (events, read, next) := Fetch(st, cursor, luck);
      Serve(st, cursor, luck) == (ProcessAll(read, events, luck.stops, luck.others), next)
  {
    hide Fetch, ProcessAll;
  }

  lemma LookedIsClaimed(pending: set<StreamId>, start: StreamId, next: StreamId, busy: set<StreamId>, claimed: seq<Event>, id: StreamId)
    requires R.Ids(claimed) == Looked(pending, start, next) * (pending - busy)
    requires id in Looked(pending, start, next) && id !in busy
    ensures exists e :: e in claimed && e.id == id
  {
    assert id in R.Ids(claimed);
  }

  // What a visit fetches it settles, unless the delivery is cut off.
  lemma FetchedIsSettled(st: Stores, cursor: StreamId, luck: Luck)
    requires Good(st) && Orderly(luck.others, true)
    ensures var (after, next) := Serve(st, cursor, luck);
      && Eases(st, after, true)
      && (forall e :: e in Fetch(st, cursor, luck).0 && e.id !in luck.stops ==> e.id !in Owed(after))
  {
    hide *;
    var (events, read, next) := Fetch(st, cursor, luck);
    ServeIs(st, cursor, luck);
    FetchEases(st, cursor, luck, true);
    ProcessAllSettles(read, events, luck.stops, luck.others, true);
    ServeKeeps(st, cursor, luck, true);
  }

  // Every pending entry that a visit looks at and may claim is settled by it, unless its delivery is cut off.
  lemma ServeSettlesClaimed(st: Stores, cursor: StreamId, luck: Luck, id: StreamId)
    requires Good(st) && Orderly(luck.others, true) && luck.claim
    ensures var (after, next) := Serve(st, cursor, luck);
      id in Looked(st.redis.stream.value.pending, cursor, next) && id !in luck.busy && id !in luck.stops ==> id !in Owed(after)
  {
    GoodIsActive(st);
    GoodIsClaimable(st);
    hide *;
    var pending, next := st.redis.stream.value.pending, Serve(st, cursor, luck).1;
    ClaimMovesOn(st.redis, cursor, pending - luck.busy, BATCH);
    FetchHolds(st, cursor, luck);
    ServeIs(st, cursor, luck);
    FetchedIsSettled(st, cursor, luck);
    if id in Looked(pending, cursor, next) && id !in luck.busy {
      LookedIsClaimed(pending, cursor, next, luck.busy, R.Claim(st.redis, cursor, pending - luck.busy, BATCH).value.0, id);
    }
  }

  // So is each of the entries it reads.
  lemma ServeSettlesRead(st: Stores, cursor: StreamId, luck: Luck)
    requires Good(st) && Orderly(luck.others, true) && luck.read == Given
    ensures var fetched := R.Read(luck.others(1)(st).redis, BATCH).1;
      fetched.Ok? && forall e :: e in fetched.value && e.id !in luck.stops ==> e.id !in Owed(Serve(st, cursor, luck).0)
  {
    GoodIsActive(st);
    hide *;
    var mid := luck.others(1)(st);
    OthersAreGood(st, luck.others, 1, true);
    GoodIsActive(mid);
    GoodHasGroup(mid);
    R.ReadTakesNext(mid.redis, BATCH);
    FetchHolds(st, cursor, luck);
    FetchedIsSettled(st, cursor, luck);
  }

  // ---- Getting closer ---------------------------------------------------------------------------------------------

  // The owed deliveries the cursor has still to pass before it comes to this one.
  function Between(owed: set<StreamId>, cursor: StreamId, id: StreamId): set<StreamId> {
    if Before(id, cursor) then set x | x in owed && x != id && (!Before(x, cursor) || Before(x, id))
    else set x | x in owed && !Before(x, cursor) && Before(x, id)
  }

  // And one more visit when the cursor has to wrap first.
  function Distance(owed: set<StreamId>, cursor: StreamId, id: StreamId): nat {
    |Between(owed, cursor, id)| + if Before(id, cursor) then BATCH else 0
  }

  lemma BetweenShrinks(owed: set<StreamId>, less: set<StreamId>, cursor: StreamId, id: StreamId)
    requires less <= owed
    ensures Between(less, cursor, id) <= Between(owed, cursor, id) && Distance(less, cursor, id) <= Distance(owed, cursor, id)
  {
    SubsetCounts(Between(less, cursor, id), Between(owed, cursor, id));
  }

  lemma WrapComesCloser(owed: set<StreamId>, pending: set<StreamId>, start: StreamId, id: StreamId)
    requires pending <= owed && id in pending && id !in Looked(pending, start, ZERO_ID)
    ensures Distance(owed, ZERO_ID, id) + BATCH <= Distance(owed, start, id)
  {
    SubsetCounts(Between(owed, ZERO_ID, id), Between(owed, start, id));
  }

  lemma LooksAreBetween(owed: set<StreamId>, pending: set<StreamId>, start: StreamId, next: StreamId, id: StreamId)
    requires pending <= owed && id in pending && next != ZERO_ID && !Before(next, start) && id !in Looked(pending, start, next)
    ensures Looked(pending, start, next) !! Between(owed, next, id)
    ensures Looked(pending, start, next) + Between(owed, next, id) <= Between(owed, start, id)
    ensures Before(id, next) <==> Before(id, start)
  {
  }

  lemma MoveComesCloser(owed: set<StreamId>, pending: set<StreamId>, start: StreamId, next: StreamId, id: StreamId)
    requires pending <= owed && id in pending && next != ZERO_ID && !Before(next, start) && id !in Looked(pending, start, next)
    requires BATCH <= |Looked(pending, start, next)|
    ensures Distance(owed, next, id) + BATCH <= Distance(owed, start, id)
  {
    LooksAreBetween(owed, pending, start, next, id);
    hide Looked, Between, Before;
    var looked, rest := Looked(pending, start, next), Between(owed, next, id);
    assert |rest + looked| == |rest| + |looked|;
    SubsetCounts(rest + looked, Between(owed, start, id));
  }

  // A claim that does not come to the delivery brings its cursor closer.
  lemma ClaimComesCloser(r: R.Redis, start: StreamId, idle: set<StreamId>, owed: set<StreamId>, id: StreamId)
    requires Claimable(r) && r.stream.value.pending <= owed && id in r.stream.value.pending
    requires R.Claim(r, start, idle, BATCH).Ok?
    requires id !in Looked(r.stream.value.pending, start, R.Claim(r, start, idle, BATCH).value.1)
    ensures Distance(owed, R.Claim(r, start, idle, BATCH).value.1, id) + BATCH <= Distance(owed, start, id)
  {
    hide R.Claim, InOrder, Looked, Distance, Before, R.Ids;
    ClaimMovesOn(r, start, idle, BATCH);
    var pending, claimed, next := r.stream.value.pending, R.Claim(r, start, idle, BATCH).value.0, R.Claim(r, start, idle, BATCH).value.1;
    if next == ZERO_ID {
      WrapComesCloser(owed, pending, start, id);
    } else {
      InOrderCount(claimed);
      SubsetCounts(R.Ids(claimed), Looked(pending, start, next));
      MoveComesCloser(owed, pending, start, next, id);
    }
  }

  // ---- Visits ------------------------------------------------------------------------------------------------------

  // The visits of one activity, one after the other; others act in all of them.
  function Visits(st: Stores, cursor: StreamId, lucks: seq<Luck>): (Stores, StreamId)
    decreases |lucks|
  {
    if lucks == [] then (st, cursor)
    else var (after, next) := Visit(st, cursor, lucks[0]); Visits(after, next, lucks[1..])
  }

  // The claim answers and may take this delivery, which is then not cut off; nothing new is admitted.
  ghost predicate Serves(luck: Luck, id: StreamId) {
    luck.claim && id !in luck.busy && id !in luck.stops && Orderly(luck.others, true)
  }

  ghost predicate Pending(st: Stores, id: StreamId) {
    st.redis.stream.Some? && id in st.redis.stream.value.pending
  }

  // A delivered entry is owed exactly as long as it is pending.
  lemma OwedIsPending(a: Stores, b: Stores, id: StreamId)
    requires Good(a) && Good(b) && Evolves(a, b) && Pending(a, id) && id in Owed(b)
    ensures Pending(b, id)
  {
    GoodIsClaimable(a);
    var e :| e in a.redis.stream.value.delivered && e.id == id;
    hide Good;
    DeliveredStays(a, b, e);
    DeliveredIsNotWaiting(b, e);
  }

  lemma ServesIs(luck: Luck, id: StreamId)
    requires Serves(luck, id)
    ensures luck.claim && id !in luck.busy && id !in luck.stops && Orderly(luck.others, true)
  {
  }

  lemma VisitsCons(st: Stores, cursor: StreamId, lucks: seq<Luck>)
    requires lucks != []
    ensures var (after, next) := Visit(st, cursor, lucks[0]); Visits(st, cursor, lucks) == Visits(after, next, lucks[1..])
  {
    hide Visit;
  }

  lemma NoVisits(st: Stores, cursor: StreamId)
    ensures Visits(st, cursor, []) == (st, cursor)
  {
  }

  lemma {:induction false} SettledStays(st: Stores, cursor: StreamId, lucks: seq<Luck>, id: StreamId)
    requires Good(st) && id !in Owed(st) && forall k :: 0 <= k < |lucks| ==> Serves(lucks[k], id)
    ensures id !in Owed(Visits(st, cursor, lucks).0)
    decreases |lucks|
  {
    hide *;
    if lucks == [] {
      NoVisits(st, cursor);
    } else {
      VisitsCons(st, cursor, lucks);
      ServesIs(lucks[0], id);
      var (after, next) := Visit(st, cursor, lucks[0]);
      VisitKeeps(st, cursor, lucks[0], true);
      EasesEvolves(st, after, true);
      EasesQuietly(st, after);
      SettledStays(after, next, lucks[1..], id);
    }
  }

  lemma VisitIs(st: Stores, cursor: StreamId, luck: Luck)
    ensures Visit(st, cursor, luck) == Serve(luck.others(0)(st), cursor, luck)
  {
    hide Serve;
  }

  lemma PendingIs(st: Stores, id: StreamId)
    requires Pending(st, id)
    ensures id in st.redis.stream.value.pending
  {
  }

  lemma ServeClaims(st: Stores, cursor: StreamId, luck: Luck)
    requires st.redis.stream.Some? && Claimable(st.redis) && luck.claim
    ensures var claim := R.Claim(st.redis, cursor, st.redis.stream.value.pending - luck.busy, BATCH);
      claim.Ok? && Serve(st, cursor, luck).1 == claim.value.1
  {
    hide *;
    ClaimMovesOn(st.redis, cursor, st.redis.stream.value.pending - luck.busy, BATCH);
    FetchHolds(st, cursor, luck);
    ServeIs(st, cursor, luck);
  }

  // One visit settles the delivery or comes closer to it.
  lemma VisitComesCloser(st: Stores, cursor: StreamId, luck: Luck, id: StreamId)
    requires Good(st) && Pending(st, id) && Serves(luck, id)
    ensures var (after, next) := Visit(st, cursor, luck);
      && Good(after) && (id in Owed(after) ==> Pending(after, id))
      && (id in Owed(after) ==> Distance(Owed(after), next, id) + BATCH <= Distance(Owed(st), cursor, id))
  {
    hide *;
    ServesIs(luck, id);
    var start := luck.others(0)(st);
    var (after, next) := Visit(st, cursor, luck);
    VisitIs(st, cursor, luck);
    OthersAreGood(st, luck.others, 0, true);
    EasesQuietly(st, start);
    ServeSettlesClaimed(start, cursor, luck, id);
    FetchedIsSettled(start, cursor, luck);
    EasesEvolves(start, after, true);
    EasesQuietly(start, after);
    VisitKeeps(st, cursor, luck, true);
    EasesEvolves(st, after, true);
    if id in Owed(after) {
      OwedIsPending(st, start, id);
      OwedIsPending(st, after, id);
      GoodIsClaimable(start);
      GoodIsActive(start);
      ServeClaims(start, cursor, luck);
      PendingIs(start, id);
      ClaimComesCloser(start.redis, cursor, start.redis.stream.value.pending - luck.busy, Owed(start), id);
      BetweenShrinks(Owed(start), Owed(after), next, id);
      BetweenShrinks(Owed(st), Owed(start), cursor, id);
    }
  }

  lemma {:induction false} VisitsReach(st: Stores, cursor: StreamId, lucks: seq<Luck>, id: StreamId)
    requires Good(st) && Pending(st, id) && forall k :: 0 <= k < |lucks| ==> Serves(lucks[k], id)
    requires BATCH * |lucks| > Distance(Owed(st), cursor, id)
    ensures id !in Owed(Visits(st, cursor, lucks).0)
    decreases |lucks|
  {
    hide *;
    assert BATCH * |lucks| > 0 && lucks != [];
    VisitsCons(st, cursor, lucks);
    var (after, next) := Visit(st, cursor, lucks[0]);
    VisitComesCloser(st, cursor, lucks[0], id);
    if id in Owed(after) {
      VisitsReach(after, next, lucks[1..], id);
    } else {
      SettledStays(after, next, lucks[1..], id);
    }
  }

  // A pending delivery that the worker may claim is settled within (owed / 20) + 2 visits from any cursor, whichever
  // other deliveries are kept too young to be claimed, and although other workers read, claim and settle in between.
  lemma NoDeliveryStarves(st: Stores, cursor: StreamId, lucks: seq<Luck>, id: StreamId)
    requires Good(st) && Pending(st, id) && forall k :: 0 <= k < |lucks| ==> Serves(lucks[k], id)
    requires |lucks| >= |Owed(st)| / BATCH + 2
    ensures id !in Owed(Visits(st, cursor, lucks).0)
  {
    GoodIsClaimable(st);
    hide Good;
    SubsetCounts(Between(Owed(st), cursor, id), Owed(st) - {id});
    VisitsReach(st, cursor, lucks, id);
  }
}
