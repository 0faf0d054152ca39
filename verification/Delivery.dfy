// Delivering one activity's events: recovery of pending deliveries by a wrapping cursor, fresh reads, and one
// Process per event. Other processes act between any two calls, any call may fail, and any pending delivery may
// be too young to be claimed.
module SeckillDelivery {
  import opened SeckillModel
  import L = Ledger
  import R = Admission
  import opened Protocol
  import opened ProtocolInvariant
  import S = AsyncService
  import T = ProtocolTheorems

  const BATCH: nat := 20

  datatype Stores = Stores(sql: L.Ledger, redis: R.Redis)

  predicate Active(st: Stores) {
    st.sql.row.Some? && st.sql.row.value.state == 2
  }

  ghost predicate Good(st: Stores) {
    L.LedgerInv(st.sql) && StoresInv(st.sql, st.redis) && Active(st) && st.redis.hash.Some? && st.redis.stream.Some?
  }

  ghost predicate Evolves(a: Stores, b: Stores) {
    Grows(a.sql, a.redis, b.sql, b.redis)
  }

  // Deliveries still owed: undelivered or pending.
  function Owed(st: Stores): set<StreamId> {
    if st.redis.stream.None? then {} else R.Ids(st.redis.stream.value.waiting) + st.redis.stream.value.pending
  }

  function Waiting(st: Stores): nat {
    if st.redis.stream.None? then 0 else |st.redis.stream.value.waiting|
  }

  // A change that leaves an open activity open and sound and only grows it; a quiet one adds no work to it.
  ghost predicate Eases(a: Stores, b: Stores, quiet: bool) {
    Good(b) && Evolves(a, b) && (quiet ==> Owed(b) <= Owed(a) && Waiting(b) <= Waiting(a))
  }

  lemma GrowsReflexive(l: L.Ledger, r: R.Redis)
    requires l.row.Some?
    ensures Grows(l, r, l, r)
  {
  }

  lemma GrowsChain(a: Stores, b: Stores, c: Stores)
    requires Evolves(a, b) && Evolves(b, c)
    ensures Evolves(a, c)
  {
  }

  lemma EasesChain(a: Stores, b: Stores, c: Stores, quiet: bool)
    requires Eases(a, b, quiet) && Eases(b, c, quiet)
    ensures Eases(a, c, quiet)
  {
    hide Good, Owed, Waiting;
    GrowsChain(a, b, c);
  }

  lemma EasesSelf(st: Stores)
    requires Good(st)
    ensures Eases(st, st, true)
  {
    GrowsReflexive(st.sql, st.redis);
  }

  lemma GoodIsActive(st: Stores)
    requires Good(st)
    ensures Active(st) && st.redis.stream.Some?
  {
  }

  // ---- Process ---------------------------------------------------------------------------------------

  // What other processes do to the activity, numbered by the gaps between this worker's calls.
  type Others = nat -> Stores -> Stores

  ghost predicate Orderly(others: Others, quiet: bool) {
    forall gap: nat, st: Stores :: Good(st) ==> Eases(st, others(gap)(st), quiet)
  }

  const NOBODY: Others := (gap: nat) => (st: Stores) => st

  // Where a delivery that fails, or is cut off by the end of the context, stops.
  datatype Stop = BeforeApply | BeforeCompensate | BeforeAck

  // Apply, compensate a failure, acknowledge; others act before each call.
  function Process(st: Stores, e: Event, stop: Option<Stop>, others: Others, gap: nat): Stores {
    var ready := others(gap)(st);
    if stop == Some(BeforeApply) then ready
    else
      var (m, reply) := L.Apply(ready.sql, e);
      var applied := others(gap + 1)(ready.(sql := m));
      if reply.Err? || stop == Some(BeforeCompensate) then applied
      else
        var (x, restored) := if reply.value.verdict.Failed? then R.Compensate(applied.redis, e) else (applied.redis, Ok(()));
        var paid := others(gap + 2)(applied.(redis := x));
        if restored.Err? || stop == Some(BeforeAck) then paid else paid.(redis := R.Ack(paid.redis, e.id))
  }

  // Left alone, this is the service's Process.
  lemma AloneItIsProcess(st: Stores, e: Event, gap: nat)
    ensures var n := S.ProcessRun(S.Alone(st.sql, st.redis, [e]));
      Process(st, e, None, NOBODY, gap) == Stores(n.sql, n.redis)
  {
    hide L.Apply, R.Compensate, R.Ack;
    var s := S.Alone(st.sql, st.redis, [e]);
    var (m, reply) := L.Apply(st.sql, e);
    var s1 := Next(s, ApplyStep(0));
    var s2 := Next(s1, CompensateStep(0));
    assert NOBODY(gap)(st) == st && s1.sql == m && s1.redis == st.redis;
    if reply.Err? {
      assert s1.workers[0].batch == [];
      L.FailedApplyChangesNothing(st.sql, e);
    } else {
      assert s1.workers[0] == Worker([e], Applied(reply.value.verdict));
      if reply.value.verdict.Failed? {
        var (x, restored) := R.Compensate(st.redis, e);
        assert s2.redis == x && s2.workers[0] == if restored.Ok? then Worker([e], Restored) else Drop(s1.workers[0]);
      }
    }
  }

  // ... and one that stops acknowledges nothing.
  lemma StoppedStaysPending(st: Stores, e: Event, stop: Stop, gap: nat)
    ensures Process(st, e, Some(stop), NOBODY, gap).redis.stream == st.redis.stream
  {
    hide L.Apply;
  }

  ghost predicate Delivered(st: Stores, e: Event) {
    st.redis.stream.Some? && e in st.redis.stream.value.delivered
  }

  lemma DeliveredStays(a: Stores, b: Stores, e: Event)
    requires Delivered(a, e) && Evolves(a, b)
    ensures Delivered(b, e)
  {
  }

  // The committed outcome of e.
  ghost predicate Recorded(st: Stores, e: Event, v: Verdict) {
    e.id in st.sql.results && st.sql.results[e.id].verdict == v
  }

  // The outcome is committed and a failure is compensated.
  ghost predicate Paid(st: Stores, e: Event) {
    st.redis.hash.Some? && Settled(st.sql.results, st.redis.hash.value.compensated, e.id)
  }

  lemma OutcomeStays(a: Stores, b: Stores, e: Event, v: Verdict)
    requires Evolves(a, b)
    ensures Recorded(a, e, v) ==> Recorded(b, e, v)
    ensures Paid(a, e) ==> Paid(b, e)
  {
  }

  lemma ApplyRecords(l: L.Ledger, e: Event)
    requires L.Apply(l, e).1.Ok?
    ensures var (m, reply) := L.Apply(l, e); e.id in m.results && m.results[e.id] == reply.value
  {
  }

  lemma ActiveStays(a: Stores, b: Stores)
    requires Active(a) && Evolves(a, b) && L.LedgerInv(b.sql)
    ensures Active(b)
  {
  }

  lemma ApplyEases(st: Stores, e: Event)
    requires Good(st) && Delivered(st, e)
    ensures var (m, reply) := L.Apply(st.sql, e);
      Eases(st, st.(sql := m), true) && reply.Ok? && Recorded(st.(sql := m), e, reply.value.verdict)
  {
    hide L.LedgerInv, StoresInv, L.Apply;
    T.OutcomeIsReady(st.sql, st.redis, e);
    ApplyKeeps(st.sql, st.redis, e);
    ApplyRecords(st.sql, e);
    ActiveStays(st, st.(sql := L.Apply(st.sql, e).0));
  }

  lemma CompensateEases(st: Stores, e: Event, v: Verdict)
    requires Good(st) && Delivered(st, e) && Recorded(st, e, v) && v.Failed?
    ensures var (x, reply) := R.Compensate(st.redis, e);
      Eases(st, st.(redis := x), true) && reply.Ok? && Paid(st.(redis := x), e)
  {
    hide L.LedgerInv, StoresInv;
    CompensateKeeps(st.sql, st.redis, e);
  }

  lemma UnionCounts<T>(a: set<T>, b: set<T>)
    ensures |a + b| <= |a| + |b|
  {
    assert a + b == a + (b - a);
    SubsetCounts(b - a, b);
  }

  lemma {:induction false} IdsCount(es: seq<Event>)
    ensures |R.Ids(es)| <= |es|
  {
    if es != [] {
      IdsCount(es[1..]);
      assert es == [es[0]] + es[1..];
      assert R.Ids(es) == {es[0].id} + R.Ids(es[1..]);
      UnionCounts({es[0].id}, R.Ids(es[1..]));
    }
  }

  lemma DistinctIds(a: seq<Event>, b: seq<Event>, e: Event)
    requires |R.Ids(a + b)| == |a + b| && e in a
    ensures e.id !in R.Ids(b)
  {
    IdsCount(a);
    IdsCount(b);
    var before, after := R.Ids(a), R.Ids(b);
    assert R.Ids(a + b) == before + after && |before + after| == |before| + |after - before|;
    SubsetCounts(after - before, after);
    assert after - before == after && e.id in before;
  }

  // Each entry is either undelivered or delivered.
  lemma DeliveredIsNotWaiting(st: Stores, e: Event)
    requires Good(st) && Delivered(st, e)
    ensures e.id !in R.Ids(st.redis.stream.value.waiting)
  {
    hide L.LedgerInv, EntryInv, ResultsLogged, CompensatedFailed;
    var q := st.redis.stream.value;
    assert LogInv(st.redis.hash.value.seed, st.redis.hash.value.buyers, R.Entries(q), q.lastId);
    DistinctIds(q.delivered, q.waiting, e);
  }

  lemma AckEases(st: Stores, e: Event)
    requires Good(st) && Delivered(st, e) && Paid(st, e)
    ensures var acked := st.(redis := R.Ack(st.redis, e.id)); Eases(st, acked, true) && e.id !in Owed(acked)
  {
    DeliveredIsNotWaiting(st, e);
    hide L.LedgerInv, StoresInv;
    AckKeeps(st.sql, st.redis, e.id);
  }

  lemma CreatedIsPaid(st: Stores, e: Event, v: Verdict)
    requires Good(st) && Recorded(st, e, v) && v.Created?
    ensures Paid(st, e)
  {
  }

  // How far a delivery has come: the activity has eased since `start`, and the event is delivered.
  ghost predicate On(start: Stores, now: Stores, e: Event, quiet: bool) {
    Eases(start, now, quiet) && Delivered(now, e)
  }

  lemma OnStart(st: Stores, e: Event, quiet: bool)
    requires Good(st) && Delivered(st, e)
    ensures On(st, st, e, quiet)
  {
    EasesSelf(st);
  }

  lemma OnOwn(start: Stores, now: Stores, next: Stores, e: Event, quiet: bool)
    requires On(start, now, e, quiet) && Eases(now, next, true)
    ensures On(start, next, e, quiet) && (Paid(now, e) ==> Paid(next, e))
  {
    hide Good, Evolves, Owed, Waiting, Delivered, Paid;
    EasesChain(start, now, next, quiet);
    DeliveredStays(now, next, e);
    OutcomeStays(now, next, e, Created(0));
  }

  lemma OnOthers(start: Stores, now: Stores, e: Event, v: Verdict, others: Others, gap: nat, quiet: bool)
    requires On(start, now, e, quiet) && Orderly(others, quiet)
    ensures var next := others(gap)(now);
      && Good(next) && On(start, next, e, quiet)
      && (Recorded(now, e, v) ==> Recorded(next, e, v)) && (Paid(now, e) ==> Paid(next, e))
  {
    hide Good, Evolves, Owed, Waiting, Delivered, Recorded, Paid;
    var next := others(gap)(now);
    assert Eases(now, next, quiet);
    EasesChain(start, now, next, quiet);
    DeliveredStays(now, next, e);
    OutcomeStays(now, next, e, v);
  }

  lemma OnIsGood(start: Stores, now: Stores, e: Event, quiet: bool)
    requires On(start, now, e, quiet)
    ensures Good(now) && Delivered(now, e) && Eases(start, now, quiet)
  {
  }

  lemma PaidSettles(st: Stores, applied: Stores, e: Event, v: Verdict, stop: Option<Stop>, others: Others, gap: nat, quiet: bool)
    requires On(st, applied, e, quiet) && Recorded(applied, e, v) && Orderly(others, quiet)
    ensures v.Failed? ==> R.Compensate(applied.redis, e).1.Ok?
    ensures var x := if v.Failed? then R.Compensate(applied.redis, e).0 else applied.redis;
      var paid := others(gap)(applied.(redis := x));
      var after := if stop == Some(BeforeAck) then paid else paid.(redis := R.Ack(paid.redis, e.id));
      Eases(st, after, quiet) && (stop != Some(BeforeAck) ==> Paid(after, e) && e.id !in Owed(after))
  {
    hide Good, Owed, Delivered, Recorded, Paid, Orderly, Eases, On, R.Compensate, R.Ack;
    OnIsGood(st, applied, e, quiet);
    var x := if v.Failed? then R.Compensate(applied.redis, e).0 else applied.redis;
    var settled := applied.(redis := x);
    if v.Failed? { CompensateEases(applied, e, v); } else { CreatedIsPaid(applied, e, v); EasesSelf(applied); }
    OnOwn(st, applied, settled, e, quiet);
    OnOthers(st, settled, e, v, others, gap, quiet);
    var paid := others(gap)(settled);
    OnIsGood(st, paid, e, quiet);
    if stop != Some(BeforeAck) {
      AckEases(paid, e);
      OnOwn(st, paid, paid.(redis := R.Ack(paid.redis, e.id)), e, quiet);
      OnIsGood(st, paid.(redis := R.Ack(paid.redis, e.id)), e, quiet);
    }
  }

  // Whatever others do in between, a delivery that is not cut off settles its event and leaves nothing of it owed;
  // wherever it stops, it eases the activity.
  lemma ProcessSettles(st: Stores, e: Event, stop: Option<Stop>, others: Others, gap: nat, quiet: bool)
    requires Good(st) && Delivered(st, e) && Orderly(others, quiet)
    ensures var after := Process(st, e, stop, others, gap);
      Eases(st, after, quiet) && (stop == None ==> Paid(after, e) && e.id !in Owed(after))
  {
    hide Good, Owed, Delivered, Recorded, Paid, Orderly, Eases, On, L.Apply, R.Compensate, R.Ack;
    var ready := others(gap)(st);
    var (m, reply) := L.Apply(ready.sql, e);
    var v := if reply.Ok? then reply.value.verdict else Created(0);
    OnStart(st, e, quiet);
    OnOthers(st, st, e, v, others, gap, quiet);
    OnIsGood(st, ready, e, quiet);
    if stop != Some(BeforeApply) {
      ApplyEases(ready, e);
      OnOwn(st, ready, ready.(sql := m), e, quiet);
      OnOthers(st, ready.(sql := m), e, v, others, gap + 1, quiet);
      var applied := others(gap + 1)(ready.(sql := m));
      OnIsGood(st, applied, e, quiet);
      if stop != Some(BeforeCompensate) { PaidSettles(st, applied, e, v, stop, others, gap + 2, quiet); }
    }
  }

  function ProcessAll(st: Stores, es: seq<Event>, stops: map<StreamId, Stop>, others: Others): Stores {
    if es == [] then st
    else
      var e := es[|es|-1];
      Process(ProcessAll(st, es[..|es|-1], stops, others), e, if e.id in stops then Some(stops[e.id]) else None, others, 3 * |es|)
  }

  lemma {:induction false} ProcessAllSettles(st: Stores, es: seq<Event>, stops: map<StreamId, Stop>, others: Others, quiet: bool)
    requires Good(st) && Orderly(others, quiet) && forall e :: e in es ==> Delivered(st, e)
    ensures var after := ProcessAll(st, es, stops, others);
      Eases(st, after, quiet) && (quiet ==> forall e :: e in es && e.id !in stops ==> e.id !in Owed(after))
  {
    hide Good, Delivered, Owed, Process, Orderly, Evolves, Waiting;
    if es == [] {
      EasesSelf(st);
    } else {
      var init, e := es[..|es|-1], es[|es|-1];
      assert es == init + [e] && e in es;
      assert forall f :: f in init ==> f in es;
      ProcessAllSettles(st, init, stops, others, quiet);
      var mid := ProcessAll(st, init, stops, others);
      DeliveredStays(st, mid, e);
      ProcessSettles(mid, e, if e.id in stops then Some(stops[e.id]) else None, others, 3 * |es|, quiet);
      EasesChain(st, mid, ProcessAll(st, es, stops, others), quiet);
    }
  }

  // ---- One activity in one round --------------------------------------------------------------------

  datatype Answer = Given | Refused | ReplyLost

  // What befalls one visit: whether the claim answers, which deliveries are too young for it, what becomes of the
  // read, which deliveries stop half-way, and what others do in between. An expired context is a visit whose
  // remaining calls fail.
  datatype Luck = Luck(claim: bool, busy: set<StreamId>, read: Answer, stops: map<StreamId, Stop>, others: Others)

  predicate Calm(luck: Luck) {
    luck.claim && luck.busy == {} && luck.read == Given && luck.stops == map[]
  }

  // The claimed and the fresh events, the stores after the read, and the next claim cursor; others act in between.
  function Fetch(st: Stores, cursor: StreamId, luck: Luck): (seq<Event>, Stores, StreamId) {
    var pending := if st.redis.stream.None? then {} else st.redis.stream.value.pending;
    var claimed := if luck.claim then R.Claim(st.redis, cursor, pending - luck.busy, BATCH) else Err(Dependency);
    var mid := luck.others(1)(st);
    var (redis, fetched) := if luck.read == Refused then (mid.redis, Err(Dependency)) else R.Read(mid.redis, BATCH);
    ((if claimed.Ok? then claimed.value.0 else []) + (if fetched.Ok? && luck.read == Given then fetched.value else []),
     mid.(redis := redis),
     if claimed.Ok? then claimed.value.1 else cursor)
  }

  function Serve(st: Stores, cursor: StreamId, luck: Luck): (Stores, StreamId) {
    var (events, read, next) := Fetch(st, cursor, luck);
    (ProcessAll(read, events, luck.stops, luck.others), next)
  }

  // A visit begins some time after the scan that found the activity.
  function Visit(st: Stores, cursor: StreamId, luck: Luck): (Stores, StreamId) {
    Serve(luck.others(0)(st), cursor, luck)
  }

  // Two units for each delivery owed and one more for each that nobody has read yet.
  function Debt(st: Stores): nat {
    2 * |Owed(st)| + Waiting(st)
  }

  // And a unit for a cursor that has to wrap first.
  function Weight(st: Stores, cursor: StreamId): nat {
    Debt(st) + if cursor == ZERO_ID then 0 else 1
  }

  predicate Drained(st: Stores) {
    st.redis.stream.Some? && st.redis.stream.value.waiting == [] && st.redis.stream.value.pending == {}
  }

  function Less(a: nat, b: nat): nat {
    if a <= b then 0 else a - b
  }

  // From the zero cursor every pending entry is on the list.
  lemma {:induction false} ZeroListsAll(es: seq<Event>, pending: set<StreamId>, e: Event)
    requires e in es && e.id in pending
    ensures e in R.Listed(es, pending, ZERO_ID)
  {
    if es[0] != e { ZeroListsAll(es[1..], pending, e); }
  }

  lemma ReadMovesIds(r: R.Redis, count: nat)
    requires r.stream.Some?
    ensures var q, x := r.stream.value, R.Read(r, count).0;
      x.stream.Some? && |x.stream.value.waiting| <= |q.waiting|
      && R.Ids(x.stream.value.waiting) + x.stream.value.pending == R.Ids(q.waiting) + q.pending
  {
    var q, n := r.stream.value, R.Min(count, |r.stream.value.waiting|);
    assert q.waiting == q.waiting[..n] + q.waiting[n..];
    assert R.Ids(q.waiting) == R.Ids(q.waiting[..n]) + R.Ids(q.waiting[n..]);
  }

  // Reading moves entries from waiting to pending and adds none.
  lemma ReadEases(st: Stores)
    requires Good(st)
    ensures var (x, reply) := R.Read(st.redis, BATCH);
      Eases(st, st.(redis := x), true) && reply.Ok? && (forall e :: e in reply.value ==> Delivered(st.(redis := x), e))
    ensures st.redis.stream.value.waiting != [] ==> R.Read(st.redis, BATCH).1.value != []
  {
    hide L.BaseInv, L.AsyncInv, LogInv, ResultsLogged, CompensatedFailed, HashGrows, StreamGrows;
    ReadKeeps(st.sql, st.redis, BATCH);
    ReadMovesIds(st.redis, BATCH);
  }

  // The read of a visit, whatever becomes of it.
  lemma ReadPart(mid: Stores, answer: Answer)
    requires Good(mid)
    ensures var (redis, fetched) := if answer == Refused then (mid.redis, Err(Dependency)) else R.Read(mid.redis, BATCH);
      Eases(mid, mid.(redis := redis), true) && (fetched.Ok? ==> forall e :: e in fetched.value ==> Delivered(mid.(redis := redis), e))
  {
    hide Good, Evolves, Owed, Waiting, R.Read, Delivered;
    if answer == Refused { EasesSelf(mid); } else { ReadEases(mid); }
  }

  lemma ClaimPart(st: Stores, cursor: StreamId, idle: set<StreamId>)
    requires st.redis.stream.Some?
    ensures var claimed := R.Claim(st.redis, cursor, idle, BATCH);
      claimed.Ok? ==> forall e :: e in claimed.value.0 ==> Delivered(st, e)
  {
    hide R.Claim;
    if R.Claim(st.redis, cursor, idle, BATCH).Ok? { ClaimedIsDelivered(st.redis, cursor, idle, BATCH); }
  }

  lemma EasesWeaker(a: Stores, b: Stores, quiet: bool)
    requires Eases(a, b, true)
    ensures Eases(a, b, quiet) && Good(b) && Evolves(a, b)
  {
  }

  lemma OthersAreGood(st: Stores, others: Others, gap: nat, quiet: bool)
    requires Good(st) && Orderly(others, quiet)
    ensures Eases(st, others(gap)(st), quiet) && Good(others(gap)(st)) && Evolves(st, others(gap)(st))
  {
    hide Good, Evolves, Owed, Waiting;
    assert Eases(st, others(gap)(st), quiet);
  }

  lemma EasesEvolves(a: Stores, b: Stores, quiet: bool)
    requires Eases(a, b, quiet)
    ensures Good(b) && Evolves(a, b)
  {
  }

  // What is fetched was claimed or read.
  lemma FetchIs(st: Stores, cursor: StreamId, luck: Luck)
    requires st.redis.stream.Some?
    ensures var (events, read, next) := Fetch(st, cursor, luck);
      var claimed := R.Claim(st.redis, cursor, st.redis.stream.value.pending - luck.busy, BATCH);
      var mid := luck.others(1)(st);
      var (redis, fetched) := if luck.read == Refused then (mid.redis, Err(Dependency)) else R.Read(mid.redis, BATCH);
      && read == mid.(redis := redis)
      && (forall e :: e in events ==> (claimed.Ok? && e in claimed.value.0) || (fetched.Ok? && e in fetched.value))
  {
    hide R.Claim, R.Read;
  }

  // What a visit fetches has been delivered to the group.
  lemma FetchEases(st: Stores, cursor: StreamId, luck: Luck, quiet: bool)
    requires Good(st) && Orderly(luck.others, quiet)
    ensures var (events, read, next) := Fetch(st, cursor, luck);
      Good(read) && Eases(st, read, quiet) && (forall e :: e in events ==> Delivered(read, e))
  {
    hide *;
    GoodIsActive(st);
    var mid, read := luck.others(1)(st), Fetch(st, cursor, luck).1;
    FetchIs(st, cursor, luck);
    OthersAreGood(st, luck.others, 1, quiet);
    ClaimPart(st, cursor, st.redis.stream.value.pending - luck.busy);
    ReadPart(mid, luck.read);
    EasesWeaker(mid, read, quiet);
    EasesChain(st, mid, read, quiet);
    EasesEvolves(st, read, quiet);
    forall e | Delivered(st, e) ensures Delivered(read, e) { DeliveredStays(st, read, e); }
  }

  lemma ServeKeeps(st: Stores, cursor: StreamId, luck: Luck, quiet: bool)
    requires Good(st) && Orderly(luck.others, quiet)
    ensures Eases(st, Serve(st, cursor, luck).0, quiet)
  {
    hide Good, Evolves, Owed, Waiting, Fetch, ProcessAll, Delivered, Orderly;
    var (events, read, next) := Fetch(st, cursor, luck);
    FetchEases(st, cursor, luck, quiet);
    ProcessAllSettles(read, events, luck.stops, luck.others, quiet);
    EasesChain(st, read, ProcessAll(read, events, luck.stops, luck.others), quiet);
  }

  // Whatever fails and whatever others do meanwhile, a visit eases its activity as they do.
  lemma VisitKeeps(st: Stores, cursor: StreamId, luck: Luck, quiet: bool)
    requires Good(st) && Orderly(luck.others, quiet)
    ensures Eases(st, Visit(st, cursor, luck).0, quiet)
  {
    hide Good, Evolves, Owed, Waiting, Serve, Orderly;
    OthersAreGood(st, luck.others, 0, quiet);
    ServeKeeps(luck.others(0)(st), cursor, luck, quiet);
    EasesChain(st, luck.others(0)(st), Visit(st, cursor, luck).0, quiet);
  }

  // What a calm visit fetches: the first pending entry beyond the cursor; with none, the cursor wraps.
  lemma ClaimFinds(st: Stores, cursor: StreamId)
    requires Good(st)
    ensures var q := st.redis.stream.value; var claim := R.Claim(st.redis, cursor, q.pending, BATCH);
      && claim.Ok?
      && (claim.value.0 == [] ==> claim.value.1 == ZERO_ID && (cursor == ZERO_ID ==> q.pending == {}))
      && (claim.value.0 != [] ==> claim.value.0[0].id in q.pending)
  {
    hide L.LedgerInv, LogInv, ResultsLogged, CompensatedFailed;
    var q := st.redis.stream.value;
    var list := R.Listed(q.delivered, q.pending, cursor);
    ListedIsDelivered(q.delivered, q.pending, cursor);
    if list != [] {
      assert list[0] in list;
    } else if q.pending != {} && cursor == ZERO_ID {
      var id :| id in q.pending;
      assert id in R.Ids(q.delivered);
      var e :| e in q.delivered && e.id == id;
      ZeroListsAll(q.delivered, q.pending, e);
    }
  }

  lemma OneLess<T>(a: set<T>, b: set<T>, x: T)
    requires b <= a && x in a && x !in b
    ensures |b| < |a|
  {
    SubsetCounts(b, a);
  }

  lemma FetchedWasOwed(st: Stores, count: nat)
    requires st.redis.stream.Some?
    ensures var reply := R.Read(st.redis, count).1; reply.Ok? ==> forall e :: e in reply.value ==> e.id in Owed(st)
  {
  }

  // The debt falls when something owed has been settled, or when nothing is left to be read.
  lemma DebtFalls(a: Stores, b: Stores, paid: Option<StreamId>)
    requires Owed(b) <= Owed(a) && Waiting(b) <= Waiting(a)
    requires if paid.Some? then paid.value in Owed(a) && paid.value !in Owed(b) else Waiting(b) < Waiting(a)
    ensures Debt(b) + (if paid.Some? then 2 else 1) <= Debt(a)
  {
    hide Owed, Waiting;
    SubsetCounts(Owed(b), Owed(a));
    if paid.Some? { OneLess(Owed(a), Owed(b), paid.value); }
  }

  lemma DebtStays(a: Stores, b: Stores)
    requires Owed(b) <= Owed(a) && Waiting(b) <= Waiting(a)
    ensures Debt(b) <= Debt(a)
  {
    hide Owed, Waiting;
    SubsetCounts(Owed(b), Owed(a));
  }

  lemma EasesQuietly(a: Stores, b: Stores)
    requires Eases(a, b, true)
    ensures Owed(b) <= Owed(a) && Waiting(b) <= Waiting(a)
  {
  }

  lemma CalmFetch(st: Stores, cursor: StreamId, luck: Luck)
    requires st.redis.stream.Some? && Calm(luck)
    ensures var mid := luck.others(1)(st);
      var claimed := R.Claim(st.redis, cursor, st.redis.stream.value.pending, BATCH);
      var (redis, fetched) := R.Read(mid.redis, BATCH);
      claimed.Ok? && fetched.Ok? ==> Fetch(st, cursor, luck) == (claimed.value.0 + fetched.value, mid.(redis := redis), claimed.value.1)
  {
    hide R.Claim, R.Read;
    assert st.redis.stream.value.pending - {} == st.redis.stream.value.pending;
  }

  lemma PendingIsOwed(st: Stores, id: StreamId)
    requires st.redis.stream.Some?
    ensures id in st.redis.stream.value.pending ==> id in Owed(st)
    ensures Waiting(st) == 0 && st.redis.stream.value.pending == {} ==> Owed(st) == {}
    ensures Waiting(st) == 0 <==> st.redis.stream.value.waiting == []
  {
  }

  // What a calm visit fetches first is owed; it fetches nothing only when nothing is left to claim or to read.
  lemma TargetIsOwed(st: Stores, cursor: StreamId, luck: Luck)
    requires Good(st) && Orderly(luck.others, true) && Calm(luck)
    ensures var (events, read, next) := Fetch(st, cursor, luck);
      && (events != [] ==> events[0].id in Owed(st))
      && (events == [] ==> next == ZERO_ID && Waiting(luck.others(1)(st)) == 0 && (cursor == ZERO_ID && Waiting(st) == 0 ==> Owed(st) == {}))
  {
    hide *;
    GoodIsActive(st);
    CalmFetch(st, cursor, luck);
    ClaimFinds(st, cursor);
    var mid := luck.others(1)(st);
    OthersAreGood(st, luck.others, 1, true);
    EasesQuietly(st, mid);
    GoodIsActive(mid);
    ReadEases(mid);
    FetchedWasOwed(mid, BATCH);
    var events := Fetch(st, cursor, luck).0;
    PendingIsOwed(st, if events == [] then ZERO_ID else events[0].id);
    PendingIsOwed(mid, ZERO_ID);
  }

  lemma MidWaits(st: Stores, cursor: StreamId, luck: Luck)
    requires Good(st) && Orderly(luck.others, true) && Calm(luck)
    ensures Waiting(Fetch(st, cursor, luck).1) <= Waiting(luck.others(1)(st))
  {
    hide Good, Evolves, R.Claim, R.Read, Orderly, Owed, Waiting;
    OthersAreGood(st, luck.others, 1, true);
    ReadPart(luck.others(1)(st), luck.read);
  }

  lemma NothingProcessed(st: Stores, luck: Luck)
    ensures ProcessAll(st, [], luck.stops, luck.others) == st
  {
  }

  lemma NoDebt(st: Stores)
    ensures Owed(st) == {} && Waiting(st) == 0 ==> Debt(st) == 0
  {
  }

  lemma ServeLowers(st: Stores, cursor: StreamId, luck: Luck)
    requires Good(st) && Orderly(luck.others, true) && Calm(luck)
    ensures var (after, next) := Serve(st, cursor, luck);
      Eases(st, after, true) && Weight(after, next) <= Less(Weight(st, cursor), 1)
  {
    hide Good, Evolves, Orderly, Fetch, ProcessAll, Eases, Owed, Waiting, Debt, Delivered;
    var (events, read, next) := Fetch(st, cursor, luck);
    var after := ProcessAll(read, events, luck.stops, luck.others);
    ServeKeeps(st, cursor, luck, true);
    TargetIsOwed(st, cursor, luck);
    FetchEases(st, cursor, luck, true);
    EasesQuietly(st, after);
    if events != [] {
      ProcessAllSettles(read, events, luck.stops, luck.others, true);
      assert events[0] in events;
      DebtFalls(st, after, Some(events[0].id));
    } else {
      NothingProcessed(read, luck);
      MidWaits(st, cursor, luck);
      if Waiting(st) > 0 { DebtFalls(st, after, None); } else { DebtStays(st, after); NoDebt(st); }
    }
  }

  // A calm visit lowers the weight of its activity until it is zero, although other workers read, claim and
  // settle deliveries between any two of its calls.
  lemma VisitProgress(st: Stores, cursor: StreamId, luck: Luck)
    requires Good(st) && Orderly(luck.others, true) && Calm(luck)
    ensures var (after, next) := Visit(st, cursor, luck);
      Eases(st, after, true) && Weight(after, next) <= Less(Weight(st, cursor), 1)
  {
    hide Good, Evolves, Orderly, Owed, Waiting, Debt, Serve, Eases;
    var start := luck.others(0)(st);
    OthersAreGood(st, luck.others, 0, true);
    EasesQuietly(st, start);
    DebtStays(st, start);
    ServeLowers(start, cursor, luck);
    EasesChain(st, start, Visit(st, cursor, luck).0, true);
  }

  lemma WeightlessIsDrained(st: Stores, cursor: StreamId)
    requires st.redis.stream.Some? && Weight(st, cursor) == 0
    ensures Drained(st)
  {
    assert Owed(st) == {};
  }

  // ---- Others are runs of the protocol ------------------------------------------------------------------------

  function StoresOf(s: System): Stores {
    Stores(s.sql, s.redis)
  }

  // Only an admission adds to what an activity owes.
  lemma OnlyReservationsAdd(s: System, t: Step)
    requires s.redis.stream.Some? && !t.ReserveStep?
    ensures var n := StoresOf(Next(s, t)); Owed(n) <= Owed(StoresOf(s)) && Waiting(n) <= Waiting(StoresOf(s))
  {
    hide L.Stage, L.Activate, L.Apply, L.Place, L.Register, L.Remove, L.Burn, R.Check, R.Claim;
    if t.ReadStep? { ReadMovesIds(s.redis, t.count); }
  }

  lemma {:induction false} RunAddsNothing(s: System, ts: seq<Step>)
    requires Inv(s) && s.redis.stream.Some? && forall k :: 0 <= k < |ts| ==> !ts[k].ReserveStep?
    ensures var n := StoresOf(Run(s, ts)); Owed(n) <= Owed(StoresOf(s)) && Waiting(n) <= Waiting(StoresOf(s))
    decreases |ts|
  {
    if ts != [] {
      hide Inv, Next, HashGrows, StreamGrows, LedgerGrows;
      NextKeeps(s, ts[0]);
      OnlyReservationsAdd(s, ts[0]);
      RunAddsNothing(Next(s, ts[0]), ts[1..]);
    }
  }

  // An open activity in a state the invariant allows is sound.
  lemma OpenIsGood(s: System)
    requires Inv(s) && Active(StoresOf(s))
    ensures Good(StoresOf(s))
  {
    hide L.BaseInv, L.AsyncInv, CrossInv;
  }

  lemma InvIsSound(s: System)
    requires Inv(s)
    ensures L.LedgerInv(s.sql) && StoresInv(s.sql, s.redis)
  {
  }

  // Whatever run of the protocol others make on an open activity, it eases the activity, quietly if nothing is reserved.
  lemma RunEases(s: System, ts: seq<Step>)
    requires Inv(s) && Active(StoresOf(s))
    ensures Active(StoresOf(Run(s, ts)))
    ensures Eases(StoresOf(s), StoresOf(Run(s, ts)), forall k :: 0 <= k < |ts| ==> !ts[k].ReserveStep?)
  {
    hide Run, Inv, L.BaseInv, L.AsyncInv, CrossInv, HashGrows, StreamGrows, Owed, Waiting;
    OpenIsGood(s);
    RunKeeps(s, ts);
    InvIsSound(Run(s, ts));
    ActiveStays(StoresOf(s), StoresOf(Run(s, ts)));
    OpenIsGood(Run(s, ts));
    if forall k :: 0 <= k < |ts| ==> !ts[k].ReserveStep? { RunAddsNothing(s, ts); }
  }
}
