// What the protocol guarantees in every reachable state and along every run.
module ProtocolTheorems {
  import opened SeckillModel
  import L = Ledger
  import R = Admission
  import opened Protocol
  import opened ProtocolInvariant

  // ---- Conservation across the two stores ----------------------------------------------------------

  // SQL stock = Redis stock + accepted events without an outcome + failures not yet compensated,
  // whatever interleaving, crash, duplicate delivery or lost reply led here.
  lemma Conservation(s: System, ts: seq<Step>, t: System)
    requires Init(s) && t == Run(s, ts)
    ensures t.sql.row.Some? && (t.redis.hash.Some? <==> t.redis.stream.Some?)
    ensures Live(t) ==>
        var a, h, q := t.sql.row.value, t.redis.hash.value, t.redis.stream.value;
        && a.stock == h.stock + |Unresolved(t.sql.results, q)| + |Unrestored(t.sql.results, h)|
        && 0 <= h.stock <= a.stock <= a.capacity == h.seed.capacity
        && a.stock + |t.sql.orders| == a.capacity
  {
    Reachable(s, ts);
    if Live(t) { StocksBalance(t.sql, t.redis); }
  }

  // ---- Outcomes of admitted events -------------------------------------------------------------------

  // Every admitted event always gets an outcome: an order, or a failure because the user was deleted.
  // The branches sold_out, already_purchased and outside_activity_window are unreachable.
  lemma AdmittedOutcome(s: System, ts: seq<Step>, t: System, e: Event)
    requires Init(s) && t == Run(s, ts) && Live(t) && e in R.Entries(t.redis.stream.value)
    ensures var reply := L.Apply(t.sql, e).1;
      && reply.Ok? && reply.value.event == e
      && (reply.value.verdict.Failed? ==> reply.value.verdict == Failed(UserNotFound))
      && (e.id !in t.sql.results ==> (reply.value.verdict.Created? <==> e.user in t.sql.users))
  {
    Reachable(s, ts);
    OutcomeIsReady(t.sql, t.redis, e);
  }

  lemma OutcomeIsReady(l: L.Ledger, r: R.Redis, e: Event)
    requires L.LedgerInv(l) && StoresInv(l, r) && r.hash.Some? && e in R.Entries(r.stream.value)
    ensures var reply := L.Apply(l, e).1;
      && reply.Ok? && reply.value.event == e
      && (reply.value.verdict.Failed? ==> reply.value.verdict == Failed(UserNotFound))
      && (e.id !in l.results ==> (reply.value.verdict.Created? <==> e.user in l.users))
  {
    hide L.BaseInv, L.AsyncInv;
    if e.id in l.results {
      assert l.results[e.id].event in R.Entries(r.stream.value);
    } else {
      LoggedVerdict(l, r, e);
    }
  }

  // ---- No delivery is lost ---------------------------------------------------------------------------

  // Each stream entry is beyond the group's last-delivered id, pending, or settled.
  lemma NoDeliveryLost(s: System, ts: seq<Step>, t: System, e: Event)
    requires Init(s) && t == Run(s, ts) && Live(t) && e in R.Entries(t.redis.stream.value)
    ensures e in t.redis.stream.value.waiting || e.id in t.redis.stream.value.pending
      || Settled(t.sql.results, t.redis.hash.value.compensated, e.id)
  {
    Reachable(s, ts);
  }

  // Only the acknowledgement of a settled event removes anything from the pending list.
  lemma AckFollowsSettlement(s: System, t: Step, n: System, id: StreamId)
    requires Inv(s) && Live(s) && n == Next(s, t) && Live(n)
    requires id in s.redis.stream.value.pending && id !in n.redis.stream.value.pending
    ensures t.AckStep? && Settled(s.sql.results, s.redis.hash.value.compensated, id)
  {
    hide L.LedgerInv, StoresInv, EnablingInv, AcceptingInv, R.Ids;
    hide L.Stage, L.Activate, L.Apply, L.Place, L.Register, L.Remove, L.Burn, R.Check, R.Claim;
    if t.AckStep? { assert WorkerInv(s.sql, s.redis, Held(s, t.worker)); }
  }

  // ---- Compensation ----------------------------------------------------------------------------------

  // For a delivered event with a committed failure no guard of the script ever refuses, so a retry
  // always succeeds; it returns one unit exactly if the marker was still missing.
  lemma CompensationNeverStuck(s: System, ts: seq<Step>, t: System, e: Event)
    requires Init(s) && t == Run(s, ts) && Live(t) && e in t.redis.stream.value.delivered
    requires e.id in t.sql.results && t.sql.results[e.id].verdict.Failed?
    ensures var (x, reply) := R.Compensate(t.redis, e);
      && reply.Ok? && e.id in x.hash.value.compensated
      && x.hash.value.stock == t.redis.hash.value.stock + if e.id in t.redis.hash.value.compensated then 0 else 1
  {
    Reachable(s, ts);
    CompensateKeeps(t.sql, t.redis, e);
  }

  // Redis stock rises only by one, only for a committed failure, and only while its marker is missing.
  // Markers are never removed (HashGrows), so each event raises the stock at most once.
  lemma StockRisesOnce(s: System, t: Step, n: System)
    requires Inv(s) && Live(s) && n == Next(s, t) && Live(n)
    requires n.redis.hash.value.stock > s.redis.hash.value.stock
    ensures t.CompensateStep? && Held(s, t.worker).batch != []
    ensures var h, g, id := s.redis.hash.value, n.redis.hash.value, Held(s, t.worker).batch[0].id;
      && g.stock == h.stock + 1 && id !in h.compensated && g.compensated == h.compensated + {id}
      && id in s.sql.results && s.sql.results[id].verdict.Failed?
  {
    hide L.LedgerInv, StoresInv, EnablingInv, AcceptingInv, R.Ids;
    hide L.Stage, L.Activate, L.Apply, L.Place, L.Register, L.Remove, L.Burn, R.Check, R.Claim;
    if t.CompensateStep? { assert WorkerInv(s.sql, s.redis, Held(s, t.worker)); }
  }

  // ---- Activation fencing ----------------------------------------------------------------------------

  // async_state only rises, generation and capacity are fixed when it leaves 0, no order of the
  // synchronous path survives that moment, and nothing is reserved before state 2.
  lemma ActivationFence(s: System, before: seq<Step>, t: System, after: seq<Step>, u: System)
    requires Init(s) && t == Run(s, before) && u == Run(t, after)
    ensures t.sql.row.Some? && u.sql.row.Some? && t.sql.row.value.state <= u.sql.row.value.state <= 2
    ensures t.sql.row.value.state >= 1 ==> SeedOf(t.sql.row.value) == SeedOf(u.sql.row.value)
    ensures u.sql.row.value.state == 1 ==> u.sql.orders == map[] && u.sql.row.value.stock == u.sql.row.value.capacity
    ensures u.sql.row.value.state >= 1 ==> forall o :: o in u.sql.orders ==> L.Backed(u.sql, o)
    ensures Live(u) && u.sql.row.value.state < 2 ==>
      R.Pristine(u.redis.hash.value, u.redis.stream.value) && u.redis.hash.value.stock == u.sql.row.value.stock
    ensures Live(t) ==> Live(u) && u.redis.hash.value.seed == t.redis.hash.value.seed
  {
    Reachable(s, before);
    RunKeeps(t, after);
    NoOrdersWhileStaged(u.sql);
  }

  lemma NoOrdersWhileStaged(l: L.Ledger)
    requires L.LedgerInv(l)
    ensures l.row.value.state == 1 ==> l.orders == map[]
  {
    forall o | L.Backed(l, o) ensures l.results != map[] {
      var id :| id in l.results && l.results[id].verdict == Created(o);
    }
  }

  // A synchronous purchase changes nothing once the activity has left state 0.
  lemma SyncPathIsFenced(s: System, user: nat, now: int)
    requires Inv(s) && s.sql.row.value.state >= 1
    ensures Next(s, PlaceStep(user, now)) == s && L.Place(s.sql, user, now).1 == Err(Conflict)
  {
    hide L.BaseInv, L.AsyncInv, StoresInv;
    L.PlaceKeepsInv(s.sql, user, now);
  }

  // The snapshot appears in one step, copies the SQL stock, and finds no sale of either kind.
  lemma SnapshotMatchesSql(s: System, t: Step, n: System)
    requires Inv(s) && s.redis.hash.None? && n == Next(s, t) && Live(n)
    ensures t.PrepareStep? && s.sql.row.value.state == 1 && s.sql.orders == map[]
    ensures n.redis.hash.value.stock == s.sql.row.value.stock
    ensures R.Pristine(n.redis.hash.value, n.redis.stream.value)
  {
    hide LogInv, ResultsLogged, CompensatedFailed;
    NoOrdersWhileStaged(s.sql);
    assert t.PrepareStep?;
    assert EnablingInv(s.sql, s.redis, s.enabling[t.caller]);
  }

  // An activity whose snapshot Redis cannot represent never leaves state 1: nothing is ever reserved or ordered, and
  // every synchronous purchase conflicts.
  lemma UnfitStaysFenced(s: System, ts: seq<Step>, t: System, user: nat, now: int)
    requires Inv(s) && t == Run(s, ts) && s.sql.row.value.state == 1 && !R.ValidSeed(SeedOf(s.sql.row.value))
    ensures t.sql.row.Some? && t.sql.row.value.state == 1 && t.redis.hash.None? && t.sql.orders == map[]
    ensures L.Place(t.sql, user, now) == (t.sql, Err(Conflict))
  {
    hide LogInv, ResultsLogged, CompensatedFailed, L.BaseInv, EnablingInv, AcceptingInv, WorkerInv, HashGrows, StreamGrows;
    RunKeeps(s, ts);
    NoOrdersWhileStaged(t.sql);
    L.PlaceKeepsInv(t.sql, user, now);
  }

  // The activity opens only by Activate, and at that moment both stores hold the full capacity.
  lemma OpeningIsPristine(s: System, t: Step, n: System)
    requires Inv(s) && n == Next(s, t) && n.sql.row.Some?
    requires s.sql.row.value.state < 2 && n.sql.row.value.state == 2
    ensures t.ActivateStep? && s.sql.row.value.state == 1 && Live(s)
    ensures R.Pristine(s.redis.hash.value, s.redis.stream.value)
    ensures s.redis.hash.value.stock == s.sql.row.value.stock == s.sql.row.value.capacity
  {
    hide LogInv, ResultsLogged, CompensatedFailed;
    NoOrdersWhileStaged(s.sql);
    assert t.ActivateStep?;
    assert EnablingInv(s.sql, s.redis, s.enabling[t.caller]);
  }

  // ---- Quiescence ------------------------------------------------------------------------------------

  ghost predicate Quiescent(s: System) {
    s.redis.stream.Some? && s.redis.stream.value.waiting == [] && s.redis.stream.value.pending == {}
  }

  ghost function FailedIds(l: L.Ledger): set<StreamId> {
    set id | id in l.results && l.results[id].verdict.Failed?
  }

  ghost predicate ResultOf(l: L.Ledger, user: nat, id: StreamId) {
    id in l.results && l.results[id].event.user == user
  }

  // Once nothing is undelivered or pending, every buyer has exactly one outcome, exactly the failures
  // have been compensated, and the stocks of the two stores agree.
  lemma QuiescentAgrees(s: System, ts: seq<Step>, t: System)
    requires Init(s) && t == Run(s, ts) && Quiescent(t)
    ensures Live(t)
    ensures var h := t.redis.hash.value;
      && t.sql.results.Keys == R.Ids(R.Entries(t.redis.stream.value))
      && h.compensated == FailedIds(t.sql)
      && h.stock == t.sql.row.value.stock
      && (forall u :: u in h.buyers ==> ResultOf(t.sql, u, h.buyers[u]))
      && (forall u, id :: ResultOf(t.sql, u, id) ==> u in h.buyers && id == h.buyers[u])
  {
    Reachable(s, ts);
    QuiescentStores(t.sql, t.redis);
  }

  lemma QuiescentCounts(l: L.Ledger, r: R.Redis)
    requires L.LedgerInv(l) && StoresInv(l, r) && r.hash.Some?
    requires r.stream.value.waiting == [] && r.stream.value.pending == {}
    ensures R.Entries(r.stream.value) == r.stream.value.delivered && l.results.Keys == R.Ids(r.stream.value.delivered)
    ensures r.hash.value.compensated == FailedIds(l) && r.hash.value.stock == l.row.value.stock
  {
    hide L.BaseInv, L.AsyncInv, LogInv;
    var h, q := r.hash.value, r.stream.value;
    assert R.Entries(q) == q.delivered;
    StocksBalance(l, r);
    assert l.results.Keys == R.Ids(q.delivered);
    assert Unresolved(l.results, q) == {} && Unrestored(l.results, h) == {};
  }

  lemma QuiescentStores(l: L.Ledger, r: R.Redis)
    requires L.LedgerInv(l) && StoresInv(l, r) && r.hash.Some?
    requires r.stream.value.waiting == [] && r.stream.value.pending == {}
    ensures l.results.Keys == R.Ids(R.Entries(r.stream.value))
    ensures r.hash.value.compensated == FailedIds(l) && r.hash.value.stock == l.row.value.stock
    ensures forall u :: u in r.hash.value.buyers ==> ResultOf(l, u, r.hash.value.buyers[u])
    ensures forall u, id :: ResultOf(l, u, id) ==> u in r.hash.value.buyers && id == r.hash.value.buyers[u]
  {
    hide L.BaseInv, L.AsyncInv;
    var h, q := r.hash.value, r.stream.value;
    QuiescentCounts(l, r);
    forall u | u in h.buyers ensures ResultOf(l, u, h.buyers[u]) {
      assert HasTicket(q.delivered, u, h.buyers[u]);
      var e :| e in q.delivered && e.user == u && e.id == h.buyers[u];
      assert l.results[e.id].event in q.delivered;
    }
    forall u, id | ResultOf(l, u, id) ensures u in h.buyers && id == h.buyers[u] {
      assert EntryInv(h.seed, h.buyers, q.lastId, l.results[id].event);
    }
  }

  ghost function FailedUsers(l: L.Ledger): set<nat> {
    set id | id in FailedIds(l) :: l.results[id].event.user
  }

  // Two runs of any schedule that admitted the same users, and in which the same of them failed for having
  // been deleted, end with the same order owners and the same stocks.
  lemma ScheduleIndependence(s: System, ts: seq<Step>, t: System, s': System, ts': seq<Step>, t': System)
    requires Init(s) && t == Run(s, ts) && Quiescent(t) && Live(t)
    requires Init(s') && t' == Run(s', ts') && Quiescent(t') && Live(t')
    requires t.redis.hash.value.seed == t'.redis.hash.value.seed
    requires t.redis.hash.value.buyers.Keys == t'.redis.hash.value.buyers.Keys
    requires FailedUsers(t.sql) == FailedUsers(t'.sql)
    ensures L.Buyers(t.sql) == L.Buyers(t'.sql) == t.redis.hash.value.buyers.Keys - FailedUsers(t.sql)
    ensures t.sql.row.value.stock == t'.sql.row.value.stock == t.redis.hash.value.stock == t'.redis.hash.value.stock
  {
    hide Inv, Quiescent;
    OwnersAtRest(s, ts, t);
    OwnersAtRest(s', ts', t');
  }

  lemma OwnersAtRest(s: System, ts: seq<Step>, t: System)
    requires Init(s) && t == Run(s, ts) && Quiescent(t) && Live(t)
    ensures L.Buyers(t.sql) == t.redis.hash.value.buyers.Keys - FailedUsers(t.sql)
    ensures t.sql.row.value.stock == t.redis.hash.value.stock == t.redis.hash.value.seed.capacity - |L.Buyers(t.sql)|
  {
    hide Inv, Quiescent;
    QuiescentAgrees(s, ts, t);
    RestedOrders(s, ts, t);
    var h := t.redis.hash.value;
    forall u | u in h.buyers ensures u in FailedUsers(t.sql) <==> h.buyers[u] in FailedIds(t.sql) {
      assert ResultOf(t.sql, u, h.buyers[u]);
      if u in FailedUsers(t.sql) {
        var id :| id in FailedIds(t.sql) && t.sql.results[id].event.user == u;
        assert ResultOf(t.sql, u, id);
      }
    }
  }

  lemma RestedBuyers(s: System, ts: seq<Step>, t: System)
    requires Init(s) && t == Run(s, ts) && Quiescent(t) && Live(t) && FailedIds(t.sql) == {}
    ensures L.Buyers(t.sql) == t.redis.hash.value.buyers.Keys
    ensures t.sql.row.value.stock == t.redis.hash.value.seed.capacity - |t.redis.hash.value.buyers.Keys|
  {
    Reachable(s, ts);
    QuiescentStores(t.sql, t.redis);
    EveryBuyerOwnsAnOrder(t.sql, t.redis);
  }

  lemma EveryBuyerOwnsAnOrder(l: L.Ledger, r: R.Redis)
    requires L.LedgerInv(l) && StoresInv(l, r) && r.hash.Some?
    requires forall u :: u in r.hash.value.buyers ==> ResultOf(l, u, r.hash.value.buyers[u])
    requires forall u, id :: ResultOf(l, u, id) ==> u in r.hash.value.buyers && id == r.hash.value.buyers[u]
    requires FailedIds(l) == {}
    ensures L.Buyers(l) == r.hash.value.buyers.Keys
    ensures l.row.value.stock == l.row.value.capacity - |r.hash.value.buyers.Keys|
  {
    OwnersAreUnfailedBuyers(l, r);
  }

  // With deletions: the owners of orders are exactly the buyers whose outcome is not a failure, and each
  // failure left its unit on sale in both stores.
  lemma RestedOrders(s: System, ts: seq<Step>, t: System)
    requires Init(s) && t == Run(s, ts) && Quiescent(t) && Live(t)
    ensures var h := t.redis.hash.value;
      && (forall u :: u in L.Buyers(t.sql) <==> u in h.buyers && h.buyers[u] !in FailedIds(t.sql))
      && t.sql.row.value.stock == h.stock == h.seed.capacity - |L.Buyers(t.sql)|
  {
    Reachable(s, ts);
    QuiescentStores(t.sql, t.redis);
    OwnersAreUnfailedBuyers(t.sql, t.redis);
  }

  lemma OwnersAreUnfailedBuyers(l: L.Ledger, r: R.Redis)
    requires L.LedgerInv(l) && StoresInv(l, r) && r.hash.Some?
    requires forall u :: u in r.hash.value.buyers ==> ResultOf(l, u, r.hash.value.buyers[u])
    requires forall u, id :: ResultOf(l, u, id) ==> u in r.hash.value.buyers && id == r.hash.value.buyers[u]
    ensures forall u :: u in L.Buyers(l) <==> u in r.hash.value.buyers && r.hash.value.buyers[u] !in FailedIds(l)
    ensures l.row.value.stock == r.hash.value.seed.capacity - |L.Buyers(l)|
  {
    var h := r.hash.value;
    forall u | u in h.buyers && h.buyers[u] !in FailedIds(l) ensures u in L.Buyers(l) {
      assert ResultOf(l, u, h.buyers[u]) && L.ResultInv(l, l.row.value.generation, h.buyers[u]);
      assert l.orders[l.results[h.buyers[u]].verdict.orderId] == u;
    }
    forall u | u in L.Buyers(l) ensures u in h.buyers && h.buyers[u] !in FailedIds(l) {
      var o :| o in l.orders && l.orders[o] == u;
      assert L.Backed(l, o);
      var id :| id in l.results && l.results[id].verdict == Created(o);
      assert L.ResultInv(l, l.row.value.generation, id) && ResultOf(l, u, id);
    }
    L.ValuesCount(l.orders);
  }
}
