// The asynchronous path serves exactly the users the synchronous transaction would have served.
module SyncRefinement {
  import opened SeckillModel
  import L = Ledger
  import R = Admission
  import opened Protocol
  import opened ProtocolInvariant
  import T = ProtocolTheorems

  // One answered reservation request, in the order Redis executed them.
  datatype Attempt = Attempt(user: nat, now: nat, reply: Reply<Event>)

  ghost function AttemptOf(s: System, t: Step): seq<Attempt> {
    if t.ReserveStep? && t.caller in s.accepting then
      var a := s.accepting[t.caller];
      [Attempt(a.user, t.now, R.Reserve(s.redis, a.user, a.generation, t.now).1)]
    else []
  }

  ghost function Attempts(s: System, ts: seq<Step>): seq<Attempt>
    decreases |ts|
  {
    if ts == [] then [] else AttemptOf(s, ts[0]) + Attempts(Next(s, ts[0]), ts[1..])
  }

  function Requests(ats: seq<Attempt>): seq<L.Request> {
    if ats == [] then [] else [L.Request(ats[0].user, ats[0].now)] + Requests(ats[1..])
  }

  predicate SameKind(a: Reply<Event>, b: Reply<nat>) {
    (a.Ok? && b.Ok?) || (a.Err? && b.Err? && a.kind == b.kind)
  }

  // Replayed one after the other through the synchronous transaction, every request gets the same kind of answer.
  ghost predicate Agree(m: L.Ledger, ats: seq<Attempt>)
    decreases |ats|
  {
    ats == [] || (var (n, reply) := L.Place(m, ats[0].user, ats[0].now); SameKind(ats[0].reply, reply) && Agree(n, ats[1..]))
  }

  ghost function Replay(m: L.Ledger, ats: seq<Attempt>): L.Ledger
    decreases |ats|
  {
    if ats == [] then m else Replay(L.Place(m, ats[0].user, ats[0].now).0, ats[1..])
  }

  lemma {:induction false} ReplayIsPlaceAll(m: L.Ledger, done: seq<L.Request>, ats: seq<Attempt>)
    ensures Replay(L.PlaceAll(m, done), ats) == L.PlaceAll(m, done + Requests(ats))
    decreases |ats|
  {
    hide L.Place, L.PlaceAll;
    if ats == [] {
      assert done + Requests(ats) == done;
    } else {
      var r := L.Request(ats[0].user, ats[0].now);
      L.PlaceAllStep(m, done, r);
      ReplayIsPlaceAll(m, done + [r], ats[1..]);
      assert done + [r] + Requests(ats[1..]) == done + Requests(ats);
    }
  }

  // Buyers are registered when they ask, and no registered buyer is deleted; others may come and go.
  ghost predicate Friendly(s: System, ts: seq<Step>, users: set<nat>)
    decreases |ts|
  {
    ts == [] || (FriendlyStep(s, ts[0], users) && Friendly(Next(s, ts[0]), ts[1..], users))
  }

  ghost predicate FriendlyStep(s: System, t: Step, users: set<nat>) {
    && (t.DeleteStep? ==> t.user !in users)
    && (t.LookStep? ==> t.user in s.sql.users && t.user in users)
  }

  // ---- The simulation relation ---------------------------------------------------------------------

  ghost predicate Sim(s: System, m: L.Ledger) {
    && Inv(s) && Live(s) && s.sql.row.value.state == 2
    && L.LedgerInv(m) && m.row.value.state == 0
    && SameSale(s.redis.hash.value, m)
    && T.FailedIds(s.sql) == {}
    && (forall c :: c in s.accepting ==> s.accepting[c].user in s.sql.users && s.accepting[c].user in m.users)
    && s.redis.hash.value.buyers.Keys <= s.sql.users * m.users
  }

  ghost predicate SameSale(h: R.Hash, m: L.Ledger)
    requires m.row.Some?
  {
    && m.row.value.begin == h.seed.begin && m.row.value.end == h.seed.end
    && m.row.value.stock == h.stock && L.Buyers(m) == h.buyers.Keys
  }

  lemma StaysLive(s: System, t: Step)
    requires Inv(s) && Live(s) && s.sql.row.value.state == 2
    ensures var n := Next(s, t); Inv(n) && Live(n) && n.sql.row.value.state == 2 && n.redis.hash.value.seed == s.redis.hash.value.seed
  {
    hide Next, EnablingInv, AcceptingInv, WorkerInv, StoresInv, L.BaseInv, L.AsyncInv;
    NextKeeps(s, t);
  }

  lemma SoundSnapshot(s: System)
    requires Inv(s) && Live(s)
    ensures R.SoundHash(s.redis.hash.value) && R.GROUP in s.redis.stream.value.groups
    ensures s.redis.hash.value.seed == SeedOf(s.sql.row.value)
  {
  }

  // While no failure is committed, only a reservation touches the Redis hash.
  lemma OnlyReservationsSell(s: System, t: Step)
    requires Inv(s) && Live(s) && T.FailedIds(s.sql) == {} && !t.ReserveStep?
    ensures Next(s, t).redis.hash == s.redis.hash
  {
    hide L.LedgerInv, StoresInv, EnablingInv, AcceptingInv;
    if t.CompensateStep? {
      var k := Held(s, t.worker);
      assert WorkerInv(s.sql, s.redis, k);
      if k.batch != [] && k.phase.Applied? { assert k.batch[0].id !in T.FailedIds(s.sql); }
    }
  }

  lemma UsersStay(s: System, t: Step, users: set<nat>)
    requires t.DeleteStep? ==> t.user !in users
    ensures s.sql.users * users <= Next(s, t).sql.users
  {
  }

  lemma NoFailureApplied(s: System, w: nat)
    requires Inv(s) && Live(s) && T.FailedIds(s.sql) == {} && s.redis.hash.value.buyers.Keys <= s.sql.users
    ensures T.FailedIds(Next(s, ApplyStep(w)).sql) == {}
  {
    hide L.LedgerInv, StoresInv, EnablingInv, AcceptingInv;
    var k := Held(s, w);
    assert WorkerInv(s.sql, s.redis, k);
    if k.batch != [] && k.phase == Fetched {
      var e := k.batch[0];
      assert e in k.batch && e in R.Entries(s.redis.stream.value);
      LoggedIsAdmissible(s.sql, s.redis, e);
      ApplyOnlyAdds(s.sql, e);
      if e.id !in s.sql.results { LoggedVerdict(s.sql, s.redis, e); }
    }
  }

  lemma NoFailureAppears(s: System, t: Step)
    requires Inv(s) && Live(s) && T.FailedIds(s.sql) == {} && s.redis.hash.value.buyers.Keys <= s.sql.users
    ensures T.FailedIds(Next(s, t).sql) == {}
  {
    hide Inv, Next;
    if t.ApplyStep? { NoFailureApplied(s, t.worker); } else { OnlyApplyRecords(s, t); }
  }

  // One reservation and one synchronous purchase answer alike and leave the same sale.
  lemma ReserveMatchesPlace(r: R.Redis, m: L.Ledger, user: nat, now: nat)
    requires r.hash.Some? && r.stream.Some? && R.SoundHash(r.hash.value) && R.GROUP in r.stream.value.groups
    requires m.row.Some? && m.row.value.state == 0 && user in m.users && m.nextOrder !in m.orders
    requires SameSale(r.hash.value, m)
    ensures var (x, reserved) := R.Reserve(r, user, r.hash.value.seed.generation, now);
      var (n, placed) := L.Place(m, user, now);
      && SameKind(reserved, placed) && x.hash.Some? && n.row.Some? && SameSale(x.hash.value, n)
      && n.row.value.state == 0 && n.users == m.users
  {
    assert L.HasOrder(m, user) <==> user in r.hash.value.buyers;
    var n := L.Place(m, user, now).0;
    if n != m {
      assert m.nextOrder in n.orders && n.orders[m.nextOrder] == user;
      assert forall o :: o in m.orders ==> o in n.orders && n.orders[o] == m.orders[o];
      assert L.Buyers(n) == L.Buyers(m) + {user};
      assert R.Reserve(r, user, r.hash.value.seed.generation, now).0.hash.value.buyers.Keys == r.hash.value.buyers.Keys + {user};
    }
  }

  lemma ReserveSimulates(s: System, m: L.Ledger, c: nat, now: nat)
    requires Sim(s, m) && c in s.accepting
    ensures var a := s.accepting[c];
      var (n, reply) := L.Place(m, a.user, now);
      && SameKind(R.Reserve(s.redis, a.user, a.generation, now).1, reply)
      && L.LedgerInv(n) && n.row.value.state == 0 && n.users == m.users
      && Next(s, ReserveStep(c, now)).redis.hash.Some?
      && SameSale(Next(s, ReserveStep(c, now)).redis.hash.value, n)
  {
    var a := s.accepting[c];
    assert AcceptingInv(s.sql, a) && m.nextOrder !in m.orders;
    SoundSnapshot(s);
    hide Inv, L.LedgerInv, R.Reserve, L.Place, SameSale, R.SoundHash;
    L.PlaceKeepsInv(m, a.user, now);
    ReserveMatchesPlace(s.redis, m, a.user, now);
  }

  lemma CallersStayKnown(s: System, t: Step, users: set<nat>)
    requires FriendlyStep(s, t, users) && s.sql.users * users <= Next(s, t).sql.users
    requires forall c :: c in s.accepting ==> s.accepting[c].user in s.sql.users && s.accepting[c].user in users
    ensures var n := Next(s, t);
      forall c :: c in n.accepting ==> n.accepting[c].user in n.sql.users && n.accepting[c].user in users
  {
    hide L.Place, L.Apply, L.Stage, L.Activate, R.Prepare, R.Check, R.Reserve, R.Claim, R.Read, R.Compensate, R.Ack;
  }

  lemma BuyersStayKnown(s: System, t: Step, m: L.Ledger)
    requires Sim(s, m) && FriendlyStep(s, t, m.users) && Live(Next(s, t))
    ensures Next(s, t).redis.hash.value.buyers.Keys <= Next(s, t).sql.users * m.users
    ensures var n := Next(s, t);
      forall c :: c in n.accepting ==> n.accepting[c].user in n.sql.users && n.accepting[c].user in m.users
  {
    hide Inv, L.LedgerInv, L.Place, L.Apply, L.Stage;
    UsersStay(s, t, m.users);
    CallersStayKnown(s, t, m.users);
    if t.ReserveStep? {
      hide Live;
    } else {
      hide Next;
      OnlyReservationsSell(s, t);
    }
  }

  lemma AgreeJoin(m: L.Ledger, now: seq<Attempt>, later: seq<Attempt>)
    requires |now| <= 1 && Agree(m, now) && Agree(Replay(m, now), later)
    ensures Agree(m, now + later) && Replay(m, now + later) == Replay(Replay(m, now), later)
  {
    hide L.Place;
    if now == [] { assert now + later == later; } else { assert (now + later)[1..] == later; }
  }

  lemma NoAttempts(m: L.Ledger)
    ensures Agree(m, []) && Replay(m, []) == m
  {
  }

  lemma {:induction false} Simulates(s: System, ts: seq<Step>, m: L.Ledger)
    requires Sim(s, m) && Friendly(s, ts, m.users)
    ensures Agree(m, Attempts(s, ts)) && Sim(Run(s, ts), Replay(m, Attempts(s, ts)))
    ensures Replay(m, Attempts(s, ts)).users == m.users
    decreases |ts|
  {
    if ts == [] {
      NoAttempts(m);
    } else {
      var t, n := ts[0], Next(s, ts[0]);
      var now := AttemptOf(s, t);
      assert |now| <= 1;
      hide Sim, Next, AttemptOf, Agree, Replay;
      StepSimulates(s, t, m);
      Simulates(n, ts[1..], Replay(m, now));
      AgreeJoin(m, now, Attempts(n, ts[1..]));
    }
  }

  lemma StepSimulates(s: System, t: Step, m: L.Ledger)
    requires Sim(s, m) && FriendlyStep(s, t, m.users)
    ensures var n := Replay(m, AttemptOf(s, t));
      Agree(m, AttemptOf(s, t)) && Sim(Next(s, t), n) && n.users == m.users
  {
    hide Inv, L.LedgerInv, Next;
    StaysLive(s, t);
    NoFailureAppears(s, t);
    BuyersStayKnown(s, t, m);
    if AttemptOf(s, t) != [] {
      ReserveSimulates(s, m, t.caller, t.now);
    } else {
      IdleReservation(s, t);
    }
  }

  lemma IdleReservation(s: System, t: Step)
    requires Inv(s) && Live(s) && T.FailedIds(s.sql) == {} && AttemptOf(s, t) == []
    ensures Next(s, t).redis.hash == s.redis.hash
  {
    hide Inv;
    if !t.ReserveStep? { OnlyReservationsSell(s, t); }
  }

  // ---- The refinement ------------------------------------------------------------------------------

  // s has just opened; m is the same activity left in synchronous mode.
  ghost predicate SameActivity(s: System, m: L.Ledger) {
    && Inv(s) && Live(s) && s.sql.row.value.state == 2 && R.Entries(s.redis.stream.value) == []
    && (forall c :: c in s.accepting ==> s.accepting[c].user in s.sql.users && s.accepting[c].user in m.users)
    && L.LedgerInv(m) && m.orders == map[]
    && m.row.value == s.sql.row.value.(state := 0, generation := m.row.value.generation, capacity := m.row.value.capacity)
  }

  lemma NobodyAccepts(s: System)
    requires Inv(s) && s.sql.row.value.state < 2
    ensures s.accepting.Keys == {}
  {
    hide L.BaseInv, L.AsyncInv, StoresInv, EnablingInv, WorkerInv;
  }

  lemma UnsoldIsLedger(l: L.Ledger, m: L.Ledger)
    requires L.LedgerInv(l) && m == L.Ledger(Some(l.row.value.(state := 0)), l.users, map[], map[], l.nextOrder)
    ensures L.LedgerInv(m)
  {
  }

  // Whenever an activity opens, it is the same activity as one left in synchronous mode.
  lemma OpeningStartsTheSale(s: System, t: Step, n: System, m: L.Ledger)
    requires Inv(s) && n == Next(s, t) && n.sql.row.Some? && s.sql.row.value.state < 2 && n.sql.row.value.state == 2
    requires m == L.Ledger(Some(n.sql.row.value.(state := 0)), n.sql.users, map[], map[], n.sql.nextOrder)
    ensures SameActivity(n, m)
  {
    hide L.BaseInv, L.AsyncInv, LogInv, ResultsLogged, CompensatedFailed, EnablingInv, WorkerInv;
    NextKeeps(s, t);
    UnsoldIsLedger(n.sql, m);
    T.OpeningIsPristine(s, t, n);
    NobodyAccepts(s);
    assert n.accepting == s.accepting && n.redis == s.redis;
  }

  lemma FreshSim(s: System, m: L.Ledger)
    requires SameActivity(s, m)
    ensures Sim(s, m) && m.row.Some? && m.row.value.state == 0
  {
    var h, q := s.redis.hash.value, s.redis.stream.value;
    assert q.delivered == [] && s.sql.results == map[] by { assert |R.Entries(q)| == |q.delivered| + |q.waiting|; }
    assert h.buyers == map[] by {
      forall u | u in h.buyers ensures HasTicket(R.Entries(q), u, h.buyers[u]) {}
    }
    assert h.compensated == {};
    StocksBalance(s.sql, s.redis);
    assert L.Buyers(m) == {};
  }

  // For every interleaving of enablers, acceptors, workers and crashes: the requests Redis answered
  // get the answers the synchronous transaction would have given in the same order, and once the
  // queue is drained the buyers in SQL are the first `capacity` distinct in-window users.
  lemma AsyncRefinesSync(s: System, m: L.Ledger, ts: seq<Step>, t: System)
    requires m.row.Some? && SameActivity(s, m) && Friendly(s, ts, m.users) && t == Run(s, ts)
    ensures Live(t)
    ensures Agree(m, Attempts(s, ts))
    ensures t.redis.hash.value.buyers.Keys == L.Buyers(L.PlaceAll(m, Requests(Attempts(s, ts))))
    ensures T.Quiescent(t) ==>
      var asked, a := Requests(Attempts(s, ts)), m.row.value;
      && L.Buyers(t.sql) == L.Buyers(L.PlaceAll(m, asked))
      && L.Buyers(t.sql) == L.UserSet(L.FirstServed(a.begin, a.end, a.stock, asked))
      && L.PlaceAll(m, asked).row.Some? && t.sql.row.value.stock == L.PlaceAll(m, asked).row.value.stock
  {
    hide Inv, L.LedgerInv, L.FirstServed, L.Place;
    FreshSim(s, m);
    Simulates(s, ts, m);
    AttemptsArePlaced(s, ts, m);
    if T.Quiescent(t) { RestedSim(t, L.PlaceAll(m, Requests(Attempts(s, ts)))); }
  }

  lemma AttemptsArePlaced(s: System, ts: seq<Step>, m: L.Ledger)
    requires Sim(s, m) && Friendly(s, ts, m.users) && L.LedgerInv(m) && m.row.value.state == 0 && m.orders == map[]
    ensures var asked, a := Requests(Attempts(s, ts)), m.row.value;
      && Replay(m, Attempts(s, ts)) == L.PlaceAll(m, asked)
      && L.Served(m, L.PlaceAll(m, asked), L.FirstServed(a.begin, a.end, a.stock, asked))
  {
    hide Inv, L.LedgerInv;
    var ats := Attempts(s, ts);
    ReplayIsPlaceAll(m, [], ats);
    assert [] + Requests(ats) == Requests(ats);
    KnownRequests(s, ts, m);
    L.PlaceServesFirstComers(m, Requests(ats));
  }

  lemma RestedSim(t: System, m: L.Ledger)
    requires Sim(t, m) && T.Quiescent(t)
    ensures m.row.Some? && L.Buyers(t.sql) == L.Buyers(m) && t.sql.row.value.stock == m.row.value.stock
  {
    T.QuiescentStores(t.sql, t.redis);
    T.EveryBuyerOwnsAnOrder(t.sql, t.redis);
  }

  lemma {:induction false} KnownRequests(s: System, ts: seq<Step>, m: L.Ledger)
    requires Sim(s, m) && Friendly(s, ts, m.users)
    ensures forall r :: r in Requests(Attempts(s, ts)) ==> r.user in m.users
    decreases |ts|
  {
    if ts != [] {
      hide Inv, L.LedgerInv, Next;
      var now := AttemptOf(s, ts[0]);
      StepSimulates(s, ts[0], m);
      KnownRequests(Next(s, ts[0]), ts[1..], Replay(m, now));
      if now != [] { assert Attempts(s, ts)[1..] == Attempts(Next(s, ts[0]), ts[1..]); }
      else { assert Attempts(s, ts) == Attempts(Next(s, ts[0]), ts[1..]); }
    }
  }
}
