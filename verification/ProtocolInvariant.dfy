// One inductive invariant ties both stores and every local phase together.
module ProtocolInvariant {
  import opened SeckillModel
  import L = Ledger
  import R = Admission
  import opened Protocol

  type Results = map<StreamId, ResultRow>

  // ---- The invariant ----------------------------------------------------------------------------

  ghost predicate Init(s: System) {
    && L.LedgerInv(s.sql) && s.sql.row.value.state == 0
    && s.redis == R.Redis(None, None)
    && s.enabling == map[] && s.accepting == map[] && s.workers == map[]
  }

  ghost predicate Inv(s: System) {
    && L.LedgerInv(s.sql)
    && StoresInv(s.sql, s.redis)
    && (forall c :: c in s.enabling ==> EnablingInv(s.sql, s.redis, s.enabling[c]))
    && (forall c :: c in s.accepting ==> AcceptingInv(s.sql, s.accepting[c]))
    && (forall w :: w in s.workers ==> WorkerInv(s.sql, s.redis, s.workers[w]))
  }

  // The activity has a row and its Redis snapshot.
  ghost predicate Live(s: System) {
    s.sql.row.Some? && s.redis.hash.Some? && s.redis.stream.Some?
  }

  ghost predicate StoresInv(l: L.Ledger, r: R.Redis)
    requires l.row.Some?
  {
    && (r.hash.Some? <==> r.stream.Some?)
    && (l.row.value.state == 2 ==> r.hash.Some?)
    && (r.hash.Some? ==> CrossInv(l.results, l.row.value, r.hash.value, r.stream.value))
  }

  ghost predicate CrossInv(results: Results, a: Activity, h: R.Hash, q: R.Stream) {
    && a.state >= 1
    && (a.state == 1 ==> R.Pristine(h, q))
    && h.seed == SeedOf(a) && R.SoundHash(h)
    && R.GROUP in q.groups
    && LogInv(h.seed, h.buyers, R.Entries(q), q.lastId)
    && h.stock == h.seed.capacity - |R.Entries(q)| + |h.compensated|
    && ResultsLogged(results, q.delivered)
    && CompensatedFailed(results, h.compensated)
    && q.pending <= R.Ids(q.delivered)
    && (forall e :: e in q.delivered ==> e.id in q.pending || Settled(results, h.compensated, e.id))
  }

  // The log and the buyer markers describe the same reservations, all of them admissible.
  ghost predicate LogInv(seed: Seed, buyers: map<nat, StreamId>, es: seq<Event>, last: StreamId) {
    && |R.Ids(es)| == |es|
    && (forall e :: e in es ==> EntryInv(seed, buyers, last, e))
    && UniqueIds(es) && InOrder(es)
    && (forall u :: u in buyers ==> HasTicket(es, u, buyers[u]))
  }

  // The log is in id order, and no entry has the id 0-0.
  ghost predicate InOrder(es: seq<Event>) {
    && (forall e :: e in es ==> Before(ZERO_ID, e.id))
    && (forall i, j :: 0 <= i < j < |es| ==> Before(es[i].id, es[j].id))
  }

  ghost predicate UniqueIds(es: seq<Event>) {
    forall e, f :: e in es && f in es && e.id == f.id ==> e == f
  }

  ghost predicate EntryInv(seed: Seed, buyers: map<nat, StreamId>, last: StreamId, e: Event) {
    && e.generation == seed.generation && InWindow(seed.begin, seed.end, e.acceptedMs)
    && e.user in buyers && buyers[e.user] == e.id
    && !Before(last, e.id)
  }

  ghost predicate HasTicket(es: seq<Event>, user: nat, id: StreamId) {
    exists e :: e in es && e.user == user && e.id == id
  }

  ghost predicate ResultsLogged(results: Results, delivered: seq<Event>) {
    forall id :: id in results ==>
      && results[id].event in delivered && results[id].event.id == id
      && (results[id].verdict.Failed? ==> results[id].verdict == Failed(UserNotFound))
  }

  ghost predicate CompensatedFailed(results: Results, compensated: set<StreamId>) {
    forall id :: id in compensated ==> id in results && results[id].verdict.Failed?
  }

  // Nothing is left to do for the event: its outcome is committed and a failure has returned its stock.
  ghost predicate Settled(results: Results, compensated: set<StreamId>, id: StreamId) {
    id in results && (results[id].verdict.Failed? ==> id in compensated)
  }

  ghost predicate EnablingInv(l: L.Ledger, r: R.Redis, e: Enabling)
    requires l.row.Some?
  {
    && l.row.value.state >= 1 && e.seed == SeedOf(l.row.value)
    && (e.Staged? && e.state == 2 ==> l.row.value.state == 2)
    && (e.Checked? ==> r.hash.Some?)
  }

  ghost predicate AcceptingInv(l: L.Ledger, a: Accepting)
    requires l.row.Some?
  {
    l.row.value.state == 2 && a.generation == l.row.value.generation
  }

  ghost predicate WorkerInv(l: L.Ledger, r: R.Redis, k: Worker) {
    && (forall e :: e in k.batch ==> r.stream.Some? && e in r.stream.value.delivered)
    && (k.phase != Fetched ==> k.batch != [])
    && match k.phase
       case Fetched => true
       case Applied(v) => k.batch[0].id in l.results && l.results[k.batch[0].id].verdict == v
       case Restored => r.hash.Some? && Settled(l.results, r.hash.value.compensated, k.batch[0].id)
  }

  // ---- Monotonicity: what one step may change in the stores --------------------------------------

  ghost predicate Grows(l: L.Ledger, r: R.Redis, m: L.Ledger, x: R.Redis) {
    && LedgerGrows(l, m)
    && (r.hash.Some? ==> x.hash.Some? && HashGrows(r.hash.value, x.hash.value))
    && (r.stream.Some? ==> x.stream.Some? && StreamGrows(r.stream.value, x.stream.value))
  }

  ghost predicate LedgerGrows(l: L.Ledger, m: L.Ledger) {
    && l.row.Some? && m.row.Some?
    && l.row.value.state <= m.row.value.state
    && (l.row.value.state >= 1 ==> SeedOf(l.row.value) == SeedOf(m.row.value))
    && (forall id :: id in l.results ==> id in m.results && m.results[id] == l.results[id])
  }

  ghost predicate HashGrows(h: R.Hash, g: R.Hash) {
    && h.seed == g.seed
    && (forall u :: u in h.buyers ==> u in g.buyers && g.buyers[u] == h.buyers[u])
    && h.compensated <= g.compensated
  }

  ghost predicate StreamGrows(q: R.Stream, p: R.Stream) {
    q.delivered <= p.delivered && R.Entries(q) <= R.Entries(p)
  }

  ghost predicate SystemGrows(s: System, t: System) {
    Grows(s.sql, s.redis, t.sql, t.redis)
  }

  // A store step that satisfies Grows keeps every local phase truthful.
  lemma LocalsStable(l: L.Ledger, r: R.Redis, m: L.Ledger, x: R.Redis)
    requires Grows(l, r, m, x) && m.row.value.state <= 2
    ensures forall e :: EnablingInv(l, r, e) ==> EnablingInv(m, x, e)
    ensures forall a :: AcceptingInv(l, a) ==> AcceptingInv(m, a)
    ensures forall k :: WorkerInv(l, r, k) ==> WorkerInv(m, x, k)
  {
    forall k | WorkerInv(l, r, k) ensures WorkerInv(m, x, k) {
      forall e | e in k.batch ensures x.stream.Some? && e in x.stream.value.delivered {
        var i :| 0 <= i < |r.stream.value.delivered| && r.stream.value.delivered[i] == e;
        assert x.stream.value.delivered[i] == e;
      }
    }
  }

  // ---- Store steps ------------------------------------------------------------------------------

  lemma StageKeeps(l: L.Ledger, r: R.Redis, now: int, token: string)
    requires L.LedgerInv(l) && StoresInv(l, r) && ValidGeneration(token)
    ensures var m := L.Stage(l, now, token).0; L.LedgerInv(m) && StoresInv(m, r) && Grows(l, r, m, r)
    ensures var (m, reply) := L.Stage(l, now, token);
      reply.Ok? ==> Some(reply.value) == m.row && m.row.value.state >= 1
  {
    assert L.CreatedIds(L.Stage(l, now, token).0) == L.CreatedIds(l);
  }

  lemma PrepareKeeps(l: L.Ledger, r: R.Redis)
    requires L.LedgerInv(l) && StoresInv(l, r) && l.row.value.state >= 1
    ensures var x := R.Prepare(r, SeedOf(l.row.value)).0; StoresInv(l, x) && Grows(l, r, l, x)
  {
    var x := R.Prepare(r, SeedOf(l.row.value)).0;
    if x != r {
      assert R.Entries(x.stream.value) == [] && R.Ids(R.Entries(x.stream.value)) == {};
      assert l.row.value.state == 1 && l.results == map[];
    }
  }

  lemma ActivateKeeps(l: L.Ledger, r: R.Redis)
    requires L.LedgerInv(l) && StoresInv(l, r) && r.hash.Some?
    ensures var m := L.Activate(l, l.row.value.generation).0; L.LedgerInv(m) && StoresInv(m, r) && Grows(l, r, m, r)
  {
    assert L.CreatedIds(L.Activate(l, l.row.value.generation).0) == L.CreatedIds(l);
  }

  lemma PlaceKeeps(l: L.Ledger, r: R.Redis, user: nat, now: int)
    requires L.LedgerInv(l) && StoresInv(l, r)
    ensures var m := L.Place(l, user, now).0; L.LedgerInv(m) && StoresInv(m, r) && Grows(l, r, m, r)
  {
    L.PlaceKeepsInv(l, user, now);
  }

  // Redis only depends on the activity row and the results.
  lemma FrameKeeps(l: L.Ledger, r: R.Redis, m: L.Ledger)
    requires L.LedgerInv(l) && StoresInv(l, r)
    requires m.row == l.row && m.orders == l.orders && m.results == l.results && l.nextOrder <= m.nextOrder
    requires forall o :: o in l.orders ==> l.orders[o] in m.users
    ensures L.LedgerInv(m) && StoresInv(m, r) && Grows(l, r, m, r)
  {
    L.FrameKeepsInv(l, m);
  }

  lemma AdmitKeepsEntries(seed: Seed, buyers: map<nat, StreamId>, es: seq<Event>, last: StreamId, e: Event, id: StreamId)
    requires forall f :: f in es ==> EntryInv(seed, buyers, last, f)
    requires e.generation == seed.generation && InWindow(seed.begin, seed.end, e.acceptedMs) && e.user !in buyers
    requires Before(last, e.id) && id == e.id
    ensures forall f :: f in es + [e] ==> EntryInv(seed, buyers[e.user := id], id, f)
    ensures forall f :: f in es ==> f.id != id && f.user != e.user
  {
    forall f | f in es ensures f.id != id && f.user != e.user && EntryInv(seed, buyers[e.user := id], id, f) {
      assert EntryInv(seed, buyers, last, f);
    }
  }

  lemma AdmitKeepsTickets(buyers: map<nat, StreamId>, es: seq<Event>, e: Event, more: map<nat, StreamId>)
    requires forall u :: u in buyers ==> HasTicket(es, u, buyers[u])
    requires more == buyers[e.user := e.id]
    ensures forall u :: u in more ==> HasTicket(es + [e], u, more[u])
  {
    forall u | u in more ensures HasTicket(es + [e], u, more[u]) {
      if u == e.user {
        assert e in es + [e];
      } else {
        assert HasTicket(es, u, buyers[u]);
        var f :| f in es && f.user == u && f.id == buyers[u];
        assert f in es + [e];
      }
    }
  }

  lemma AppendUnique(es: seq<Event>, e: Event)
    requires UniqueIds(es) && forall f :: f in es ==> f.id != e.id
    ensures UniqueIds(es + [e]) && |R.Ids(es + [e])| == |R.Ids(es)| + 1
  {
    assert R.Ids(es + [e]) == R.Ids(es) + {e.id};
  }

  lemma AppendInOrder(seed: Seed, buyers: map<nat, StreamId>, es: seq<Event>, last: StreamId, e: Event)
    requires InOrder(es) && (forall f :: f in es ==> EntryInv(seed, buyers, last, f)) && Before(last, e.id)
    ensures InOrder(es + [e])
  {
    forall i | 0 <= i < |es| ensures Before(es[i].id, e.id) { assert es[i] in es && EntryInv(seed, buyers, last, es[i]); }
  }

  lemma AdmitKeepsLog(seed: Seed, buyers: map<nat, StreamId>, es: seq<Event>, last: StreamId, e: Event)
    requires LogInv(seed, buyers, es, last)
    requires e.generation == seed.generation && InWindow(seed.begin, seed.end, e.acceptedMs) && e.user !in buyers
    requires Before(last, e.id)
    ensures LogInv(seed, buyers[e.user := e.id], es + [e], e.id)
  {
    AdmitKeepsEntries(seed, buyers, es, last, e, e.id);
    AdmitKeepsTickets(buyers, es, e, buyers[e.user := e.id]);
    AppendUnique(es, e);
    AppendInOrder(seed, buyers, es, last, e);
  }

  lemma AdmitKeepsCross(results: Results, a: Activity, h: R.Hash, q: R.Stream, e: Event)
    requires CrossInv(results, a, h, q) && a.state == 2
    requires e.generation == h.seed.generation && InWindow(h.seed.begin, h.seed.end, e.acceptedMs) && e.user !in h.buyers
    requires Before(q.lastId, e.id) && h.stock > 0
    ensures var x := R.Admit(h, q, e); CrossInv(results, a, x.hash.value, x.stream.value)
    ensures R.Entries(R.Admit(h, q, e).stream.value) == R.Entries(q) + [e]
  {
    assert R.Entries(R.Admit(h, q, e).stream.value) == R.Entries(q) + [e];
    AdmitKeepsLog(h.seed, h.buyers, R.Entries(q), q.lastId, e);
  }

  lemma ReserveKeeps(l: L.Ledger, r: R.Redis, user: nat, now: nat)
    requires L.LedgerInv(l) && StoresInv(l, r) && l.row.value.state == 2
    ensures var x := R.Reserve(r, user, l.row.value.generation, now).0; StoresInv(l, x) && Grows(l, r, l, x)
  {
    hide L.BaseInv, L.AsyncInv, LogInv, ResultsLogged, CompensatedFailed;
    var reply := R.Reserve(r, user, l.row.value.generation, now).1;
    if reply.Ok? { AdmitKeepsCross(l.results, l.row.value, r.hash.value, r.stream.value, reply.value); }
  }

  lemma ReadKeeps(l: L.Ledger, r: R.Redis, count: nat)
    requires L.LedgerInv(l) && StoresInv(l, r)
    ensures var (x, reply) := R.Read(r, count);
      && StoresInv(l, x) && Grows(l, r, l, x)
      && (reply.Ok? ==> forall e :: e in reply.value ==> x.stream.Some? && e in x.stream.value.delivered)
  {
    hide L.BaseInv, L.AsyncInv, LogInv;
    var (x, reply) := R.Read(r, count);
    if reply.Ok? {
      var q, p := r.stream.value, x.stream.value;
      assert R.Entries(p) == R.Entries(q);
      assert R.Ids(p.delivered) == R.Ids(q.delivered) + R.Ids(reply.value);
    }
  }

  lemma ListedIsDelivered(es: seq<Event>, pending: set<StreamId>, start: StreamId)
    ensures forall e :: e in R.Listed(es, pending, start) ==> e in es && e.id in pending
  {
  }

  lemma {:induction false} WalkIsListed(list: seq<Event>, idle: set<StreamId>, count: nat, tries: nat)
    ensures forall e :: e in R.Walk(list, idle, count, tries).0 ==> e in list && e.id in idle
  {
    if list != [] && count > 0 && tries > 0 {
      WalkIsListed(list[1..], idle, if list[0].id in idle then count - 1 else count, tries - 1);
    }
  }

  // What is claimed was delivered, is still pending and has been idle long enough.
  lemma ClaimedIsDelivered(r: R.Redis, start: StreamId, idle: set<StreamId>, count: nat)
    requires R.Claim(r, start, idle, count).Ok?
    ensures forall e :: e in R.Claim(r, start, idle, count).value.0 ==>
      e in r.stream.value.delivered && e.id in r.stream.value.pending && e.id in idle
  {
    var list := R.Listed(r.stream.value.delivered, r.stream.value.pending, start);
    ListedIsDelivered(r.stream.value.delivered, r.stream.value.pending, start);
    WalkIsListed(list, idle, count, 10 * count);
  }

  lemma AckKeeps(l: L.Ledger, r: R.Redis, id: StreamId)
    requires L.LedgerInv(l) && StoresInv(l, r)
    requires r.hash.Some? ==> Settled(l.results, r.hash.value.compensated, id)
    ensures var x := R.Ack(r, id); StoresInv(l, x) && Grows(l, r, l, x)
  {
    hide L.BaseInv, L.AsyncInv, LogInv, ResultsLogged, CompensatedFailed;
    if r.stream.Some? { assert R.Entries(R.Ack(r, id).stream.value) == R.Entries(r.stream.value); }
  }

  lemma SubsetCounts<T>(a: set<T>, b: set<T>)
    requires a <= b
    ensures |b - a| == |b| - |a| && (a != b ==> |a| < |b|)
  {
    assert b == a + (b - a);
    assert |b| == |a| + |b - a|;
  }

  // Accepted events whose outcome is not committed yet.
  ghost function Unresolved(results: Results, q: R.Stream): set<StreamId> {
    R.Ids(R.Entries(q)) - results.Keys
  }

  // Committed failures whose unit has not been returned to Redis yet.
  ghost function Unrestored(results: Results, h: R.Hash): set<StreamId> {
    (set id | id in results && results[id].verdict.Failed?) - h.compensated
  }

  lemma FlightCounts(ids: set<StreamId>, settled: set<StreamId>, created: set<StreamId>, compensated: set<StreamId>)
    requires created <= settled <= ids && compensated <= settled - created
    ensures |ids - settled| + |settled - created - compensated| == |ids| - |created| - |compensated|
  {
    SubsetCounts(settled, ids);
    SubsetCounts(created, settled);
    SubsetCounts(compensated, settled - created);
  }

  lemma OutcomesAreLogged(l: L.Ledger, h: R.Hash, q: R.Stream)
    requires ResultsLogged(l.results, q.delivered) && CompensatedFailed(l.results, h.compensated)
    ensures L.CreatedIds(l) <= l.results.Keys <= R.Ids(R.Entries(q)) && h.compensated <= l.results.Keys - L.CreatedIds(l)
    ensures Unrestored(l.results, h) == l.results.Keys - L.CreatedIds(l) - h.compensated
  {
    forall id | id in l.results ensures id in R.Ids(R.Entries(q)) { assert l.results[id].event in R.Entries(q); }
  }

  // What Redis has handed out and SQL has not sold is exactly what is still in flight.
  lemma StocksBalance(l: L.Ledger, r: R.Redis)
    requires L.LedgerInv(l) && StoresInv(l, r) && r.hash.Some?
    ensures l.row.value.stock
         == r.hash.value.stock + |Unresolved(l.results, r.stream.value)| + |Unrestored(l.results, r.hash.value)|
  {
    var h, q := r.hash.value, r.stream.value;
    assert CrossInv(l.results, l.row.value, h, q) && L.AsyncInv(l, l.row.value);
    hide L.BaseInv, L.ResultsInv, L.OneResultEach, LogInv, ResultsLogged, CompensatedFailed, L.CreatedIds, Unrestored, R.Ids, R.Entries, R.SoundHash;
    LogCounts(h.seed, h.buyers, R.Entries(q), q.lastId);
    OutcomesAreLogged(l, h, q);
    FlightCounts(R.Ids(R.Entries(q)), l.results.Keys, L.CreatedIds(l), h.compensated);
  }

  lemma LogCounts(seed: Seed, buyers: map<nat, StreamId>, es: seq<Event>, last: StreamId)
    requires LogInv(seed, buyers, es, last)
    ensures |R.Ids(es)| == |es|
  {
  }

  lemma SameUserSameEvent(seed: Seed, buyers: map<nat, StreamId>, es: seq<Event>, last: StreamId, e: Event, f: Event)
    requires LogInv(seed, buyers, es, last) && e in es && f in es && e.user == f.user
    ensures e == f
  {
    assert EntryInv(seed, buyers, last, e) && EntryInv(seed, buyers, last, f);
  }

  // An event without an outcome belongs to a user without any result.
  lemma FreshUser(l: L.Ledger, r: R.Redis, e: Event)
    requires L.LedgerInv(l) && StoresInv(l, r) && r.hash.Some? && e in R.Entries(r.stream.value) && e.id !in l.results
    ensures forall id :: id in l.results ==> l.results[id].event.user != e.user
  {
    hide L.BaseInv, L.AsyncInv, LogInv;
    var h, q := r.hash.value, r.stream.value;
    forall id | id in l.results ensures l.results[id].event.user != e.user {
      var f := l.results[id].event;
      assert f in R.Entries(q);
      if f.user == e.user { SameUserSameEvent(h.seed, h.buyers, R.Entries(q), q.lastId, f, e); }
    }
  }

  lemma LoggedIsAdmissible(l: L.Ledger, r: R.Redis, e: Event)
    requires L.LedgerInv(l) && StoresInv(l, r) && r.hash.Some? && e in R.Entries(r.stream.value)
    ensures EntryInv(r.hash.value.seed, r.hash.value.buyers, r.stream.value.lastId, e)
    ensures l.row.value.state == 2
  {
  }

  // Apply meets a logged event that has no outcome: no guard refuses it, and the only failure left
  // is that the user has been deleted.
  lemma LoggedVerdict(l: L.Ledger, r: R.Redis, e: Event)
    requires L.LedgerInv(l) && StoresInv(l, r) && r.hash.Some? && e in R.Entries(r.stream.value) && e.id !in l.results
    ensures l.row.value.state == 2 && l.row.value.generation == e.generation && l.row.value.stock > 0
    ensures !L.ResultKeyTaken(l, e)
    ensures L.Judge(l, e) == if e.user in l.users then Created(l.nextOrder) else Failed(UserNotFound)
  {
    hide L.BaseInv, L.ResultsInv, L.OneResultEach, LogInv, ResultsLogged, CompensatedFailed;
    var h, q := r.hash.value, r.stream.value;
    LoggedIsAdmissible(l, r, e);
    FreshUser(l, r, e);
    if L.HasOrder(l, e.user) { L.OwnerMeetsResultKey(l, e); }
    StocksBalance(l, r);
    assert e.id in Unresolved(l.results, q);
    SubsetCounts({e.id}, Unresolved(l.results, q));
  }

  lemma RecordKeepsCross(results: Results, a: Activity, h: R.Hash, q: R.Stream, row: ResultRow, stock: int)
    requires CrossInv(results, a, h, q) && a.state == 2 && row.event in q.delivered && row.event.id !in results
    requires row.verdict.Failed? ==> row.verdict == Failed(UserNotFound)
    ensures CrossInv(results[row.event.id := row], a.(stock := stock), h, q)
  {
    hide LogInv;
    var more := results[row.event.id := row];
    forall d | d in q.delivered ensures d.id in q.pending || Settled(more, h.compensated, d.id) {
      if d.id !in q.pending { assert Settled(results, h.compensated, d.id); }
    }
  }

  lemma ApplyKeeps(l: L.Ledger, r: R.Redis, e: Event)
    requires L.LedgerInv(l) && StoresInv(l, r) && r.stream.Some? && e in r.stream.value.delivered
    ensures var m := L.Apply(l, e).0; L.LedgerInv(m) && StoresInv(m, r) && Grows(l, r, m, r)
  {
    hide L.BaseInv, L.AsyncInv, LogInv, ResultsLogged, CompensatedFailed;
    L.ApplyKeepsInv(l, e);
    ApplyOnlyAdds(l, e);
    var m := L.Apply(l, e).0;
    if m != l {
      assert e in R.Entries(r.stream.value);
      LoggedVerdict(l, r, e);
      RecordKeepsCross(l.results, l.row.value, r.hash.value, r.stream.value, m.results[e.id], m.row.value.stock);
    }
  }

  lemma ApplyOnlyAdds(l: L.Ledger, e: Event)
    ensures var m := L.Apply(l, e).0;
      && (m.results == l.results || (e.id !in l.results && m.results == l.results[e.id := ResultRow(e, m.results[e.id].verdict)]))
      && (m != l ==> l.row.Some? && l.row.value.state == 2 && e.id !in l.results && e.id in m.results)
      && (l.row.Some? ==> m.row == Some(l.row.value.(stock := m.row.value.stock)))
  {
  }

  // ---- Compensation ------------------------------------------------------------------------------

  // An uncompensated entry leaves room for one more unit of stock.
  lemma RoomToCompensate(results: Results, a: Activity, h: R.Hash, q: R.Stream, e: Event)
    requires CrossInv(results, a, h, q)
    requires e in q.delivered && e.id !in h.compensated
    ensures h.stock < h.seed.capacity
  {
    var ids := R.Ids(R.Entries(q));
    forall id | id in h.compensated ensures id in ids { assert results[id].event in R.Entries(q); }
    assert e in R.Entries(q) && e.id in ids;
    SubsetCounts(h.compensated, ids);
  }

  lemma RestoreKeepsCross(results: Results, a: Activity, h: R.Hash, q: R.Stream, id: StreamId)
    requires CrossInv(results, a, h, q) && a.state == 2 && h.stock < h.seed.capacity
    requires id !in h.compensated && id in results && results[id].verdict.Failed?
    ensures CrossInv(results, a, h.(stock := h.stock + 1, compensated := h.compensated + {id}), q)
  {
    hide LogInv, R.Entries, R.Ids, R.Pristine, R.ValidSeed;
    var more := h.compensated + {id};
    forall d | d in q.delivered ensures d.id in q.pending || Settled(results, more, d.id) {
      if d.id !in q.pending { assert Settled(results, h.compensated, d.id); }
    }
  }

  lemma CompensateKeeps(l: L.Ledger, r: R.Redis, e: Event)
    requires L.LedgerInv(l) && StoresInv(l, r) && r.stream.Some? && e in r.stream.value.delivered
    requires e.id in l.results && l.results[e.id].verdict.Failed?
    ensures var (x, reply) := R.Compensate(r, e);
      && StoresInv(l, x) && Grows(l, r, l, x)
      && reply.Ok? && Settled(l.results, x.hash.value.compensated, e.id)
  {
    hide L.BaseInv, L.AsyncInv, LogInv, ResultsLogged, CompensatedFailed;
    var h, q := r.hash.value, r.stream.value;
    assert e in R.Entries(q);
    LoggedIsAdmissible(l, r, e);
    if e.id !in h.compensated {
      RoomToCompensate(l.results, l.row.value, h, q, e);
      RestoreKeepsCross(l.results, l.row.value, h, q, e.id);
    }
  }

  // ---- Every step keeps the invariant ------------------------------------------------------------

  // The step changed the stores only as Grows allows, so the phases of all other callers still hold.
  ghost predicate StoresStep(s: System, sql: L.Ledger, redis: R.Redis)
    requires s.sql.row.Some?
  {
    L.LedgerInv(sql) && StoresInv(sql, redis) && Grows(s.sql, s.redis, sql, redis)
  }

  lemma KeepLocals(s: System, sql: L.Ledger, redis: R.Redis)
    requires Inv(s) && StoresStep(s, sql, redis)
    ensures Inv(s.(sql := sql, redis := redis))
  {
    hide L.BaseInv, L.AsyncInv, StoresInv;
    LocalsStable(s.sql, s.redis, sql, redis);
  }

  lemma SetWorker(s: System, sql: L.Ledger, redis: R.Redis, w: nat, k: Worker)
    requires Inv(s) && StoresStep(s, sql, redis) && WorkerInv(sql, redis, k)
    ensures Inv(s.(sql := sql, redis := redis, workers := s.workers[w := k]))
  {
    hide L.BaseInv, L.AsyncInv, StoresInv;
    KeepLocals(s, sql, redis);
  }

  lemma SetEnabling(s: System, sql: L.Ledger, redis: R.Redis, c: nat, e: Enabling)
    requires Inv(s) && StoresStep(s, sql, redis) && EnablingInv(sql, redis, e)
    ensures Inv(s.(sql := sql, redis := redis, enabling := s.enabling[c := e]))
    ensures Inv(s.(sql := sql, redis := redis, enabling := Without(s.enabling, c)))
  {
    hide L.BaseInv, L.AsyncInv, StoresInv;
    KeepLocals(s, sql, redis);
  }

  lemma DropKeeps(l: L.Ledger, r: R.Redis, k: Worker)
    requires WorkerInv(l, r, k)
    ensures WorkerInv(l, r, Drop(k))
  {
    hide L.BaseInv, L.AsyncInv, StoresInv;
    forall e | e in Drop(k).batch ensures e in k.batch {}
  }

  lemma StageStepKeeps(s: System, c: nat, now: int, token: string)
    requires Inv(s)
    ensures Inv(StageNext(s, c, now, token)) && SystemGrows(s, StageNext(s, c, now, token))
  {
    hide L.BaseInv, L.AsyncInv, StoresInv;
    if c !in s.enabling && ValidGeneration(token) {
      StageKeeps(s.sql, s.redis, now, token);
      var (sql, reply) := L.Stage(s.sql, now, token);
      if reply.Ok? { SetEnabling(s, sql, s.redis, c, Staged(SeedOf(reply.value), reply.value.state)); }
      else { KeepLocals(s, sql, s.redis); }
    }
  }

  lemma PrepareStepKeeps(s: System, c: nat)
    requires Inv(s)
    ensures Inv(PrepareNext(s, c)) && SystemGrows(s, PrepareNext(s, c))
  {
    hide L.BaseInv, L.AsyncInv, StoresInv;
    if c in s.enabling {
      assert EnablingInv(s.sql, s.redis, s.enabling[c]);
      PrepareKeeps(s.sql, s.redis);
      SetEnabling(s, s.sql, R.Prepare(s.redis, s.enabling[c].seed).0, c, Prepared(s.enabling[c].seed));
    }
  }

  lemma ActivateStepKeeps(s: System, c: nat)
    requires Inv(s)
    ensures Inv(ActivateNext(s, c)) && SystemGrows(s, ActivateNext(s, c))
  {
    hide L.BaseInv, L.AsyncInv, StoresInv;
    if c in s.enabling && s.enabling[c].Checked? {
      assert EnablingInv(s.sql, s.redis, s.enabling[c]);
      ActivateKeeps(s.sql, s.redis);
      SetEnabling(s, L.Activate(s.sql, s.enabling[c].seed.generation).0, s.redis, c, s.enabling[c]);
    }
  }

  lemma ReserveStepKeeps(s: System, c: nat, now: nat)
    requires Inv(s)
    ensures Inv(ReserveNext(s, c, now)) && SystemGrows(s, ReserveNext(s, c, now))
  {
    hide L.BaseInv, L.AsyncInv, StoresInv;
    if c in s.accepting {
      assert AcceptingInv(s.sql, s.accepting[c]);
      ReserveKeeps(s.sql, s.redis, s.accepting[c].user, now);
      KeepLocals(s, s.sql, R.Reserve(s.redis, s.accepting[c].user, s.accepting[c].generation, now).0);
    }
  }

  lemma ClaimStepKeeps(s: System, w: nat, start: StreamId, idle: set<StreamId>, count: nat)
    requires Inv(s)
    ensures Inv(ClaimNext(s, w, start, idle, count)) && SystemGrows(s, ClaimNext(s, w, start, idle, count))
  {
    var k, reply := Held(s, w), R.Claim(s.redis, start, idle, count);
    if reply.Ok? {
      ClaimedIsDelivered(s.redis, start, idle, count);
      var more := k.(batch := k.batch + reply.value.0);
      assert WorkerInv(s.sql, s.redis, k) && WorkerInv(s.sql, s.redis, more);
    }
  }

  lemma ReadStepKeeps(s: System, w: nat, count: nat)
    requires Inv(s)
    ensures Inv(ReadNext(s, w, count)) && SystemGrows(s, ReadNext(s, w, count))
  {
    hide L.BaseInv, L.AsyncInv, StoresInv;
    ReadKeeps(s.sql, s.redis, count);
    var k := Held(s, w);
    var (redis, reply) := R.Read(s.redis, count);
    if reply.Ok? {
      LocalsStable(s.sql, s.redis, s.sql, redis);
      assert WorkerInv(s.sql, s.redis, k);
      SetWorker(s, s.sql, redis, w, k.(batch := k.batch + reply.value));
    }
  }

  lemma ApplyStepKeeps(s: System, w: nat)
    requires Inv(s)
    ensures Inv(ApplyNext(s, w)) && SystemGrows(s, ApplyNext(s, w))
  {
    hide L.BaseInv, L.AsyncInv, StoresInv;
    var k := Held(s, w);
    if k.batch != [] && k.phase == Fetched {
      assert WorkerInv(s.sql, s.redis, k) && k.batch[0] in k.batch;
      ApplyKeeps(s.sql, s.redis, k.batch[0]);
      var (sql, reply) := L.Apply(s.sql, k.batch[0]);
      LocalsStable(s.sql, s.redis, sql, s.redis);
      DropKeeps(sql, s.redis, k);
      SetWorker(s, sql, s.redis, w, if reply.Ok? then k.(phase := Applied(reply.value.verdict)) else Drop(k));
    }
  }

  lemma CompensateStepKeeps(s: System, w: nat)
    requires Inv(s)
    ensures Inv(CompensateNext(s, w)) && SystemGrows(s, CompensateNext(s, w))
  {
    hide L.BaseInv, L.AsyncInv, StoresInv;
    var k := Held(s, w);
    if k.batch != [] && k.phase.Applied? && k.phase.verdict.Failed? {
      assert WorkerInv(s.sql, s.redis, k) && k.batch[0] in k.batch;
      CompensateKeeps(s.sql, s.redis, k.batch[0]);
      var redis := R.Compensate(s.redis, k.batch[0]).0;
      LocalsStable(s.sql, s.redis, s.sql, redis);
      assert WorkerInv(s.sql, redis, k);
      SetWorker(s, s.sql, redis, w, k.(phase := Restored));
    }
  }

  lemma AckStepKeeps(s: System, w: nat)
    requires Inv(s)
    ensures Inv(AckNext(s, w)) && SystemGrows(s, AckNext(s, w))
  {
    var k := Held(s, w);
    if k.batch != [] && (k.phase.Restored? || (k.phase.Applied? && k.phase.verdict.Created?)) {
      assert WorkerInv(s.sql, s.redis, k);
      var redis := R.Ack(s.redis, k.batch[0].id);
      AckKeeps(s.sql, s.redis, k.batch[0].id);
      LocalsStable(s.sql, s.redis, s.sql, redis);
      DropKeeps(s.sql, redis, k);
      SetWorker(s, s.sql, redis, w, Drop(k));
    }
  }

  // The foreign key keeps the owner of every order.
  lemma RemoveKeeps(l: L.Ledger, r: R.Redis, user: nat)
    requires L.LedgerInv(l) && StoresInv(l, r)
    ensures var m := L.Remove(l, user); L.LedgerInv(m) && StoresInv(m, r) && Grows(l, r, m, r)
  {
    hide L.AsyncInv, StoresInv;
    forall o | o in l.orders ensures l.orders[o] in L.Remove(l, user).users { assert l.orders[o] in l.orders.Values; }
    FrameKeeps(l, r, L.Remove(l, user));
  }

  lemma EnvironmentStepKeeps(s: System, t: Step)
    requires Inv(s) && (t.PlaceStep? || t.RegisterStep? || t.DeleteStep? || t.BurnStep?)
    ensures Inv(Next(s, t)) && SystemGrows(s, Next(s, t))
  {
    hide L.AsyncInv, StoresInv;
    match t {
      case PlaceStep(user, now) => PlaceKeeps(s.sql, s.redis, user, now);
      case RegisterStep(user) => FrameKeeps(s.sql, s.redis, L.Register(s.sql, user));
      case DeleteStep(user) => RemoveKeeps(s.sql, s.redis, user);
      case BurnStep(n) => FrameKeeps(s.sql, s.redis, L.Burn(s.sql, n));
    }
    KeepLocals(s, Next(s, t).sql, s.redis);
  }

  // Steps that touch no store.
  lemma CheckStepKeeps(s: System, c: nat)
    requires Inv(s)
    ensures Inv(CheckNext(s, c)) && Grows(s.sql, s.redis, s.sql, s.redis)
  {
    hide L.BaseInv, L.AsyncInv, StoresInv, AcceptingInv, WorkerInv;
    if c in s.enabling { assert EnablingInv(s.sql, s.redis, s.enabling[c]); }
  }

  lemma LookStepKeeps(s: System, c: nat, user: nat)
    requires Inv(s)
    ensures Inv(LookNext(s, c, user)) && Grows(s.sql, s.redis, s.sql, s.redis)
  {
    hide L.BaseInv, L.AsyncInv, StoresInv, EnablingInv, WorkerInv;
  }

  lemma DropStepKeeps(s: System, w: nat)
    requires Inv(s)
    ensures Inv(s.(workers := s.workers[w := Drop(Held(s, w))])) && Grows(s.sql, s.redis, s.sql, s.redis)
  {
    hide L.BaseInv, L.AsyncInv, StoresInv, EnablingInv, AcceptingInv;
    assert WorkerInv(s.sql, s.redis, Held(s, w));
    DropKeeps(s.sql, s.redis, Held(s, w));
  }

  lemma CrashKeeps(s: System, t: Step)
    requires Inv(s) && (t.EnableCrash? || t.AcceptCrash? || t.WorkerCrash?)
    ensures Inv(Next(s, t)) && SystemGrows(s, Next(s, t))
  {
    hide L.BaseInv, L.AsyncInv, StoresInv, EnablingInv, AcceptingInv, WorkerInv;
  }

  lemma LocalStepKeeps(s: System, t: Step)
    requires Inv(s)
    requires t.CheckStep? || t.EnableCrash? || t.LookStep? || t.AcceptCrash? || t.DropStep? || t.WorkerCrash?
    ensures Inv(Next(s, t)) && SystemGrows(s, Next(s, t))
  {
    hide Inv, Grows, R.Check;
    match t
    case CheckStep(c) => CheckStepKeeps(s, c);
    case LookStep(c, user) => LookStepKeeps(s, c, user);
    case DropStep(w) => DropStepKeeps(s, w);
    case _ => CrashKeeps(s, t);
  }

  lemma WorkerStepKeeps(s: System, t: Step)
    requires Inv(s)
    requires t.ClaimStep? || t.ReadStep? || t.ApplyStep? || t.CompensateStep? || t.AckStep?
    ensures Inv(Next(s, t)) && SystemGrows(s, Next(s, t))
  {
    hide Inv, SystemGrows;
    match t
    case ClaimStep(w, start, idle, count) => ClaimStepKeeps(s, w, start, idle, count);
    case ReadStep(w, count) => ReadStepKeeps(s, w, count);
    case ApplyStep(w) => ApplyStepKeeps(s, w);
    case CompensateStep(w) => CompensateStepKeeps(s, w);
    case AckStep(w) => AckStepKeeps(s, w);
  }

  lemma NextKeeps(s: System, t: Step)
    requires Inv(s)
    ensures Inv(Next(s, t)) && SystemGrows(s, Next(s, t))
  {
    hide Inv, SystemGrows;
    match t
    case StageStep(c, now, token) => StageStepKeeps(s, c, now, token);
    case PrepareStep(c) => PrepareStepKeeps(s, c);
    case ActivateStep(c) => ActivateStepKeeps(s, c);
    case ReserveStep(c, now) => ReserveStepKeeps(s, c, now);
    case PlaceStep(_, _) => EnvironmentStepKeeps(s, t);
    case RegisterStep(_) => EnvironmentStepKeeps(s, t);
    case DeleteStep(_) => EnvironmentStepKeeps(s, t);
    case BurnStep(_) => EnvironmentStepKeeps(s, t);
    case ClaimStep(_, _, _, _) => WorkerStepKeeps(s, t);
    case ReadStep(_, _) => WorkerStepKeeps(s, t);
    case ApplyStep(_) => WorkerStepKeeps(s, t);
    case CompensateStep(_) => WorkerStepKeeps(s, t);
    case AckStep(_) => WorkerStepKeeps(s, t);
    case _ => LocalStepKeeps(s, t);
  }

  lemma GrowsTransitive(s: System, t: System, u: System)
    requires SystemGrows(s, t) && SystemGrows(t, u)
    ensures SystemGrows(s, u)
  {
  }

  // The invariant holds after every run of steps, and a run only ever grows the stores.
  lemma {:induction false} RunKeeps(s: System, ts: seq<Step>)
    requires Inv(s)
    ensures Inv(Run(s, ts)) && SystemGrows(s, Run(s, ts))
    decreases |ts|
  {
    if ts != [] {
      NextKeeps(s, ts[0]);
      RunKeeps(Next(s, ts[0]), ts[1..]);
      GrowsTransitive(s, Next(s, ts[0]), Run(s, ts));
    }
  }

  lemma Reachable(s: System, ts: seq<Step>)
    requires Init(s)
    ensures Inv(Run(s, ts))
  {
    RunKeeps(s, ts);
  }

  // Only the SQL transaction of an event records an outcome.
  lemma OnlyApplyRecords(s: System, t: Step)
    requires !t.ApplyStep?
    ensures Next(s, t).sql.results == s.sql.results
  {
    hide R.Prepare, R.Check, R.Reserve, R.Claim, R.Read, R.Compensate, R.Ack;
  }
}
