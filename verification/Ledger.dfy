// The SQL side: every transaction is one atomic step, because it holds the activity row lock.
module Ledger {
  import opened SeckillModel

  // orders maps an order id to its user; results is keyed by event id.
  datatype Ledger = Ledger(
    row: Option<Activity>,
    users: set<nat>,
    orders: map<nat, nat>,
    results: map<StreamId, ResultRow>,
    nextOrder: nat)

  predicate HasOrder(l: Ledger, user: nat) {
    user in l.orders.Values
  }

  function Buyers(l: Ledger): set<nat> {
    l.orders.Values
  }

  function CreatedIds(l: Ledger): set<StreamId> {
    set id | id in l.results && l.results[id].verdict.Created?
  }

  // ---- Transactions -------------------------------------------------------------------------

  // Fences the synchronous writer and freezes generation and capacity.
  function Stage(l: Ledger, now: int, token: string): (Ledger, Reply<Activity>) {
    if l.row.None? then (l, Err(NotFound))
    else
      var a := l.row.value;
      if a.state != 0 then (l, Ok(a))
      else if l.orders != map[] || a.stock <= 0 || a.end <= now then (l, Err(Conflict))
      else
        var staged := a.(state := 1, generation := token, capacity := a.stock);
        (l.(row := Some(staged)), Ok(staged))
  }

  function Activate(l: Ledger, generation: string): (Ledger, Reply<()>) {
    if l.row.None? then (l, Err(NotFound))
    else
      var a := l.row.value;
      if a.generation != generation || (a.state != 1 && a.state != 2) then (l, Err(Conflict))
      else (l.(row := Some(a.(state := 2))), Ok(()))
  }

  // Decrements the stock and inserts the order, as both writers do.
  function Sell(l: Ledger, user: nat): Ledger
    requires l.row.Some?
  {
    var a := l.row.value;
    l.(row := Some(a.(stock := a.stock - 1)), orders := l.orders[l.nextOrder := user], nextOrder := l.nextOrder + 1)
  }

  function Judge(l: Ledger, e: Event): Verdict
    requires l.row.Some?
  {
    var a := l.row.value;
    if !InWindow(a.begin, a.end, e.acceptedMs) then Failed(OutsideWindow)
    else if e.user !in l.users then Failed(UserNotFound)
    else if HasOrder(l, e.user) then Failed(DuplicateOrder)
    else if a.stock == 0 then Failed(NoStock)
    else Created(l.nextOrder)
  }

  // UNIQUE (voucher_id, generation, user_id) on seckill_result.
  predicate ResultKeyTaken(l: Ledger, e: Event) {
    exists id :: id in l.results && l.results[id].event.generation == e.generation && l.results[id].event.user == e.user
  }

  // Commits the final outcome of an event once. Every error is retryable and rolls back.
  function Apply(l: Ledger, e: Event): (Ledger, Reply<ResultRow>) {
    if l.row.None? then (l, Err(Dependency))
    else if e.id in l.results then
      (l, if l.results[e.id].event == e then Ok(l.results[e.id]) else Err(Dependency))
    else if l.row.value.state != 2 || l.row.value.generation != e.generation then (l, Err(Dependency))
    else if ResultKeyTaken(l, e) || (Judge(l, e).Created? && l.row.value.stock < 0) then (l, Err(Dependency))
    else
      var row := ResultRow(e, Judge(l, e));
      (Record(if row.verdict.Created? then Sell(l, e.user) else l, row), Ok(row))
  }

  lemma FailedApplyChangesNothing(l: Ledger, e: Event)
    ensures Apply(l, e).1.Err? ==> Apply(l, e).0 == l
  {
  }

  function Record(l: Ledger, row: ResultRow): Ledger {
    l.(results := l.results[row.event.id := row])
  }

  // The synchronous purchase.
  function Place(l: Ledger, user: nat, now: int): (Ledger, Reply<nat>) {
    if l.row.None? then (l, Err(NotFound))
    else
      var a := l.row.value;
      if a.state != 0 then (l, Err(Conflict))
      else if now < a.begin then (l, Err(ActivityNotStarted))
      else if a.end <= now then (l, Err(ActivityEnded))
      else if HasOrder(l, user) then (l, Err(AlreadyPurchased))
      else if a.stock <= 0 then (l, Err(SoldOut))
      else if user !in l.users then (l, Err(NotFound))
      else (Sell(l, user), Ok(l.nextOrder))
  }

  function Register(l: Ledger, user: nat): Ledger {
    l.(users := l.users + {user})
  }

  // The foreign key refuses to delete a user that owns an order.
  function Remove(l: Ledger, user: nat): Ledger {
    if HasOrder(l, user) then l else l.(users := l.users - {user})
  }

  // Orders of other vouchers and rolled-back inserts consume identifiers too.
  function Burn(l: Ledger, n: nat): Ledger {
    l.(nextOrder := l.nextOrder + n)
  }

  // ---- Invariant ------------------------------------------------------------------------------

  ghost predicate LedgerInv(l: Ledger) {
    && l.row.Some? && l.row.value.state <= 2
    && BaseInv(l, l.row.value)
    && (l.row.value.state < 2 ==> l.results == map[])
    && (l.row.value.state >= 1 ==> AsyncInv(l, l.row.value))
  }

  ghost predicate BaseInv(l: Ledger, a: Activity) {
    && 0 <= a.stock && a.begin < a.end
    && (forall o :: o in l.orders ==> o < l.nextOrder && l.orders[o] in l.users)
    && OneOrderEach(l)
  }

  ghost predicate OneOrderEach(l: Ledger) {
    forall o, p :: o in l.orders && p in l.orders && l.orders[o] == l.orders[p] ==> o == p
  }

  ghost predicate AsyncInv(l: Ledger, a: Activity) {
    && ValidGeneration(a.generation) && 0 < a.capacity
    && a.stock + |l.orders| == a.capacity
    && |CreatedIds(l)| == |l.orders|
    && ResultsInv(l, a.generation)
    && OneResultEach(l)
    && (forall o :: o in l.orders ==> Backed(l, o))
  }

  ghost predicate ResultsInv(l: Ledger, generation: string) {
    forall id :: id in l.results ==> ResultInv(l, generation, id)
  }

  ghost predicate ResultInv(l: Ledger, generation: string, id: StreamId)
    requires id in l.results
  {
    var row := l.results[id];
    && row.event.id == id && row.event.generation == generation
    && match row.verdict
       case Created(o) => o in l.orders && l.orders[o] == row.event.user
       case Failed(reason) => reason != DuplicateOrder
  }

  ghost predicate OneResultEach(l: Ledger) {
    forall i, j :: i in l.results && j in l.results && l.results[i].event.user == l.results[j].event.user ==> i == j
  }

  // The order was created together with a committed result.
  ghost predicate Backed(l: Ledger, o: nat) {
    exists id :: id in l.results && l.results[id].verdict == Created(o)
  }

  // Users come and go, and identifiers are burnt, without touching the balance.
  lemma FrameKeepsInv(l: Ledger, m: Ledger)
    requires LedgerInv(l)
    requires m.row == l.row && m.orders == l.orders && m.results == l.results && l.nextOrder <= m.nextOrder
    requires forall o :: o in l.orders ==> l.orders[o] in m.users
    ensures LedgerInv(m)
  {
    assert CreatedIds(m) == CreatedIds(l);
    if l.row.value.state >= 1 {
      forall id | id in m.results ensures ResultInv(m, m.row.value.generation, id) {
        assert ResultInv(l, l.row.value.generation, id);
      }
      forall o | o in m.orders ensures Backed(m, o) {
        assert Backed(l, o);
        var id :| id in l.results && l.results[id].verdict == Created(o);
        assert id in m.results;
      }
    }
  }

  // ---- SQL safety against an arbitrary queue -------------------------------------------------

  // Stage succeeds exactly on an unused, unfinished activity with stock or on one that is already fenced, and
  // what it froze is what every later Stage returns, whatever the clock and the fresh token.
  lemma StageFreezes(l: Ledger, now: int, token: string, later: int, fresher: string)
    ensures var (m, reply) := Stage(l, now, token);
      && (reply.Ok? <==> l.row.Some? && (l.row.value.state != 0 || (l.orders == map[] && l.row.value.stock > 0 && now < l.row.value.end)))
      && (reply.Err? ==> m == l && reply.kind == if l.row.None? then NotFound else Conflict)
      && (reply.Ok? ==> reply.value.state != 0 && m == l.(row := Some(reply.value)) && Stage(m, later, fresher) == (m, reply))
      && (reply.Ok? && l.row.value.state == 0 ==>
            SeedOf(reply.value) == Seed(token, l.row.value.stock, l.row.value.begin, l.row.value.end) && reply.value.stock == l.row.value.stock)
  {
  }

  // Activate succeeds exactly for the frozen generation of a fenced activity, and moves nothing but the state.
  lemma ActivateOpens(l: Ledger, generation: string)
    ensures var (m, reply) := Activate(l, generation);
      && (reply.Ok? <==> l.row.Some? && l.row.value.generation == generation && 1 <= l.row.value.state <= 2)
      && (reply.Ok? ==> m == l.(row := Some(l.row.value.(state := 2))))
      && (reply.Err? ==> m == l && reply.kind == if l.row.None? then NotFound else Conflict)
  {
  }

  // An event of a user who already owns an order always meets the unique result key: the failure
  // "already_purchased" is computed but can never be committed.
  lemma OwnerMeetsResultKey(l: Ledger, e: Event)
    requires LedgerInv(l) && l.row.value.state >= 1 && HasOrder(l, e.user) && e.generation == l.row.value.generation
    ensures ResultKeyTaken(l, e)
    ensures exists id :: id in l.results && l.results[id].event.user == e.user && l.results[id].verdict.Created?
  {
    var o :| o in l.orders && l.orders[o] == e.user;
    assert Backed(l, o);
    var id :| id in l.results && l.results[id].verdict == Created(o);
    assert ResultInv(l, l.row.value.generation, id);
  }

  lemma InsertCounts<K, V>(m: map<K, V>, k: K, v: V)
    requires k !in m
    ensures |m[k := v]| == |m| + 1
    ensures m[k := v].Values == m.Values + {v}
  {
    assert m[k := v].Keys == m.Keys + {k};
    InsertValues(m, k, v);
  }

  lemma InsertValues<K, V>(m: map<K, V>, k: K, v: V)
    requires k !in m
    ensures m[k := v].Values == m.Values + {v}
  {
    var n := m[k := v];
    forall u | u in m.Values + {v} ensures u in n.Values {
      if u == v { assert n[k] == u; } else { var o :| o in m && m[o] == u; assert n[o] == u; }
    }
  }

  ghost predicate Injective(m: map<nat, nat>) {
    forall o, p :: o in m && p in m && m[o] == m[p] ==> o == p
  }

  lemma RestOf(m: map<nat, nat>, rest: map<nat, nat>, o: nat)
    requires Injective(m) && o in m && rest == map p | p in m && p != o :: m[p]
    ensures m == rest[o := m[o]] && Injective(rest) && m[o] !in rest.Values
  {
  }

  lemma {:induction false} ValuesCount(m: map<nat, nat>)
    requires Injective(m)
    ensures |m.Values| == |m|
    decreases |m|
  {
    if m == map[] {
      assert m.Values == {};
    } else {
      var o :| o in m;
      var rest := map p | p in m && p != o :: m[p];
      RestOf(m, rest, o);
      hide Injective;
      InsertCounts(rest, o, m[o]);
      ValuesCount(rest);
    }
  }

  lemma SellKeepsBase(l: Ledger, user: nat)
    requires l.row.Some? && BaseInv(l, l.row.value)
    requires l.row.value.stock > 0 && !HasOrder(l, user) && user in l.users
    ensures var m := Sell(l, user); BaseInv(m, m.row.value)
    ensures |Sell(l, user).orders| == |l.orders| + 1 && Buyers(Sell(l, user)) == Buyers(l) + {user}
  {
    InsertCounts(l.orders, l.nextOrder, user);
  }

  // Recording the outcome of a fresh event keeps the result table in step with the orders.
  lemma RecordKeepsResults(l: Ledger, sold: Ledger, generation: string, row: ResultRow)
    requires ResultsInv(l, generation) && OneResultEach(l) && sold.results == l.results
    requires row.event.id !in l.results && row.event.generation == generation && !ResultKeyTaken(l, row.event)
    requires forall o :: o in l.orders ==> o in sold.orders && sold.orders[o] == l.orders[o]
    requires match row.verdict
             case Created(o) => o in sold.orders && sold.orders[o] == row.event.user
             case Failed(reason) => reason != DuplicateOrder
    ensures ResultsInv(Record(sold, row), generation) && OneResultEach(Record(sold, row))
  {
    var m := Record(sold, row);
    forall id | id in m.results ensures ResultInv(m, generation, id) {
      if id != row.event.id { assert ResultInv(l, generation, id); }
    }
    forall id | id in l.results ensures l.results[id].event.user != row.event.user { assert ResultInv(l, generation, id); }
  }

  lemma RecordKeepsBacking(l: Ledger, sold: Ledger, row: ResultRow)
    requires (forall o :: o in l.orders ==> Backed(l, o)) && sold.results == l.results && row.event.id !in l.results
    requires forall o :: o in sold.orders ==> o in l.orders || row.verdict == Created(o)
    ensures forall o :: o in sold.orders ==> Backed(Record(sold, row), o)
  {
    var m := Record(sold, row);
    forall o | o in sold.orders ensures Backed(m, o) {
      if o in l.orders {
        assert Backed(l, o);
        var id :| id in l.results && l.results[id].verdict == Created(o);
        assert id in m.results && m.results[id] == l.results[id];
      } else {
        assert row.event.id in m.results && m.results[row.event.id].verdict == Created(o);
      }
    }
  }

  lemma RecordCounts(l: Ledger, sold: Ledger, row: ResultRow)
    requires sold.results == l.results && row.event.id !in l.results
    ensures |CreatedIds(Record(sold, row))| == |CreatedIds(l)| + if row.verdict.Created? then 1 else 0
  {
    var ids := CreatedIds(Record(sold, row));
    assert ids == if row.verdict.Created? then CreatedIds(l) + {row.event.id} else CreatedIds(l);
  }

  lemma SaleKeepsInv(l: Ledger, e: Event)
    requires LedgerInv(l) && l.row.value.state == 2 && l.row.value.generation == e.generation
    requires e.id !in l.results && !ResultKeyTaken(l, e) && Judge(l, e).Created?
    ensures LedgerInv(Record(Sell(l, e.user), ResultRow(e, Judge(l, e))))
  {
    var sold, row := Sell(l, e.user), ResultRow(e, Judge(l, e));
    SellKeepsBase(l, e.user);
    RecordKeepsResults(l, sold, l.row.value.generation, row);
    RecordKeepsBacking(l, sold, row);
    RecordCounts(l, sold, row);
  }

  lemma FailureKeepsInv(l: Ledger, e: Event)
    requires LedgerInv(l) && l.row.value.state == 2 && l.row.value.generation == e.generation
    requires e.id !in l.results && !ResultKeyTaken(l, e) && Judge(l, e).Failed?
    ensures LedgerInv(Record(l, ResultRow(e, Judge(l, e))))
  {
    var row := ResultRow(e, Judge(l, e));
    if HasOrder(l, e.user) { OwnerMeetsResultKey(l, e); }
    RecordKeepsResults(l, l, l.row.value.generation, row);
    RecordKeepsBacking(l, l, row);
    RecordCounts(l, l, row);
  }

  lemma ApplyKeepsInv(l: Ledger, e: Event)
    requires LedgerInv(l)
    ensures LedgerInv(Apply(l, e).0)
  {
    if Apply(l, e).1.Ok? && e.id !in l.results {
      if Judge(l, e).Created? { SaleKeepsInv(l, e); } else { FailureKeepsInv(l, e); }
    }
  }

  ghost function ApplyAll(l: Ledger, es: seq<Event>): Ledger
    decreases |es|
  {
    if es == [] then l else ApplyAll(Apply(l, es[0]).0, es[1..])
  }

  // Whatever the queue delivers (duplicated, reordered or forged), the sold stock and the orders
  // stay in balance, nobody owns two orders, and created results match orders one to one.
  lemma {:induction false} ArbitraryQueueIsSafe(l: Ledger, es: seq<Event>)
    requires LedgerInv(l) && l.row.value.state >= 1
    ensures var m := ApplyAll(l, es);
      && LedgerInv(m) && m.row.value == l.row.value.(stock := m.row.value.stock)
      && 0 <= m.row.value.stock && m.row.value.stock + |m.orders| == l.row.value.capacity
      && OneOrderEach(m)
      && (forall id :: id in m.results ==> m.results[id].verdict != Failed(DuplicateOrder))
      && (forall o :: o in m.orders ==> Backed(m, o))
      && CreatedOnce(m)
    decreases |es|
  {
    hide BaseInv, ResultsInv, OneResultEach;
    if es == [] {
      CreatedAreUnique(l);
    } else {
      ApplyKeepsInv(l, es[0]);
      ArbitraryQueueIsSafe(Apply(l, es[0]).0, es[1..]);
    }
  }

  lemma CreatedAreUnique(l: Ledger)
    requires LedgerInv(l) && l.row.value.state >= 1
    ensures CreatedOnce(l) && OneOrderEach(l) && forall id :: id in l.results ==> l.results[id].verdict != Failed(DuplicateOrder)
    ensures 0 <= l.row.value.stock
  {
    forall id | id in l.results ensures ResultInv(l, l.row.value.generation, id) {}
  }

  ghost predicate CreatedOnce(l: Ledger) {
    forall i, j ::
      (i in l.results && j in l.results && l.results[i].verdict.Created? && l.results[i].verdict == l.results[j].verdict)
      ==> i == j
  }

  // A committed outcome is final: replaying the event after any other deliveries reports the same
  // row and changes nothing.
  lemma {:induction false} ReplayIsIdempotent(l: Ledger, e: Event, es: seq<Event>)
    requires Apply(l, e).1.Ok?
    ensures var m := ApplyAll(Apply(l, e).0, es); Apply(m, e) == (m, Apply(l, e).1)
  {
    RecordedStays(Apply(l, e).0, e.id, es);
  }

  lemma {:induction false} RecordedStays(l: Ledger, id: StreamId, es: seq<Event>)
    requires id in l.results && l.row.Some?
    ensures var m := ApplyAll(l, es); m.row.Some? && id in m.results && m.results[id] == l.results[id]
    decreases |es|
  {
    if es != [] { RecordedStays(Apply(l, es[0]).0, id, es[1..]); }
  }

  // ---- What the writers answer -------------------------------------------------------------------

  // Order o is new and the user's; one unit is gone, and nothing else has changed.
  ghost predicate Purchased(l: Ledger, m: Ledger, user: nat, o: nat) {
    && l.row.Some? && m.row == Some(l.row.value.(stock := l.row.value.stock - 1)) && l.row.value.stock > 0
    && o !in l.orders && m.orders == l.orders[o := user] && o < m.nextOrder
    && user in l.users && user !in Buyers(l) && m.users == l.users
  }

  // Apply refuses without a change, replays a committed outcome, or commits one: an order of the event's user, or the
  // first failure that applies.
  lemma ApplyAnswers(l: Ledger, e: Event)
    requires LedgerInv(l)
    ensures var (m, reply) := Apply(l, e); var a := l.row.value;
      && (reply.Err? ==> m == l && reply.kind == Dependency)
      && (e.id in l.results ==> m == l && (reply.Ok? <==> l.results[e.id].event == e) && (reply.Ok? ==> reply.value == l.results[e.id]))
      && (e.id !in l.results ==>
            (reply.Ok? <==> a.state == 2 && a.generation == e.generation && forall id :: id in l.results ==> l.results[id].event.user != e.user))
      && (e.id !in l.results && reply.Ok? ==>
            && reply.value.event == e && m.results == l.results[e.id := reply.value]
            && match reply.value.verdict
               case Created(o) => InWindow(a.begin, a.end, e.acceptedMs) && Purchased(l, m, e.user, o)
               case Failed(reason) =>
                 && m == l.(results := m.results)
                 && match reason
                    case OutsideWindow => !InWindow(a.begin, a.end, e.acceptedMs)
                    case UserNotFound => InWindow(a.begin, a.end, e.acceptedMs) && e.user !in l.users
                    case NoStock => InWindow(a.begin, a.end, e.acceptedMs) && e.user in l.users && a.stock == 0
                    case DuplicateOrder => false)
  {
    if l.row.value.state == 2 && l.row.value.generation == e.generation && e.id !in l.results {
      if HasOrder(l, e.user) { OwnerMeetsResultKey(l, e); }
      forall id | id in l.results ensures l.results[id].event.generation == e.generation {
        assert ResultInv(l, l.row.value.generation, id);
      }
    }
  }

  // A purchase answers with the new order of this user, or refuses for its own reason and changes nothing.
  lemma PlaceAnswers(l: Ledger, user: nat, now: int)
    requires LedgerInv(l)
    ensures var (m, reply) := Place(l, user, now); var a := l.row.value;
      match reply
      case Ok(o) => a.state == 0 && InWindow(a.begin, a.end, now) && Purchased(l, m, user, o) && m.results == l.results
      case Err(kind) =>
        && m == l
        && match kind
           case Conflict => a.state != 0
           case ActivityNotStarted => a.state == 0 && now < a.begin
           case ActivityEnded => a.state == 0 && a.end <= now
           case AlreadyPurchased => a.state == 0 && InWindow(a.begin, a.end, now) && user in Buyers(l)
           case SoldOut => a.state == 0 && InWindow(a.begin, a.end, now) && user !in Buyers(l) && a.stock == 0
           case NotFound => a.state == 0 && InWindow(a.begin, a.end, now) && user !in Buyers(l) && a.stock > 0 && user !in l.users
           case _ => false
  {
  }

  // ---- The synchronous path --------------------------------------------------------------------

  lemma PlaceKeepsInv(l: Ledger, user: nat, now: int)
    requires LedgerInv(l)
    ensures var m := Place(l, user, now).0;
      LedgerInv(m) && m.row.value.stock + |m.orders| == l.row.value.stock + |l.orders|
    ensures l.row.value.state >= 1 ==> Place(l, user, now) == (l, Err(Conflict))
    ensures Place(l, user, now).1.Ok? ==> Buyers(Place(l, user, now).0) == Buyers(l) + {user}
  {
    if Place(l, user, now).1.Ok? { SellKeepsBase(l, user); }
  }

  // A timed purchase attempt.
  datatype Request = Request(user: nat, now: int)

  ghost function PlaceAll(l: Ledger, rs: seq<Request>): Ledger {
    if rs == [] then l
    else var before := PlaceAll(l, rs[..|rs|-1]); Place(before, rs[|rs|-1].user, rs[|rs|-1].now).0
  }

  // Reference definition: the distinct users that asked inside the window, in order of arrival.
  function Eligible(begin: int, end: int, rs: seq<Request>): seq<nat> {
    if rs == [] then []
    else
      var before, last := Eligible(begin, end, rs[..|rs|-1]), rs[|rs|-1];
      if InWindow(begin, end, last.now) && last.user !in before then before + [last.user] else before
  }

  function FirstServed(begin: int, end: int, capacity: nat, rs: seq<Request>): seq<nat> {
    var all := Eligible(begin, end, rs);
    if |all| <= capacity then all else all[..capacity]
  }

  function UserSet(users: seq<nat>): set<nat> {
    set u | u in users
  }

  lemma PlaceAllStep(l: Ledger, rs: seq<Request>, r: Request)
    ensures PlaceAll(l, rs + [r]) == Place(PlaceAll(l, rs), r.user, r.now).0
  {
    hide Place;
    assert (rs + [r])[..|rs|] == rs;
  }

  // m is what the fresh ledger l has become once exactly the users in `served` bought.
  ghost predicate Served(l: Ledger, m: Ledger, served: seq<nat>)
    requires l.row.Some?
  {
    && LedgerInv(m) && m.users == l.users
    && m.row.value == l.row.value.(stock := l.row.value.stock - |served|)
    && Buyers(m) == UserSet(served)
  }

  lemma PlaceServes(l: Ledger, m: Ledger, rs: seq<Request>, last: Request)
    requires LedgerInv(l) && l.row.value.state == 0 && last.user in l.users
    requires var a := l.row.value; Served(l, m, FirstServed(a.begin, a.end, a.stock, rs))
    ensures var a := l.row.value;
      Served(l, Place(m, last.user, last.now).0, FirstServed(a.begin, a.end, a.stock, rs + [last]))
  {
    var a := l.row.value;
    assert (rs + [last])[..|rs|] == rs;
    var before, after := FirstServed(a.begin, a.end, a.stock, rs), FirstServed(a.begin, a.end, a.stock, rs + [last]);
    PlaceKeepsInv(m, last.user, last.now);
    assert HasOrder(m, last.user) <==> last.user in before;
    if Place(m, last.user, last.now).1.Ok? {
      assert after == before + [last.user];
    } else {
      assert after == before;
    }
  }

  // A fresh synchronous activity serves exactly the first `stock` distinct in-window users.
  lemma {:induction false} PlaceServesFirstComers(l: Ledger, rs: seq<Request>)
    requires LedgerInv(l) && l.row.value.state == 0 && l.orders == map[]
    requires forall r :: r in rs ==> r.user in l.users
    ensures var a := l.row.value; Served(l, PlaceAll(l, rs), FirstServed(a.begin, a.end, a.stock, rs))
  {
    if rs == [] {
      assert Buyers(l) == {};
    } else {
      var init, last := rs[..|rs|-1], rs[|rs|-1];
      assert rs == init + [last] && last in rs;
      PlaceServesFirstComers(l, init);
      PlaceServes(l, PlaceAll(l, init), init, last);
    }
  }
}
