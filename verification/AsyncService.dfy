// The asynchronous order service: ordered calls on two stores that share no transaction. Each contract
// states that an uninterrupted call is exactly its sequence of protocol steps, so everything proved
// about runs of Protocol.Next applies to the service, interrupted or not.
module AsyncService {
  import opened SeckillModel
  import L = Ledger
  import R = Admission
  import opened Protocol
  import opened ProtocolInvariant
  import opened OrderStore
  import opened SeckillQueue
  import T = ProtocolTheorems
  import Reads = ResultReads
  import opened SeckillTickets

  // Caller 0 alone in the system, holding `batch`.
  function Alone(sql: L.Ledger, redis: R.Redis, batch: seq<Event>): System {
    System(sql, redis, map[], map[], if batch == [] then map[] else map[0 := Worker(batch, Fetched)])
  }

  function EnableRun(s: System, now: int, token: string): System {
    Next(Next(Next(Next(s, StageStep(0, now, token)), PrepareStep(0)), CheckStep(0)), ActivateStep(0))
  }

  // The same four steps on the stores alone, which is how the service reads, with the reply.
  function EnableCalls(sql: L.Ledger, redis: R.Redis, now: int, token: string): (L.Ledger, R.Redis, Reply<()>) {
    var (m, staged) := L.Stage(sql, now, token);
    if staged.Err? then (m, redis, Err(staged.kind))
    else
      var seed := SeedOf(staged.value);
      if staged.value.state == 2 then (m, redis, R.Check(redis, seed, false))
      else
        var (x, prepared) := R.Prepare(redis, seed);
        var checked := R.Check(x, seed, true);
        if prepared.Err? && prepared.kind != Conflict then (m, x, prepared)
        else if checked.Err? then (m, x, checked)
        else var (n, reply) := L.Activate(m, seed.generation); (n, x, reply)
  }

  lemma EnableRunIs(s: System, now: int, token: string)
    requires s.enabling == map[] && ValidGeneration(token)
    ensures SameStores(EnableRun(s, now, token), EnableCalls(s.sql, s.redis, now, token).0, EnableCalls(s.sql, s.redis, now, token).1)
  {
    hide ValidGeneration, L.Stage, L.Activate, R.Prepare, R.Check;
    var (m, staged) := L.Stage(s.sql, now, token);
    var s1 := Next(s, StageStep(0, now, token));
    if staged.Ok? {
      var seed := SeedOf(staged.value);
      assert s1.enabling[0] == Staged(seed, staged.value.state);
      var s2 := Next(s1, PrepareStep(0));
      var s3 := Next(s2, CheckStep(0));
      if staged.value.state != 2 {
        assert s2.sql == m && s2.redis == R.Prepare(s.redis, seed).0;
      } else {
        assert s2 == s1 && 0 !in s3.enabling;
      }
    }
  }

  // A snapshot that Redis can represent exactly: a limit on the times and the stock of the activity.
  predicate Fits(seed: Seed) {
    seed.capacity <= MAX_EXACT && 0 <= seed.begin && seed.end <= MAX_EXACT
  }

  // What one call of Enable does. It refuses an activity that was never fenced and is sold, sold out or over. It opens
  // any other whose snapshot fits, fenced now or earlier, and leaves existing Redis data alone. What does not fit is
  // fenced all the same, and stays so.
  ghost predicate Decided(l: L.Ledger, r: R.Redis, m: L.Ledger, x: R.Redis, now: int, token: string, reply: Reply<()>)
    requires l.row.Some?
  {
    var a := l.row.value;
    var seed := if a.state == 0 then Seed(token, a.stock, a.begin, a.end) else SeedOf(a);
    var fenced := a.(generation := seed.generation, capacity := seed.capacity);
    if a.state == 0 && (l.orders != map[] || a.stock == 0 || a.end <= now) then
      reply == Err(Conflict) && m == l && x == r
    else if !Fits(seed) then
      reply == Err(Validation) && a.state < 2 && m == l.(row := Some(fenced.(state := 1))) && x == r
    else
      && reply == Ok(()) && m == l.(row := Some(fenced.(state := 2)))
      && x.hash.Some? && x.stream.Some? && x.hash.value.seed == seed
      && (if r.hash.Some? then x == r else R.Pristine(x.hash.value, x.stream.value) && R.GROUP in x.stream.value.groups)
  }

  lemma EnableDecides(l: L.Ledger, r: R.Redis, now: int, token: string)
    requires L.LedgerInv(l) && StoresInv(l, r) && ValidGeneration(token)
    ensures var (m, x, reply) := EnableCalls(l, r, now, token); Decided(l, r, m, x, now, token, reply)
  {
    hide LogInv, ResultsLogged, CompensatedFailed, L.ResultsInv, L.OneResultEach, L.OneOrderEach, ValidGeneration;
  }

  function AcceptRun(s: System, user: nat, now: nat): System {
    Next(Next(s, LookStep(0, user)), ReserveStep(0, now))
  }

  function ProcessRun(s: System): System {
    Next(Next(Next(s, ApplyStep(0)), CompensateStep(0)), AckStep(0))
  }

  ghost predicate SameStores(s: System, sql: L.Ledger, redis: R.Redis) {
    s.sql == sql && s.redis == redis
  }

  class AsyncOrder {
    const orders: OrderStore
    const queue: SeckillQueue

    constructor (orders: OrderStore, queue: SeckillQueue)
      ensures this.orders == orders && this.queue == queue
    {
      this.orders, this.queue := orders, queue;
    }

    function System(batch: seq<Event>): Protocol.System
      reads orders, queue
    {
      Alone(orders.Model(), queue.Model(), batch)
    }

    // A success means the activity is open and Redis holds a matching snapshot with the group.
    method Enable(voucher: nat, now: int, token: string) returns (reply: Reply<()>)
      requires ValidGeneration(token)
      modifies orders, queue
      ensures voucher == 0 ==> reply == Err(Validation) && System([]) == old(System([]))
      ensures voucher != 0 ==> SameStores(EnableRun(old(System([])), now, token), orders.Model(), queue.Model())
      ensures reply.Ok? ==>
        && orders.row.Some? && orders.row.value.state == 2
        && R.Check(queue.Model(), SeedOf(orders.row.value), false).Ok?
      ensures voucher != 0 && Inv(old(System([]))) ==>
        Decided(old(orders.Model()), old(queue.Model()), orders.Model(), queue.Model(), now, token, reply)
      ensures voucher != 0 && Resumable(old(System([]))) ==> reply.Ok?
    {
      ghost var s := System([]);
      EnableIs(s, now, token);
      hide Resumable, Inv, ValidGeneration, EnableRun, Decided, L.Stage, L.Activate, R.Prepare, R.Check;
      if voucher == 0 { return Err(Validation); }
      var staged := orders.Stage(now, token);
      if staged.Err? { return Err(staged.kind); }
      var seed := SeedOf(staged.value);
      if staged.value.state == 2 {
        reply := queue.Check(seed, false);
        return;
      }
      var prepared := queue.Prepare(seed);
      // Existing Redis keys may be left by a crash before the SQL activation.
      if prepared.Err? && prepared.kind != Conflict { return prepared; }
      var checked := queue.Check(seed, true);
      if checked.Err? { return checked; }
      reply := orders.Activate(seed.generation);
    }

    method Accept(user: nat, voucher: nat, now: nat) returns (reply: Reply<StreamId>)
      modifies queue
      ensures user == 0 ==> reply == Err(Unauthorized)
      ensures user != 0 && voucher == 0 ==> reply == Err(Validation)
      ensures user == 0 || voucher == 0 ==> System([]) == old(System([]))
      ensures user != 0 && voucher != 0 && Inv(old(System([]))) ==>
        && SameStores(AcceptRun(old(System([])), user, now), orders.Model(), queue.Model())
        && Answered(old(System([])), System([]), user, now, reply)
    {
      ghost var s := System([]);
      if Inv(s) { AcceptIs(s, user, now); }
      hide Inv, Answered, R.Reserve;
      if user == 0 { return Err(Unauthorized); }
      if voucher == 0 { return Err(Validation); }
      var row := orders.Activity();
      if row.Err? { return Err(row.kind); }
      if row.value.state != 2 { return Err(Conflict); }
      var event := queue.ReserveForGeneration(user, row.value.generation, now);
      reply := if event.Ok? then Ok(event.value.id) else Err(event.kind);
    }

    // In every reachable state the answer is the user's status, which ResultReads extends to reads
    // interleaved with other steps.
    method Result(user: nat, voucher: nat) returns (reply: Reply<Reads.Answer>)
      ensures user == 0 ==> reply == Err(Unauthorized)
      ensures user != 0 && voucher == 0 ==> reply == Err(Validation)
      ensures user != 0 && voucher != 0 && Inv(System([])) ==>
        && System([]).sql.row.Some?
        && match Reads.Status(System([]), user)
           case NotActive => reply == Err(Conflict)
           case NoTicket => reply == Err(NotFound)
           case Pending(ticket) => reply == Ok(Reads.Pending(ticket))
           case Final(ticket, verdict) => reply == Ok(Reads.Final(ticket, verdict))
           case Broken => false
    {
      hide Inv, R.Receipt, Reads.Status, Reads.HasResult;
      if user == 0 { return Err(Unauthorized); }
      if voucher == 0 { return Err(Validation); }
      ghost var s := System([]);
      var found := orders.Result(user);
      if found.Ok? {
        if Inv(s) { FinalIsReported(s, user, found.value); }
        return Ok(Reads.Final(found.value.event.id, found.value.verdict));
      }
      if Inv(s) { OpenIsReported(s, user); }
      var row := orders.Activity();
      if row.Err? { return Err(row.kind); }
      if row.value.state != 2 { return Err(Conflict); }
      var receipt := queue.Receipt(user);
      if receipt.Err? { return Err(receipt.kind); }
      if receipt.value.generation != row.value.generation { return Err(Dependency); }
      reply := Ok(Reads.Pending(receipt.value.id));
    }

    // Apply, compensate a failure, then acknowledge. A success leaves the event settled and no longer
    // pending; for a delivered event of a reachable state it cannot fail.
    method Process(e: Event) returns (reply: Reply<()>)
      modifies orders, queue
      ensures SameStores(ProcessRun(old(System([e]))), orders.Model(), queue.Model())
      ensures reply.Ok? && queue.hash.Some? ==> Settled(orders.results, queue.hash.value.compensated, e.id)
      ensures reply.Ok? && queue.stream.Some? ==> e.id !in queue.stream.value.pending
      ensures Inv(old(System([e]))) ==> reply.Ok?
    {
      hide Inv;
      ghost var s := System([e]);
      if Inv(s) { DeliveredIsProcessed(s, e); }
      var result := orders.Apply(e);
      if result.Err? { return Err(result.kind); }
      if result.value.verdict.Failed? {
        var restored := queue.Compensate(e);
        if restored.Err? { return restored; }
      }
      queue.Ack(e.id);
      reply := Ok(());
    }
  }

  lemma OpenIsChecked(l: L.Ledger, r: R.Redis, now: int, token: string)
    ensures var (m, x, reply) := EnableCalls(l, r, now, token);
      reply.Ok? ==> m.row.Some? && m.row.value.state == 2 && R.Check(x, SeedOf(m.row.value), false).Ok?
  {
    hide R.ValidSeed, R.Entries;
  }

  lemma EnableIs(s: System, now: int, token: string)
    requires ValidGeneration(token) && s == Alone(s.sql, s.redis, [])
    ensures var (m, x, reply) := EnableCalls(s.sql, s.redis, now, token);
      && SameStores(EnableRun(s, now, token), m, x)
      && (Inv(s) ==> s.sql.row.Some? && Decided(s.sql, s.redis, m, x, now, token, reply))
      && (Resumable(s) ==> reply.Ok?)
      && (reply.Ok? ==> m.row.Some? && m.row.value.state == 2 && R.Check(x, SeedOf(m.row.value), false).Ok?)
  {
    OpenIsChecked(s.sql, s.redis, now, token);
    hide L.BaseInv, L.AsyncInv, StoresInv, ValidGeneration, EnableRun, EnableCalls, R.Check;
    EnableRunIs(s, now, token);
    if Inv(s) { EnableDecides(s.sql, s.redis, now, token); }
  }

  lemma LookIs(s: System, user: nat)
    requires Inv(s) && 0 !in s.accepting && s.sql.row.Some? && s.sql.row.value.state == 2
    ensures var looked := Next(s, LookStep(0, user));
      && Inv(looked) && SameStores(looked, s.sql, s.redis)
      && 0 in looked.accepting && looked.accepting[0] == Accepting(user, s.sql.row.value.generation)
    ensures ValidGeneration(s.sql.row.value.generation)
  {
    hide L.BaseInv, StoresInv, EnablingInv, AcceptingInv, WorkerInv, ValidGeneration;
    NextKeeps(s, LookStep(0, user));
  }

  // An answer speaks of the stores alone.
  lemma AnsweredOnStores(s: System, t: System, s': System, t': System, user: nat, now: nat, reply: Reply<StreamId>)
    requires Answered(s, t, user, now, reply) && SameStores(s, s'.sql, s'.redis) && SameStores(t, t'.sql, t'.redis)
    ensures Answered(s', t', user, now, reply)
  {
    hide Reserved, Reads.HasResult;
  }

  lemma AcceptIs(s: System, user: nat, now: nat)
    requires Inv(s) && s == Alone(s.sql, s.redis, [])
    ensures s.sql.row.Some?
    ensures s.sql.row.value.state != 2 ==>
      && SameStores(AcceptRun(s, user, now), s.sql, s.redis)
      && Answered(s, s, user, now, Err(Conflict))
    ensures s.sql.row.value.state == 2 ==>
      var (x, reply) := R.Reserve(s.redis, user, s.sql.row.value.generation, now);
      && SameStores(AcceptRun(s, user, now), s.sql, x)
      && Answered(s, Alone(s.sql, x, []), user, now, TicketOf(reply))
      && ValidGeneration(s.sql.row.value.generation)
  {
    hide Inv, Reserved, R.Reserve, Reads.Status, ValidGeneration;
    Reads.HasRow(s);
    if s.sql.row.value.state == 2 {
      var looked := Next(s, LookStep(0, user));
      LookIs(s, user);
      hide Answered;
      AttemptIsAnswered(looked, 0, now);
      ReserveStepIs(looked, 0, now);
      var (x, reply) := R.Reserve(s.redis, user, s.sql.row.value.generation, now);
      hide Next;
      AnsweredOnStores(looked, Next(looked, ReserveStep(0, now)), s, Alone(s.sql, x, []), user, now, TicketOf(reply));
    }
  }

  // Some Enable call has staged the activity; it may have crashed anywhere since.
  ghost predicate Resumable(s: System) {
    Inv(s) && s.enabling == map[] && s.sql.row.value.state >= 1 && R.ValidSeed(SeedOf(s.sql.row.value))
  }

  // Repeating the command completes an interrupted activation, and is harmless on an open activity.
  lemma EnableResumes(s: System, now: int, token: string)
    requires Resumable(s) && ValidGeneration(token)
    ensures var n := EnableRun(s, now, token);
      && n.sql.row == Some(s.sql.row.value.(state := 2))
      && (s.redis.hash.Some? ==> n.redis == s.redis)
      && R.Check(n.redis, SeedOf(n.sql.row.value), s.sql.row.value.state == 1).Ok?
  {
    hide L.BaseInv, L.AsyncInv, LogInv, ResultsLogged, CompensatedFailed, EnablingInv, AcceptingInv, WorkerInv;
    EnableRunIs(s, now, token);
    hide EnableRun;
  }

  lemma FinalIsReported(s: System, user: nat, row: ResultRow)
    requires Inv(s) && exists id :: id in s.sql.results && s.sql.results[id] == row && row.event.user == user
    ensures s.sql.row.Some? && Reads.Status(s, user) == Reads.Final(row.event.id, row.verdict)
  {
    var id :| id in s.sql.results && s.sql.results[id] == row;
    assert s.sql.row.value.state >= 1;
  }

  lemma OpenIsReported(s: System, user: nat)
    requires Inv(s) && forall id :: id in s.sql.results ==> s.sql.results[id].event.user != user
    ensures s.sql.row.Some?
    ensures s.sql.row.value.state != 2 ==> Reads.Status(s, user) == Reads.NotActive
    ensures s.sql.row.value.state == 2 ==>
      match R.Receipt(s.redis, user)
      case Ok(e) => e.generation == s.sql.row.value.generation && Reads.Status(s, user) == Reads.Pending(e.id)
      case Err(kind) => kind == NotFound && Reads.Status(s, user) == Reads.NoTicket
  {
    hide R.Receipt;
    if s.sql.row.value.state == 2 {
      Reads.LiveWhenActive(s);
      Reads.ReceiptFindsTicket(s, user);
    }
  }

  lemma HeldIsDelivered(s: System, e: Event)
    requires Inv(s) && s == Alone(s.sql, s.redis, [e])
    ensures s.redis.hash.Some? && s.redis.stream.Some? && e in s.redis.stream.value.delivered
  {
    assert WorkerInv(s.sql, s.redis, s.workers[0]) && e in s.workers[0].batch;
  }

  lemma DeliveredIsProcessed(s: System, e: Event)
    requires Inv(s) && s == Alone(s.sql, s.redis, [e])
    ensures var (m, reply) := L.Apply(s.sql, e);
      reply.Ok? && (reply.value.verdict.Failed? ==> R.Compensate(s.redis, e).1.Ok?)
  {
    HeldIsDelivered(s, e);
    hide L.LedgerInv, StoresInv, L.Apply, R.Compensate;
    T.OutcomeIsReady(s.sql, s.redis, e);
    ApplyKeeps(s.sql, s.redis, e);
    var (m, reply) := L.Apply(s.sql, e);
    if reply.value.verdict.Failed? { CompensateKeeps(m, s.redis, e); }
  }
}
