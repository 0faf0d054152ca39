// What a reservation answers: a ticket nobody held before, naming the one entry that was just admitted for this
// buyer, or the reason for a refusal that changed nothing.
module SeckillTickets {
  import opened SeckillModel
  import L = Ledger
  import R = Admission
  import opened Protocol
  import opened ProtocolInvariant
  import Reads = ResultReads

  // One unit, one marker and one entry: the user's ticket t, which is new and waits to be delivered.
  ghost predicate Issued(h: R.Hash, q: R.Stream, g: R.Hash, p: R.Stream, user: nat, now: nat, t: StreamId) {
    && InWindow(h.seed.begin, h.seed.end, now) && h.stock > 0 && user !in h.buyers
    && g == h.(stock := h.stock - 1, buyers := h.buyers[user := t])
    && p == q.(waiting := q.waiting + [Event(t, user, h.seed.generation, now)], lastId := t)
    && (forall f :: f in R.Entries(q) ==> Before(f.id, t))
    && (forall u :: u in h.buyers ==> h.buyers[u] != t)
  }

  // Why a reservation is refused, each reason by its own condition.
  ghost predicate Refused(h: R.Hash, user: nat, now: nat, kind: Kind) {
    match kind
    case ActivityNotStarted => now < h.seed.begin
    case ActivityEnded => h.seed.end <= now
    case AlreadyPurchased => InWindow(h.seed.begin, h.seed.end, now) && user in h.buyers
    case SoldOut => InWindow(h.seed.begin, h.seed.end, now) && user !in h.buyers && h.stock == 0
    case _ => false
  }

  ghost predicate Reserved(r: R.Redis, x: R.Redis, user: nat, now: nat, reply: Reply<StreamId>) {
    && r.hash.Some? && r.stream.Some?
    && match reply
       case Ok(t) => x.hash.Some? && x.stream.Some? && Issued(r.hash.value, r.stream.value, x.hash.value, x.stream.value, user, now, t)
       case Err(kind) => x == r && Refused(r.hash.value, user, now, kind)
  }

  lemma NextIdIsLater(last: StreamId, now: nat)
    ensures Before(last, R.NextId(last, now))
  {
  }

  lemma LaterThanLog(seed: Seed, buyers: map<nat, StreamId>, es: seq<Event>, last: StreamId, t: StreamId)
    requires LogInv(seed, buyers, es, last) && Before(last, t)
    ensures forall f :: f in es ==> Before(f.id, t)
    ensures forall u :: u in buyers ==> buyers[u] != t
  {
    forall f | f in es ensures Before(f.id, t) { assert EntryInv(seed, buyers, last, f); }
    forall u | u in buyers ensures buyers[u] != t {
      assert HasTicket(es, u, buyers[u]);
      var e :| e in es && e.user == u && e.id == buyers[u];
    }
  }

  function TicketOf(reply: Reply<Event>): Reply<StreamId> {
    if reply.Ok? then Ok(reply.value.id) else Err(reply.kind)
  }

  lemma ReserveAnswers(l: L.Ledger, r: R.Redis, user: nat, now: nat)
    requires L.LedgerInv(l) && StoresInv(l, r) && l.row.value.state == 2
    ensures var (x, reply) := R.Reserve(r, user, l.row.value.generation, now);
      && Reserved(r, x, user, now, TicketOf(reply))
      && (reply.Ok? ==> reply.value == Event(reply.value.id, user, l.row.value.generation, now))
  {
    hide L.BaseInv, L.AsyncInv, LogInv, ResultsLogged, CompensatedFailed;
    var h, q := r.hash.value, r.stream.value;
    NextIdIsLater(q.lastId, now);
    LaterThanLog(h.seed, h.buyers, R.Entries(q), q.lastId, R.NextId(q.lastId, now));
  }

  // Exactly one entry has the ticket: the new one.
  lemma TicketIsUnique(h: R.Hash, q: R.Stream, g: R.Hash, p: R.Stream, user: nat, now: nat, t: StreamId)
    requires Issued(h, q, g, p, user, now, t)
    ensures forall f :: f in R.Entries(p) && f.id == t <==> f == Event(t, user, h.seed.generation, now)
  {
    var e := Event(t, user, h.seed.generation, now);
    assert R.Entries(p) == R.Entries(q) + [e];
    assert R.Entries(p)[|R.Entries(q)|] == e;
  }

  // The whole answer of an Accept whose reads saw s and left t: with the ticket the user's status is pending.
  ghost predicate Answered(s: System, t: System, user: nat, now: nat, reply: Reply<StreamId>) {
    && s.sql.row.Some? && t.sql == s.sql
    && if s.sql.row.value.state != 2 then reply == Err(Conflict) && t.redis == s.redis
       else Reserved(s.redis, t.redis, user, now, reply) && (reply.Ok? ==> Reads.Status(t, user) == Reads.Pending(reply.value))
  }

  lemma IssuedIsPending(s: System, t: System, user: nat, now: nat, ticket: StreamId)
    requires Inv(s) && Inv(t) && s.sql == t.sql && s.sql.row.value.state == 2 && Reserved(s.redis, t.redis, user, now, Ok(ticket))
    ensures Reads.Status(t, user) == Reads.Pending(ticket)
  {
    hide L.LedgerInv, StoresInv, EnablingInv, AcceptingInv, WorkerInv, Reads.HasResult;
    assert Issued(s.redis.hash.value, s.redis.stream.value, t.redis.hash.value, t.redis.stream.value, user, now, ticket);
    assert !Reads.HasResult(s.sql, user) by {
      if Reads.HasResult(s.sql, user) { Reads.ResultMatchesTicket(s, user); }
    }
    Reads.HasRow(s);
  }

  lemma ReserveStepIs(s: System, c: nat, now: nat)
    requires Inv(s) && c in s.accepting
    ensures s.sql.row.Some? && s.sql.row.value.state == 2 && L.LedgerInv(s.sql) && StoresInv(s.sql, s.redis)
    ensures s.accepting[c].generation == s.sql.row.value.generation
    ensures var n := Next(s, ReserveStep(c, now));
      n.sql == s.sql && n.redis == R.Reserve(s.redis, s.accepting[c].user, s.accepting[c].generation, now).0
  {
    hide L.BaseInv, L.AsyncInv, StoresInv, EnablingInv, WorkerInv, R.Reserve;
    assert AcceptingInv(s.sql, s.accepting[c]);
  }

  // Whatever happened since the caller looked, its reservation is answered like this.
  lemma AttemptIsAnswered(s: System, c: nat, now: nat)
    requires Inv(s) && c in s.accepting
    ensures var a, n := s.accepting[c], Next(s, ReserveStep(c, now));
      Answered(s, n, a.user, now, TicketOf(R.Reserve(s.redis, a.user, a.generation, now).1))
  {
    hide Inv, Next, Reserved, Reads.Status, R.Reserve, L.LedgerInv, StoresInv;
    var a, n := s.accepting[c], Next(s, ReserveStep(c, now));
    var reply := R.Reserve(s.redis, a.user, a.generation, now).1;
    ReserveStepIs(s, c, now);
    NextKeeps(s, ReserveStep(c, now));
    ReserveAnswers(s.sql, s.redis, a.user, now);
    if reply.Ok? { IssuedIsPending(s, n, a.user, now, reply.value.id); }
  }

  // ---- A ticket is kept ----------------------------------------------------------------------------------------

  // Every later Result call of the buyer reports this ticket, pending or with its final outcome, whatever happens
  // before, between and after its reads.
  lemma TicketIsHonoured(s: System, c: nat, now: nat, ts: seq<Step>, us: seq<Step>, vs: seq<Step>)
    requires Inv(s) && c in s.accepting
    requires R.Reserve(s.redis, s.accepting[c].user, s.accepting[c].generation, now).1.Ok?
    ensures var user, ticket := s.accepting[c].user, R.Reserve(s.redis, s.accepting[c].user, s.accepting[c].generation, now).1.value.id;
      var t := Run(Next(s, ReserveStep(c, now)), ts);
      var u := Run(t, us);
      var answer := Reads.Ask(t, u, Run(u, vs), user);
      (answer.Pending? || answer.Final?) && answer.ticket == ticket
  {
    var user, ticket := s.accepting[c].user, R.Reserve(s.redis, s.accepting[c].user, s.accepting[c].generation, now).1.value.id;
    AttemptIsAnswered(s, c, now);
    NextKeeps(s, ReserveStep(c, now));
    hide *;
    var n := Next(s, ReserveStep(c, now));
    AnsweredIsPending(s, n, user, now, ticket);
    var t := Run(n, ts);
    var u := Run(t, us);
    RunKeeps(n, ts);
    Reads.ResultIsLinearizable(t, us, vs, u, Run(u, vs), user);
    HonouredAt(n, ts, us + vs, user, ticket, Reads.Ask(t, u, Run(u, vs), user));
  }

  lemma AnsweredIsPending(s: System, t: System, user: nat, now: nat, ticket: StreamId)
    requires Inv(s) && Answered(s, t, user, now, Ok(ticket))
    ensures t.sql.row.Some? && Reads.Status(t, user) == Reads.Pending(ticket)
  {
  }

  lemma HonouredAt(n: System, ts: seq<Step>, all: seq<Step>, user: nat, ticket: StreamId, answer: Reads.Answer)
    requires Inv(n) && n.sql.row.Some? && Reads.Status(n, user) == Reads.Pending(ticket)
    requires Reads.WasTrue(Run(n, ts), all, user, answer)
    ensures (answer.Pending? || answer.Final?) && answer.ticket == ticket
  {
    hide Run, Inv, Reads.Status;
    var k: nat :| Reads.TrueAt(Run(n, ts), all, k, user, answer);
    Reads.RunSplit(n, ts, all[..k]);
    Reads.StatusAdvances(n, ts + all[..k], Run(n, ts + all[..k]), user);
  }
}
