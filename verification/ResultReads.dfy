// Result reads SQL, then the activity row, then Redis, with any steps in between. Its answer is still
// the user's true status at one instant of the call, and successive answers only move forward.
module ResultReads {
  import opened SeckillModel
  import L = Ledger
  import R = Admission
  import opened Protocol
  import opened ProtocolInvariant

  // What a user is told. A ticket is the event id.
  datatype Answer =
    | NotActive
    | NoTicket
    | Pending(ticket: StreamId)
    | Final(ticket: StreamId, verdict: Verdict)
    | Broken

  ghost predicate HasResult(l: L.Ledger, user: nat) {
    exists id :: id in l.results && l.results[id].event.user == user
  }

  // SELECT ... WHERE voucher_id = ? AND user_id = ?
  ghost function ResultOf(l: L.Ledger, user: nat): ResultRow
    requires HasResult(l, user)
  {
    var id :| id in l.results && l.results[id].event.user == user;
    l.results[id]
  }

  // The three reads of one call, made in the states s, t and u.
  ghost function Ask(s: System, t: System, u: System, user: nat): Answer {
    if HasResult(s.sql, user) then Final(ResultOf(s.sql, user).event.id, ResultOf(s.sql, user).verdict)
    else if t.sql.row.None? || t.sql.row.value.state != 2 then NotActive
    else
      var receipt := R.Receipt(u.redis, user);
      if receipt.Ok? then
        if receipt.value.generation != t.sql.row.value.generation then Broken else Pending(receipt.value.id)
      else if receipt.kind == NotFound then NoTicket
      else Broken
  }

  // The status of a user in one state, defined on the whole state at once.
  ghost function Status(s: System, user: nat): Answer
    requires s.sql.row.Some?
  {
    if HasResult(s.sql, user) then Final(ResultOf(s.sql, user).event.id, ResultOf(s.sql, user).verdict)
    else if s.sql.row.value.state != 2 || !Live(s) then NotActive
    else if user in s.redis.hash.value.buyers then Pending(s.redis.hash.value.buyers[user])
    else NoTicket
  }

  // Progress of a user's status; a ticket and a final outcome never change.
  predicate Advances(a: Answer, b: Answer) {
    match a
    case NotActive => true
    case NoTicket => !b.NotActive? && !b.Broken?
    case Pending(ticket) => (b.Pending? || b.Final?) && b.ticket == ticket
    case Final(_, _) => b == a
    case Broken => false
  }

  // ---- Lookups ---------------------------------------------------------------------------------------

  lemma {:induction false} FindLogged(es: seq<Event>, e: Event)
    requires e in es && UniqueIds(es)
    ensures R.Find(es, e.id) == Some(e)
  {
    if es[0].id != e.id {
      assert e in es[1..];
      assert UniqueIds(es[1..]) by { forall f | f in es[1..] ensures f in es {} }
      FindLogged(es[1..], e);
    }
  }

  // The receipt script finds the ticket of every buyer; its corruption branches are unreachable.
  lemma ReceiptFindsTicket(s: System, user: nat)
    requires Inv(s) && Live(s)
    ensures var h, reply := s.redis.hash.value, R.Receipt(s.redis, user);
      if user in h.buyers then
        reply.Ok? && reply.value.id == h.buyers[user] && reply.value.user == user && reply.value.generation == h.seed.generation
      else reply == Err(NotFound)
  {
    hide L.LedgerInv, EnablingInv, AcceptingInv, WorkerInv;
    var h, q := s.redis.hash.value, s.redis.stream.value;
    if user in h.buyers {
      assert HasTicket(R.Entries(q), user, h.buyers[user]);
      var e :| e in R.Entries(q) && e.user == user && e.id == h.buyers[user];
      assert EntryInv(h.seed, h.buyers, q.lastId, e);
      FindLogged(R.Entries(q), e);
    }
  }

  lemma ResultMatchesTicket(s: System, user: nat)
    requires Inv(s) && HasResult(s.sql, user)
    ensures Live(s) && user in s.redis.hash.value.buyers
    ensures ResultOf(s.sql, user).event.id == s.redis.hash.value.buyers[user]
  {
    hide EnablingInv, AcceptingInv, WorkerInv, L.BaseInv, L.AsyncInv;
    var row := ResultOf(s.sql, user);
    assert s.sql.results != map[];
    assert row.event in R.Entries(s.redis.stream.value);
    LoggedIsAdmissible(s.sql, s.redis, row.event);
  }

  lemma SameResult(s: System, t: System, user: nat)
    requires Inv(s) && Inv(t) && SystemGrows(s, t) && HasResult(s.sql, user)
    ensures HasResult(t.sql, user) && ResultOf(t.sql, user) == ResultOf(s.sql, user)
  {
    hide EnablingInv, AcceptingInv, WorkerInv, L.BaseInv, StoresInv;
    var row := ResultOf(s.sql, user);
    var id :| id in s.sql.results && s.sql.results[id] == row;
    assert t.sql.results[id] == row;
    assert t.sql.row.value.state >= 1;
  }

  // ---- Monotone status -------------------------------------------------------------------------------

  lemma StatusGrows(s: System, t: System, user: nat)
    requires Inv(s) && Inv(t) && SystemGrows(s, t)
    ensures Advances(Status(s, user), Status(t, user))
  {
    hide EnablingInv, AcceptingInv, WorkerInv, L.BaseInv, L.AsyncInv, StoresInv, StreamGrows, HasResult;
    if HasResult(s.sql, user) { SameResult(s, t, user); }
    else if HasResult(t.sql, user) { ResultMatchesTicket(t, user); }
  }

  // Along every run a status only moves from not active to no ticket to pending to one final outcome.
  lemma StatusAdvances(s: System, ts: seq<Step>, t: System, user: nat)
    requires Inv(s) && t == Run(s, ts)
    ensures s.sql.row.Some? && Inv(t) && t.sql.row.Some? && Advances(Status(s, user), Status(t, user))
  {
    hide Status, Advances;
    RunKeeps(s, ts);
    StatusGrows(s, t, user);
  }

  // ---- Linearizability -------------------------------------------------------------------------------

  ghost function At(s: System, ts: seq<Step>, k: nat): System
    requires k <= |ts|
  {
    Run(s, ts[..k])
  }

  ghost predicate TrueAt(s: System, ts: seq<Step>, k: nat, user: nat, answer: Answer) {
    k <= |ts| && At(s, ts, k).sql.row.Some? && Status(At(s, ts, k), user) == answer
  }

  // At some instant of the run the user's status was `answer`.
  ghost predicate WasTrue(s: System, ts: seq<Step>, user: nat, answer: Answer) {
    exists k: nat :: TrueAt(s, ts, k, user, answer)
  }

  lemma {:induction false} RunSplit(s: System, ts: seq<Step>, us: seq<Step>)
    ensures Run(s, ts + us) == Run(Run(s, ts), us)
    decreases |ts|
  {
    hide Next;
    if ts == [] { assert [] + us == us; }
    else {
      assert (ts + us)[1..] == ts[1..] + us;
      RunSplit(Next(s, ts[0]), ts[1..], us);
    }
  }

  lemma AtStep(s: System, ts: seq<Step>, j: nat)
    requires ts != [] && j < |ts|
    ensures At(s, ts, j + 1) == At(Next(s, ts[0]), ts[1..], j)
  {
    hide Next;
    assert ts[..j + 1][1..] == ts[1..][..j];
  }

  // A buyer marker that is absent at the start and present at the end appears at some instant, and at
  // that instant the user is pending: the marker exists and no outcome can be committed yet.
  lemma {:induction false} PendingInstant(s: System, ts: seq<Step>, user: nat) returns (k: nat)
    requires Inv(s) && !HasResult(s.sql, user)
    requires Live(Run(s, ts)) && user in Run(s, ts).redis.hash.value.buyers
    ensures TrueAt(s, ts, k, user, Pending(Run(s, ts).redis.hash.value.buyers[user]))
    decreases |ts|
  {
    hide Next, EnablingInv, AcceptingInv, WorkerInv, L.BaseInv, L.AsyncInv, StoresInv;
    if Live(s) && user in s.redis.hash.value.buyers {
      k := 0;
      RunKeeps(s, ts);
      assert At(s, ts, 0) == s;
      BuyersNeedActive(s, user);
    } else {
      assert ts != [];
      NextKeeps(s, ts[0]);
      NoResultWithoutMarker(s, ts[0], user);
      var j := PendingInstant(Next(s, ts[0]), ts[1..], user);
      AtStep(s, ts, j);
      k := j + 1;
    }
  }

  lemma BuyersNeedActive(s: System, user: nat)
    requires Inv(s) && Live(s) && user in s.redis.hash.value.buyers
    ensures s.sql.row.value.state == 2
  {
  }

  lemma AppliedHasMarker(s: System, w: nat, user: nat)
    requires Inv(s) && HasResult(Next(s, ApplyStep(w)).sql, user) && !HasResult(s.sql, user)
    ensures Live(s) && user in s.redis.hash.value.buyers
  {
    hide EnablingInv, AcceptingInv, L.BaseInv, L.AsyncInv;
    var k := Held(s, w);
    assert WorkerInv(s.sql, s.redis, k);
    assert k.batch[0] in k.batch;
    assert k.batch[0] in R.Entries(s.redis.stream.value);
    LoggedIsAdmissible(s.sql, s.redis, k.batch[0]);
    ApplyOnlyAdds(s.sql, k.batch[0]);
  }

  lemma NoResultWithoutMarker(s: System, t: Step, user: nat)
    requires Inv(s) && !(Live(s) && user in s.redis.hash.value.buyers)
    ensures !HasResult(Next(s, t).sql, user)
  {
    hide Inv, Next;
    if HasResult(s.sql, user) { ResultMatchesTicket(s, user); }
    if HasResult(Next(s, t).sql, user) {
      if t.ApplyStep? { AppliedHasMarker(s, t.worker, user); } else { OnlyApplyRecords(s, t); }
    }
  }

  // Whatever happens between the three reads, the answer was true at one instant of the call, and the
  // answer is never the "broken state" error.
  lemma ResultIsLinearizable(s: System, ts: seq<Step>, us: seq<Step>, t: System, u: System, user: nat)
    requires Inv(s) && t == Run(s, ts) && u == Run(t, us)
    ensures !Ask(s, t, u, user).Broken?
    ensures WasTrue(s, ts + us, user, Ask(s, t, u, user))
  {
    hide Next, Run, Inv, HashGrows, StreamGrows, R.Receipt, HasResult;
    RunKeeps(s, ts);
    RunKeeps(t, us);
    RunSplit(s, ts, us);
    var all := ts + us;
    Ends(s, all);
    HasRow(s); HasRow(t); HasRow(u);
    if HasResult(s.sql, user) {
      assert TrueAt(s, all, 0, user, Ask(s, t, u, user));
    } else if t.sql.row.value.state != 2 {
      assert all[..|ts|] == ts;
      NoResultBeforeActive(t, user);
      assert TrueAt(s, all, |ts|, user, NotActive);
    } else {
      LiveWhenActive(t);
      LiveWhenActive(u);
      ReceiptFindsTicket(u, user);
      if user in u.redis.hash.value.buyers {
        var k := PendingInstant(s, all, user);
      } else {
        if HasResult(u.sql, user) { ResultMatchesTicket(u, user); }
        assert TrueAt(s, all, |all|, user, NoTicket);
      }
    }
  }

  lemma Ends(s: System, ts: seq<Step>)
    ensures At(s, ts, 0) == s && At(s, ts, |ts|) == Run(s, ts)
  {
    assert ts[..|ts|] == ts;
  }

  lemma HasRow(s: System)
    requires Inv(s)
    ensures s.sql.row.Some? && s.sql.row.value.state <= 2
  {
  }

  lemma NoResultBeforeActive(s: System, user: nat)
    requires Inv(s) && s.sql.row.value.state != 2
    ensures !HasResult(s.sql, user)
  {
  }

  lemma LiveWhenActive(s: System)
    requires Inv(s) && s.sql.row.value.state == 2
    ensures Live(s) && s.redis.hash.value.seed == SeedOf(s.sql.row.value)
  {
  }

  lemma RunFrom(s: System, ts: seq<Step>, k: nat)
    requires k <= |ts|
    ensures Run(At(s, ts, k), ts[k..]) == Run(s, ts)
  {
    RunSplit(s, ts[..k], ts[k..]);
    assert ts[..k] + ts[k..] == ts;
  }

  // A second call that starts after the first has ended never goes backwards.
  lemma AnswersAdvance(s: System, ts: seq<Step>, us: seq<Step>, gap: seq<Step>, vs: seq<Step>, ws: seq<Step>, user: nat)
    requires Inv(s)
    ensures
      var t := Run(s, ts);
      var u := Run(t, us);
      var x := Run(u, gap);
      var y := Run(x, vs);
      Advances(Ask(s, t, u, user), Ask(x, y, Run(y, ws), user))
  {
    hide *;
    var t := Run(s, ts);
    RunKeeps(s, ts);
    RunKeeps(t, us);
    var u := Run(t, us);
    RunKeeps(u, gap);
    var x := Run(u, gap);
    var y := Run(x, vs);
    RunSplit(s, ts, us);
    ResultIsLinearizable(s, ts, us, t, u, user);
    ResultIsLinearizable(x, vs, ws, y, Run(y, ws), user);
    InstantsAdvance(s, ts + us, gap, vs + ws, user, Ask(s, t, u, user), Ask(x, y, Run(y, ws), user));
  }

  lemma InstantsAdvance(s: System, all: seq<Step>, gap: seq<Step>, rest: seq<Step>, user: nat, a: Answer, b: Answer)
    requires Inv(s) && WasTrue(s, all, user, a) && WasTrue(Run(Run(s, all), gap), rest, user, b)
    ensures Advances(a, b)
  {
    hide Run, Inv, Status, Advances, SystemGrows;
    var x := Run(Run(s, all), gap);
    var k: nat :| TrueAt(s, all, k, user, a);
    var j: nat :| TrueAt(x, rest, j, user, b);
    var p, q := At(s, all, k), At(x, rest, j);
    RunFrom(s, all, k);
    RunSplit(p, all[k..], gap);
    RunSplit(p, all[k..] + gap, rest[..j]);
    RunKeeps(s, all[..k]);
    StatusAdvances(p, all[k..] + gap + rest[..j], q, user);
  }
}
