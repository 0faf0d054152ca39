// Every reachable reservation survives its text forms.
module WireAgreement {
  import opened SeckillModel
  import L = Ledger
  import R = Admission
  import opened Protocol
  import opened ProtocolInvariant
  import C = Codec
  import Tickets = SeckillTickets

  // Whatever the run, each entry of the stream decodes to the same event from the reserve reply, the receipt
  // reply and the stream message, and no other entry has its ticket.
  lemma AdmittedEventsDecode(s: System, ts: seq<Step>, t: System, voucher: nat, e: Event)
    requires Init(s) && t == Run(s, ts) && Live(t) && e in R.Entries(t.redis.stream.value)
    requires 0 < voucher <= C.MAX_UINT64 && 0 < e.user <= C.MAX_UINT64
    ensures C.Encodable(voucher, e)
    ensures C.DecodeReply(C.ReserveReply(e), voucher, e.user) == Ok(C.Wire(voucher, e))
    ensures C.DecodeReply(C.ReceiptReply(Some(C.IdText(e.id)), [C.EntryFields(voucher, e)], C.FormatUint(voucher),
                                         C.FormatUint(e.user), e.generation), voucher, e.user) == Ok(C.Wire(voucher, e))
    ensures C.DecodeMessage(voucher, C.MessageOf(voucher, e)) == Some(C.Wire(voucher, e))
    ensures forall f :: f in R.Entries(t.redis.stream.value) && C.IdText(f.id) == C.IdText(e.id) ==> f == e
  {
    hide C.DecodeReply, C.ReserveReply, C.ReceiptReply, C.DecodeMessage, C.MessageOf, C.Wire, C.EntryFields, C.IdText, L.LedgerInv, Run;
    Reachable(s, ts);
    LoggedIsAdmissible(t.sql, t.redis, e);
    assert C.Encodable(voucher, e);
    C.EventRoutesAgree(voucher, e);
    forall f | f in R.Entries(t.redis.stream.value) && C.IdText(f.id) == C.IdText(e.id) ensures f == e {
      C.TicketsAreUnique(f.id, e.id);
    }
  }

  lemma FitSnapshot(l: L.Ledger, r: R.Redis)
    requires L.LedgerInv(l) && StoresInv(l, r) && l.row.value.state == 2
    ensures r.hash.Some? && ValidGeneration(l.row.value.generation) && r.hash.value.seed.generation == l.row.value.generation
    ensures 0 <= r.hash.value.seed.begin && r.hash.value.seed.end <= MAX_EXACT
  {
    hide L.BaseInv, LogInv, ResultsLogged, CompensatedFailed, ValidGeneration, R.Pristine;
  }

  // What a reservation can be decoded to: the event fits the text forms, and a refusal has a public code.
  lemma ReservedFits(r: R.Redis, x: R.Redis, user: nat, now: nat, reply: Reply<StreamId>)
    requires Tickets.Reserved(r, x, user, now, reply) && 0 <= r.hash.value.seed.begin && r.hash.value.seed.end <= MAX_EXACT
    ensures reply.Ok? ==> now <= MAX_EXACT
    ensures reply.Err? ==> reply.kind in C.PUBLIC
  {
  }

  // What the service decodes from the reserve script is what the script decided: the admitted event, or its reason.
  lemma ReservationsDecode(s: System, c: nat, now: nat, voucher: nat)
    requires Inv(s) && c in s.accepting && 0 < voucher <= C.MAX_UINT64 && 0 < s.accepting[c].user <= C.MAX_UINT64
    ensures var user, reply := s.accepting[c].user, R.Reserve(s.redis, s.accepting[c].user, s.accepting[c].generation, now).1;
      (reply.Ok? ==> reply.value.acceptedMs >= 0) &&
      match reply
      case Ok(e) => C.DecodeReply(C.ScriptReply(reply), voucher, user) == Ok(C.Wire(voucher, e))
      case Err(kind) => C.DecodeReply(C.ScriptReply(reply), voucher, user) == Err(kind)
  {
    hide C.DecodeReply, C.ReserveReply, C.CodeOf, C.Wire, Inv, R.Reserve, ValidGeneration, Tickets.Reserved, Next, L.LedgerInv, StoresInv;
    var user, reply := s.accepting[c].user, R.Reserve(s.redis, s.accepting[c].user, s.accepting[c].generation, now).1;
    Tickets.ReserveStepIs(s, c, now);
    Tickets.ReserveAnswers(s.sql, s.redis, user, now);
    FitSnapshot(s.sql, s.redis);
    ReservedFits(s.redis, R.Reserve(s.redis, user, s.accepting[c].generation, now).0, user, now, Tickets.TicketOf(reply));
    if reply.Ok? { C.AcceptedDecodes(voucher, reply.value); } else { C.RefusalDecodes(reply.kind, voucher, user); }
  }
}
