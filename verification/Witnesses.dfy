// Concrete runs: the theorems about reachable, opened and resting states speak about something.
module Witnesses {
  import opened SeckillModel
  import L = Ledger
  import R = Admission
  import opened Protocol
  import opened ProtocolInvariant
  import T = ProtocolTheorems
  import Reads = ResultReads

  const TOKEN := "0123456789abcdef0123456789abcdef"

  // The only reservation: user 7 at time 5.
  const TICKET := StreamId(5, 0)
  const SALE := Event(TICKET, 7, TOKEN, 5)

  // One unit on sale in [0, 10), one registered user, nothing enabled yet.
  function Shelf(): System {
    System(L.Ledger(Some(Activity(0, "", 0, 1, 0, 10)), {7}, map[], map[], 1), R.Redis(None, None), map[], map[], map[])
  }

  function Row(): Activity {
    Activity(2, TOKEN, 1, 1, 0, 10)
  }

  function Opened(): System {
    System(L.Ledger(Some(Row()), {7}, map[], map[], 1),
           R.Redis(Some(R.Hash(SeedOf(Row()), 1, map[], {})), Some(R.EmptyStream())), map[], map[], map[])
  }

  // The reservation is made and delivered to worker 0.
  function Delivered(): System {
    Opened().(redis := R.Redis(Some(R.Hash(SeedOf(Row()), 0, map[7 := TICKET], {})),
                               Some(R.Stream([SALE], [], TICKET, [R.GROUP], {TICKET}))),
              workers := map[0 := Worker([SALE], Fetched)])
  }

  ghost predicate Reaches(s: System, t: System) {
    exists ts :: Run(s, ts) == t
  }

  lemma ReachesNext(s: System, t: System, step: Step)
    requires Reaches(s, t)
    ensures Reaches(s, Next(t, step))
  {
    hide Next;
    var ts :| Run(s, ts) == t;
    Reads.RunSplit(s, ts, [step]);
    assert Run(t, [step]) == Next(t, step);
  }

  lemma ReachesSelf(s: System)
    ensures Reaches(s, s)
  {
    assert Run(s, []) == s;
  }

  function Prepared(): System {
    Opened().(sql := Opened().sql.(row := Some(Row().(state := 1))), enabling := map[0 := Enabling.Prepared(SeedOf(Row()))])
  }

  lemma PreparationHappens()
    ensures Init(Shelf()) && Reaches(Shelf(), Prepared())
  {
    assert ValidGeneration(TOKEN);
    ReachesSelf(Shelf());
    hide ValidGeneration, Reaches;
    var row := Row().(state := 1);
    ReachesNext(Shelf(), Shelf(), StageStep(0, 1, TOKEN));
    var s1 := Shelf().(sql := Prepared().sql, enabling := map[0 := Staged(SeedOf(row), 1)]);
    assert Next(Shelf(), StageStep(0, 1, TOKEN)) == s1;
    ReachesNext(Shelf(), s1, PrepareStep(0));
    assert Next(s1, PrepareStep(0)) == Prepared();
  }

  lemma OpeningHappens()
    ensures Init(Shelf()) && Reaches(Shelf(), Opened())
  {
    PreparationHappens();
    hide Reaches, Init;
    ReachesNext(Shelf(), Prepared(), CheckStep(0));
    var s3 := Prepared().(enabling := map[0 := Checked(SeedOf(Row()))]);
    assert Next(Prepared(), CheckStep(0)) == s3;
    ReachesNext(Shelf(), s3, ActivateStep(0));
    assert Next(s3, ActivateStep(0)) == Opened();
  }

  // The reservation is made and still waits in the stream.
  function Reserved(): System {
    Opened().(redis := R.Redis(Some(R.Hash(SeedOf(Row()), 0, map[7 := TICKET], {})),
                               Some(R.Stream([], [SALE], TICKET, [R.GROUP], {}))))
  }

  lemma ReserveTakesTheUnit()
    ensures R.Reserve(Opened().redis, 7, TOKEN, 5) == (Reserved().redis, Ok(SALE))
  {
    assert ValidGeneration(TOKEN);
    hide ValidGeneration;
    var (x, reply) := R.Reserve(Opened().redis, 7, TOKEN, 5);
    assert reply == Ok(SALE) && x.hash == Reserved().redis.hash;
    assert x.stream.value.waiting == [SALE];
  }

  lemma ReservationHappens()
    ensures Reaches(Shelf(), Reserved())
  {
    OpeningHappens();
    ReserveTakesTheUnit();
    hide Reaches, R.Reserve;
    ReachesNext(Shelf(), Opened(), LookStep(0, 7));
    var s1 := Opened().(accepting := map[0 := Accepting(7, TOKEN)]);
    assert Next(Opened(), LookStep(0, 7)) == s1;
    ReachesNext(Shelf(), s1, ReserveStep(0, 5));
    assert Next(s1, ReserveStep(0, 5)).accepting == map[];
  }

  lemma DeliveryHappens()
    ensures Reaches(Shelf(), Delivered())
  {
    ReservationHappens();
    hide Reaches;
    ReachesNext(Shelf(), Reserved(), ReadStep(0, 20));
    assert [SALE][..1] == [SALE] && [SALE][1..] == [] && R.Ids([SALE]) == {TICKET};
    var (x, reply) := R.Read(Reserved().redis, 20);
    assert reply == Ok([SALE]) && x.stream.value.delivered == [SALE] && x.stream.value.waiting == [];
    assert x.stream.value.pending == R.Ids([SALE]) == {TICKET};
    assert x.hash == Delivered().redis.hash && x.stream == Delivered().redis.stream;
    assert [] + [SALE] == [SALE];
  }

  // A sale: one order, no stock left in either store, nothing in flight.
  lemma SaleHappens()
    ensures exists t :: Reaches(Shelf(), t) && T.Quiescent(t) && Live(t) &&
              t.sql.orders == map[1 := 7] && t.sql.row.value.stock == t.redis.hash.value.stock == 0
  {
    DeliveryHappens();
    hide Reaches;
    var s1 := Next(Delivered(), ApplyStep(0));
    ReachesNext(Shelf(), Delivered(), ApplyStep(0));
    assert s1.workers[0] == Worker([SALE], Applied(Created(1))) && s1.sql.orders == map[1 := 7];
    var s2 := Next(s1, AckStep(0));
    ReachesNext(Shelf(), s1, AckStep(0));
    assert s2.redis.stream.value.pending == {} && s2.sql == s1.sql;
  }

  // The buyer is deleted before the event is applied.
  function Refused(): System {
    Delivered().(sql := Delivered().sql.(users := {}, results := map[TICKET := ResultRow(SALE, Failed(UserNotFound))]),
                 workers := map[0 := Worker([SALE], Applied(Failed(UserNotFound)))])
  }

  lemma RefusalHappens()
    ensures Reaches(Shelf(), Refused())
  {
    DeliveryHappens();
    hide Reaches;
    ReachesNext(Shelf(), Delivered(), DeleteStep(7));
    var s1 := Delivered().(sql := Delivered().sql.(users := {}));
    assert Next(Delivered(), DeleteStep(7)) == s1;
    ReachesNext(Shelf(), s1, ApplyStep(0));
    assert Next(s1, ApplyStep(0)) == Refused();
  }

  // A deleted buyer: the event fails, its unit returns once, and no order exists.
  lemma FailureHappens()
    ensures exists t :: Reaches(Shelf(), t) && T.Quiescent(t) && Live(t) && t.sql.orders == map[] &&
              T.FailedIds(t.sql) == {TICKET} == t.redis.hash.value.compensated &&
              t.sql.row.value.stock == t.redis.hash.value.stock == 1
  {
    RefusalHappens();
    hide Reaches;
    ReachesNext(Shelf(), Refused(), CompensateStep(0));
    var s3 := Next(Refused(), CompensateStep(0));
    assert s3.workers[0] == Worker([SALE], Restored) && s3.redis.hash.value.compensated == {TICKET};
    ReachesNext(Shelf(), s3, AckStep(0));
    var s4 := Next(s3, AckStep(0));
    assert s4.redis.stream.value.pending == {} && s4.sql == Refused().sql;
  }
}
