// The bounded singleflight group of shop refreshes and its shutdown. Every step is one critical section of the mutex.
module ShopFlight {
  import opened SeckillModel

  const MAX_REFRESH := 64

  // What a finished job leaves in its call for the waiters: a row, or the error that replaces it.
  datatype Outcome = Found(row: nat) | Broken(kind: Kind)

  datatype Flight = Flight(
    inflight: map<nat, nat>,     // shop -> call
    running: map<nat, nat>,      // call -> shop, one entry per live goroutine
    doneCloses: map<nat, nat>,   // how often each call's done channel was closed
    outcomes: map<nat, Outcome>,
    calls: nat,                  // calls made so far; the next one gets this number
    closed: bool,
    drainedCloses: nat)

  const INIT := Flight(map[], map[], map[], map[], 0, false, 0)

  datatype Step = Refresh(shop: nat) | Finish(call: nat, outcome: Outcome) | Close

  function Answer(s: Flight, shop: nat): Reply<nat> {
    if s.closed then Err(Dependency)
    else if shop in s.inflight then Ok(s.inflight[shop])
    else if |s.inflight| >= MAX_REFRESH then Err(RateLimited)
    else Ok(s.calls)
  }

  function Without(m: map<nat, nat>, key: nat): map<nat, nat> {
    m - {key}
  }

  function Next(s: Flight, step: Step): Flight {
    match step
    case Refresh(shop) =>
      if s.closed || shop in s.inflight || |s.inflight| >= MAX_REFRESH then s
      else
        s.(inflight := s.inflight[shop := s.calls], running := s.running[s.calls := shop],
           doneCloses := s.doneCloses[s.calls := 0], calls := s.calls + 1)
    case Finish(call, outcome) =>
      // The deferred function of a job that runs: it deletes whatever call its shop has.
      if call !in s.running || call !in s.doneCloses then s
      else
        var rest := Without(s.inflight, s.running[call]);
        s.(inflight := rest, running := Without(s.running, call), outcomes := s.outcomes[call := outcome],
           doneCloses := s.doneCloses[call := s.doneCloses[call] + 1],
           drainedCloses := s.drainedCloses + if s.closed && |rest| == 0 then 1 else 0)
    case Close =>
      if s.closed then s
      else s.(closed := true, drainedCloses := s.drainedCloses + if |s.inflight| == 0 then 1 else 0)
  }

  function Run(s: Flight, steps: seq<Step>): Flight
    decreases |steps|
  {
    if steps == [] then s else Next(Run(s, steps[..|steps|-1]), steps[|steps|-1])
  }

  // ---- Invariant over every interleaving -----------------------------------------------------------------

  // Entries and jobs pair off: each entry's call runs for that shop, each running job is its shop's entry.
  ghost predicate OneToOne(inflight: map<nat, nat>, running: map<nat, nat>) {
    && (forall shop :: shop in inflight ==> inflight[shop] in running && running[inflight[shop]] == shop)
    && (forall call :: call in running ==> running[call] in inflight && inflight[running[call]] == call)
    && |inflight| == |running|
  }

  // A done channel is closed exactly once, and exactly when the job is over and its outcome is there to read.
  ghost predicate ClosedOnce(running: map<nat, nat>, doneCloses: map<nat, nat>, outcomes: map<nat, Outcome>, calls: nat) {
    && (forall call: nat :: call in doneCloses <==> call < calls)
    && (forall call: nat :: call in running ==> call < calls)
    && (forall call: nat :: call in outcomes <==> call < calls && call !in running)
    && (forall call: nat :: call in doneCloses ==> doneCloses[call] == if call in running then 0 else 1)
  }

  ghost predicate Inv(s: Flight) {
    && OneToOne(s.inflight, s.running) && |s.inflight| <= MAX_REFRESH
    && ClosedOnce(s.running, s.doneCloses, s.outcomes, s.calls)
    && s.drainedCloses == if s.closed && s.inflight == map[] then 1 else 0
  }

  lemma StartedCount(m: map<nat, nat>, key: nat, value: nat)
    requires key !in m
    ensures |m[key := value]| == |m| + 1
  {
    assert m[key := value].Keys == m.Keys + {key};
  }

  lemma EndedCount(m: map<nat, nat>, key: nat)
    requires key in m
    ensures |m - {key}| == |m| - 1
  {
    assert (m - {key}).Keys == m.Keys - {key};
  }

  lemma Started(inflight: map<nat, nat>, running: map<nat, nat>, shop: nat, call: nat)
    requires OneToOne(inflight, running) && shop !in inflight && call !in running
    ensures OneToOne(inflight[shop := call], running[call := shop])
    ensures |inflight[shop := call]| == |inflight| + 1
  {
    StartedCount(inflight, shop, call);
    StartedCount(running, call, shop);
  }

  lemma Ended(inflight: map<nat, nat>, running: map<nat, nat>, call: nat)
    requires OneToOne(inflight, running) && call in running
    ensures OneToOne(inflight - {running[call]}, running - {call})
    ensures |inflight - {running[call]}| == |inflight| - 1
  {
    EndedCount(inflight, running[call]);
    EndedCount(running, call);
  }

  lemma StartedOpen(running: map<nat, nat>, doneCloses: map<nat, nat>, outcomes: map<nat, Outcome>, calls: nat, shop: nat)
    requires ClosedOnce(running, doneCloses, outcomes, calls)
    ensures ClosedOnce(running[calls := shop], doneCloses[calls := 0], outcomes, calls + 1)
  {
  }

  lemma EndedClosed(running: map<nat, nat>, doneCloses: map<nat, nat>, outcomes: map<nat, Outcome>, calls: nat,
                    call: nat, outcome: Outcome)
    requires ClosedOnce(running, doneCloses, outcomes, calls) && call in running
    ensures call in doneCloses && doneCloses[call] == 0
    ensures ClosedOnce(running - {call}, doneCloses[call := 1], outcomes[call := outcome], calls)
  {
  }

  lemma StartKeeps(s: Flight, shop: nat)
    requires Inv(s) && !s.closed && shop !in s.inflight && |s.inflight| < MAX_REFRESH
    ensures Inv(Next(s, Refresh(shop)))
  {
    assert s.calls !in s.running;
    hide OneToOne, ClosedOnce;
    Started(s.inflight, s.running, shop, s.calls);
    StartedOpen(s.running, s.doneCloses, s.outcomes, s.calls, shop);
  }

  lemma EndKeeps(s: Flight, call: nat, outcome: Outcome)
    requires Inv(s) && call in s.running
    ensures Inv(Next(s, Finish(call, outcome)))
  {
    hide OneToOne, ClosedOnce;
    Ended(s.inflight, s.running, call);
    EndedClosed(s.running, s.doneCloses, s.outcomes, s.calls, call, outcome);
    assert |s.inflight| > 0 && s.drainedCloses == 0;
  }

  lemma NextKeeps(s: Flight, step: Step)
    requires Inv(s)
    ensures Inv(Next(s, step))
  {
    hide OneToOne, ClosedOnce;
    if step.Refresh? && Next(s, step) != s { StartKeeps(s, step.shop); }
    if step.Finish? && Next(s, step) != s { EndKeeps(s, step.call, step.outcome); }
  }

  lemma {:induction false} RunKeeps(steps: seq<Step>)
    ensures Inv(Run(INIT, steps))
  {
    if steps != [] {
      RunKeeps(steps[..|steps|-1]);
      NextKeeps(Run(INIT, steps[..|steps|-1]), steps[|steps|-1]);
    }
  }

  // No interleaving closes a channel twice, starts two jobs for one shop or exceeds the bound; a waiter's call
  // either still runs or has its outcome; drained is closed exactly when the group is closed and empty.
  lemma EveryInterleaving(steps: seq<Step>, call: nat)
    ensures var s := Run(INIT, steps);
      && |s.running| == |s.inflight| <= MAX_REFRESH
      && (forall a, b :: a in s.running && b in s.running && s.running[a] == s.running[b] ==> a == b)
      && (call < s.calls ==> call in s.doneCloses && s.doneCloses[call] <= 1)
      && (call < s.calls ==> (call in s.running <==> s.doneCloses[call] == 0) && (call in s.outcomes <==> s.doneCloses[call] == 1))
      && s.drainedCloses <= 1 && (s.drainedCloses == 1 <==> s.closed && s.running == map[])
  {
    RunKeeps(steps);
    var s := Run(INIT, steps);
    assert s.inflight == map[] <==> s.running == map[] by {
      if s.running == map[] { assert forall shop :: shop in s.inflight ==> s.inflight[shop] in s.running; }
    }
  }

  // A caller gets a call that runs for its shop: the one already running, or a new one.
  lemma AnswerIsShared(steps: seq<Step>, shop: nat)
    ensures var s := Run(INIT, steps); var t := Next(s, Refresh(shop)); var answer := Answer(s, shop);
      && (answer.Ok? ==> answer.value in t.running && t.running[answer.value] == shop)
      && (answer.Ok? && shop in s.inflight ==> t == s)
      && (answer.Err? <==> s.closed || (shop !in s.inflight && |s.inflight| == MAX_REFRESH))
      && (answer.Err? ==> t == s && answer.kind == (if s.closed then Dependency else RateLimited))
  {
    RunKeeps(steps);
  }

  // ---- Outcomes -----------------------------------------------------------------------------------------------

  // Step k of the run is the end of this running call, with this outcome.
  ghost predicate EndsWith(steps: seq<Step>, k: nat, call: nat, outcome: Outcome) {
    k < |steps| && steps[k] == Finish(call, outcome) && call in Run(INIT, steps[..k]).running
  }

  lemma PrefixRun(steps: seq<Step>, n: nat)
    requires 0 < n <= |steps|
    ensures Run(INIT, steps[..n]) == Next(Run(INIT, steps[..n - 1]), steps[n - 1])
  {
    assert steps[..n][..n - 1] == steps[..n - 1];
  }

  // A step leaves every outcome alone and adds one only when it ends that call; a running call keeps its shop.
  lemma StepKeepsOutcomes(s: Flight, step: Step, call: nat)
    requires Inv(s)
    ensures var t := Next(s, step);
      && (call in s.outcomes ==> call in t.outcomes && t.outcomes[call] == s.outcomes[call])
      && (call in t.outcomes && call !in s.outcomes ==> step == Finish(call, t.outcomes[call]) && call in s.running)
      && (call in t.running && call < s.calls ==> call in s.running && t.running[call] == s.running[call])
      && (step.Finish? && step.call in s.running ==> step.call in t.outcomes && t.outcomes[step.call] == step.outcome)
      && s.calls <= t.calls && (call in s.running ==> call < s.calls)
  {
  }

  lemma {:induction false} OutcomeStays(steps: seq<Step>, m: nat, n: nat, call: nat)
    requires m <= n <= |steps| && call in Run(INIT, steps[..m]).outcomes
    ensures call in Run(INIT, steps[..n]).outcomes && Run(INIT, steps[..n]).outcomes[call] == Run(INIT, steps[..m]).outcomes[call]
    decreases n
  {
    hide Inv, Next, Run;
    if m < n {
      OutcomeStays(steps, m, n - 1, call);
      RunKeeps(steps[..n - 1]);
      StepKeepsOutcomes(Run(INIT, steps[..n - 1]), steps[n - 1], call);
      PrefixRun(steps, n);
    }
  }

  lemma {:induction false} ShopStays(steps: seq<Step>, m: nat, n: nat, call: nat)
    requires m <= n <= |steps| && call in Run(INIT, steps[..m]).running && call in Run(INIT, steps[..n]).running
    ensures Run(INIT, steps[..n]).running[call] == Run(INIT, steps[..m]).running[call]
    ensures call < Run(INIT, steps[..n]).calls
    decreases n
  {
    hide Inv, Next, Run;
    RunKeeps(steps[..m]);
    StepKeepsOutcomes(Run(INIT, steps[..m]), Close, call);
    if m < n {
      CallsGrow(steps, m, n - 1);
      RunKeeps(steps[..n - 1]);
      StepKeepsOutcomes(Run(INIT, steps[..n - 1]), steps[n - 1], call);
      PrefixRun(steps, n);
      ShopStays(steps, m, n - 1, call);
    }
  }

  lemma {:induction false} CallsGrow(steps: seq<Step>, m: nat, n: nat)
    requires m <= n <= |steps|
    ensures Run(INIT, steps[..m]).calls <= Run(INIT, steps[..n]).calls
    decreases n
  {
    hide Inv, Next, Run;
    if m < n {
      CallsGrow(steps, m, n - 1);
      RunKeeps(steps[..n - 1]);
      StepKeepsOutcomes(Run(INIT, steps[..n - 1]), steps[n - 1], 0);
      PrefixRun(steps, n);
    }
  }

  lemma NothingRan()
    ensures Run(INIT, []) == INIT
  {
  }

  lemma {:induction false} JobOf(steps: seq<Step>, n: nat, call: nat) returns (k: nat)
    requires n <= |steps| && call in Run(INIT, steps[..n]).outcomes
    ensures k < n && EndsWith(steps, k, call, Run(INIT, steps[..n]).outcomes[call])
    decreases n
  {
    hide Inv, Next, Run;
    NothingRan();
    assert steps[..0] == [];
    RunKeeps(steps[..n - 1]);
    StepKeepsOutcomes(Run(INIT, steps[..n - 1]), steps[n - 1], call);
    PrefixRun(steps, n);
    if call in Run(INIT, steps[..n - 1]).outcomes { k := JobOf(steps, n - 1, call); } else { k := n - 1; }
  }

  // Over every run a call has an outcome exactly when its job has ended, and then the very one its job ended with.
  lemma OutcomeIsTheJobs(steps: seq<Step>, call: nat, outcome: Outcome)
    ensures var s := Run(INIT, steps);
      call in s.outcomes && s.outcomes[call] == outcome <==> exists k: nat :: EndsWith(steps, k, call, outcome)
  {
    hide Inv, Next, Run;
    assert steps[..|steps|] == steps;
    if k: nat :| EndsWith(steps, k, call, outcome) {
      RunKeeps(steps[..k]);
      StepKeepsOutcomes(Run(INIT, steps[..k]), steps[k], call);
      PrefixRun(steps, k + 1);
      OutcomeStays(steps, k + 1, |steps|, call);
    }
    if call in Run(INIT, steps).outcomes && Run(INIT, steps).outcomes[call] == outcome {
      var k := JobOf(steps, |steps|, call);
    }
  }

  // Whoever joined a call at step j, the job that ends it works for the shop that was asked for, and what it leaves
  // is what is read at any later time.
  lemma WaiterGetsItsJob(steps: seq<Step>, j: nat, k: nat, shop: nat, outcome: Outcome)
    requires j < k && j < |steps| && steps[j] == Refresh(shop) && Answer(Run(INIT, steps[..j]), shop).Ok?
    requires EndsWith(steps, k, Answer(Run(INIT, steps[..j]), shop).value, outcome)
    ensures var call, s := Answer(Run(INIT, steps[..j]), shop).value, Run(INIT, steps);
      && Run(INIT, steps[..k]).running[call] == shop
      && call in s.outcomes && s.outcomes[call] == outcome
  {
    hide Inv, Next, Run, Answer;
    var call := Answer(Run(INIT, steps[..j]), shop).value;
    AnswerIsShared(steps[..j], shop);
    PrefixRun(steps, j + 1);
    ShopStays(steps, j + 1, k, call);
    OutcomeIsTheJobs(steps, call, outcome);
  }

  // ---- Shutdown -----------------------------------------------------------------------------------------------

  // Later states of a closed group start nothing, keep every outcome and only lose entries.
  ghost predicate Shrinks(s: Flight, t: Flight) {
    && s.closed && t.closed && t.calls == s.calls
    && (forall shop :: shop in t.inflight ==> shop in s.inflight && t.inflight[shop] == s.inflight[shop])
    && (forall call :: call in t.running ==> call in s.running)
    && |t.inflight| <= |s.inflight|
    && (forall call :: call in s.outcomes ==> call in t.outcomes && t.outcomes[call] == s.outcomes[call])
  }

  lemma ClosedStep(s: Flight, step: Step)
    requires Inv(s) && s.closed
    ensures Shrinks(s, Next(s, step))
  {
    if step.Finish? && step.call in s.running { EndedCount(s.inflight, s.running[step.call]); }
  }

  lemma {:induction false} ClosedOnlyShrinks(s: Flight, steps: seq<Step>)
    requires Inv(s) && s.closed
    ensures Inv(Run(s, steps)) && Shrinks(s, Run(s, steps))
    decreases |steps|
  {
    if steps != [] {
      hide Inv, Next;
      var before := Run(s, steps[..|steps|-1]);
      assert Run(s, steps) == Next(before, steps[|steps|-1]);
      hide Run;
      ClosedOnlyShrinks(s, steps[..|steps|-1]);
      NextKeeps(before, steps[|steps|-1]);
      ClosedStep(before, steps[|steps|-1]);
    }
  }

  lemma FinishEnds(s: Flight, step: Step)
    requires Inv(s) && step.Finish?
    ensures step.call !in Next(s, step).running
  {
  }

  lemma {:induction false} FinishedStays(s: Flight, steps: seq<Step>, k: nat)
    requires Inv(s) && s.closed && k < |steps| && steps[k].Finish?
    ensures steps[k].call !in Run(s, steps).running
    decreases |steps|
  {
    hide Inv, Next;
    var init := steps[..|steps|-1];
    ClosedOnlyShrinks(s, init);
    if k < |init| {
      assert init[k] == steps[k];
      FinishedStays(s, init, k);
      ClosedStep(Run(s, init), steps[|init|]);
    } else {
      FinishEnds(Run(s, init), steps[k]);
    }
  }

  // Shutdown completes: when every job that ran at the close has finished, in any order, drained is closed once.
  lemma ShutdownCompletes(s: Flight, steps: seq<Step>)
    requires Inv(s)
    requires forall call :: call in s.running ==> exists k :: 0 <= k < |steps| && steps[k].Finish? && steps[k].call == call
    ensures var t := Run(Next(s, Close), steps);
      t.running == map[] && t.inflight == map[] && t.drainedCloses == 1
  {
    var closed := Next(s, Close);
    NextKeeps(s, Close);
    ClosedOnlyShrinks(closed, steps);
    var t := Run(closed, steps);
    forall call | call in s.running ensures call !in t.running {
      var k :| 0 <= k < |steps| && steps[k].Finish? && steps[k].call == call;
      FinishedStays(closed, steps, k);
    }
    assert |t.running| == 0;
    assert |t.inflight| == 0;
  }

  lemma RunningIsOpen(s: Flight, call: nat)
    requires Inv(s) && call in s.running
    ensures call in s.doneCloses && s.doneCloses[call] == 0
  {
  }

  lemma DrainedOnce(s: Flight)
    requires Inv(s)
    ensures s.drainedCloses <= 1
  {
  }

  // ---- The service object -----------------------------------------------------------------------------------------

  class Shop {
    var inflight: map<nat, nat>
    var closed: bool
    var running: map<nat, nat>
    var doneCloses: map<nat, nat>
    var outcomes: map<nat, Outcome>
    var calls: nat
    var drainedCloses: nat

    function Model(): Flight
      reads this
    {
      Flight(inflight, running, doneCloses, outcomes, calls, closed, drainedCloses)
    }

    constructor ()
      ensures Model() == INIT
    {
      inflight, closed, running, doneCloses, outcomes, calls, drainedCloses := map[], false, map[], map[], map[], 0, 0;
    }

    method Refresh(shop: nat) returns (reply: Reply<nat>)
      requires Inv(Model())
      modifies this
      ensures Model() == Next(old(Model()), Step.Refresh(shop)) && reply == Answer(old(Model()), shop) && Inv(Model())
    {
      hide Inv;
      NextKeeps(Model(), Step.Refresh(shop));
      if closed { return Err(Dependency); }
      if shop in inflight { return Ok(inflight[shop]); }
      if |inflight| >= MAX_REFRESH { return Err(RateLimited); }
      var call := calls;
      calls, doneCloses := calls + 1, doneCloses[call := 0];
      inflight := inflight[shop := call];
      running := running[call := shop];  // go s.rebuild(id, call)
      reply := Ok(call);
    }

    // The deferred function of a rebuild. Closing a channel twice would panic, hence the last two ensures.
    method Finish(call: nat, outcome: Outcome)
      requires Inv(Model()) && call in running
      modifies this
      ensures Model() == Next(old(Model()), Step.Finish(call, outcome)) && Inv(Model())
      ensures outcomes == old(outcomes)[call := outcome]
      ensures old(call in doneCloses && doneCloses[call] == 0) && call in doneCloses && doneCloses[call] == 1
      ensures drainedCloses <= 1
    {
      hide Inv, Without;
      RunningIsOpen(Model(), call);
      NextKeeps(Model(), Step.Finish(call, outcome));
      DrainedOnce(Next(Model(), Step.Finish(call, outcome)));
      var shop := running[call];
      outcomes, running := outcomes[call := outcome], Without(running, call);
      inflight, doneCloses := Without(inflight, shop), doneCloses[call := doneCloses[call] + 1];
      if closed && |inflight| == 0 { drainedCloses := drainedCloses + 1; }
    }

    // The critical section; the caller then waits for drained or gives up.
    method Close()
      requires Inv(Model())
      modifies this
      ensures Model() == Next(old(Model()), Step.Close) && Inv(Model()) && closed
      ensures drainedCloses == if inflight == map[] then 1 else 0
    {
      NextKeeps(Model(), Step.Close);
      if !closed {
        closed := true;
        if |inflight| == 0 { drainedCloses := drainedCloses + 1; }
      }
    }
  }
}
