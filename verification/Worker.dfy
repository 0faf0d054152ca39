// The consumer loop: pages of active activities, one visit per activity, and its progress in a world in which
// activities open meanwhile, other processes work on the same activities and any call may fail.
module SeckillWorker {
  import opened SeckillModel
  import opened Protocol
  import opened ProtocolInvariant
  import opened SeckillDelivery
  import opened SeckillPaging

  // ---- The activities -----------------------------------------------------------------------------------------

  type Fleet = map<nat, Stores>

  // The active activities in primary key order.
  function ActiveOf(fleet: Fleet, keys: seq<nat>): seq<nat> {
    if keys == [] then []
    else
      var init, k := ActiveOf(fleet, keys[..|keys|-1]), keys[|keys|-1];
      if k in fleet && Active(fleet[k]) then init + [k] else init
  }

  lemma NoActives(fleet: Fleet)
    ensures ActiveOf(fleet, []) == []
  {
  }

  lemma {:induction false} ActiveOfProperties(fleet: Fleet, keys: seq<nat>)
    requires Ascending(keys)
    ensures Ascending(ActiveOf(fleet, keys)) && ActiveOf(fleet, []) == []
    ensures forall k :: k in ActiveOf(fleet, keys) <==> k in keys && k in fleet && Active(fleet[k])
  {
    if keys != [] {
      var init, k := keys[..|keys|-1], keys[|keys|-1];
      ActiveOfProperties(fleet, init);
      assert keys == init + [k];
      var before := ActiveOf(fleet, init);
      forall i | 0 <= i < |before| ensures before[i] < k { assert before[i] in before && before[i] in init; }
    }
  }

  lemma {:induction false} ActivePrefix(fleet: Fleet, keys: seq<nat>, i: nat)
    requires i < |keys|
    ensures var act, here := ActiveOf(fleet, keys), ActiveOf(fleet, keys[..i]);
      && ActiveOf(fleet, keys[..i + 1]) == (if keys[i] in fleet && Active(fleet[keys[i]]) then here + [keys[i]] else here)
      && ActiveOf(fleet, keys[..i + 1]) <= act
    decreases |keys| - i
  {
    assert keys[..i + 1][..i] == keys[..i];
    if i + 1 < |keys| {
      ActivePrefix(fleet, keys, i + 1);
    } else {
      assert keys[..i + 1] == keys;
    }
  }

  lemma {:induction false} ActivesGrow(a: Fleet, b: Fleet, keys: seq<nat>)
    requires forall k :: k in keys && k in a && Active(a[k]) ==> k in b && Active(b[k])
    ensures forall id :: id in ActiveOf(a, keys) ==> id in ActiveOf(b, keys)
    ensures |ActiveOf(a, keys)| <= |ActiveOf(b, keys)|
  {
    hide Active;
    if keys != [] {
      assert keys[|keys|-1] in keys;
      ActivesGrow(a, b, keys[..|keys|-1]);
    }
  }

  lemma {:induction false} SameActives(a: Fleet, b: Fleet, keys: seq<nat>)
    requires forall k :: k in a <==> k in b
    requires forall k :: k in a ==> (Active(a[k]) <==> Active(b[k]))
    ensures ActiveOf(a, keys) == ActiveOf(b, keys)
  {
    hide Active;
    if keys != [] { SameActives(a, b, keys[..|keys|-1]); }
  }

  // ---- The world around a worker --------------------------------------------------------------------------

  // Others act before each scan, between it and the visits of its page, and between any two calls of a visit: they
  // enable, accept, work and crash. What they do to the activities that are not on the page comes before the scan or
  // in the next round. A scan may fail, and so may any call of any visit.
  datatype World = World(meanwhile: (nat, Fleet) -> Fleet, scan: nat -> bool, luck: nat -> nat -> Luck)

  ghost predicate SoundFleet(f: Fleet) {
    forall id :: id in f && Active(f[id]) ==> Good(f[id])
  }

  // Open activities stay open and only grow; a quiet world also adds no work to them, though it may open others.
  ghost predicate Meanwhile(f: Fleet, g: Fleet, quiet: bool) {
    && g.Keys == f.Keys && SoundFleet(g)
    && (forall id :: id in f && Active(f[id]) ==> Eases(f[id], g[id], quiet))
  }

  // The world may do anything else.
  ghost predicate Possible(world: World) {
    && (forall round: nat, f: Fleet :: SoundFleet(f) ==> Meanwhile(f, world.meanwhile(round, f), false))
    && (forall round: nat, id: nat :: Orderly(world.luck(round)(id).others, false))
  }

  // In a quiet round nothing new is admitted to open activities.
  ghost predicate Quiet(world: World, round: nat) {
    && (forall f: Fleet :: SoundFleet(f) ==> Meanwhile(f, world.meanwhile(round, f), true))
    && (forall id: nat :: Orderly(world.luck(round)(id).others, true))
  }

  // The worker's calls answer, and pending deliveries have been idle long enough to be claimed.
  ghost predicate Answers(world: World, round: nat) {
    world.scan(round) && forall id: nat :: Calm(world.luck(round)(id))
  }

  ghost predicate CalmFrom(world: World, calm: nat, rounds: nat) {
    forall round: nat :: calm <= round < rounds ==> Quiet(world, round) && Answers(world, round)
  }

  lemma EasedIsActive(a: Stores, b: Stores, quiet: bool)
    requires Eases(a, b, quiet)
    ensures Active(b) && Eases(a, b, false)
  {
  }

  lemma MeanwhileChain(f: Fleet, g: Fleet, h: Fleet, quiet: bool)
    requires Meanwhile(f, g, quiet) && Meanwhile(g, h, quiet)
    ensures Meanwhile(f, h, quiet)
  {
    hide Good, Active, Eases;
    forall id | id in f && Active(f[id]) ensures Eases(f[id], h[id], quiet) {
      EasedIsActive(f[id], g[id], quiet);
      EasesChain(f[id], g[id], h[id], quiet);
    }
  }

  lemma NothingMeanwhile(f: Fleet)
    requires SoundFleet(f)
    ensures Meanwhile(f, f, true)
  {
    hide Good, Active, Eases;
    forall id | id in f && Active(f[id]) ensures Eases(f[id], f[id], true) { EasesSelf(f[id]); }
  }

  lemma Weaker(f: Fleet, g: Fleet, quiet: bool, weaker: bool)
    requires Meanwhile(f, g, quiet) && (weaker ==> quiet)
    ensures Meanwhile(f, g, weaker)
  {
    hide Good, Active, Evolves, Owed, Waiting;
  }

  // A world in which nobody else acts and every call answers.
  lemma StillWorldIsPossible(rounds: nat)
    ensures var still := World((round: nat, f: Fleet) => f, (round: nat) => true,
                               (round: nat) => (id: nat) => Luck(true, {}, Given, map[], NOBODY));
      Possible(still) && CalmFrom(still, 0, rounds)
  {
    forall f: Fleet | SoundFleet(f) ensures Meanwhile(f, f, true) && Meanwhile(f, f, false) {
      NothingMeanwhile(f);
      Weaker(f, f, true, false);
    }
    forall gap: nat, st: Stores | Good(st) ensures Eases(st, NOBODY(gap)(st), true) && Eases(st, NOBODY(gap)(st), false) {
      EasesSelf(st);
      EasesWeaker(st, st, false);
    }
    hide Good, Meanwhile, SoundFleet, Eases;
    assert Orderly(NOBODY, true) && Orderly(NOBODY, false);
  }

  lemma OneChanges(f: Fleet, id: nat, st: Stores, quiet: bool)
    requires SoundFleet(f) && id in f && (Active(st) ==> Good(st)) && (Active(f[id]) ==> Eases(f[id], st, quiet))
    ensures Meanwhile(f, f[id := st], quiet)
  {
    hide Good, Active, Eases;
    var g := f[id := st];
    assert g.Keys == f.Keys + {id} == f.Keys;
    NothingMeanwhile(f);
    forall k | k in f && Active(f[k]) ensures Eases(f[k], g[k], quiet) {
      if k != id {
        assert g[k] == f[k] && Eases(f[k], f[k], true);
        EasesWeaker(f[k], f[k], quiet);
      }
    }
    forall k | k in g && Active(g[k]) ensures Good(g[k]) {
      if k != id { assert g[k] == f[k]; }
    }
  }

  // Any run of the protocol on one activity, open or not, is such a change, and a quiet one if it reserves nothing.
  lemma RunIsMeanwhile(f: Fleet, id: nat, s: System, ts: seq<Step>)
    requires SoundFleet(f) && id in f && f[id] == StoresOf(s) && Inv(s)
    ensures Meanwhile(f, f[id := StoresOf(Run(s, ts))], forall k :: 0 <= k < |ts| ==> !ts[k].ReserveStep?)
  {
    hide Inv, Run, Good, Active, Eases;
    var quiet := forall k :: 0 <= k < |ts| ==> !ts[k].ReserveStep?;
    RunKeeps(s, ts);
    if Active(StoresOf(s)) { RunEases(s, ts); }
    if Active(StoresOf(Run(s, ts))) { OpenIsGood(Run(s, ts)); }
    OneChanges(f, id, StoresOf(Run(s, ts)), quiet);
  }

  // ---- Visits of one round -------------------------------------------------------------------------------------

  function CursorOf(cursors: map<nat, StreamId>, id: nat): StreamId {
    if id in cursors then cursors[id] else ZERO_ID
  }

  // Every activity on the page has been visited once, with its own cursor and luck; the others were left alone.
  ghost predicate Visited(f: Fleet, g: Fleet, cursors: map<nat, StreamId>, moved: map<nat, StreamId>, ids: seq<nat>, luck: nat -> Luck) {
    && g.Keys == f.Keys
    && (forall id :: id in ids ==> id in f && (g[id], CursorOf(moved, id)) == Visit(f[id], CursorOf(cursors, id), luck(id)))
    && (forall id :: id in f && id !in ids ==> g[id] == f[id] && CursorOf(moved, id) == CursorOf(cursors, id))
  }

  // Visits open nothing; whatever fails in them, they ease the activities as the others do meanwhile.
  lemma VisitsEase(f: Fleet, g: Fleet, cursors: map<nat, StreamId>, moved: map<nat, StreamId>, ids: seq<nat>, luck: nat -> Luck, quiet: bool)
    requires SoundFleet(f) && Visited(f, g, cursors, moved, ids, luck)
    requires forall id :: id in ids ==> id in f && Active(f[id])
    requires forall id: nat :: Orderly(luck(id).others, quiet)
    ensures Meanwhile(f, g, quiet)
    ensures forall id :: id in f ==> (Active(g[id]) <==> Active(f[id]))
  {
    hide Good, Active, Eases, Orderly, Visit;
    forall id | id in f
      ensures (Active(g[id]) <==> Active(f[id])) && (Active(g[id]) ==> Good(g[id]))
      ensures Active(f[id]) ==> Eases(f[id], g[id], quiet)
    {
      if id in ids {
        VisitKeeps(f[id], CursorOf(cursors, id), luck(id), quiet);
        EasedIsActive(f[id], g[id], quiet);
        EasesEvolves(f[id], g[id], quiet);
      } else if Active(f[id]) {
        EasesSelf(f[id]);
        EasesWeaker(f[id], f[id], quiet);
      }
    }
  }

  lemma NothingVisited(f: Fleet, cursors: map<nat, StreamId>, luck: nat -> Luck)
    ensures Visited(f, f, cursors, cursors, [], luck)
  {
  }

  lemma VisitedMore(f: Fleet, g: Fleet, cursors: map<nat, StreamId>, moved: map<nat, StreamId>, ids: seq<nat>, luck: nat -> Luck,
                    id: nat, st: Stores, next: StreamId)
    requires Visited(f, g, cursors, moved, ids, luck) && id in f && id !in ids
    requires (st, next) == Visit(g[id], CursorOf(moved, id), luck(id))
    ensures Visited(f, g[id := st], cursors, moved[id := next], ids + [id], luck)
  {
    hide Visit;
    var h, m := g[id := st], moved[id := next];
    assert h.Keys == g.Keys + {id} == f.Keys;
    forall k | k in ids + [id] ensures k in f && (h[k], CursorOf(m, k)) == Visit(f[k], CursorOf(cursors, k), luck(k)) {
      if k != id { assert k in ids && h[k] == g[k] && CursorOf(m, k) == CursorOf(moved, k); }
    }
    forall k | k in f && k !in ids + [id] ensures h[k] == f[k] && CursorOf(m, k) == CursorOf(cursors, k) {
      assert k !in ids && k != id;
    }
  }

  // ---- What is still owed ---------------------------------------------------------------------------------------

  // After so many visits since the calm began, the activity owes that much less.
  ghost predicate Owes(rest: Fleet, now: Fleet, cursors: map<nat, StreamId>, id: nat, late: nat, visits: nat) {
    id in rest && id in now && Active(now[id]) && Weight(now[id], CursorOf(cursors, id)) <= Less(Weight(rest[id], ZERO_ID) + late, visits)
  }

  // Visits paid to an activity by `cycles` full cycles and the current one, which has come to `after`. A negative
  // number says that the cycle the calm began in is still unfinished.
  function Visits(cycles: int, after: nat, id: nat): nat {
    if cycles < 0 then 0 else cycles + if id <= after then 1 else 0
  }

  ghost predicate OnSchedule(rest: Fleet, now: Fleet, cursors: map<nat, StreamId>, keys: seq<nat>, after: nat, late: nat, cycles: int) {
    forall id :: id in ActiveOf(rest, keys) ==> Owes(rest, now, cursors, id, late, Visits(cycles, after, id))
  }

  lemma ScheduleStarts(f: Fleet, cursors: map<nat, StreamId>, keys: seq<nat>, after: nat, late: nat)
    requires Ascending(keys) && (forall k :: k in keys ==> k > 0) && (late == 0 ==> cursors == map[] && after == 0)
    ensures OnSchedule(f, f, cursors, keys, after, late, 0 - late)
  {
    ActiveOfProperties(f, keys);
  }

  lemma QuietKeepsSchedule(rest: Fleet, f: Fleet, g: Fleet, cursors: map<nat, StreamId>, keys: seq<nat>, after: nat, late: nat, cycles: int)
    requires OnSchedule(rest, f, cursors, keys, after, late, cycles) && Meanwhile(f, g, true)
    ensures OnSchedule(rest, g, cursors, keys, after, late, cycles)
  {
    hide Good, Active, Eases, Debt, ActiveOf, Visits;
    forall id | id in ActiveOf(rest, keys) ensures Owes(rest, g, cursors, id, late, Visits(cycles, after, id)) {
      assert Owes(rest, f, cursors, id, late, Visits(cycles, after, id)) && Eases(f[id], g[id], true);
      EasedIsActive(f[id], g[id], true);
      EasesQuietly(f[id], g[id]);
      DebtStays(f[id], g[id]);
    }
  }

  lemma VisitLowers(rest: Fleet, f: Fleet, g: Fleet, cursors: map<nat, StreamId>, moved: map<nat, StreamId>, id: nat,
                    late: nat, visits: nat, luck: Luck)
    requires Calm(luck) && Orderly(luck.others, true)
    requires Owes(rest, f, cursors, id, late, visits) && SoundFleet(f) && id in g
    requires (g[id], CursorOf(moved, id)) == Visit(f[id], CursorOf(cursors, id), luck)
    ensures Owes(rest, g, moved, id, late, visits + 1)
  {
    hide Good, Active, Eases, Visit, Weight, Orderly, Calm;
    VisitProgress(f[id], CursorOf(cursors, id), luck);
    EasedIsActive(f[id], g[id], true);
  }

  lemma OwesLess(rest: Fleet, now: Fleet, cursors: map<nat, StreamId>, id: nat, late: nat, visits: nat, fewer: nat)
    requires Owes(rest, now, cursors, id, late, visits) && fewer <= visits
    ensures Owes(rest, now, cursors, id, late, fewer)
  {
  }

  // A page of calm visits: the cursor moves past the page, or a short page completes the cycle.
  lemma PageAdvances(rest: Fleet, f: Fleet, g: Fleet, cursors: map<nat, StreamId>, moved: map<nat, StreamId>,
                     keys: seq<nat>, after: nat, late: nat, cycles: int, ids: seq<nat>, luck: nat -> Luck)
    requires Ascending(keys) && (forall k :: k in keys ==> k > 0) && SoundFleet(f)
    requires OnSchedule(rest, f, cursors, keys, after, late, cycles) && cycles >= -1
    requires ids == PageAfter(ActiveOf(f, keys), after) && Visited(f, g, cursors, moved, ids, luck)
    requires forall id: nat :: Calm(luck(id)) && Orderly(luck(id).others, true)
    ensures |ids| == PAGE ==> OnSchedule(rest, g, moved, keys, ids[PAGE - 1], late, cycles)
    ensures |ids| < PAGE ==> OnSchedule(rest, g, moved, keys, 0, late, cycles + 1)
  {
    hide Good, Active, Eases, ActiveOf, PageAfter, Visit, Weight, Calm, Orderly;
    ActiveOfProperties(f, keys);
    ActiveOfProperties(rest, keys);
    PageIs(ActiveOf(f, keys), after);
    var next := if |ids| == PAGE then ids[PAGE - 1] else 0;
    var full := if |ids| == PAGE then cycles else cycles + 1;
    forall id | id in ActiveOf(rest, keys) ensures Owes(rest, g, moved, id, late, Visits(full, next, id)) {
      assert Owes(rest, f, cursors, id, late, Visits(cycles, after, id));
      assert id in ActiveOf(f, keys);
      if id in ids {
        VisitLowers(rest, f, g, cursors, moved, id, late, Visits(cycles, after, id), luck(id));
        OwesLess(rest, g, moved, id, late, Visits(cycles, after, id) + 1, Visits(full, next, id));
      } else {
        if |ids| == PAGE { assert ids[PAGE - 1] in ids; }
        assert Owes(rest, g, moved, id, late, Visits(cycles, after, id));
        OwesLess(rest, g, moved, id, late, Visits(cycles, after, id), Visits(full, next, id));
      }
    }
  }

  lemma DueIsDrained(rest: Fleet, now: Fleet, cursors: map<nat, StreamId>, keys: seq<nat>, after: nat, calm: nat, late: nat,
                     cycles: int, q: nat, rounds: nat, id: nat)
    requires late == (if calm == 0 then 0 else 1) && rounds >= calm && SoundFleet(now)
    requires OnSchedule(rest, now, cursors, keys, after, late, cycles) && id in ActiveOf(rest, keys)
    requires InTime(ActiveOf(now, keys), after, cycles, late, q, rounds - calm)
    requires id in rest && rounds >= Due(calm, Cycle(ActiveOf(now, keys)), Weight(rest[id], ZERO_ID))
    ensures id in now && Drained(now[id])
  {
    hide ActiveOf, Active, Good, Passed;
    var act, weight := ActiveOf(now, keys), Weight(rest[id], ZERO_ID);
    hide Weight;
    assert Owes(rest, now, cursors, id, late, Visits(cycles, after, id));
    PassedCount(act, after);
    PagesFit(q, |act|);
    CyclesReached(cycles + late, Cycle(act), q, weight + 2 * late);
    GoodIsActive(now[id]);
    WeightlessIsDrained(now[id], CursorOf(cursors, id));
  }

  lemma MeanwhileActives(f: Fleet, g: Fleet, keys: seq<nat>, quiet: bool)
    requires Meanwhile(f, g, quiet)
    ensures |ActiveOf(f, keys)| <= |ActiveOf(g, keys)| && forall id :: id in ActiveOf(f, keys) ==> id in ActiveOf(g, keys)
  {
    hide Good, Active, Eases, ActiveOf;
    forall k | k in f && Active(f[k]) ensures Active(g[k]) { EasedIsActive(f[k], g[k], quiet); }
    ActivesGrow(f, g, keys);
  }

  // One round of the calm, seen by every activity that was open when the calm began.
  lemma CalmRound(rest: Fleet, before: Fleet, mid: Fleet, now: Fleet, was: map<nat, StreamId>, cursors: map<nat, StreamId>,
                  keys: seq<nat>, after: nat, late: nat, cycles: int, q: nat, spent: nat, ids: seq<nat>, luck: nat -> Luck)
    requires Ascending(keys) && (forall k :: k in keys ==> k > 0 && k in before) && cycles >= -1
    requires Meanwhile(before, mid, true) && ActiveOf(mid, keys) == ActiveOf(now, keys)
    requires OnSchedule(rest, before, was, keys, after, late, cycles)
    requires InTime(ActiveOf(before, keys), after, cycles, late, q, spent)
    requires ids == PageAfter(ActiveOf(mid, keys), after) && Visited(mid, now, was, cursors, ids, luck)
    requires forall id: nat :: Calm(luck(id)) && Orderly(luck(id).others, true)
    ensures |ids| <= PAGE
    ensures |ids| == PAGE ==>
      && OnSchedule(rest, now, cursors, keys, ids[PAGE - 1], late, cycles)
      && InTime(ActiveOf(now, keys), ids[PAGE - 1], cycles, late, q + 1, spent + 1)
    ensures |ids| < PAGE ==>
      && OnSchedule(rest, now, cursors, keys, 0, late, cycles + 1)
      && InTime(ActiveOf(now, keys), 0, cycles + 1, late, 0, spent + 1)
  {
    hide Good, Active, Eases, ActiveOf, Visit, Visited, OnSchedule, InTime, PageAfter, Calm, Orderly;
    ActiveOfProperties(mid, keys);
    PageIs(ActiveOf(mid, keys), after);
    QuietKeepsSchedule(rest, before, mid, was, keys, after, late, cycles);
    PageAdvances(rest, mid, now, was, cursors, keys, after, late, cycles, ids, luck);
    MeanwhileActives(before, mid, keys, true);
    MoreActives(ActiveOf(before, keys), ActiveOf(mid, keys), after, cycles, late, q, spent);
    RoundSpent(ActiveOf(mid, keys), after, cycles, late, q, spent);
  }

  // ---- Whole runs ------------------------------------------------------------------------------------------------

  // The activities, the scan cursor and the claim cursors before a round.
  datatype Moment = Moment(fleet: Fleet, after: nat, cursors: map<nat, StreamId>)

  // What is open when the round's page is asked for, and the page.
  function OpenAt(world: World, keys: seq<nat>, round: nat, m: Moment): seq<nat> {
    ActiveOf(world.meanwhile(round, m.fleet), keys)
  }

  function Asked(world: World, keys: seq<nat>, round: nat, m: Moment): seq<nat> {
    if world.scan(round) then PageAfter(OpenAt(world, keys, round, m), m.after) else []
  }

  function ScanAfter(world: World, round: nat, after: nat, page: seq<nat>): nat {
    if !world.scan(round) then after else if |page| < PAGE then 0 else page[PAGE - 1]
  }

  // One round: the world moves, a page is asked for, and exactly its activities are visited.
  ghost predicate Stepped(world: World, keys: seq<nat>, round: nat, m: Moment, n: Moment) {
    var page := Asked(world, keys, round, m);
    && Visited(world.meanwhile(round, m.fleet), n.fleet, m.cursors, n.cursors, page, world.luck(round))
    && n.after == ScanAfter(world, round, m.after, page)
  }

  ghost predicate Trace(world: World, keys: seq<nat>, past: seq<Moment>) {
    past != [] && forall k: nat :: k + 1 < |past| ==> Stepped(world, keys, k, past[k], past[k + 1])
  }

  // The vouchers of a worker: ascending, non-zero, and each with its stores, sound when open.
  ghost predicate Watched(keys: seq<nat>, f: Fleet) {
    Ascending(keys) && (forall k :: k in keys ==> k > 0 && k in f) && SoundFleet(f)
  }

  // The last round of the history is due for what the activity, then open, owed at round `calm`.
  ghost predicate DueBy(past: seq<Moment>, keys: seq<nat>, calm: nat, id: nat)
    requires calm < |past|
  {
    && id in past[calm].fleet && id in ActiveOf(past[calm].fleet, keys)
    && |past| - 1 >= Due(calm, Cycle(ActiveOf(past[|past| - 1].fleet, keys)), Weight(past[calm].fleet[id], ZERO_ID))
  }

  // A round eases the open activities, and opens none itself.
  lemma RoundEases(world: World, keys: seq<nat>, round: nat, m: Moment, n: Moment, quiet: bool)
    requires Possible(world) && (quiet ==> Quiet(world, round)) && Watched(keys, m.fleet) && Stepped(world, keys, round, m, n)
    ensures Meanwhile(m.fleet, world.meanwhile(round, m.fleet), quiet)
    ensures Meanwhile(m.fleet, n.fleet, quiet) && Watched(keys, n.fleet)
    ensures ActiveOf(n.fleet, keys) == OpenAt(world, keys, round, m)
  {
    hide Good, Active, Eases, ActiveOf, Visit, PageAfter, Orderly;
    var mid, page := world.meanwhile(round, m.fleet), Asked(world, keys, round, m);
    assert Meanwhile(m.fleet, mid, quiet);
    forall id: nat ensures Orderly(world.luck(round)(id).others, quiet) {
      assert Orderly(world.luck(round)(id).others, false);
    }
    ActiveOfProperties(mid, keys);
    PageIs(OpenAt(world, keys, round, m), m.after);
    VisitsEase(mid, n.fleet, m.cursors, n.cursors, page, world.luck(round), quiet);
    MeanwhileChain(m.fleet, mid, n.fleet, quiet);
    SameActives(mid, n.fleet, keys);
  }

  lemma {:induction false} TraceWatches(world: World, keys: seq<nat>, past: seq<Moment>, k: nat)
    requires Possible(world) && Trace(world, keys, past) && Watched(keys, past[0].fleet) && k < |past|
    ensures Watched(keys, past[k].fleet)
    decreases k
  {
    hide Possible, Quiet, Watched, Stepped;
    if k > 0 {
      TraceWatches(world, keys, past, k - 1);
      RoundEases(world, keys, k - 1, past[k - 1], past[k], false);
    }
  }

  // Between any two rounds every open activity stayed open and sound and only grew, and over quiet rounds it owes no more.
  lemma {:induction false} TraceEases(world: World, keys: seq<nat>, past: seq<Moment>, i: nat, j: nat, quiet: bool)
    requires Possible(world) && Trace(world, keys, past) && Watched(keys, past[0].fleet) && i <= j < |past|
    requires quiet ==> forall k: nat :: i <= k < j ==> Quiet(world, k)
    ensures Meanwhile(past[i].fleet, past[j].fleet, quiet) && Watched(keys, past[j].fleet)
    decreases j - i
  {
    hide Possible, Quiet, Stepped, Meanwhile;
    TraceWatches(world, keys, past, i);
    if i == j {
      NothingMeanwhile(past[i].fleet);
      Weaker(past[i].fleet, past[i].fleet, true, quiet);
    } else {
      TraceEases(world, keys, past, i, j - 1, quiet);
      RoundEases(world, keys, j - 1, past[j - 1], past[j], quiet);
      MeanwhileChain(past[i].fleet, past[j - 1].fleet, past[j].fleet, quiet);
    }
  }

  // From the calm on, every activity then open is on schedule.
  lemma {:induction false} TraceOnSchedule(world: World, keys: seq<nat>, past: seq<Moment>, calm: nat, k: nat) returns (cycles: int, q: nat)
    requires Possible(world) && CalmFrom(world, calm, k) && Trace(world, keys, past) && Watched(keys, past[0].fleet)
    requires past[0].after == 0 && past[0].cursors == map[] && calm <= k < |past|
    ensures var late := if calm == 0 then 0 else 1;
      && cycles >= -1 && OnSchedule(past[calm].fleet, past[k].fleet, past[k].cursors, keys, past[k].after, late, cycles)
      && InTime(ActiveOf(past[k].fleet, keys), past[k].after, cycles, late, q, k - calm)
    decreases k
  {
    hide Possible, Meanwhile, Visited, OnSchedule, InTime, ActiveOf, PageAfter, Calm, Orderly;
    var late := if calm == 0 then 0 else 1;
    TraceWatches(world, keys, past, if k == calm then k else k - 1);
    if k == calm {
      cycles, q := 0 - late, 0;
      ScheduleStarts(past[k].fleet, past[k].cursors, keys, past[k].after, late);
      SpentNothing(ActiveOf(past[k].fleet, keys), past[k].after, late);
    } else {
      cycles, q := TraceOnSchedule(world, keys, past, calm, k - 1);
      var m, n := past[k - 1], past[k];
      var page := Asked(world, keys, k - 1, m);
      assert Quiet(world, k - 1) && Answers(world, k - 1);
      RoundEases(world, keys, k - 1, m, n, true);
      CalmRound(past[calm].fleet, m.fleet, world.meanwhile(k - 1, m.fleet), n.fleet, m.cursors, n.cursors, keys, m.after, late,
                cycles, q, k - 1 - calm, page, world.luck(k - 1));
      if |page| == PAGE { q := q + 1; } else { cycles, q := cycles + 1, 0; }
    }
  }

  // The drain: an activity open when the calm begins is drained by the round due for what it owes then.
  lemma TraceDrains(world: World, keys: seq<nat>, past: seq<Moment>, calm: nat, k: nat, id: nat)
    requires Possible(world) && CalmFrom(world, calm, k) && Trace(world, keys, past) && Watched(keys, past[0].fleet)
    requires past[0].after == 0 && past[0].cursors == map[] && calm <= k < |past|
    requires id in past[calm].fleet && id in ActiveOf(past[calm].fleet, keys)
    requires k >= Due(calm, Cycle(ActiveOf(past[k].fleet, keys)), Weight(past[calm].fleet[id], ZERO_ID))
    ensures id in past[k].fleet && Drained(past[k].fleet[id])
  {
    hide Possible, CalmFrom, Trace, OnSchedule, InTime, ActiveOf, Weight, Due, Cycle, Drained;
    TraceWatches(world, keys, past, k);
    var cycles, q := TraceOnSchedule(world, keys, past, calm, k);
    DueIsDrained(past[calm].fleet, past[k].fleet, past[k].cursors, keys, past[k].after, calm, if calm == 0 then 0 else 1, cycles, q, k, id);
  }

  // ---- Cycles of a run ---------------------------------------------------------------------------------------------

  // The pages that came back in rounds a to b, and what was open when each was asked for.
  function Pages(world: World, keys: seq<nat>, past: seq<Moment>, a: nat, b: nat): seq<seq<nat>>
    requires a <= b < |past|
    decreases b - a
  {
    if a == b then []
    else (if world.scan(a) then [Asked(world, keys, a, past[a])] else []) + Pages(world, keys, past, a + 1, b)
  }

  function Opens(world: World, keys: seq<nat>, past: seq<Moment>, a: nat, b: nat): seq<seq<nat>>
    requires a <= b < |past|
    decreases b - a
  {
    if a == b then []
    else (if world.scan(a) then [OpenAt(world, keys, a, past[a])] else []) + Opens(world, keys, past, a + 1, b)
  }

  // In rounds a to b no page but possibly the last is short.
  ghost predicate OneCycle(world: World, keys: seq<nat>, past: seq<Moment>, a: nat, b: nat)
    requires a <= b < |past|
  {
    forall k: nat :: a <= k && k + 1 < b && world.scan(k) ==> |Asked(world, keys, k, past[k])| >= PAGE
  }

  lemma ScanMoves(world: World, keys: seq<nat>, past: seq<Moment>, a: nat)
    requires Trace(world, keys, past) && a + 1 < |past| && Ascending(OpenAt(world, keys, a, past[a]))
    ensures world.scan(a) ==> Asked(world, keys, a, past[a]) == PageAfter(OpenAt(world, keys, a, past[a]), past[a].after)
    ensures |Asked(world, keys, a, past[a])| <= PAGE
    ensures past[a + 1].after == ScanAfter(world, a, past[a].after, Asked(world, keys, a, past[a]))
  {
    hide OpenAt, PageAfter, Ascending, Visited;
    PageIs(OpenAt(world, keys, a, past[a]), past[a].after);
    assert Stepped(world, keys, a, past[a], past[a + 1]);
  }

  lemma NothingAsked(world: World, keys: seq<nat>, past: seq<Moment>, a: nat)
    requires a < |past|
    ensures Pages(world, keys, past, a, a) == [] && Opens(world, keys, past, a, a) == []
  {
  }

  lemma OneMorePage(world: World, keys: seq<nat>, past: seq<Moment>, a: nat, b: nat)
    requires a < b < |past|
    ensures var pages, opens := Pages(world, keys, past, a + 1, b), Opens(world, keys, past, a + 1, b);
      && Pages(world, keys, past, a, b) == (if world.scan(a) then [Asked(world, keys, a, past[a])] + pages else pages)
      && Opens(world, keys, past, a, b) == (if world.scan(a) then [OpenAt(world, keys, a, past[a])] + opens else opens)
      && (a + 1 == b ==> pages == [])
  {
    hide Asked, OpenAt;
  }

  lemma {:induction false} PagesAreOfCycle(world: World, keys: seq<nat>, past: seq<Moment>, a: nat, b: nat)
    requires Trace(world, keys, past) && a <= b < |past| && OneCycle(world, keys, past, a, b)
    requires forall k: nat :: a <= k < b ==> Ascending(OpenAt(world, keys, k, past[k]))
    ensures Pages(world, keys, past, a, b) == PagesOf(Opens(world, keys, past, a, b), past[a].after)
    decreases b - a
  {
    hide PageAfter, Ascending, Asked, OpenAt, Trace, PagesOf, Pages, Opens;
    if a == b {
      NothingAsked(world, keys, past, a);
      NoPages(past[a].after);
    } else {
      PagesAreOfCycle(world, keys, past, a + 1, b);
      ScanMoves(world, keys, past, a);
      OneMorePage(world, keys, past, a, b);
      PagesOfCons(OpenAt(world, keys, a, past[a]), Opens(world, keys, past, a + 1, b), past[a].after);
    }
  }

  ghost predicate Holds(open: seq<nat>, start: set<nat>) {
    Ascending(open) && forall id :: id in start ==> id in open
  }

  lemma {:induction false} OpensHold(world: World, keys: seq<nat>, past: seq<Moment>, a: nat, b: nat, start: set<nat>)
    requires a <= b < |past|
    requires forall k: nat :: a <= k < b ==> Holds(OpenAt(world, keys, k, past[k]), start)
    ensures forall open :: open in Opens(world, keys, past, a, b) ==> Holds(open, start)
    decreases b - a
  {
    hide Holds, OpenAt;
    if a < b {
      OpensHold(world, keys, past, a + 1, b, start);
      var rest, here := Opens(world, keys, past, a + 1, b), OpenAt(world, keys, a, past[a]);
      assert Opens(world, keys, past, a, b) == if world.scan(a) then [here] + rest else rest;
    }
  }

  lemma StaysOpen(world: World, keys: seq<nat>, past: seq<Moment>, a: nat, k: nat)
    requires Possible(world) && Trace(world, keys, past) && Watched(keys, past[0].fleet) && a <= k < |past|
    ensures Ascending(OpenAt(world, keys, k, past[k]))
    ensures forall id :: id in ActiveOf(past[a].fleet, keys) ==> id in OpenAt(world, keys, k, past[k])
  {
    hide Trace, Stepped, ActiveOf, Ascending, Orderly;
    TraceEases(world, keys, past, a, k, false);
    var mid := world.meanwhile(k, past[k].fleet);
    assert Meanwhile(past[k].fleet, mid, false);
    ActiveOfProperties(mid, keys);
    hide Meanwhile;
    MeanwhileActives(past[a].fleet, past[k].fleet, keys, false);
    MeanwhileActives(past[k].fleet, mid, keys, false);
  }

  // Every paging cycle of a run, whatever opens during it and whichever scans fail: its pages visit no activity twice,
  // and once a short page has ended it, they have visited every activity that was open at its start.
  lemma CycleOfRun(world: World, keys: seq<nat>, past: seq<Moment>, a: nat, b: nat)
    requires Possible(world) && Trace(world, keys, past) && Watched(keys, past[0].fleet)
    requires a <= b < |past| && past[a].after == 0 && OneCycle(world, keys, past, a, b)
    ensures var pages := Pages(world, keys, past, a, b);
      && Ascending(Flatten(pages))
      && (pages != [] && |pages[|pages|-1]| < PAGE ==> forall id :: id in ActiveOf(past[a].fleet, keys) ==> id in Flatten(pages))
  {
    hide Possible, Trace, Stepped, Meanwhile, SoundFleet, ActiveOf, PagesOf, Flatten, Ascending, Pages, Opens, OneCycle;
    var start := set id | id in ActiveOf(past[a].fleet, keys);
    TraceWatches(world, keys, past, a);
    ActiveOfProperties(past[a].fleet, keys);
    assert 0 !in start;
    var opens := Opens(world, keys, past, a, b);
    forall k: nat | a <= k < b ensures Holds(OpenAt(world, keys, k, past[k]), start) {
      StaysOpen(world, keys, past, a, k);
    }
    PagesAreOfCycle(world, keys, past, a, b);
    OpensHold(world, keys, past, a, b, start);
    assert forall k :: 0 <= k < |opens| ==> opens[k] in opens && Holds(opens[k], start);
    CycleVisitsAll(opens, start);
  }

  // ---- The worker -------------------------------------------------------------------------------------------------

  class SeckillWorker {
    const keys: seq<nat>
    var fleet: Fleet

    // Every voucher has a non-zero id, and every active activity is in a reachable state.
    ghost predicate Valid()
      reads this
    {
      Watched(keys, fleet)
    }

    function Actives(): seq<nat>
      reads this
    {
      ActiveOf(fleet, keys)
    }

    constructor (keys: seq<nat>, fleet: Fleet)
      ensures this.keys == keys && this.fleet == fleet
    {
      this.keys, this.fleet := keys, fleet;
    }

    // SELECT voucher_id ... WHERE async_state = 2 AND voucher_id > after ORDER BY voucher_id LIMIT limit
    method ActiveIDs(after: nat, limit: nat) returns (ids: seq<nat>)
      requires Valid() && limit > 0
      ensures ids == First(Beyond(Actives(), after), limit)
    {
      hide ActiveOf, Beyond, Active, Good;
      ids := [];
      var i := 0;
      NothingBeyond(after);
      NoActives(fleet);
      while i < |keys| && |ids| < limit
        invariant i <= |keys| && |ids| <= limit
        invariant ids == Beyond(ActiveOf(fleet, keys[..i]), after)
        invariant ActiveOf(fleet, keys[..i]) <= Actives()
      {
        ActivePrefix(fleet, keys, i);
        var k := keys[i];
        if k in fleet && Active(fleet[k]) {
          BeyondSnoc(ActiveOf(fleet, keys[..i]), k, after);
          if k > after { ids := ids + [k]; }
        }
        i := i + 1;
      }
      assert keys[..|keys|] == keys;
      BeyondPrefix(ActiveOf(fleet, keys[..i]), Actives(), after);
    }

    // Claims and reads one activity, then processes the deliveries one by one.
    static method Deliver(st: Stores, cursor: StreamId, luck: Luck) returns (after: Stores, next: StreamId)
      ensures (after, next) == Visit(st, cursor, luck)
    {
      hide Fetch, Process;
      var (events, read, wrap) := Fetch(luck.others(0)(st), cursor, luck);
      after, next := read, wrap;
      for k := 0 to |events|
        invariant after == ProcessAll(read, events[..k], luck.stops, luck.others)
      {
        assert events[..k + 1][..k] == events[..k];
        var e := events[k];
        // A delivery that fails is logged and left pending.
        var stop := if e.id in luck.stops then Some(luck.stops[e.id]) else None;
        after := Process(after, e, stop, luck.others, 3 * (k + 1));
      }
      assert events[..|events|] == events;
    }

    // One page: claim, read and process every activity on it, moving the claim cursors on.
    method Round(ids: seq<nat>, cursors: map<nat, StreamId>, luck: nat -> Luck) returns (moved: map<nat, StreamId>)
      requires Valid() && Ascending(ids)
      requires forall id :: id in ids ==> id in fleet && Active(fleet[id])
      modifies this
      ensures Visited(old(fleet), fleet, cursors, moved, ids, luck)
    {
      hide Good, Visit, Active, ActiveOf, Visited;
      moved := cursors;
      NothingVisited(fleet, cursors, luck);
      assert ids[..0] == [];
      for i := 0 to |ids|
        invariant fleet.Keys == old(fleet).Keys && Visited(old(fleet), fleet, cursors, moved, ids[..i], luck)
      {
        var id := ids[i];
        assert id in ids && id !in ids[..i] && ids[..i + 1] == ids[..i] + [id];
        var st, next := Deliver(fleet[id], CursorOf(moved, id), luck(id));
        VisitedMore(old(fleet), fleet, cursors, moved, ids[..i], luck, id, st, next);
        assert fleet[id := st].Keys == fleet.Keys + {id} == fleet.Keys;
        fleet, moved := fleet[id := st], moved[id := next];
      }
      assert ids[..|ids|] == ids;
    }

    // One round. Others act first; then the scan returns the next page beyond `after`, or fails, in which case the
    // round does nothing. A page that is not full restarts the scan from 0.
    method NextPage(round: nat, world: World, after: nat, cursors: map<nat, StreamId>) returns (next: nat, moved: map<nat, StreamId>)
      requires Valid() && Possible(world)
      modifies this
      ensures Stepped(world, keys, round, Moment(old(fleet), after, cursors), Moment(fleet, next, moved))
    {
      hide Good, Visit, Active, ActiveOf, Eases, Orderly, Visited;
      fleet := world.meanwhile(round, fleet);
      if !world.scan(round) {
        NothingVisited(fleet, cursors, world.luck(round));
        return after, cursors;
      }
      assert Meanwhile(old(fleet), fleet, false);
      var page := ActiveIDs(after, PAGE);
      ActiveOfProperties(fleet, keys);
      PageIs(Actives(), after);
      moved := Round(page, cursors, world.luck(round));
      next := if |page| < PAGE then 0 else page[|page| - 1];
    }

    // The consumer loop, ended after `rounds` rounds, with its exact history. Whatever happens, admissions, failing
    // scans, claims, reads and deliveries, entries too young to be claimed, competing workers, openings, every activity
    // that was open stays open and sound and only grows. If from some round `calm` on the calls answer and nothing new
    // is admitted, each activity open at that round is drained by the round due for what it owed then, although others
    // still open and other workers still take deliveries.
    method RunWorker(rounds: nat, world: World) returns (ghost past: seq<Moment>)
      requires Valid() && Possible(world)
      modifies this
      ensures |past| == rounds + 1 && Trace(world, keys, past)
      ensures past[0] == Moment(old(fleet), 0, map[]) && past[rounds].fleet == fleet
      ensures Valid() && Meanwhile(old(fleet), fleet, false)
      ensures forall calm: nat, id: nat :: calm <= rounds && CalmFrom(world, calm, rounds) && DueBy(past, keys, calm, id) ==>
        id in fleet && Drained(fleet[id])
    {
      hide Good, Active, Eases, ActiveOf, Visit, Visited, Meanwhile, Possible, CalmFrom, Watched, Stepped, Due, Drained, Cycle, Weight;
      var cursors: map<nat, StreamId> := map[];
      var after := 0;
      past := [Moment(fleet, after, cursors)];
      for round := 0 to rounds
        invariant Valid() && |past| == round + 1 && Trace(world, keys, past)
        invariant past[0] == Moment(old(fleet), 0, map[]) && past[round] == Moment(fleet, after, cursors)
      {
        after, cursors := NextPage(round, world, after, cursors);
        past := past + [Moment(fleet, after, cursors)];
        TraceWatches(world, keys, past, round + 1);
      }
      TraceEases(world, keys, past, 0, rounds, false);
      forall calm: nat, id: nat | calm <= rounds && CalmFrom(world, calm, rounds) && DueBy(past, keys, calm, id)
        ensures id in fleet && Drained(fleet[id])
      {
        TraceDrains(world, keys, past, calm, rounds, id);
      }
    }
  }
}
