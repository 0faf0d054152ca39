// One shop's cache record: refresh jobs, compare-and-set publication and the age of what readers are shown.
// Times are milliseconds of one clock; db(t) is the shop's row at instant t, an arbitrary history.
module ShopCache {
  import opened SeckillModel
  import F = ShopFlight

  const SECOND := 1000
  const MINUTE := 60 * SECOND
  const BUDGET := 2 * SECOND

  // value None is the negative record of a shop that does not exist.
  datatype Entry = Entry(value: Option<nat>, refreshAfter: int, expiresAt: int)

  datatype Query = Row(row: Option<nat>) | Failure

  // A refresh job between its calls. loaded None is a missing key or a failed load; only the latter sets failed.
  datatype Job =
    | Started(start: int)
    | Loaded(start: int, loaded: Option<Entry>, failed: bool)
    | Querying(start: int, loaded: Option<Entry>, failed: bool)
    | Queried(start: int, loaded: Option<Entry>, failed: bool, result: Query, readAt: int)
    | Publishing(token: Option<Entry>, entry: Entry)
    | Finished

  // What one Detail call was told, and when: a row, or that there is none.
  datatype Answer = Answer(value: Option<nat>, at: int)

  datatype Cache = Cache(
    clock: int,
    content: Option<Entry>,
    jobs: map<nat, Job>,
    looks: map<nat, Option<Entry>>,  // Detail calls between their load and their decision
    answers: seq<Answer>)

  datatype Step =
    | Start(at: int, job: nat)
    | Load(at: int, job: nat, failed: bool)
    | Adopt(at: int, job: nat)
    | Read(at: int, job: nat, fails: bool)
    | Decide(at: int, job: nat, live: bool, stopped: bool, jitter: nat)
    | Publish(at: int, job: nat)
    | Look(at: int, reader: nat)
    | Show(at: int, reader: nat)
    | Drop(at: int)  // Invalidate, the key's TTL, or eviction

  // ---- Records ------------------------------------------------------------------------------------------

  // 30 minutes and up to 5 of jitter until a refresh, 5 more until the record is unusable.
  function Filled(row: nat, now: int, jitter: nat): Entry {
    var soft := now + 30 * MINUTE + jitter % (5 * MINUTE);
    Entry(Some(row), soft, soft + 5 * MINUTE)
  }

  function Negative(now: int, jitter: nat): Entry {
    var expires := now + 30 * SECOND + jitter % (15 * SECOND);
    Entry(None, expires, expires)
  }

  // A failed refresh backs off for five seconds within the record's own lifetime.
  function Postponed(e: Entry, now: int): Entry {
    e.(refreshAfter := if now + 5 * SECOND > e.expiresAt then e.expiresAt else now + 5 * SECOND)
  }

  predicate ValidEntry(e: Entry) {
    e.refreshAfter <= e.expiresAt
  }

  // What a Detail call does with the record it loaded.
  datatype Decision = Serve(row: nat, refresh: bool) | Missing | Wait

  function Judge(loaded: Option<Entry>, now: int): Decision {
    if loaded.None? || now >= loaded.value.expiresAt then Wait
    else if loaded.value.value.Some? then Serve(loaded.value.value.value, now >= loaded.value.refreshAfter)
    else if now < loaded.value.refreshAfter then Missing
    else Wait
  }

  // What a job does once its query has returned: the record to publish, if any.
  function Outcome(job: Job, now: int, live: bool, stopped: bool, jitter: nat): Option<Entry>
    requires job.Queried?
  {
    if stopped then None
    else if live && job.result.Row? then
      if job.result.row.Some? then Some(Filled(job.result.row.value, now, jitter)) else Some(Negative(now, jitter))
    else if !job.failed && job.loaded.Some? && job.loaded.value.value.Some? && now < job.loaded.value.expiresAt then
      Some(Postponed(job.loaded.value, now))
    else None
  }

  // ---- Steps ----------------------------------------------------------------------------------------------

  function Tell(s: Cache, value: Option<nat>): Cache {
    s.(answers := s.answers + [Answer(value, s.clock)])
  }

  function JobStep(s: Cache, step: Step, job: Job, db: int -> Option<nat>): Cache
    requires step.Load? || step.Adopt? || step.Read? || step.Decide? || step.Publish?
  {
    match step
    case Load(_, j, failed) =>
      if !job.Started? then s
      else s.(jobs := s.jobs[j := Loaded(job.start, if failed then None else s.content, failed)])
    case Adopt(at, j) =>
      if !job.Loaded? then s
      else if job.loaded.Some? && at < job.loaded.value.expiresAt && at < job.loaded.value.refreshAfter then
        Tell(s.(jobs := s.jobs[j := Finished]), job.loaded.value.value)
      else s.(jobs := s.jobs[j := Querying(job.start, job.loaded, job.failed)])
    case Read(at, j, fails) =>
      if !job.Querying? then s
      else s.(jobs := s.jobs[j := Queried(job.start, job.loaded, job.failed, if fails then Failure else Row(db(at)), at)])
    case Decide(at, j, live, stopped, jitter) =>
      if !job.Queried? then s
      else
        var told := if live && job.result.Row? then Tell(s, job.result.row) else s;
        var entry := Outcome(job, at, live, stopped, jitter);
        told.(jobs := s.jobs[j := if entry.Some? then Publishing(job.loaded, entry.value) else Finished])
    case Publish(at, j) =>
      // The stored bytes must still be those that were loaded, and the record must have time to live.
      if !job.Publishing? then s
      else if s.content == job.token && ValidEntry(job.entry) && at < job.entry.expiresAt then
        s.(content := Some(job.entry), jobs := s.jobs[j := Finished])
      else s.(jobs := s.jobs[j := Finished])
  }

  function Next(before: Cache, step: Step, db: int -> Option<nat>): Cache {
    var s := before.(clock := step.at);
    match step
    case Start(at, j) => if j in s.jobs then s else s.(jobs := s.jobs[j := Started(at)])
    case Look(_, r) => s.(looks := s.looks[r := s.content])
    case Show(at, r) =>
      if r !in s.looks then s
      else
        var decision := Judge(s.looks[r], at);
        var rest := s.(looks := s.looks - {r});
        if decision.Serve? then Tell(rest, Some(decision.row)) else if decision.Missing? then Tell(rest, None) else rest
    case Drop(_) => s.(content := None)
    case _ => if step.job in s.jobs then JobStep(s, step, s.jobs[step.job], db) else s
  }

  function Run(s: Cache, steps: seq<Step>, db: int -> Option<nat>): Cache
    decreases |steps|
  {
    if steps == [] then s else Next(Run(s, steps[..|steps|-1], db), steps[|steps|-1], db)
  }

  function Init(clock: int): Cache {
    Cache(clock, None, map[], map[], [])
  }

  // The clock never runs backwards. A job finds its context alive only within its budget; `pause` bounds how far
  // the deadline can be overrun between the deadline's check and the reading of the clock.
  predicate Allowed(s: Cache, step: Step, pause: nat) {
    && s.clock <= step.at
    && (step.Decide? && step.live && step.job in s.jobs && s.jobs[step.job].Queried? ==>
          step.at < s.jobs[step.job].start + BUDGET + pause)
  }

  ghost predicate AllAllowed(s: Cache, steps: seq<Step>, db: int -> Option<nat>, pause: nat) {
    forall k :: 0 <= k < |steps| ==> Allowed(Run(s, steps[..k], db), steps[k], pause)
  }

  // ---- Bounded staleness ------------------------------------------------------------------------------------

  function Bound(value: Option<nat>, pause: nat): int {
    (if value.Some? then 40 * MINUTE else 45 * SECOND) + BUDGET - 1 + pause
  }

  // The value was the database row at some instant less than the bound before `limit`.
  ghost predicate RowWas(db: int -> Option<nat>, value: Option<nat>, limit: int, clock: int, pause: nat) {
    exists t :: t <= clock && db(t) == value && limit < t + Bound(value, pause)
  }

  ghost predicate Grounded(db: int -> Option<nat>, e: Entry, clock: int, pause: nat) {
    RowWas(db, e.value, e.expiresAt, clock, pause) && ValidEntry(e)
  }

  ghost predicate GroundedIfSome(db: int -> Option<nat>, e: Option<Entry>, clock: int, pause: nat) {
    e.Some? ==> Grounded(db, e.value, clock, pause)
  }

  ghost predicate JobGrounded(db: int -> Option<nat>, job: Job, clock: int, pause: nat) {
    match job
    case Started(start) => start <= clock
    case Loaded(start, loaded, _) => start <= clock && GroundedIfSome(db, loaded, clock, pause)
    case Querying(start, loaded, _) => start <= clock && GroundedIfSome(db, loaded, clock, pause)
    case Queried(start, loaded, _, result, readAt) =>
      && GroundedIfSome(db, loaded, clock, pause)
      && start <= readAt <= clock && (result.Row? ==> result.row == db(readAt))
    case Publishing(_, entry) => Grounded(db, entry, clock, pause)
    case Finished => true
  }

  ghost predicate Inv(db: int -> Option<nat>, s: Cache, pause: nat) {
    && GroundedIfSome(db, s.content, s.clock, pause)
    && (forall j :: j in s.jobs ==> JobGrounded(db, s.jobs[j], s.clock, pause))
    && (forall r :: r in s.looks ==> GroundedIfSome(db, s.looks[r], s.clock, pause))
    && (forall a :: a in s.answers ==> RowWas(db, a.value, a.at + 1, a.at, pause))
  }

  lemma FilledIsGrounded(db: int -> Option<nat>, job: Job, now: int, jitter: nat, pause: nat)
    requires job.Queried? && job.result.Row? && job.result.row == db(job.readAt)
    requires job.start <= job.readAt <= now < job.start + BUDGET + pause
    ensures RowWas(db, job.result.row, now + 1, now, pause)
    ensures job.result.row.Some? ==> Grounded(db, Filled(job.result.row.value, now, jitter), now, pause)
    ensures job.result.row.None? ==> Grounded(db, Negative(now, jitter), now, pause)
  {
    assert db(job.readAt) == job.result.row;
  }

  // The heart of the matter: a failed refresh rewrites the record but neither its value nor its end.
  lemma PostponedIsGrounded(db: int -> Option<nat>, e: Entry, now: int, clock: int, pause: nat)
    requires Grounded(db, e, clock, pause)
    ensures Grounded(db, Postponed(e, now), clock, pause)
  {
    assert Postponed(e, now).value == e.value && Postponed(e, now).expiresAt == e.expiresAt;
  }

  // A record read before its end is younger than the bound at that moment.
  lemma ShownIsGrounded(db: int -> Option<nat>, e: Entry, clock: int, now: int, pause: nat)
    requires Grounded(db, e, clock, pause) && clock <= now < e.expiresAt
    ensures RowWas(db, e.value, now + 1, now, pause)
  {
    var t :| t <= clock && db(t) == e.value && e.expiresAt < t + Bound(e.value, pause);
    assert t <= now && db(t) == e.value;
  }

  lemma LaterStillGrounded(db: int -> Option<nat>, s: Cache, at: int, pause: nat)
    requires Inv(db, s, pause) && s.clock <= at
    ensures Inv(db, s.(clock := at), pause)
  {
    hide Bound, ValidEntry;
  }

  lemma DecideKeeps(db: int -> Option<nat>, s: Cache, step: Step, pause: nat)
    requires Inv(db, s, pause) && Allowed(s, step, pause) && step.at == s.clock
    requires step.Decide? && step.job in s.jobs
    ensures Inv(db, JobStep(s, step, s.jobs[step.job], db), pause)
  {
    var job := s.jobs[step.job];
    if job.Queried? {
      if step.live && job.result.Row? { FilledIsGrounded(db, job, step.at, step.jitter, pause); }
      if job.loaded.Some? { PostponedIsGrounded(db, job.loaded.value, step.at, s.clock, pause); }
      hide RowWas, Grounded, Filled, Negative, Postponed;
    }
  }

  lemma JobStepKeeps(db: int -> Option<nat>, s: Cache, step: Step, pause: nat)
    requires Inv(db, s, pause) && Allowed(s, step, pause) && step.at == s.clock
    requires step.Load? || step.Adopt? || step.Read? || step.Publish?
    requires step.job in s.jobs
    ensures Inv(db, JobStep(s, step, s.jobs[step.job], db), pause)
  {
    var job := s.jobs[step.job];
    if step.Adopt? && job.Loaded? && job.loaded.Some? && step.at < job.loaded.value.expiresAt {
      ShownIsGrounded(db, job.loaded.value, s.clock, step.at, pause);
    }
    hide RowWas, Grounded, ValidEntry;
  }

  lemma NextKeeps(db: int -> Option<nat>, s: Cache, step: Step, pause: nat)
    requires Inv(db, s, pause) && Allowed(s, step, pause)
    ensures Inv(db, Next(s, step, db), pause)
  {
    LaterStillGrounded(db, s, step.at, pause);
    var now := s.(clock := step.at);
    if step.Show? && step.reader in s.looks && s.looks[step.reader].Some? && step.at < s.looks[step.reader].value.expiresAt {
      ShownIsGrounded(db, s.looks[step.reader].value, s.clock, step.at, pause);
    }
    if step.Decide? && step.job in s.jobs { DecideKeeps(db, now, step, pause); }
    if (step.Load? || step.Adopt? || step.Read? || step.Publish?) && step.job in s.jobs { JobStepKeeps(db, now, step, pause); }
    hide RowWas, Grounded, JobStep;
  }

  lemma {:induction false} RunKeeps(db: int -> Option<nat>, clock: int, steps: seq<Step>, pause: nat)
    requires AllAllowed(Init(clock), steps, db, pause)
    ensures Inv(db, Run(Init(clock), steps, db), pause)
  {
    if steps != [] {
      var before := steps[..|steps|-1];
      assert forall k :: 0 <= k < |before| ==> before[..k] == steps[..k];
      RunKeeps(db, clock, before, pause);
      NextKeeps(db, Run(Init(clock), before, db), steps[|before|], pause);
    }
  }

  // However many refreshes fail and rewrite the record: every row shown was the database row less than 40
  // minutes and the 2-second budget earlier, and every "not found" was true less than 47 seconds earlier. The
  // last 3 milliseconds are the strict ends of budget, jitter and record, so that the bound is the maximum.
  lemma StalenessIsBounded(db: int -> Option<nat>, clock: int, steps: seq<Step>, answer: Answer, pause: nat)
    requires AllAllowed(Init(clock), steps, db, pause) && answer in Run(Init(clock), steps, db).answers
    ensures exists t :: t <= answer.at && db(t) == answer.value &&
              answer.at - t <= (if answer.value.Some? then 40 * MINUTE else 45 * SECOND) + 2 * SECOND - 3 + pause
  {
    RunKeeps(db, clock, steps, pause);
    var t :| t <= answer.at && db(t) == answer.value && answer.at + 1 < t + Bound(answer.value, pause);
  }

  // ---- What a publication may replace -------------------------------------------------------------------------

  // One of the first n steps is the load of this job, and `seen` is what it saw: the record of that moment, or
  // nothing when the load failed.
  ghost predicate LoadedThis(s: Cache, steps: seq<Step>, n: nat, db: int -> Option<nat>, job: nat, seen: Option<Entry>) {
    exists l :: 0 <= l < n <= |steps| && steps[l].Load? && steps[l].job == job &&
      seen == if steps[l].failed then None else Run(s, steps[..l], db).content
  }

  function Seen(job: Job): Option<Entry>
    requires !job.Started? && !job.Finished?
  {
    if job.Publishing? then job.token else job.loaded
  }

  lemma SeenStays(s: Cache, step: Step, db: int -> Option<nat>, j: nat)
    requires j in Next(s, step, db).jobs && !Next(s, step, db).jobs[j].Started? && !Next(s, step, db).jobs[j].Finished?
    ensures j in s.jobs && !s.jobs[j].Finished?
    ensures s.jobs[j].Started? ==> step.Load? && step.job == j && Seen(Next(s, step, db).jobs[j]) == if step.failed then None else s.content
    ensures !s.jobs[j].Started? ==> Seen(Next(s, step, db).jobs[j]) == Seen(s.jobs[j])
  {
    hide Judge, Outcome, ValidEntry;
  }

  lemma {:induction false} JobsLoaded(clock: int, steps: seq<Step>, n: nat, db: int -> Option<nat>, j: nat)
    requires n <= |steps|
    requires var t := Run(Init(clock), steps[..n], db); j in t.jobs && !t.jobs[j].Started? && !t.jobs[j].Finished?
    ensures LoadedThis(Init(clock), steps, n, db, j, Seen(Run(Init(clock), steps[..n], db).jobs[j]))
    decreases n
  {
    if n > 0 {
      hide Next;
      var before := Run(Init(clock), steps[..n - 1], db);
      assert steps[..n][..n - 1] == steps[..n - 1];
      SeenStays(before, steps[n - 1], db, j);
      if !before.jobs[j].Started? { JobsLoaded(clock, steps, n - 1, db, j); }
    }
  }

  // A refresh replaces nothing but what its own load saw: a record that was deleted or replaced since then is safe
  // from it, unless the very same bytes are back. The one gap is an empty key, which a failed load also reports.
  lemma PublicationReplacesWhatWasLoaded(db: int -> Option<nat>, clock: int, steps: seq<Step>, k: nat)
    requires k < |steps| && steps[k].Publish?
    requires Run(Init(clock), steps[..k + 1], db).content != Run(Init(clock), steps[..k], db).content
    ensures LoadedThis(Init(clock), steps, k, db, steps[k].job, Run(Init(clock), steps[..k], db).content)
  {
    var before := Run(Init(clock), steps[..k], db);
    assert steps[..k + 1][..k] == steps[..k];
    var j := steps[k].job;
    assert j in before.jobs && before.jobs[j].Publishing? && before.content == before.jobs[j].token;
    JobsLoaded(clock, steps, k, db, j);
  }

  // ---- The bound is attained --------------------------------------------------------------------------------------

  ghost predicate Reaches(db: int -> Option<nat>, clock: int, t: Cache, pause: nat) {
    exists steps :: AllAllowed(Init(clock), steps, db, pause) && Run(Init(clock), steps, db) == t
  }

  lemma ReachesStart(db: int -> Option<nat>, clock: int, pause: nat)
    ensures Reaches(db, clock, Init(clock), pause)
  {
    assert AllAllowed(Init(clock), [], db, pause) && Run(Init(clock), [], db) == Init(clock);
  }

  lemma OneMoreStep(db: int -> Option<nat>, s: Cache, steps: seq<Step>, step: Step, pause: nat)
    requires AllAllowed(s, steps, db, pause) && Allowed(Run(s, steps, db), step, pause)
    ensures AllAllowed(s, steps + [step], db, pause) && Run(s, steps + [step], db) == Next(Run(s, steps, db), step, db)
  {
    hide Next, Allowed;
    var more := steps + [step];
    assert more[..|steps|] == steps;
    hide Run;
    forall k | 0 <= k < |more| ensures Allowed(Run(s, more[..k], db), more[k], pause) {
      if k < |steps| { assert more[..k] == steps[..k]; }
    }
  }

  lemma ReachesNext(db: int -> Option<nat>, clock: int, t: Cache, step: Step, pause: nat)
    requires Reaches(db, clock, t, pause) && Allowed(t, step, pause)
    ensures Reaches(db, clock, Next(t, step, db), pause)
  {
    hide Next, Allowed, AllAllowed, Run;
    var steps :| AllAllowed(Init(clock), steps, db, pause) && Run(Init(clock), steps, db) == t;
    OneMoreStep(db, Init(clock), steps, step, pause);
  }

  // A job that reads the row at instant 0 and publishes it at the very end of its budget and jitter.
  lemma LatestFill(db: int -> Option<nat>)
    requires db(0) == Some(1)
    ensures Reaches(db, 0, Cache(1999, Some(Entry(Some(1), 2101998, 2401998)), map[0 := Finished], map[], [Answer(Some(1), 1999)]), 0)
  {
    hide Reaches;
    ReachesStart(db, 0, 0);
    ReachesNext(db, 0, Init(0), Start(0, 0), 0);
    var s1 := Cache(0, None, map[0 := Started(0)], map[], []);
    assert Next(Init(0), Start(0, 0), db) == s1;
    ReachesNext(db, 0, s1, Load(0, 0, false), 0);
    var s2 := Cache(0, None, map[0 := Loaded(0, None, false)], map[], []);
    assert Next(s1, Load(0, 0, false), db) == s2;
    ReachesNext(db, 0, s2, Adopt(0, 0), 0);
    var s3 := Cache(0, None, map[0 := Querying(0, None, false)], map[], []);
    assert Next(s2, Adopt(0, 0), db) == s3;
    ReachesNext(db, 0, s3, Read(0, 0, false), 0);
    var s4 := Cache(0, None, map[0 := Queried(0, None, false, Row(Some(1)), 0)], map[], []);
    assert Next(s3, Read(0, 0, false), db) == s4;
    LatestPublication(db, s4);
  }

  lemma LatestPublication(db: int -> Option<nat>, s4: Cache)
    requires s4 == Cache(0, None, map[0 := Queried(0, None, false, Row(Some(1)), 0)], map[], []) && Reaches(db, 0, s4, 0)
    ensures Reaches(db, 0, Cache(1999, Some(Entry(Some(1), 2101998, 2401998)), map[0 := Finished], map[], [Answer(Some(1), 1999)]), 0)
  {
    hide Reaches;
    var entry := Entry(Some(1), 2101998, 2401998);
    var last := 5 * MINUTE - 1;
    ReachesNext(db, 0, s4, Decide(1999, 0, true, false, last), 0);
    assert Filled(1, 1999, last) == entry;
    var s5 := Cache(1999, None, map[0 := Publishing(None, entry)], map[], [Answer(Some(1), 1999)]);
    assert Next(s4, Decide(1999, 0, true, false, last), db) == s5;
    ReachesNext(db, 0, s5, Publish(1999, 0), 0);
    assert Next(s5, Publish(1999, 0), db) == Cache(1999, Some(entry), map[0 := Finished], map[], [Answer(Some(1), 1999)]);
  }

  // A record is still shown in the last millisecond before its end.
  lemma LastMoment(db: int -> Option<nat>, s: Cache, reader: nat, entry: Entry, row: nat)
    requires s.looks == map[reader := Some(entry)] && entry.value == Some(row)
    ensures Answer(Some(row), entry.expiresAt - 1) in Next(s, Show(entry.expiresAt - 1, reader), db).answers
  {
    var at := entry.expiresAt - 1;
    assert Next(s, Show(at, reader), db).answers == s.answers + [Answer(Some(row), at)];
  }

  lemma LatestShow(db: int -> Option<nat>)
    requires db(0) == Some(1)
    ensures exists s :: Reaches(db, 0, s, 0) && Answer(Some(1), 40 * MINUTE + 2 * SECOND - 3) in s.answers
  {
    LatestFill(db);
    hide Reaches;
    var entry := Entry(Some(1), 2101998, 2401998);
    var s6 := Cache(1999, Some(entry), map[0 := Finished], map[], [Answer(Some(1), 1999)]);
    var s7 := s6.(looks := map[0 := Some(entry)]);
    assert Next(s6, Look(1999, 0), db) == s7;
    ReachesNext(db, 0, s6, Look(1999, 0), 0);
    hide Next;
    LastMoment(db, s7, 0, entry, 1);
    ReachesNext(db, 0, s7, Show(2401997, 0), 0);
  }

  // The bound is attained: a run shows a row that last was true 40 minutes and 1.997 seconds earlier.
  lemma BoundIsTight(db: int -> Option<nat>)
    requires db(0) == Some(1) && forall t :: t != 0 ==> db(t) == Some(2)
    ensures exists s, a :: Reaches(db, 0, s, 0) && a in s.answers && a.value == Some(1) &&
              forall t :: t <= a.at && db(t) == a.value ==> a.at - t >= 40 * MINUTE + 2 * SECOND - 3
  {
    hide Reaches;
    LatestShow(db);
    var s :| Reaches(db, 0, s, 0) && Answer(Some(1), 40 * MINUTE + 2 * SECOND - 3) in s.answers;
    var a := Answer(Some(1), 40 * MINUTE + 2 * SECOND - 3);
    assert forall t :: db(t) == a.value ==> t == 0;
  }

  // ---- A job on its own ----------------------------------------------------------------------------------------

  // When a job's calls take effect and which of them fail.
  datatype Calls = Calls(start: int, load: int, adopt: int, read: int, decide: int, publish: int,
                         loadFails: bool, readFails: bool, live: bool, stopped: bool, jitter: nat)

  function Alone(content: Option<Entry>, c: Calls, db: int -> Option<nat>): Cache {
    var s1 := Next(Cache(c.start, content, map[], map[], []), Start(c.start, 0), db);
    var s2 := Next(s1, Load(c.load, 0, c.loadFails), db);
    var s3 := Next(s2, Adopt(c.adopt, 0), db);
    var s4 := Next(s3, Read(c.read, 0, c.readFails), db);
    var s5 := Next(s4, Decide(c.decide, 0, c.live, c.stopped, c.jitter), db);
    Next(s5, Publish(c.publish, 0), db)
  }

  function LoadedBy(content: Option<Entry>, c: Calls): Option<Entry> {
    if c.loadFails then None else content
  }

  predicate Fresh(content: Option<Entry>, c: Calls) {
    var loaded := LoadedBy(content, c);
    loaded.Some? && c.adopt < loaded.value.expiresAt && c.adopt < loaded.value.refreshAfter
  }

  function TellAt(content: Option<Entry>, c: Calls): int {
    if Fresh(content, c) then c.adopt else c.decide
  }

  // A record that is still fresh is adopted: nothing is read and nothing published.
  lemma AloneAdopts(content: Option<Entry>, c: Calls, db: int -> Option<nat>)
    requires Fresh(content, c)
    ensures Alone(content, c, db).content == content
    ensures Alone(content, c, db).answers == [Answer(content.value.value, c.adopt)]
  {
    var s1 := Next(Cache(c.start, content, map[], map[], []), Start(c.start, 0), db);
    var s2 := Next(s1, Load(c.load, 0, c.loadFails), db);
    assert s2.jobs[0] == Loaded(c.start, content, false) && s2.content == content && s2.answers == [];
    var s3 := Next(s2, Adopt(c.adopt, 0), db);
    assert s3.jobs[0] == Finished && s3.content == content && s3.answers == [Answer(content.value.value, c.adopt)];
  }

  function QueriedAlone(content: Option<Entry>, c: Calls, db: int -> Option<nat>): Job {
    Queried(c.start, if c.loadFails then None else content, c.loadFails, if c.readFails then Failure else Row(db(c.read)), c.read)
  }

  lemma AloneQueries(content: Option<Entry>, c: Calls, db: int -> Option<nat>)
    requires !Fresh(content, c)
    ensures var job := QueriedAlone(content, c, db); var entry := Outcome(job, c.decide, c.live, c.stopped, c.jitter);
      && Alone(content, c, db).content ==
         (if entry.Some? && content == job.loaded && ValidEntry(entry.value) && c.publish < entry.value.expiresAt then entry else content)
      && Alone(content, c, db).answers == (if c.live && job.result.Row? then [Answer(job.result.row, c.decide)] else [])
  {
    var s1 := Next(Cache(c.start, content, map[], map[], []), Start(c.start, 0), db);
    var s2 := Next(s1, Load(c.load, 0, c.loadFails), db);
    var s3 := Next(s2, Adopt(c.adopt, 0), db);
    var s4 := Next(s3, Read(c.read, 0, c.readFails), db);
    assert 0 in s3.jobs && s3.jobs[0].Querying?;
    assert s4.jobs[0] == QueriedAlone(content, c, db) && s4.content == content && s4.answers == [];
    PublishAlone(s4, c, db);
  }

  lemma PublishAlone(s: Cache, c: Calls, db: int -> Option<nat>)
    requires 0 in s.jobs && s.jobs[0].Queried? && s.answers == []
    ensures var job := s.jobs[0]; var entry := Outcome(job, c.decide, c.live, c.stopped, c.jitter);
      var t := Next(Next(s, Decide(c.decide, 0, c.live, c.stopped, c.jitter), db), Publish(c.publish, 0), db);
      && t.content ==
         (if entry.Some? && s.content == job.loaded && ValidEntry(entry.value) && c.publish < entry.value.expiresAt then entry else s.content)
      && t.answers == (if c.live && job.result.Row? then [Answer(job.result.row, c.decide)] else [])
  {
    hide Outcome, ValidEntry;
  }

  // ---- What a job leaves behind ---------------------------------------------------------------------------------

  // A row is good for 30 to 35 minutes and shown for 5 more, its absence is good for 30 to 45 seconds, and a failure
  // puts the next attempt off by five seconds, never beyond the end of the record it could not replace.
  ghost predicate Fills(e: Entry, row: nat, now: int) {
    e.value == Some(row) && now + 30 * MINUTE <= e.refreshAfter < now + 35 * MINUTE && e.expiresAt == e.refreshAfter + 5 * MINUTE
  }

  ghost predicate Denies(e: Entry, now: int) {
    e.value == None && now + 30 * SECOND <= e.refreshAfter < now + 45 * SECOND && e.expiresAt == e.refreshAfter
  }

  ghost predicate Delays(e: Entry, loaded: Entry, now: int) {
    && e.value == loaded.value && e.expiresAt == loaded.expiresAt
    && now <= e.refreshAfter <= now + 5 * SECOND && e.refreshAfter <= e.expiresAt
    && (e.refreshAfter == now + 5 * SECOND || e.refreshAfter == e.expiresAt)
  }

  // The record after an undisturbed job.
  ghost predicate Leaves(was: Option<Entry>, now: Option<Entry>, c: Calls, db: int -> Option<nat>) {
    var loaded, row := LoadedBy(was, c), db(c.read);
    if Fresh(was, c) || c.stopped then now == was
    else if c.readFails || !c.live then
      if loaded.Some? && loaded.value.value.Some? && c.decide < loaded.value.expiresAt && c.publish < loaded.value.expiresAt
      then now.Some? && Delays(now.value, loaded.value, c.decide)
      else now == was
    else
      && (was != loaded ==> now == was)
      && (now == was || (now.Some? && if row.Some? then Fills(now.value, row.value, c.decide) else Denies(now.value, c.decide)))
      && (was == loaded && c.publish < c.decide + (if row.Some? then 35 * MINUTE else 30 * SECOND) ==>
            now.Some? && if row.Some? then Fills(now.value, row.value, c.decide) else Denies(now.value, c.decide))
  }

  // What the job reports to those who wait for it: a record that is fresh, or else what its query found.
  function Reported(was: Option<Entry>, c: Calls, db: int -> Option<nat>): Reply<nat> {
    var found := if Fresh(was, c) then was.value.value else db(c.read);
    if !Fresh(was, c) && (c.readFails || !c.live) then Err(Dependency)
    else if found.None? then Err(NotFound)
    else Ok(found.value)
  }

  lemma OutcomeLeaves(was: Option<Entry>, c: Calls, db: int -> Option<nat>)
    requires !Fresh(was, c)
    ensures Leaves(was, Alone(was, c, db).content, c, db)
  {
    AloneQueries(was, c, db);
    hide Alone;
  }

  // The calls of a job come in time order, and its context is alive only within the budget.
  predicate Timely(c: Calls, pause: nat) {
    c.start <= c.load <= c.adopt <= c.read <= c.decide && (c.live ==> c.decide < c.start + BUDGET + pause)
  }

  // What an undisturbed job reports is as fresh as any answer: a row, or its absence, that was true within the bound.
  lemma ReportIsGrounded(was: Option<Entry>, c: Calls, db: int -> Option<nat>, pause: nat)
    requires Timely(c, pause) && GroundedIfSome(db, was, c.load, pause)
    ensures var reply, at := Reported(was, c, db), TellAt(was, c);
      && (reply.Ok? ==> RowWas(db, Some(reply.value), at + 1, at, pause))
      && (reply == Err(NotFound) ==> RowWas(db, None, at + 1, at, pause))
  {
    if Fresh(was, c) {
      ShownIsGrounded(db, was.value, c.load, c.adopt, pause);
    } else {
      assert c.live && !c.readFails ==> c.decide + 1 < c.read + Bound(db(c.read), pause);
    }
  }

  // ---- The store and the service --------------------------------------------------------------------------------

  class ShopStore {
    var content: Option<Entry>

    constructor ()
      ensures content == None
    {
      content := None;
    }

    method CompareAndSet(expected: Option<Entry>, entry: Entry, now: int) returns (reply: Reply<bool>)
      modifies this
      ensures reply == if !ValidEntry(entry) || now >= entry.expiresAt then Err(Dependency) else Ok(old(content) == expected)
      ensures content == if reply == Ok(true) then Some(entry) else old(content)
    {
      if !ValidEntry(entry) || entry.expiresAt - now < 1 { return Err(Dependency); }
      if content != expected { return Ok(false); }
      content := Some(entry);
      reply := Ok(true);
    }

    method Invalidate()
      modifies this
      ensures content == None
    {
      content := None;
    }

    // The job's goroutine when nothing comes between its calls: it takes exactly the steps of Alone.
    method Rebuild(c: Calls, db: int -> Option<nat>) returns (reply: Reply<nat>)
      modifies this
      ensures content == Alone(old(content), c, db).content
      ensures Alone(old(content), c, db).answers ==
              match reply
              case Ok(row) => [Answer(Some(row), TellAt(old(content), c))]
              case Err(kind) => if kind == NotFound then [Answer(None, TellAt(old(content), c))] else []
      ensures reply == Reported(old(content), c, db) && Leaves(old(content), content, c, db)
    {
      if !Fresh(content, c) { OutcomeLeaves(content, c, db); }
      hide Leaves, Alone, Filled, Negative, Postponed, ValidEntry;
      var loaded := if c.loadFails then None else content;
      if loaded.Some? && c.adopt < loaded.value.expiresAt && c.adopt < loaded.value.refreshAfter {
        AloneAdopts(content, c, db);
        return if loaded.value.value.None? then Err(NotFound) else Ok(loaded.value.value.value);
      }
      AloneQueries(content, c, db);
      var row := db(c.read);
      if c.readFails || !c.live {
        reply := Err(Dependency);
      } else {
        reply := if row.None? then Err(NotFound) else Ok(row.value);
      }
      if c.stopped { return; }
      if reply.Ok? {
        var _ := CompareAndSet(loaded, Filled(reply.value, c.decide, c.jitter), c.publish);
      } else if reply.kind == NotFound {
        var _ := CompareAndSet(loaded, Negative(c.decide, c.jitter), c.publish);
      } else if !c.loadFails && loaded.Some? && loaded.value.value.Some? && c.decide < loaded.value.expiresAt {
        var _ := CompareAndSet(loaded, Postponed(loaded.value, c.decide), c.publish);
      }
    }
  }

  datatype Told = Shown(row: nat) | Joined(call: nat)

  function LeftBy(reply: Reply<nat>): F.Outcome {
    if reply.Ok? then F.Found(reply.value) else F.Broken(reply.kind)
  }

  function ToldBy(outcome: F.Outcome): Reply<nat> {
    match outcome
    case Found(row) => Ok(row)
    case Broken(kind) => Err(kind)
  }

  // The goroutine of a refresh: the job, and then its deferred function, which leaves the report in the call.
  method RunJob(store: ShopStore, flight: F.Shop, call: nat, c: Calls, db: int -> Option<nat>)
    requires F.Inv(flight.Model()) && call in flight.running
    modifies store, flight
    ensures F.Inv(flight.Model()) && Leaves(old(store.content), store.content, c, db)
    ensures flight.Model() == F.Next(old(flight.Model()), F.Finish(call, LeftBy(Reported(old(store.content), c, db))))
    ensures call in flight.outcomes && flight.outcomes[call] == LeftBy(Reported(old(store.content), c, db))
    // So a waiter, who is told by this outcome, is told what the job reported.
    ensures ToldBy(flight.outcomes[call]) == Reported(old(store.content), c, db) && flight.doneCloses[call] == 1
  {
    hide F.Inv, F.Next, Leaves, Reported, Alone, Filled, Negative, Postponed, ValidEntry;
    var reply := store.Rebuild(c, db);
    flight.Finish(call, LeftBy(reply));
  }

  // A usable row is shown at once, whether or not its refresh can be started; only a cold reader waits for a call.
  method Detail(store: ShopStore, flight: F.Shop, shop: nat, now: int, fails: bool) returns (reply: Reply<Told>)
    requires F.Inv(flight.Model())
    modifies flight
    ensures F.Inv(flight.Model())
    ensures shop == 0 ==> reply == Err(Validation) && flight.Model() == old(flight.Model())
    ensures shop != 0 ==>
              match Judge(if fails then None else store.content, now)
              case Serve(row, refresh) =>
                && reply == Ok(Shown(row))
                && flight.Model() == (if refresh then F.Next(old(flight.Model()), F.Refresh(shop)) else old(flight.Model()))
              case Missing => reply == Err(NotFound) && flight.Model() == old(flight.Model())
              case Wait =>
                && flight.Model() == F.Next(old(flight.Model()), F.Refresh(shop))
                && (var answer := F.Answer(old(flight.Model()), shop);
                    reply == if answer.Ok? then Ok(Joined(answer.value)) else Err(answer.kind))
    // A record is used until it expires: a row is shown, its refresh starts once it is due, and its absence is told
    // only until it is due. Everything else is a cold read.
    ensures shop != 0 ==>
              var loaded, f := if fails then None else store.content, old(flight.Model());
              var usable := loaded.Some? && now < loaded.value.expiresAt;
              var due := usable && now >= loaded.value.refreshAfter;
              if usable && loaded.value.value.Some? then
                reply == Ok(Shown(loaded.value.value.value)) && flight.Model() == if due then F.Next(f, F.Refresh(shop)) else f
              else if usable && !due then reply == Err(NotFound) && flight.Model() == f
              else
                && flight.Model() == F.Next(f, F.Refresh(shop))
                && (reply.Ok? <==> F.Answer(f, shop).Ok?) && (reply.Ok? ==> reply.value == Joined(F.Answer(f, shop).value))
                && (reply.Err? ==> reply.kind == F.Answer(f, shop).kind)
  {
    hide F.Inv, F.Next, F.Answer;
    if shop == 0 { return Err(Validation); }
    var loaded := if fails then None else store.content;
    if loaded.Some? && now < loaded.value.expiresAt {
      if loaded.value.value.Some? {
        if now >= loaded.value.refreshAfter { var _ := flight.Refresh(shop); }
        return Ok(Shown(loaded.value.value.value));
      }
      if now < loaded.value.refreshAfter { return Err(NotFound); }
    }
    var call := flight.Refresh(shop);
    reply := if call.Ok? then Ok(Joined(call.value)) else Err(call.kind);
  }

  // The rest of a Detail call that joined a refresh: it returns when done is closed or its own context ends, and
  // never gives up the shared job by doing so.
  method Await(flight: F.Shop, call: nat, cancelled: bool) returns (reply: Reply<nat>)
    requires F.Inv(flight.Model()) && call < flight.calls
    requires cancelled || flight.doneCloses[call] == 1
    ensures cancelled ==> reply == Err(Dependency)
    ensures !cancelled ==> call in flight.outcomes
    ensures !cancelled ==> reply == match flight.outcomes[call] case Found(row) => Ok(row) case Broken(kind) => Err(kind)
    // Over the whole run of the group: the outcome is the one the call's own job ended with.
    ensures !cancelled ==>
              forall steps, k: nat, outcome :: flight.Model() == F.Run(F.INIT, steps) && F.EndsWith(steps, k, call, outcome) ==> reply == ToldBy(outcome)
  {
    forall steps, k: nat, outcome | flight.Model() == F.Run(F.INIT, steps) && F.EndsWith(steps, k, call, outcome)
      ensures call in flight.outcomes && flight.outcomes[call] == outcome
    {
      F.OutcomeIsTheJobs(steps, call, outcome);
    }
    if cancelled { return Err(Dependency); }
    var outcome := flight.outcomes[call];
    reply := if outcome.Found? then Ok(outcome.row) else Err(outcome.kind);
  }
}
