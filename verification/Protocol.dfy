// The whole flash-sale protocol as a labelled step function over both stores and every local phase.
// A label carries all nondeterminism (clocks, tokens, which caller moves), so a run is a sequence of
// labels. A label whose caller is in another phase changes nothing. Losing a reply is the step
// followed by the caller's crash.
module Protocol {
  import opened SeckillModel
  import L = Ledger
  import R = Admission

  // A caller of Enable between two of its steps; `state` is the async_state Stage returned.
  datatype Enabling = Staged(seed: Seed, state: nat) | Prepared(seed: Seed) | Checked(seed: Seed)

  // A caller of Accept that has read an active activity row.
  datatype Accepting = Accepting(user: nat, generation: string)

  // A worker holding delivered events; the phase belongs to the first of them.
  datatype Phase = Fetched | Applied(verdict: Verdict) | Restored

  datatype Worker = Worker(batch: seq<Event>, phase: Phase)

  datatype System = System(
    sql: L.Ledger,
    redis: R.Redis,
    enabling: map<nat, Enabling>,
    accepting: map<nat, Accepting>,
    workers: map<nat, Worker>)

  datatype Step =
    | StageStep(caller: nat, clock: int, token: string)
    | PrepareStep(caller: nat)
    | CheckStep(caller: nat)
    | ActivateStep(caller: nat)
    | EnableCrash(caller: nat)
    | LookStep(caller: nat, user: nat)
    | ReserveStep(caller: nat, now: nat)
    | AcceptCrash(caller: nat)
    | PlaceStep(user: nat, clock: int)
    | ClaimStep(worker: nat, start: StreamId, idle: set<StreamId>, count: nat)
    | ReadStep(worker: nat, count: nat)
    | ApplyStep(worker: nat)
    | CompensateStep(worker: nat)
    | AckStep(worker: nat)
    | DropStep(worker: nat)
    | WorkerCrash(worker: nat)
    | RegisterStep(user: nat)
    | DeleteStep(user: nat)
    | BurnStep(n: nat)

  function Without<V>(m: map<nat, V>, k: nat): map<nat, V> {
    map x | x in m && x != k :: m[x]
  }

  function Next(s: System, t: Step): System {
    match t
    case StageStep(c, now, token) => StageNext(s, c, now, token)
    case PrepareStep(c) => PrepareNext(s, c)
    case CheckStep(c) => CheckNext(s, c)
    case ActivateStep(c) => ActivateNext(s, c)
    case EnableCrash(c) => s.(enabling := Without(s.enabling, c))
    case LookStep(c, user) => LookNext(s, c, user)
    case ReserveStep(c, now) => ReserveNext(s, c, now)
    case AcceptCrash(c) => s.(accepting := Without(s.accepting, c))
    case PlaceStep(user, now) => s.(sql := L.Place(s.sql, user, now).0)
    case ClaimStep(w, start, idle, count) => ClaimNext(s, w, start, idle, count)
    case ReadStep(w, count) => ReadNext(s, w, count)
    case ApplyStep(w) => ApplyNext(s, w)
    case CompensateStep(w) => CompensateNext(s, w)
    case AckStep(w) => AckNext(s, w)
    case DropStep(w) => s.(workers := s.workers[w := Drop(Held(s, w))])
    case WorkerCrash(w) => s.(workers := Without(s.workers, w))
    case RegisterStep(user) => s.(sql := L.Register(s.sql, user))
    case DeleteStep(user) => s.(sql := L.Remove(s.sql, user))
    case BurnStep(n) => s.(sql := L.Burn(s.sql, n))
  }

  function Run(s: System, ts: seq<Step>): System
    decreases |ts|
  {
    if ts == [] then s else Run(Next(s, ts[0]), ts[1..])
  }

  // ---- Enable ---------------------------------------------------------------------------------------

  function StageNext(s: System, c: nat, now: int, token: string): System {
    if c in s.enabling || !ValidGeneration(token) then s
    else
      var (sql, reply) := L.Stage(s.sql, now, token);
      if reply.Ok? then s.(sql := sql, enabling := s.enabling[c := Staged(SeedOf(reply.value), reply.value.state)])
      else s.(sql := sql)
  }

  function PrepareNext(s: System, c: nat): System {
    if c in s.enabling && s.enabling[c].Staged? && s.enabling[c].state != 2 then
      var seed := s.enabling[c].seed;
      var (redis, reply) := R.Prepare(s.redis, seed);
      if reply.Ok? || reply.kind == Conflict then s.(redis := redis, enabling := s.enabling[c := Prepared(seed)])
      else s.(redis := redis, enabling := Without(s.enabling, c))
    else s
  }

  // An active activity is only checked; otherwise the fresh snapshot must still be pristine.
  function CheckNext(s: System, c: nat): System {
    if c in s.enabling && s.enabling[c].Prepared? && R.Check(s.redis, s.enabling[c].seed, true).Ok? then
      s.(enabling := s.enabling[c := Checked(s.enabling[c].seed)])
    else if c in s.enabling && (s.enabling[c].Prepared? || (s.enabling[c].Staged? && s.enabling[c].state == 2)) then
      s.(enabling := Without(s.enabling, c))
    else s
  }

  function ActivateNext(s: System, c: nat): System {
    if c in s.enabling && s.enabling[c].Checked? then
      s.(sql := L.Activate(s.sql, s.enabling[c].seed.generation).0, enabling := Without(s.enabling, c))
    else s
  }

  // ---- Accept ---------------------------------------------------------------------------------------

  function LookNext(s: System, c: nat, user: nat): System {
    if c in s.accepting || s.sql.row.None? || s.sql.row.value.state != 2 then s
    else s.(accepting := s.accepting[c := Accepting(user, s.sql.row.value.generation)])
  }

  function ReserveNext(s: System, c: nat, now: nat): System {
    if c !in s.accepting then s
    else
      var a := s.accepting[c];
      s.(redis := R.Reserve(s.redis, a.user, a.generation, now).0, accepting := Without(s.accepting, c))
  }

  // ---- Worker ---------------------------------------------------------------------------------------

  function Held(s: System, w: nat): Worker {
    if w in s.workers then s.workers[w] else Worker([], Fetched)
  }

  function Drop(k: Worker): Worker {
    if k.batch == [] then Worker([], Fetched) else Worker(k.batch[1..], Fetched)
  }

  function ClaimNext(s: System, w: nat, start: StreamId, idle: set<StreamId>, count: nat): System {
    var reply := R.Claim(s.redis, start, idle, count);
    if reply.Ok? then s.(workers := s.workers[w := Held(s, w).(batch := Held(s, w).batch + reply.value.0)]) else s
  }

  function ReadNext(s: System, w: nat, count: nat): System {
    var (redis, reply) := R.Read(s.redis, count);
    if reply.Ok? then
      s.(redis := redis, workers := s.workers[w := Held(s, w).(batch := Held(s, w).batch + reply.value)])
    else s
  }

  function ApplyNext(s: System, w: nat): System {
    var k := Held(s, w);
    if k.batch == [] || k.phase != Fetched then s
    else
      var (sql, reply) := L.Apply(s.sql, k.batch[0]);
      s.(sql := sql, workers := s.workers[w := if reply.Ok? then k.(phase := Applied(reply.value.verdict)) else Drop(k)])
  }

  function CompensateNext(s: System, w: nat): System {
    var k := Held(s, w);
    if k.batch == [] || !k.phase.Applied? || k.phase.verdict.Created? then s
    else
      var (redis, reply) := R.Compensate(s.redis, k.batch[0]);
      s.(redis := redis, workers := s.workers[w := if reply.Ok? then k.(phase := Restored) else Drop(k)])
  }

  // Only a created outcome or a restored failure may be acknowledged.
  function AckNext(s: System, w: nat): System {
    var k := Held(s, w);
    if k.batch != [] && (k.phase.Restored? || (k.phase.Applied? && k.phase.verdict.Created?)) then
      s.(redis := R.Ack(s.redis, k.batch[0].id), workers := s.workers[w := Drop(k)])
    else s
  }
}
