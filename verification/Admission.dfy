// The Redis side: every Lua script or stream command is one atomic step.
module Admission {
  import opened SeckillModel

  // The activity hash: buyers are its "buyer:<user>" fields, compensated its "compensated:<event>" fields.
  datatype Hash = Hash(seed: Seed, stock: int, buyers: map<nat, StreamId>, compensated: set<StreamId>)

  // The event stream and its consumer group "orders". Entries are never trimmed, so the group's
  // last-delivered id splits the log in a delivered prefix and a waiting suffix.
  datatype Stream = Stream(
    delivered: seq<Event>, waiting: seq<Event>, lastId: StreamId,
    groups: seq<string>, pending: set<StreamId>)

  datatype Redis = Redis(hash: Option<Hash>, stream: Option<Stream>)

  const GROUP := "orders"

  function Entries(q: Stream): seq<Event> {
    q.delivered + q.waiting
  }

  function EmptyStream(): Stream {
    Stream([], [], ZERO_ID, [GROUP], {})
  }

  function Ids(es: seq<Event>): set<StreamId> {
    set e | e in es :: e.id
  }

  // ---- Activation ---------------------------------------------------------------------------------

  predicate ValidSeed(s: Seed) {
    && ValidGeneration(s.generation) && 0 <= s.capacity <= MAX_EXACT
    && 0 <= s.begin < s.end <= MAX_EXACT
  }

  // Create-only: any existing key is a conflict and is left alone.
  function Prepare(r: Redis, s: Seed): (Redis, Reply<()>) {
    if !ValidSeed(s) then (r, Err(Validation))
    else if r.hash.Some? || r.stream.Some? then (r, Err(Conflict))
    else (Redis(Some(Hash(s, s.capacity, map[], {})), Some(EmptyStream())), Ok(()))
  }

  predicate Pristine(h: Hash, q: Stream) {
    h.stock == h.seed.capacity && Entries(q) == [] && h.buyers == map[] && h.compensated == {}
  }

  function Check(r: Redis, s: Seed, pristine: bool): Reply<()> {
    if r.hash.None? || r.stream.None? then Err(Dependency)
    else
      var h, q := r.hash.value, r.stream.value;
      if h.seed != s || !(0 <= h.stock <= h.seed.capacity) then Err(Dependency)
      else if pristine && !Pristine(h, q) then Err(Dependency)
      else if GROUP !in q.groups then Err(Dependency)
      else Ok(())
  }

  // What Check accepts as pristine is what Prepare makes, up to bookkeeping of the stream; and without the flag it
  // accepts every later state of the same snapshot whose stock stays in range.
  lemma CheckRecognises(r: Redis, s: Seed)
    ensures Check(r, s, true).Ok? <==>
      && r.hash == Some(Hash(s, s.capacity, map[], {})) && 0 <= s.capacity
      && r.stream.Some? && Entries(r.stream.value) == [] && GROUP in r.stream.value.groups
    ensures Check(r, s, false).Ok? <==>
      && r.hash.Some? && r.hash.value.seed == s && 0 <= r.hash.value.stock <= s.capacity
      && r.stream.Some? && GROUP in r.stream.value.groups
    ensures forall pristine :: Check(r, s, pristine).Err? ==> Check(r, s, pristine).kind == Dependency
    ensures ValidSeed(s) ==> Prepare(Redis(None, None), s).1.Ok? && Check(Prepare(Redis(None, None), s).0, s, true).Ok?
    ensures Prepare(r, s).1.Err? ==> Prepare(r, s).0 == r && Prepare(r, s).1.kind == if ValidSeed(s) then Conflict else Validation
  {
  }

  // ---- Admission --------------------------------------------------------------------------------

  // XADD with an automatic id: strictly after every earlier id even if the clock steps back.
  function NextId(last: StreamId, now: nat): StreamId {
    if last.ms < now then StreamId(now, 0) else StreamId(last.ms, last.seqNo + 1)
  }

  predicate SoundHash(h: Hash) {
    ValidSeed(h.seed) && 0 <= h.stock <= h.seed.capacity
  }

  function Reserve(r: Redis, user: nat, generation: string, now: nat): (Redis, Reply<Event>) {
    if r.hash.None? || r.stream.None? then (r, Err(Dependency))
    else
      var h, q := r.hash.value, r.stream.value;
      if h.seed.generation != generation || GROUP !in q.groups || !SoundHash(h) then (r, Err(Dependency))
      else if now < h.seed.begin then (r, Err(ActivityNotStarted))
      else if h.seed.end <= now then (r, Err(ActivityEnded))
      else if user in h.buyers then (r, Err(AlreadyPurchased))
      else if h.stock == 0 then (r, Err(SoldOut))
      else
        var e := Event(NextId(q.lastId, now), user, generation, now);
        (Admit(h, q, e), Ok(e))
  }

  function Admit(h: Hash, q: Stream, e: Event): Redis {
    Redis(Some(h.(stock := h.stock - 1, buyers := h.buyers[e.user := e.id])),
          Some(q.(waiting := q.waiting + [e], lastId := e.id)))
  }

  function Find(es: seq<Event>, id: StreamId): Option<Event> {
    if es == [] then None
    else if es[0].id == id then Some(es[0])
    else Find(es[1..], id)
  }

  // Recovers an accepted ticket from the buyer marker and the stream entry it names.
  function Receipt(r: Redis, user: nat): Reply<Event> {
    if r.hash.None? || r.stream.None? then Err(Dependency)
    else
      var h, q := r.hash.value, r.stream.value;
      if user !in h.buyers then Err(NotFound)
      else
        var found := Find(Entries(q), h.buyers[user]);
        if found.None? || found.value.user != user || found.value.generation != h.seed.generation then Err(Dependency)
        else Ok(found.value)
  }

  // ---- Delivery -----------------------------------------------------------------------------------

  function Min(a: nat, b: nat): nat {
    if a < b then a else b
  }

  // XREADGROUP ">" with a positive COUNT.
  function Read(r: Redis, count: nat): (Redis, Reply<seq<Event>>) {
    if r.stream.None? || GROUP !in r.stream.value.groups then (r, Err(Dependency))
    else
      var q := r.stream.value;
      var n := Min(count, |q.waiting|);
      var batch := q.waiting[..n];
      (r.(stream := Some(q.(delivered := q.delivered + batch, waiting := q.waiting[n..], pending := q.pending + Ids(batch)))), Ok(batch))
  }

  // A read delivers the next entries in order, as many as are there up to `count`, and exactly these become pending.
  lemma ReadTakesNext(r: Redis, count: nat)
    requires r.stream.Some? && GROUP in r.stream.value.groups
    ensures var (x, reply) := Read(r, count); var q := r.stream.value;
      && reply.Ok? && x.hash == r.hash && x.stream.Some?
      && var batch, p := reply.value, x.stream.value;
      && batch + p.waiting == q.waiting && |batch| <= count && (|batch| == count || p.waiting == [])
      && p.delivered == q.delivered + batch && p.lastId == q.lastId && p.groups == q.groups
      && (forall id :: id in p.pending <==> id in q.pending || exists i :: 0 <= i < |batch| && batch[i].id == id)
  {
    var (q, p, batch) := (r.stream.value, Read(r, count).0.stream.value, Read(r, count).1.value);
    forall id | id in Ids(batch) ensures exists i :: 0 <= i < |batch| && batch[i].id == id {
      var e :| e in batch && e.id == id;
    }
    assert forall i :: 0 <= i < |batch| ==> batch[i] in batch;
  }

  // The pending list from `start` on, in id order.
  function Listed(es: seq<Event>, pending: set<StreamId>, start: StreamId): seq<Event> {
    if es == [] then []
    else
      var rest := Listed(es[1..], pending, start);
      if es[0].id in pending && !Before(es[0].id, start) then [es[0]] + rest else rest
  }

  // The walk of XAUTOCLAIM: it looks at `tries` entries at most, passes over those that were delivered too
  // recently, and stops at `count` claims. Returns the claimed entries and the part of the list not looked at.
  function Walk(list: seq<Event>, idle: set<StreamId>, count: nat, tries: nat): (seq<Event>, seq<Event>) {
    if list == [] || count == 0 || tries == 0 then ([], list)
    else if list[0].id in idle then
      var (claimed, rest) := Walk(list[1..], idle, count - 1, tries - 1);
      ([list[0]] + claimed, rest)
    else Walk(list[1..], idle, count, tries - 1)
  }

  // XAUTOCLAIM: the cursor to continue from is the next pending entry, and wraps to 0-0 at the end.
  function Claim(r: Redis, start: StreamId, idle: set<StreamId>, count: nat): Reply<(seq<Event>, StreamId)> {
    if r.stream.None? || GROUP !in r.stream.value.groups then Err(Dependency)
    else
      var (claimed, rest) := Walk(Listed(r.stream.value.delivered, r.stream.value.pending, start), idle, count, 10 * count);
      Ok((claimed, if rest == [] then ZERO_ID else rest[0].id))
  }

  function Ack(r: Redis, id: StreamId): Redis {
    if r.stream.None? then r else r.(stream := Some(r.stream.value.(pending := r.stream.value.pending - {id})))
  }

  // ---- Compensation ---------------------------------------------------------------------------------

  function Compensate(r: Redis, e: Event): (Redis, Reply<()>) {
    if r.hash.None? then (r, Err(Dependency))
    else
      var h := r.hash.value;
      if h.seed.generation != e.generation || e.user !in h.buyers || h.buyers[e.user] != e.id then (r, Err(Dependency))
      else if e.id in h.compensated then (r, Ok(()))
      else if !(0 <= h.stock < h.seed.capacity <= MAX_EXACT) then (r, Err(Dependency))
      else (r.(hash := Some(h.(stock := h.stock + 1, compensated := h.compensated + {e.id}))), Ok(()))
  }
}
