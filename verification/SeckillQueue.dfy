// The Redis keys of one activity, changed in place by the scripts and the stream commands.
module SeckillQueue {
  import opened SeckillModel
  import R = Admission

  class SeckillQueue {
    var hash: Option<R.Hash>
    var stream: Option<R.Stream>

    function Model(): R.Redis
      reads this
    {
      R.Redis(hash, stream)
    }

    constructor ()
      ensures Model() == R.Redis(None, None)
    {
      hash, stream := None, None;
    }

    method Prepare(seed: Seed) returns (reply: Reply<()>)
      modifies this
      ensures (Model(), reply) == R.Prepare(old(Model()), seed)
    {
      if !R.ValidSeed(seed) { return Err(Validation); }
      if hash.Some? || stream.Some? { return Err(Conflict); }
      stream := Some(R.EmptyStream());
      hash := Some(R.Hash(seed, seed.capacity, map[], {}));
      reply := Ok(());
    }

    // Scans XINFO GROUPS for the consumer group.
    method HasGroup() returns (found: bool)
      requires stream.Some?
      ensures found == (R.GROUP in stream.value.groups)
    {
      found := false;
      for i := 0 to |stream.value.groups|
        invariant found == (R.GROUP in stream.value.groups[..i])
      {
        if stream.value.groups[i] == R.GROUP { found := true; }
      }
      assert stream.value.groups[..|stream.value.groups|] == stream.value.groups;
    }

    method Check(seed: Seed, pristine: bool) returns (reply: Reply<()>)
      ensures reply == R.Check(Model(), seed, pristine)
    {
      if hash.None? || stream.None? { return Err(Dependency); }
      if hash.value.seed != seed || !(0 <= hash.value.stock <= seed.capacity) { return Err(Dependency); }
      if pristine && !R.Pristine(hash.value, stream.value) { return Err(Dependency); }
      var found := HasGroup();
      reply := if found then Ok(()) else Err(Dependency);
    }

    // XADD precedes HSET, so a rejected enqueue cannot consume stock.
    method ReserveForGeneration(user: nat, generation: string, now: nat) returns (reply: Reply<Event>)
      modifies this
      ensures user == 0 || !ValidGeneration(generation) ==> reply == Err(Validation) && Model() == old(Model())
      ensures user != 0 && ValidGeneration(generation) ==> (Model(), reply) == R.Reserve(old(Model()), user, generation, now)
    {
      if user == 0 || !ValidGeneration(generation) { return Err(Validation); }
      if hash.None? || stream.None? || hash.value.seed.generation != generation { return Err(Dependency); }
      var found := HasGroup();
      if !found || !R.SoundHash(hash.value) { return Err(Dependency); }
      if now < hash.value.seed.begin { return Err(ActivityNotStarted); }
      if hash.value.seed.end <= now { return Err(ActivityEnded); }
      if user in hash.value.buyers { return Err(AlreadyPurchased); }
      if hash.value.stock == 0 { return Err(SoldOut); }
      var id := R.NextId(stream.value.lastId, now);
      var event := Event(id, user, generation, now);
      stream := Some(stream.value.(waiting := stream.value.waiting + [event], lastId := id));
      hash := Some(hash.value.(stock := hash.value.stock - 1));
      hash := Some(hash.value.(buyers := hash.value.buyers[user := id]));
      reply := Ok(event);
    }

    // XRANGE id id: the first entry with that id.
    method Range(id: StreamId) returns (found: Option<Event>)
      requires stream.Some?
      ensures found == R.Find(R.Entries(stream.value), id)
    {
      var es := R.Entries(stream.value);
      var i := 0;
      while i < |es|
        invariant i <= |es|
        invariant R.Find(es[i..], id) == R.Find(es, id)
      {
        if es[i].id == id { return Some(es[i]); }
        assert es[i..][1..] == es[i + 1..];
        i := i + 1;
      }
      found := None;
    }

    method Receipt(user: nat) returns (reply: Reply<Event>)
      ensures reply == R.Receipt(Model(), user)
    {
      if hash.None? || stream.None? { return Err(Dependency); }
      if user !in hash.value.buyers { return Err(NotFound); }
      var found := Range(hash.value.buyers[user]);
      if found.None? || found.value.user != user || found.value.generation != hash.value.seed.generation {
        return Err(Dependency);
      }
      reply := Ok(found.value);
    }

    method Read(count: nat) returns (reply: Reply<seq<Event>>)
      modifies this
      ensures (Model(), reply) == R.Read(old(Model()), count)
    {
      if stream.None? { return Err(Dependency); }
      var found := HasGroup();
      if !found { return Err(Dependency); }
      var n := R.Min(count, |stream.value.waiting|);
      var batch := stream.value.waiting[..n];
      stream := Some(stream.value.(delivered := stream.value.delivered + batch, waiting := stream.value.waiting[n..]));
      stream := Some(stream.value.(pending := stream.value.pending + R.Ids(batch)));
      reply := Ok(batch);
    }

    method Claim(start: StreamId, idle: set<StreamId>, count: nat) returns (reply: Reply<(seq<Event>, StreamId)>)
      ensures reply == R.Claim(Model(), start, idle, count)
    {
      if stream.None? { return Err(Dependency); }
      var found := HasGroup();
      if !found { return Err(Dependency); }
      var es := stream.value.delivered;
      var list: seq<Event> := [];
      var i := |es|;
      while i > 0
        invariant 0 <= i <= |es| && list == R.Listed(es[i..], stream.value.pending, start)
      {
        i := i - 1;
        assert es[i..][1..] == es[i + 1..];
        if es[i].id in stream.value.pending && !Before(es[i].id, start) { list := [es[i]] + list; }
      }
      assert es[0..] == es;
      var claimed, next := WalkList(list, idle, count, 10 * count);
      reply := Ok((claimed, if next == |list| then ZERO_ID else list[next].id));
    }

    static method WalkList(list: seq<Event>, idle: set<StreamId>, count: nat, tries: nat) returns (claimed: seq<Event>, next: nat)
      ensures next <= |list| && (claimed, list[next..]) == R.Walk(list, idle, count, tries)
    {
      claimed, next := [], 0;
      var left := tries;
      ghost var all := R.Walk(list, idle, count, tries);
      assert list[0..] == list && [] + all.0 == all.0;
      while next < |list| && |claimed| < count && left > 0
        invariant next <= |list| && |claimed| <= count
        invariant var rest := R.Walk(list[next..], idle, count - |claimed|, left);
                  all.0 == claimed + rest.0 && all.1 == rest.1
        decreases left
      {
        assert list[next..][1..] == list[next + 1..];
        if list[next].id in idle {
          ghost var rest := R.Walk(list[next + 1..], idle, count - |claimed| - 1, left - 1);
          assert claimed + ([list[next]] + rest.0) == (claimed + [list[next]]) + rest.0;
          claimed := claimed + [list[next]];
        }
        next, left := next + 1, left - 1;
      }
      assert R.Walk(list[next..], idle, count - |claimed|, left) == ([], list[next..]);
      assert claimed + [] == claimed;
    }

    method Ack(id: StreamId)
      modifies this
      ensures Model() == R.Ack(old(Model()), id)
    {
      if stream.Some? { stream := Some(stream.value.(pending := stream.value.pending - {id})); }
    }

    method Compensate(e: Event) returns (reply: Reply<()>)
      modifies this
      ensures (Model(), reply) == R.Compensate(old(Model()), e)
    {
      if hash.None? { return Err(Dependency); }
      if hash.value.seed.generation != e.generation || e.user !in hash.value.buyers || hash.value.buyers[e.user] != e.id {
        return Err(Dependency);
      }
      if e.id in hash.value.compensated { return Ok(()); }
      if !(0 <= hash.value.stock < hash.value.seed.capacity <= MAX_EXACT) { return Err(Dependency); }
      hash := Some(hash.value.(stock := hash.value.stock + 1));
      hash := Some(hash.value.(compensated := hash.value.compensated + {e.id}));
      reply := Ok(());
    }
  }
}
