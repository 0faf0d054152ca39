// The pushed feed index against the SQL join it speeds up.
module FeedIndex {
  import opened SeckillModel
  import opened Slices
  import P = Publication

  // ---- The live sorted sets ---------------------------------------------------------------------------

  type Lives = map<nat, map<nat, int>>  // reader -> blog -> score; a reader without a key has an empty index

  function Live(lives: Lives, reader: nat): map<nat, int> {
    if reader in lives then lives[reader] else map[]
  }

  // ZADD NX on every reader's index: an entry keeps its first score.
  function Pushed(lives: Lives, readers: set<nat>, blog: nat, score: int): Lives {
    map r | r in lives.Keys + readers ::
      if r in readers && blog !in Live(lives, r) then Live(lives, r)[blog := score] else Live(lives, r)
  }

  lemma PushedLive(lives: Lives, readers: set<nat>, blog: nat, score: int, reader: nat)
    ensures Live(Pushed(lives, readers, blog, score), reader) ==
            if reader in readers && blog !in Live(lives, reader) then Live(lives, reader)[blog := score] else Live(lives, reader)
  {
  }

  // Repeating a push, in whole or in part, adds nothing for the readers it already reached.
  lemma ReplayedPush(lives: Lives, first: set<nat>, again: set<nat>, blog: nat, score: int)
    ensures Pushed(Pushed(lives, first, blog, score), again, blog, score) == Pushed(lives, first + again, blog, score)
  {
    var once := Pushed(lives, first, blog, score);
    var left, right := Pushed(once, again, blog, score), Pushed(lives, first + again, blog, score);
    assert left.Keys == right.Keys;
    forall r | r in left ensures left[r] == right[r] {
      hide Pushed;
      PushedLive(lives, first, blog, score, r);
      PushedLive(once, again, blog, score, r);
      PushedLive(lives, first + again, blog, score, r);
      assert left[r] == Live(left, r) && right[r] == Live(right, r);
    }
  }

  // Once a reader has the entry, no later push changes its index, whatever score it carries.
  lemma FirstScoreStays(lives: Lives, readers: set<nat>, blog: nat, score: int, reader: nat)
    requires blog in Live(lives, reader)
    ensures Live(Pushed(lives, readers, blog, score), reader) == Live(lives, reader)
  {
    PushedLive(lives, readers, blog, score, reader);
  }

  // ---- The tables, the push in flight and the index -----------------------------------------------------

  datatype Blog = Blog(author: nat, created: int)

  datatype Feed = Feed(
    clock: int,
    follows: map<(nat, nat), int>,   // (reader, author) -> created_at in milliseconds
    blogs: map<nat, Blog>,
    issued: map<nat, Blog>,          // every row ever created, as its publisher read it back
    nextId: nat,                     // AUTO_INCREMENT: an identifier is never used twice
    recipients: map<nat, set<nat>>,  // blog -> the Followers result its publisher holds
    lives: Lives,
    pushed: set<(nat, nat)>,         // (reader, blog): ever reached by a push
    covered: set<(nat, nat)>)        // (reader, blog): part of the reader's latest rebuild

  datatype Step =
    | Follow(reader: nat, author: nat, at: int)
    | Unfollow(reader: nat, author: nat)
    | Create(author: nat, at: int)
    | Query(blog: nat)
    | Push(blog: nat, reached: set<nat>)
    | Delete(blog: nat)
    | Rebuild(reader: nat)

  // The join of FeedSource and VisibleByIDs: a follow no younger than the blog.
  predicate Source(s: Feed, reader: nat, blog: nat) {
    && blog in s.blogs && (reader, s.blogs[blog].author) in s.follows
    && s.follows[(reader, s.blogs[blog].author)] <= s.blogs[blog].created
  }

  function FeedSource(s: Feed, reader: nat): map<nat, int> {
    map b | b in s.blogs && Source(s, reader, b) :: s.blogs[b].created
  }

  // What a reader can see of the live index: its entries joined with the tables.
  function Visible(s: Feed, reader: nat): map<nat, int> {
    map b | b in Live(s.lives, reader) && Source(s, reader, b) :: Live(s.lives, reader)[b]
  }

  function Followers(s: Feed, author: nat, asOf: int): set<nat> {
    set k | k in s.follows && k.1 == author && s.follows[k] <= asOf :: k.0
  }

  function Reach(readers: set<nat>, blog: nat): set<(nat, nat)> {
    set r | r in readers :: (r, blog)
  }

  function Next(s: Feed, step: Step): Feed {
    match step
    case Follow(r, a, at) =>
      // INSERT ... ON CONFLICT DO NOTHING keeps the first created_at.
      if r == a then s
      else if (r, a) in s.follows then s.(clock := at)
      else s.(clock := at, follows := s.follows[(r, a) := at])
    case Unfollow(r, a) => s.(follows := s.follows - {(r, a)})
    case Create(a, at) =>
      s.(clock := at, blogs := s.blogs[s.nextId := Blog(a, at)], issued := s.issued[s.nextId := Blog(a, at)], nextId := s.nextId + 1)
    case Query(b) =>
      if b !in s.issued then s
      else s.(recipients := s.recipients[b := Followers(s, s.issued[b].author, s.issued[b].created)])
    case Push(b, reached) =>
      if b !in s.recipients || b !in s.issued then s
      else
        var to := reached * s.recipients[b];
        s.(lives := Pushed(s.lives, to, b, s.issued[b].created), pushed := s.pushed + Reach(to, b))
    case Delete(b) => s.(blogs := s.blogs - {b})
    case Rebuild(r) =>
      var source := FeedSource(s, r);
      s.(lives := s.lives[r := source], covered := (set p | p in s.covered && p.0 != r) + (set b | b in source :: (r, b)))
  }

  function Run(s: Feed, steps: seq<Step>): Feed
    decreases |steps|
  {
    if steps == [] then s else Next(Run(s, steps[..|steps|-1]), steps[|steps|-1])
  }

  const INIT := Feed(0, map[], map[], map[], 1, map[], map[], {}, {})

  // ---- Invariants -----------------------------------------------------------------------------------------

  // Rows get times from a clock that never runs backwards; rows of one millisecond are possible.
  predicate Forward(s: Feed, step: Step) {
    (step.Follow? || step.Create?) ==> s.clock <= step.at
  }

  // The entry is in the index, or the ordinary course still brings it there: the Followers query is to come,
  // or it lists the reader and its push has not reached the reader yet.
  predicate OnItsWay(s: Feed, reader: nat, blog: nat) {
    || blog in Live(s.lives, reader)
    || blog !in s.recipients
    || (reader in s.recipients[blog] && (reader, blog) !in s.pushed)
  }

  // A follow written now hurts nothing: each blog that the author wrote in this very millisecond is on its way.
  ghost predicate Harmless(s: Feed, reader: nat, author: nat, at: int) {
    forall b :: b in s.blogs && s.blogs[b] == Blog(author, at) ==> OnItsWay(s, reader, b)
  }

  predicate NewFollow(s: Feed, step: Step, reader: nat) {
    step.Follow? && step.reader == reader && step.author != reader && (reader, step.author) !in s.follows
  }

  // The clock runs forward, and the reader's own follows are harmless. Nothing is asked of anybody else's rows.
  ghost predicate Fair(s: Feed, step: Step, reader: nat) {
    Forward(s, step) && (NewFollow(s, step, reader) ==> Harmless(s, reader, step.author, step.at))
  }

  ghost predicate FairRun(s: Feed, steps: seq<Step>, reader: nat) {
    forall k :: 0 <= k < |steps| ==> Fair(Run(s, steps[..k]), steps[k], reader)
  }

  // True under any clock that never runs backwards.
  ghost predicate Sound(s: Feed) {
    && (forall k :: k in s.follows ==> s.follows[k] <= s.clock)
    && (forall b :: b in s.blogs ==> b in s.issued && s.blogs[b] == s.issued[b])
    && (forall b :: b in s.issued ==> b < s.nextId && s.issued[b].created <= s.clock)
    && (forall b :: b in s.recipients ==> b in s.issued)
    && (forall p :: p in s.pushed ==> p.1 in s.recipients)
    && (forall p :: p in s.covered ==> p.1 in s.issued && p.1 in Live(s.lives, p.0))
    && Faithful(s.lives, s.pushed + s.covered, s.issued)
  }

  // Every entry was pushed or rebuilt and carries its blog's creation time.
  ghost predicate Faithful(lives: Lives, served: set<(nat, nat)>, issued: map<nat, Blog>) {
    forall r: nat, b: nat :: b in Live(lives, r) ==> (r, b) in served && b in issued && Live(lives, r)[b] == issued[b].created
  }

  lemma FaithfulGrows(lives: Lives, served: set<(nat, nat)>, issued: map<nat, Blog>, more: map<nat, Blog>)
    requires Faithful(lives, served, issued)
    requires forall b :: b in issued ==> b in more && more[b] == issued[b]
    ensures Faithful(lives, served, more)
  {
  }

  // The Followers query of a publisher lists exactly the readers to whom the join shows the blog at that moment.
  lemma QueryMatchesJoin(s: Feed, blog: nat, reader: nat)
    requires Sound(s) && blog in s.blogs
    ensures var t := Next(s, Query(blog)); blog in t.recipients && (reader in t.recipients[blog] <==> Source(s, reader, blog))
  {
    hide Faithful;
    assert s.issued[blog] == s.blogs[blog];
    var b := s.blogs[blog];
    if Source(s, reader, blog) { assert (reader, b.author) in s.follows; }
  }

  // Whatever the join shows the reader is in the index or on its way there.
  ghost predicate Caught(s: Feed, reader: nat) {
    forall b :: b in s.blogs && Source(s, reader, b) ==> OnItsWay(s, reader, b)
  }

  ghost predicate Inv(s: Feed, reader: nat) {
    Sound(s) && Caught(s, reader)
  }

  lemma PushKeepsSound(s: Feed, step: Step)
    requires Sound(s) && step.Push?
    ensures Sound(Next(s, step))
  {
    hide Pushed;
    var t := Next(s, step);
    if step.blog in s.recipients && step.blog in s.issued {
      var to := step.reached * s.recipients[step.blog];
      forall r: nat ensures Live(t.lives, r) ==
        if r in to && step.blog !in Live(s.lives, r) then Live(s.lives, r)[step.blog := s.issued[step.blog].created] else Live(s.lives, r)
      {
        PushedLive(s.lives, to, step.blog, s.issued[step.blog].created, r);
      }
    }
  }

  lemma RebuildLive(s: Feed, reader: nat, r: nat)
    ensures Live(Next(s, Rebuild(reader)).lives, r) == if r == reader then FeedSource(s, r) else Live(s.lives, r)
  {
  }

  lemma RebuildKeepsSound(s: Feed, step: Step)
    requires Sound(s) && step.Rebuild?
    ensures Sound(Next(s, step))
  {
    var t := Next(s, step);
    forall r: nat ensures Live(t.lives, r) == if r == step.reader then FeedSource(s, r) else Live(s.lives, r) {
      RebuildLive(s, step.reader, r);
    }
    forall r: nat, b: nat | b in Live(t.lives, r)
      ensures (r, b) in t.pushed + t.covered && b in t.issued && Live(t.lives, r)[b] == t.issued[b].created
    {
      if r != step.reader { assert (r, b) in s.pushed + s.covered; }
    }
  }

  lemma CreateKeepsSound(s: Feed, step: Step)
    requires Sound(s) && step.Create? && s.clock <= step.at
    ensures Sound(Next(s, step))
  {
    hide Faithful;
    FaithfulGrows(s.lives, s.pushed + s.covered, s.issued, Next(s, step).issued);
  }

  lemma RowsKeepSound(s: Feed, step: Step)
    requires Sound(s) && !step.Push? && !step.Rebuild? && !step.Create? && Forward(s, step)
    ensures Sound(Next(s, step))
  {
    hide Faithful, Followers;
  }

  lemma NextKeepsSound(s: Feed, step: Step)
    requires Sound(s) && Forward(s, step)
    ensures Sound(Next(s, step))
  {
    hide Next, Sound;
    if step.Push? {
      PushKeepsSound(s, step);
    } else if step.Rebuild? {
      RebuildKeepsSound(s, step);
    } else if step.Create? {
      CreateKeepsSound(s, step);
    } else {
      RowsKeepSound(s, step);
    }
  }

  lemma PushKeepsCaught(s: Feed, step: Step, reader: nat)
    requires Caught(s, reader) && step.Push?
    ensures Caught(Next(s, step), reader)
  {
    hide Pushed;
    var t := Next(s, step);
    if step.blog in s.recipients && step.blog in s.issued {
      PushedLive(s.lives, step.reached * s.recipients[step.blog], step.blog, s.issued[step.blog].created, reader);
    }
    forall b | b in t.blogs && Source(t, reader, b) ensures OnItsWay(t, reader, b) {
      assert Source(s, reader, b) && OnItsWay(s, reader, b);
    }
  }

  // A Followers query lists everyone who follows in time.
  lemma QueryKeepsCaught(s: Feed, step: Step, reader: nat)
    requires Inv(s, reader) && step.Query?
    ensures Caught(Next(s, step), reader)
  {
    var t := Next(s, step);
    forall b | b in t.blogs && Source(t, reader, b) ensures OnItsWay(t, reader, b) {
      assert Source(s, reader, b) && OnItsWay(s, reader, b);
      if b == step.blog {
        assert (reader, s.issued[b].author) in s.follows;
        assert reader in t.recipients[b];
      }
    }
  }

  lemma RebuildKeepsCaught(s: Feed, step: Step, reader: nat)
    requires Inv(s, reader) && step.Rebuild?
    ensures Caught(Next(s, step), reader)
  {
    var t := Next(s, step);
    RebuildLive(s, step.reader, reader);
    forall b | b in t.blogs && Source(t, reader, b) ensures OnItsWay(t, reader, b) {
      assert Source(s, reader, b) && OnItsWay(s, reader, b);
    }
  }

  // Exactly the harmless follows keep the invariant.
  lemma FollowExactly(s: Feed, reader: nat, author: nat, at: int)
    requires Inv(s, reader) && s.clock <= at && reader != author && (reader, author) !in s.follows
    ensures Caught(Next(s, Follow(reader, author, at)), reader) <==> Harmless(s, reader, author, at)
  {
    var t := Next(s, Follow(reader, author, at));
    assert forall b :: Source(t, reader, b) <==> Source(s, reader, b) || (b in s.blogs && s.blogs[b] == Blog(author, at));
    assert forall b :: OnItsWay(t, reader, b) == OnItsWay(s, reader, b);
  }

  // In particular every follow of a later millisecond than all blogs.
  lemma LaterFollowIsHarmless(s: Feed, reader: nat, author: nat, at: int)
    requires Sound(s) && s.clock < at
    ensures Harmless(s, reader, author, at)
  {
  }

  lemma NextKeepsCaught(s: Feed, step: Step, reader: nat)
    requires Inv(s, reader) && Fair(s, step, reader)
    ensures Caught(Next(s, step), reader)
  {
    if step.Push? {
      PushKeepsCaught(s, step, reader);
    } else if step.Query? {
      QueryKeepsCaught(s, step, reader);
    } else if step.Rebuild? {
      RebuildKeepsCaught(s, step, reader);
    } else if NewFollow(s, step, reader) {
      FollowExactly(s, reader, step.author, step.at);
    } else {
      RowsKeepCaught(s, step, reader);
    }
  }

  lemma RowsKeepCaught(s: Feed, step: Step, reader: nat)
    requires Inv(s, reader) && !step.Push? && !step.Query? && !step.Rebuild? && !NewFollow(s, step, reader)
    ensures Caught(Next(s, step), reader)
  {
    var t := Next(s, step);
    forall b | b in t.blogs && Source(t, reader, b) ensures OnItsWay(t, reader, b) {
      if b in s.issued { assert Source(s, reader, b) && OnItsWay(s, reader, b); }
    }
  }

  lemma FairPrefix(s: Feed, steps: seq<Step>, reader: nat)
    requires steps != [] && FairRun(s, steps, reader)
    ensures FairRun(s, steps[..|steps|-1], reader) && Fair(Run(s, steps[..|steps|-1]), steps[|steps|-1], reader)
  {
    hide Run, Fair;
    var before := steps[..|steps|-1];
    assert forall k :: 0 <= k < |before| ==> before[..k] == steps[..k] && before[k] == steps[k];
  }

  lemma {:induction false} RunKeeps(s: Feed, steps: seq<Step>, reader: nat)
    requires Inv(s, reader) && FairRun(s, steps, reader)
    ensures Inv(Run(s, steps), reader)
    decreases |steps|
  {
    if steps != [] {
      var before := steps[..|steps|-1];
      hide Inv, Next, Fair, FairRun;
      FairPrefix(s, steps, reader);
      RunKeeps(s, before, reader);
      InvNext(Run(s, before), steps[|before|], reader);
    }
  }

  lemma InvNext(s: Feed, step: Step, reader: nat)
    requires Inv(s, reader) && Fair(s, step, reader)
    ensures Inv(Next(s, step), reader)
  {
    hide Next, Sound, Caught;
    NextKeepsSound(s, step);
    NextKeepsCaught(s, step, reader);
  }

  lemma StartIsSound(reader: nat)
    ensures Inv(INIT, reader)
  {
  }

  // ---- Agreement --------------------------------------------------------------------------------------------

  ghost predicate InSync(s: Feed, reader: nat) {
    Visible(s, reader) == FeedSource(s, reader)
  }

  lemma VisibleIsSource(s: Feed, reader: nat)
    requires Sound(s)
    ensures forall b :: b in Visible(s, reader) ==> b in FeedSource(s, reader) && Visible(s, reader)[b] == FeedSource(s, reader)[b]
  {
  }

  // What a reader sees is always part of the join, with its scores; it is the whole join exactly when each
  // visible blog was pushed to the reader or belongs to its latest rebuild.
  lemma SyncIffServed(s: Feed, reader: nat)
    requires Inv(s, reader)
    ensures forall b :: b in Visible(s, reader) ==> b in FeedSource(s, reader) && Visible(s, reader)[b] == FeedSource(s, reader)[b]
    ensures InSync(s, reader) <==> forall b :: b in FeedSource(s, reader) ==> (reader, b) in s.pushed + s.covered
  {
    VisibleIsSource(s, reader);
    var seen, source := Visible(s, reader), FeedSource(s, reader);
    forall b | b in source ensures b in Live(s.lives, reader) <==> (reader, b) in s.pushed + s.covered {
      ServedIsLive(s, reader, b);
    }
    hide Sound, Caught, Source;
    if forall b :: b in source ==> (reader, b) in s.pushed + s.covered {
      assert seen.Keys == source.Keys;
    } else {
      var b :| b in source && (reader, b) !in s.pushed + s.covered;
      assert b !in seen;
    }
  }

  lemma ServedIsLive(s: Feed, reader: nat, blog: nat)
    requires Inv(s, reader) && Source(s, reader, blog)
    ensures blog in Live(s.lives, reader) <==> (reader, blog) in s.pushed + s.covered
  {
    assert OnItsWay(s, reader, blog);
  }

  // A push is complete when it reached everyone the Followers query returned.
  predicate Complete(s: Feed, blog: nat) {
    blog in s.recipients && Reach(s.recipients[blog], blog) <= s.pushed
  }

  // Nothing the reader may see is still in flight.
  ghost predicate Settled(s: Feed, reader: nat) {
    forall b :: b in FeedSource(s, reader) ==> Complete(s, b) || (reader, b) in s.covered
  }

  // The index agrees with its definition: a reader whose follows were harmless and all of whose visible blogs
  // were pushed completely, or covered by a rebuild, sees exactly the FeedSource join.
  lemma PushedFeedAgrees(steps: seq<Step>, reader: nat)
    requires FairRun(INIT, steps, reader) && Settled(Run(INIT, steps), reader)
    ensures InSync(Run(INIT, steps), reader)
  {
    hide Inv;
    StartIsSound(reader);
    RunKeeps(INIT, steps, reader);
    SettledAgrees(Run(INIT, steps), reader);
  }

  lemma SettledAgrees(s: Feed, reader: nat)
    requires Inv(s, reader) && Settled(s, reader)
    ensures InSync(s, reader)
  {
    SyncIffServed(s, reader);
    forall b | b in FeedSource(s, reader) ensures (reader, b) in s.pushed + s.covered {
      assert OnItsWay(s, reader, b);
      if Complete(s, b) {
        forall r | r in s.recipients[b] ensures (r, b) in s.pushed { assert (r, b) in Reach(s.recipients[b], b); }
      }
    }
  }

  // A rebuild restores agreement whatever was lost before, and leaves nothing else in the index.
  lemma RebuildRestores(s: Feed, reader: nat)
    ensures InSync(Next(s, Rebuild(reader)), reader)
    ensures Live(Next(s, Rebuild(reader)).lives, reader) == FeedSource(s, reader)
  {
    var t := Next(s, Rebuild(reader));
    assert Live(t.lives, reader) == FeedSource(s, reader) == FeedSource(t, reader);
  }

  // Replacing the index by the rows of the join, each once, is the Rebuild step.
  lemma RebuildPublishesJoin(s: Feed, reader: nat, rows: seq<P.Row<int>>)
    requires P.Distinct(rows)
    requires forall b :: b in FeedSource(s, reader) <==> exists i :: 0 <= i < |rows| && rows[i].id == b
    requires forall i :: 0 <= i < |rows| && rows[i].id in s.blogs ==> rows[i].payload == s.blogs[rows[i].id].created
    ensures Next(s, Rebuild(reader)).lives == s.lives[reader := P.Indexed(rows)]
  {
    P.IndexedKeys(rows);
    hide P.Indexed;
    assert forall b :: b in P.Indexed(rows) <==> b in FeedSource(s, reader);
    forall b | b in P.Indexed(rows) ensures P.Indexed(rows)[b] == FeedSource(s, reader)[b] {
      var i :| 0 <= i < |rows| && rows[i].id == b;
      P.IndexedAt(rows, i);
      assert b in s.blogs && rows[i].payload == s.blogs[b].created;
    }
    assert P.Indexed(rows) == FeedSource(s, reader);
  }

  // ---- Ties ---------------------------------------------------------------------------------------------------

  // The blog is visible to the reader but neither in the index nor on its way.
  ghost predicate Lost(s: Feed, reader: nat, blog: nat) {
    Source(s, reader, blog) && !OnItsWay(s, reader, blog)
  }

  // What could bring a lost blog back or out of the join: a rebuild, an unfollow, its deletion, or a second
  // Followers query or a second push of a blog that already had its own. No publisher does the latter two.
  predicate Repairs(s: Feed, step: Step, reader: nat, blog: nat) {
    || step == Rebuild(reader)
    || (step.Unfollow? && step.reader == reader)
    || step == Delete(blog)
    || (step == Query(blog) && blog in s.recipients)
    || (step.Push? && step.blog == blog && reader in step.reached && (reader, blog) in s.pushed)
  }

  ghost predicate Unrepaired(s: Feed, steps: seq<Step>, reader: nat, blog: nat) {
    forall k :: 0 <= k < |steps| ==> !Repairs(Run(s, steps[..k]), steps[k], reader, blog)
  }

  lemma LostStep(s: Feed, step: Step, reader: nat, blog: nat)
    requires Sound(s) && Lost(s, reader, blog) && !Repairs(s, step, reader, blog)
    ensures Lost(Next(s, step), reader, blog)
  {
    if step.Push? && step.blog in s.recipients && step.blog in s.issued {
      hide Pushed;
      PushedLive(s.lives, step.reached * s.recipients[step.blog], step.blog, s.issued[step.blog].created, reader);
    }
    if step.Rebuild? { RebuildLive(s, step.reader, reader); }
  }

  // A lost blog stays lost over every run that does not repair it, whatever else is followed, written or pushed.
  lemma {:induction false} LostForGood(s: Feed, steps: seq<Step>, reader: nat, blog: nat)
    requires Sound(s) && Lost(s, reader, blog) && Unrepaired(s, steps, reader, blog)
    requires forall k :: 0 <= k < |steps| ==> Forward(Run(s, steps[..k]), steps[k])
    ensures Sound(Run(s, steps)) && Lost(Run(s, steps), reader, blog) && !InSync(Run(s, steps), reader)
    decreases |steps|
  {
    hide Sound, Next, Lost, Forward, Repairs, InSync;
    if steps != [] {
      var before := steps[..|steps|-1];
      assert forall k :: 0 <= k < |before| ==> before[..k] == steps[..k] && before[k] == steps[k];
      assert Run(s, steps) == Next(Run(s, before), steps[|before|]) && steps[..|before|] == before;
      hide Run;
      LostForGood(s, before, reader, blog);
      assert Forward(Run(s, before), steps[|before|]) && !Repairs(Run(s, before), steps[|before|], reader, blog);
      NextKeepsSound(Run(s, before), steps[|before|]);
      LostStep(Run(s, before), steps[|before|], reader, blog);
    }
    LostIsUnseen(Run(s, steps), reader, blog);
  }

  lemma LostIsUnseen(s: Feed, reader: nat, blog: nat)
    requires Lost(s, reader, blog)
    ensures !InSync(s, reader)
  {
    assert blog in FeedSource(s, reader) && blog !in Visible(s, reader);
  }

  // Over whole runs: once everything in flight has landed, a follow has kept the reader in sync exactly when it
  // was harmless. It is checkable before the follow is written, and fails only for a follow in the millisecond of
  // a blog whose Followers query has already missed the reader, or whose push to the reader is already spent.
  lemma FollowTie(s: Feed, reader: nat, author: nat, at: int, steps: seq<Step>)
    requires Inv(s, reader) && s.clock <= at && reader != author && (reader, author) !in s.follows
    requires FairRun(Next(s, Follow(reader, author, at)), steps, reader)
    requires Settled(Run(Next(s, Follow(reader, author, at)), steps), reader)
    requires forall b :: b in s.blogs && s.blogs[b] == Blog(author, at) ==>
               Unrepaired(Next(s, Follow(reader, author, at)), steps, reader, b)
    ensures InSync(Run(Next(s, Follow(reader, author, at)), steps), reader) <==> Harmless(s, reader, author, at)
  {
    var follow := Follow(reader, author, at);
    var t := Next(s, follow);
    FollowExactly(s, reader, author, at);
    NextKeepsSound(s, follow);
    if Harmless(s, reader, author, at) {
      RunKeeps(t, steps, reader);
      SettledAgrees(Run(t, steps), reader);
    } else {
      var b :| b in s.blogs && s.blogs[b] == Blog(author, at) && !OnItsWay(s, reader, b);
      assert Lost(t, reader, b);
      assert forall k :: 0 <= k < |steps| ==> Fair(Run(t, steps[..k]), steps[k], reader);
      LostForGood(t, steps, reader, b);
    }
  }

  // Follow after the Followers query but in the same millisecond: the join shows the blog, the index never will.
  lemma TieLosesBlog()
    ensures var s := Run(INIT, [Create(1, 5), Query(1), Push(1, {}), Follow(2, 1, 5)]);
      Complete(s, 1) && 1 in FeedSource(s, 2) && Visible(s, 2) == map[]
  {
    var s1 := Next(INIT, Create(1, 5));
    var s2 := Next(s1, Query(1));
    var s3 := Next(s2, Push(1, {}));
    var s4 := Next(s3, Follow(2, 1, 5));
    var steps := [Create(1, 5), Query(1), Push(1, {}), Follow(2, 1, 5)];
    assert steps[..3][..2][..1][..0] == [];
    assert steps[..3][..2][..1][0] == Create(1, 5);
    assert steps[..3][..2][1] == Query(1) && steps[..3][2] == Push(1, {});
    assert Run(INIT, steps[..3][..2][..1]) == s1;
    assert Run(INIT, steps[..3][..2]) == s2;
    assert Run(INIT, steps[..3]) == s3;
    assert Run(INIT, steps) == s4;
    assert Followers(s1, 1, 5) == {};
    assert Source(s4, 2, 1);
  }

  // The same two rows the other way round: the query finds the follow, and nothing is lost.
  lemma TieKeepsBlog()
    ensures var s := Run(INIT, [Create(1, 5), Follow(2, 1, 5), Query(1), Push(1, {2})]);
      Complete(s, 1) && FeedSource(s, 2) == map[1 := 5] == Visible(s, 2)
  {
    var s1 := Next(INIT, Create(1, 5));
    var s2 := Next(s1, Follow(2, 1, 5));
    var s3 := Next(s2, Query(1));
    var s4 := Next(s3, Push(1, {2}));
    var steps := [Create(1, 5), Follow(2, 1, 5), Query(1), Push(1, {2})];
    assert steps[..3][..2][..1][..0] == [];
    assert steps[..3][..2][..1][0] == Create(1, 5);
    assert steps[..3][..2][1] == Follow(2, 1, 5) && steps[..3][2] == Query(1);
    assert Run(INIT, steps[..3][..2][..1]) == s1;
    assert Run(INIT, steps[..3][..2]) == s2;
    assert Run(INIT, steps[..3]) == s3;
    assert Run(INIT, steps) == s4;
    assert (2, 1) in s2.follows;
    assert Followers(s2, 1, 5) == {2};
    PushedLive(s3.lives, {2}, 1, 5, 2);
    assert {2} * s3.recipients[1] == {2};
    assert Source(s4, 2, 1);
  }

  // ---- The batched push -------------------------------------------------------------------------------------

  const BATCH := 500

  predicate ValidEntry(blog: nat, score: int) {
    blog > 0 && 0 <= score <= MAX_EXACT
  }

  function ReaderSet(ids: seq<nat>): set<nat> {
    set r | r in ids
  }

  lemma NoReaders(lives: Lives, blog: nat, score: int)
    ensures Pushed(lives, ReaderSet([]), blog, score) == lives
  {
    assert forall r :: r in lives ==> Live(lives, r) == lives[r];
  }

  lemma NobodyReached()
    ensures ReaderSet([]) == {}
  {
  }

  lemma ReadersConcat(a: seq<nat>, b: seq<nat>)
    ensures ReaderSet(a + b) == ReaderSet(a) + ReaderSet(b)
  {
  }

  lemma ReadersUpTo(ids: seq<nat>, start: nat, end: nat, count: nat)
    requires start + count <= end <= |ids|
    ensures ReaderSet(ids[..start]) + ReaderSet(ids[start..end][..count]) == ReaderSet(ids[..start + count]) <= ReaderSet(ids)
  {
    assert ids[start..end][..count] == ids[start..start + count];
    assert ids[..start] + ids[start..start + count] == ids[..start + count];
    ReadersConcat(ids[..start], ids[start..start + count]);
  }

  lemma OneReader(lives: Lives, id: nat, blog: nat, score: int)
    ensures Pushed(lives, {id}, blog, score) ==
            if blog in Live(lives, id) then lives else lives[id := Live(lives, id)[blog := score]]
  {
    assert forall r :: r in lives ==> Live(lives, r) == lives[r];
  }

  // Every batch of n recipients was executed and acknowledged.
  ghost predicate AllAnswered(answered: nat -> bool, n: nat) {
    forall k: nat :: k * BATCH < n ==> answered(k)
  }

  class FeedLive {
    var lives: Lives

    constructor ()
      ensures lives == map[]
    {
      lives := map[];
    }

    // The first `count` commands of one pipeline.
    method Execute(ids: seq<nat>, count: nat, blog: nat, score: int)
      requires count <= |ids|
      modifies this
      ensures lives == Pushed(old(lives), ReaderSet(ids[..count]), blog, score)
    {
      NoReaders(lives, blog, score);
      for i := 0 to count
        invariant lives == Pushed(old(lives), ReaderSet(ids[..i]), blog, score)
      {
        ReplayedPush(old(lives), ReaderSet(ids[..i]), {ids[i]}, blog, score);
        OneReader(lives, ids[i], blog, score);
        assert ids[..i + 1] == ids[..i] + [ids[i]];
        ReadersConcat(ids[..i], [ids[i]]);
        assert ReaderSet([ids[i]]) == {ids[i]};
        if blog !in Live(lives, ids[i]) { lives := lives[ids[i] := Live(lives, ids[i])[blog := score]]; }
      }
    }

    // An unanswered pipeline has executed the first ran(k) of its commands. Whatever fails, the indexes changed
    // exactly as by a push to some of the recipients, so that pushing again completes it.
    method Push(ids: seq<nat>, blog: nat, score: int, answered: nat -> bool, ran: nat -> nat)
      returns (ok: bool, ghost reached: set<nat>)
      modifies this
      ensures lives == Pushed(old(lives), reached, blog, score) && reached <= ReaderSet(ids)
      ensures ok <==> ValidEntry(blog, score) && 0 !in ids && AllAnswered(answered, |ids|)
      ensures ok ==> reached == ReaderSet(ids)
      ensures !ValidEntry(blog, score) ==> reached == {}
    {
      hide Pushed, ReaderSet;
      reached := ReaderSet([]);
      NoReaders(lives, blog, score);
      if !ValidEntry(blog, score) { NobodyReached(); return false, reached; }
      var start, k := 0, 0;
      while start < |ids|
        invariant start == (if k * BATCH < |ids| then k * BATCH else |ids|)
        invariant reached == ReaderSet(ids[..start]) && lives == Pushed(old(lives), reached, blog, score)
        invariant 0 !in ids[..start] && (forall j: nat :: j < k ==> answered(j))
      {
        var end := if start + BATCH < |ids| then start + BATCH else |ids|;
        var batch := ids[start..end];
        ReadersUpTo(ids, start, end, 0);
        for i := 0 to |batch|
          invariant 0 !in batch[..i]
        {
          if batch[i] == 0 { return false, reached; }
        }
        assert ids[..end] == ids[..start] + batch;
        var count := if answered(k) || ran(k) >= |batch| then |batch| else ran(k);
        Execute(batch, count, blog, score);
        ReplayedPush(old(lives), reached, ReaderSet(batch[..count]), blog, score);
        ReadersUpTo(ids, start, end, count);
        reached := reached + ReaderSet(batch[..count]);
        if !answered(k) { return false, reached; }
        start, k := end, k + 1;
      }
      assert ids[..start] == ids;
      ok := true;
    }
  }
}
