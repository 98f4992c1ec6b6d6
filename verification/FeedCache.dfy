/**
 * Why the feed cache never serves stale pages: what a user sees stands still
 * from the last bump of their version until the next one is pending, and every
 * cached page was read after its version was born.
 */
module FeedCache {
  import opened Domain
  import opened Pagination
  import opened FeedProtocol

  // --- Which users still have a bump coming ---

  predicate Owes(follows: set<(UserId, UserId)>, pc: Pc, u: UserId) {
    match pc
    case FanoutTimelines(author, _) => (u, author) in follows
    case ListFollowers(author, _) => (u, author) in follows
    case Bumping(remaining, _) => u in remaining
    case _ => false
  }

  /** Some writer that changed what u sees has yet to bump the version of u. */
  ghost predicate Pending(s: State, u: UserId) {
    exists r :: r in s.requests && Owes(s.db.follows, s.requests[r], u)
  }

  // --- Invariant 1: post authors never change ---

  predicate ByAuthor(s: State, id: PostId, author: UserId) {
    id in s.stories && s.stories[id].original.author == author
  }

  /** A post past its ownership check belongs to the caller for ever. */
  predicate OwnershipHolds(s: State, pc: Pc) {
    match pc
    case UpdateChecked(id, caller, _, _) => ByAuthor(s, id, caller)
    case DeleteChecked(id, caller) => ByAuthor(s, id, caller)
    case _ => true
  }

  ghost predicate AuthorsKept(s: State) {
    && (forall id :: id in s.db.posts ==> ByAuthor(s, id, s.db.posts[id].author))
    && (forall r :: r in s.requests ==> OwnershipHolds(s, s.requests[r]))
  }

  /**
   * What every move owes the followers: a post write continues with listing
   * the followers of the post's author, a follow write with bumping the
   * follower, and a bump loop forgets exactly the user it bumped.
   */
  ghost predicate Accountable(s: State, pc: Pc, m: Move) {
    match m.effect
    case Insert(id, post) => id !in s.db.posts && m.next.FanoutTimelines? && m.next.author == post.author && pc.Started?
    case Modify(id, _, _) =>
      id in s.db.posts && m.next.ListFollowers? && m.next.author == s.db.posts[id].author && pc.UpdateChecked?
    case Remove(id) =>
      m.next.ListFollowers? && (id in s.db.posts ==> m.next.author == s.db.posts[id].author) && pc.DeleteChecked?
    case Link(f, _) => m.next.Bumping? && m.next.remaining == [f] && pc.FollowChecked?
    case Unlink(f, _) => m.next.Bumping? && m.next.remaining == [f] && pc.Started?
    case Incr(u) => pc.Bumping? && m.next.Bumping? && pc.remaining == [u] + m.next.remaining
    case _ => forall u :: Owes(s.db.follows, pc, u) ==> Owes(s.db.follows, m.next, u)
  }

  lemma MovesAreAccountable(s: State, r: RequestId, pc: Pc, listed: seq<UserId>)
    requires AuthorsKept(s) && OwnershipHolds(s, pc)
    ensures Accountable(s, pc, NextMove(s, r, pc, listed))
    ensures OwnershipHolds(s, NextMove(s, r, pc, listed).next)
  {
    if pc.ListFollowers? {
      forall u | (u, pc.author) in s.db.follows ensures u in Followers(s.db, pc.author) {
        assert (u, pc.author).0 == u;
      }
      assert forall u :: u in listed <==> u in set v | v in listed;
    }
  }

  /** No store call changes the author of a post or loses its story. */
  lemma ApplyKeepsAuthors(s: State, effect: Effect)
    requires forall id :: id in s.db.posts ==> ByAuthor(s, id, s.db.posts[id].author)
    requires effect.Insert? ==> effect.id !in s.stories
    ensures var s' := Apply(s, effect); forall id :: id in s'.db.posts ==> ByAuthor(s', id, s'.db.posts[id].author)
    ensures forall id, author :: ByAuthor(s, id, author) ==> ByAuthor(Apply(s, effect), id, author)
  {
    var s' := Apply(s, effect);
    forall id | id in s'.db.posts ensures ByAuthor(s', id, s'.db.posts[id].author) {
      if id in s.db.posts { assert ByAuthor(s, id, s.db.posts[id].author); }
    }
  }

  lemma OwnershipCarries(s: State, s': State, pc: Pc)
    requires OwnershipHolds(s, pc)
    requires forall id, author :: ByAuthor(s, id, author) ==> ByAuthor(s', id, author)
    ensures OwnershipHolds(s', pc)
  {
  }

  lemma MoveKeepsAuthors(s: State, r: RequestId, m: Move)
    requires AuthorsKept(s) && OwnershipHolds(s, m.next)
    requires m.effect.Insert? ==> m.effect.id !in s.stories
    ensures AuthorsKept(Make(s, r, m))
  {
    ApplyKeepsAuthors(s, m.effect);
    ApplyShape(s, m.effect);
    RecordKeepsAuthors(s, Apply(s, m.effect), r, m.next);
  }

  /** Recording where a request stands after its effect keeps the invariant. */
  lemma RecordKeepsAuthors(s: State, mid: State, r: RequestId, next: Pc)
    requires AuthorsKept(s) && OwnershipHolds(s, next) && mid.requests == s.requests
    requires forall id :: id in mid.db.posts ==> ByAuthor(mid, id, mid.db.posts[id].author)
    requires forall id, author :: ByAuthor(s, id, author) ==> ByAuthor(mid, id, author)
    ensures AuthorsKept(mid.(requests := mid.requests[r := next]))
  {
    var s' := mid.(requests := mid.requests[r := next]);
    forall id, author ensures ByAuthor(s', id, author) <==> ByAuthor(mid, id, author) {}
    forall q | q in s'.requests ensures OwnershipHolds(s', s'.requests[q]) {
      OwnershipCarries(s, s', if q == r then next else s.requests[q]);
    }
  }

  lemma StepKeepsAuthors(s: State, e: Event)
    requires AuthorsKept(s)
    ensures AuthorsKept(Step(s, e))
  {
    if e.Advance? && e.r in s.requests {
      MovesAreAccountable(s, e.r, s.requests[e.r], e.listed);
      MoveKeepsAuthors(s, e.r, NextMove(s, e.r, s.requests[e.r], e.listed));
    } else {
      var s' := Step(s, e);
      forall q | q in s'.requests ensures OwnershipHolds(s', s'.requests[q]) {
        assert q in s.requests ==> OwnershipHolds(s, s.requests[q]);
      }
    }
  }

  // --- Invariant 2: with no bump coming, what u sees has not changed since its last bump ---

  ghost predicate SameView(a: Db, b: Db, u: UserId) {
    && Following(a, u) == Following(b, u)
    && FeedFilter(Following(a, u), a.posts) == FeedFilter(Following(b, u), b.posts)
  }

  ghost predicate Steady(s: State, u: UserId) {
    forall i :: Born(s, u, Version(s, u)) <= i <= |s.past| ==> SameView(At(s, i), s.db, u)
  }

  ghost predicate SteadyUnlessPending(s: State) {
    forall u :: !Pending(s, u) ==> Steady(s, u)
  }

  lemma CommitKeepsSteady(s: State, s': State, u: UserId)
    requires Steady(s, u)
    requires s'.past == s.past + [s.db] && Bumps(s', u) == Bumps(s, u)
    requires SameView(s.db, s'.db, u)
    ensures Steady(s', u)
  {
    forall i | Born(s', u, Version(s', u)) <= i <= |s'.past| ensures SameView(At(s', i), s'.db, u) {
      if i < |s'.past| { assert SameView(At(s, i), s.db, u); }
    }
  }

  /** A post write by an author u does not follow is invisible to u. */
  lemma UnfollowedWriteIsInvisible(a: Db, b: Db, u: UserId, id: PostId, author: UserId)
    requires a.follows == b.follows && a.posts - {id} == b.posts - {id}
    requires id in a.posts ==> a.posts[id].author == author
    requires id in b.posts ==> b.posts[id].author == author
    requires (u, author) !in a.follows
    ensures SameView(a, b, u)
  {
    var f := Following(a, u);
    forall p | p != id ensures p in a.posts <==> p in b.posts {
      assert p in a.posts - {id} <==> p in b.posts - {id};
    }
    forall p | p in a.posts && p != id ensures p in b.posts && a.posts[p] == b.posts[p] {
      assert (a.posts - {id})[p] == (b.posts - {id})[p];
    }
  }

  /** A follow or unfollow by somebody else is invisible to u. */
  lemma ForeignFollowIsInvisible(a: Db, b: Db, u: UserId)
    requires a.posts == b.posts
    requires forall e: (UserId, UserId) :: e.0 == u ==> (e in a.follows <==> e in b.follows)
    ensures SameView(a, b, u)
  {
    assert Following(a, u) == Following(b, u);
  }

  lemma OnePostIsWritten(s: State, effect: Effect)
    ensures effect.Insert? || effect.Remove? || effect.Modify? ==>
      Apply(s, effect).db.posts - {effect.id} == s.db.posts - {effect.id}
  {
  }

  lemma FollowsAreKept(s: State, pc: Pc, m: Move, u: UserId)
    requires Accountable(s, pc, m)
    requires !Owes(Apply(s, m.effect).db.follows, m.next, u)
    ensures forall e: (UserId, UserId) :: e.0 == u ==> (e in s.db.follows <==> e in Apply(s, m.effect).db.follows)
  {
    if m.effect.Link? || m.effect.Unlink? {
      assert m.effect.follower in m.next.remaining && m.effect.follower != u;
    } else {
      assert Apply(s, m.effect).db.follows == s.db.follows;
    }
  }

  /** The write of an accountable move that leaves nothing owed to u is invisible to u. */
  lemma WriteIsInvisible(s: State, pc: Pc, m: Move, u: UserId)
    requires Accountable(s, pc, m)
    requires !Owes(Apply(s, m.effect).db.follows, m.next, u)
    ensures SameView(s.db, Apply(s, m.effect).db, u)
    ensures forall author :: (u, author) in s.db.follows <==> (u, author) in Apply(s, m.effect).db.follows
  {
    var s' := Apply(s, m.effect);
    FollowsAreKept(s, pc, m, u);
    OnePostIsWritten(s, m.effect);
    match m.effect
    case Insert(id, post) => UnfollowedWriteIsInvisible(s.db, s'.db, u, id, post.author);
    case Modify(id, _, _) => UnfollowedWriteIsInvisible(s.db, s'.db, u, id, s.db.posts[id].author);
    case Remove(id) => UnfollowedWriteIsInvisible(s.db, s'.db, u, id, m.next.author);
    case Link(_, _) => ForeignFollowIsInvisible(s.db, s'.db, u);
    case Unlink(_, _) => ForeignFollowIsInvisible(s.db, s'.db, u);
    case _ => assert s'.db == s.db;
  }

  /** What is owed to u before a move is owed after it, unless the move is a bump of u. */
  lemma DebtCarries(s: State, r: RequestId, m: Move, u: UserId)
    requires r in s.requests && Accountable(s, s.requests[r], m)
    requires Pending(s, u) && m.effect != Incr(u)
    ensures Pending(Make(s, r, m), u)
  {
    var s' := Make(s, r, m);
    if Owes(s'.db.follows, m.next, u) {
      assert r in s'.requests && Owes(s'.db.follows, s'.requests[r], u);
    } else {
      WriteIsInvisible(s, s.requests[r], m, u);
      var q :| q in s.requests && Owes(s.db.follows, s.requests[q], u);
      assert q != r;
      assert q in s'.requests && Owes(s'.db.follows, s'.requests[q], u);
    }
  }

  lemma MoveKeepsSteady(s: State, r: RequestId, m: Move, u: UserId)
    requires SteadyUnlessPending(s) && r in s.requests && Accountable(s, s.requests[r], m)
    requires !Pending(Make(s, r, m), u)
    ensures Steady(Make(s, r, m), u)
  {
    var s' := Make(s, r, m);
    if m.effect == Incr(u) {
      assert Bumps(s', u) == Bumps(s, u) + [|s.past|];
    } else {
      if Pending(s, u) { DebtCarries(s, r, m, u); }
      assert r in s'.requests && !Owes(s'.db.follows, s'.requests[r], u);
      assert Bumps(s', u) == Bumps(s, u);
      if s'.past == s.past {
        assert s'.db == s.db;
        assert forall i :: 0 <= i <= |s.past| ==> At(s', i) == At(s, i);
      } else {
        WriteIsInvisible(s, s.requests[r], m, u);
        CommitKeepsSteady(s, s', u);
      }
    }
  }

  lemma StepKeepsSteady(s: State, e: Event)
    requires AuthorsKept(s) && SteadyUnlessPending(s)
    ensures SteadyUnlessPending(Step(s, e))
  {
    var s' := Step(s, e);
    forall u | !Pending(s', u) ensures Steady(s', u) {
      if e.Advance? && e.r in s.requests {
        MovesAreAccountable(s, e.r, s.requests[e.r], e.listed);
        MoveKeepsSteady(s, e.r, NextMove(s, e.r, s.requests[e.r], e.listed), u);
      } else {
        assert forall q :: q in s.requests ==> q in s'.requests && s'.requests[q] == s.requests[q];
        assert !Pending(s, u) && Steady(s, u) && s'.past == s.past && Bumps(s', u) == Bumps(s, u);
        assert forall i :: 0 <= i <= |s.past| ==> At(s', i) == At(s, i);
      }
    }
  }

  // --- Invariant 3: every page was read after its version was born ---

  ghost predicate GoodKey(s: State, key: Key) {
    key.version <= Version(s, key.user) && Born(s, key.user, key.version) <= |s.past|
  }

  /** read is the query's answer on two moments, both no older than the version of the key. */
  ghost predicate GoodRead(s: State, key: Key, read: Read) {
    && Born(s, key.user, key.version) <= read.followsAt <= read.postsAt <= |s.past|
    && read.page == Query(key, Following(At(s, read.followsAt), key.user), At(s, read.postsAt).posts)
  }

  ghost predicate GoodPc(s: State, pc: Pc) {
    match pc
    case ProbeCache(key) => GoodKey(s, key)
    case ReadFollowing(key) => GoodKey(s, key)
    case ReadPosts(key, authors, followsAt) =>
      && GoodKey(s, key)
      && Born(s, key.user, key.version) <= followsAt <= |s.past|
      && authors == Following(At(s, followsAt), key.user)
    case WriteCache(key, read) => GoodKey(s, key) && GoodRead(s, key, read)
    case Served(key, read) => GoodKey(s, key) && GoodRead(s, key, read)
    case _ => true
  }

  ghost predicate ReadsAreFresh(s: State) {
    && (forall u, i :: 0 <= i < Version(s, u) ==> Bumps(s, u)[i] <= |s.past|)
    && (forall key :: key in s.cache ==> GoodKey(s, key) && GoodRead(s, key, s.cache[key]))
    && (forall r :: r in s.requests ==> GoodPc(s, s.requests[r]))
  }

  /** Time only adds moments and bumps. */
  ghost predicate Extends(s: State, s': State) {
    && |s.past| <= |s'.past|
    && (forall i :: 0 <= i <= |s.past| ==> At(s', i) == At(s, i))
    && (forall u :: Bumps(s, u) <= Bumps(s', u))
  }

  lemma ApplyExtends(s: State, effect: Effect)
    ensures Extends(s, Apply(s, effect))
  {
    match effect
    case Incr(u) => assert Bumps(Apply(s, effect), u) == Bumps(s, u) + [|s.past|];
    case _ =>
  }

  lemma StepExtends(s: State, e: Event)
    ensures Extends(s, Step(s, e))
  {
    if e.Advance? && e.r in s.requests {
      var m := NextMove(s, e.r, s.requests[e.r], e.listed);
      ApplyExtends(s, m.effect);
      var mid, s' := Apply(s, m.effect), Step(s, e);
      assert forall i :: 0 <= i <= |s.past| ==> At(s', i) == At(mid, i);
      assert forall u :: Bumps(s', u) == Bumps(mid, u);
    }
  }

  lemma ExtensionKeepsPc(s: State, s': State, pc: Pc)
    requires Extends(s, s') && GoodPc(s, pc)
    ensures GoodPc(s', pc)
  {
    if pc.ProbeCache? || pc.ReadFollowing? || pc.ReadPosts? || pc.WriteCache? || pc.Served? {
      assert Bumps(s, pc.key.user) <= Bumps(s', pc.key.user);
    }
  }

  lemma MoveKeepsReadsFresh(s: State, r: RequestId, listed: seq<UserId>)
    requires ReadsAreFresh(s) && r in s.requests
    ensures var m := NextMove(s, r, s.requests[r], listed);
      GoodPc(s, m.next) && (m.effect.Fill? ==> GoodPc(s, Served(m.effect.key, m.effect.read)))
  {
    assert GoodPc(s, s.requests[r]);
    var pc := s.requests[r];
    if pc.ProbeCache? && pc.key in s.cache {
      assert GoodKey(s, pc.key) && GoodRead(s, pc.key, s.cache[pc.key]);
    }
    if pc.Started? && pc.call.GetFeed? {
      var u := pc.call.user;
      assert Version(s, u) > 0 ==> Bumps(s, u)[Version(s, u) - 1] <= |s.past|;
    }
  }

  lemma StepKeepsReadsFresh(s: State, e: Event)
    requires ReadsAreFresh(s)
    ensures ReadsAreFresh(Step(s, e))
  {
    var s' := Step(s, e);
    StepExtends(s, e);
    StepAddsFreshReads(s, e);
    forall u, i | 0 <= i < Version(s', u) ensures Bumps(s', u)[i] <= |s'.past| {
      assert Bumps(s, u) <= Bumps(s', u);
      assert i < Version(s, u) ==> Bumps(s, u)[i] <= |s.past|;
    }
    forall key | key in s'.cache ensures GoodKey(s', key) && GoodRead(s', key, s'.cache[key]) {
      ExtensionKeepsPc(s, s', Served(key, s'.cache[key]));
    }
    forall q | q in s'.requests ensures GoodPc(s', s'.requests[q]) {
      ExtensionKeepsPc(s, s', s'.requests[q]);
    }
  }

  lemma CachedReadIsFresh(s: State, r: RequestId, m: Move, key: Key)
    requires ReadsAreFresh(s) && key in Make(s, r, m).cache
    requires m.effect.Fill? ==> GoodPc(s, Served(m.effect.key, m.effect.read))
    ensures GoodPc(s, Served(key, Make(s, r, m).cache[key]))
  {
    MoveShape(s, r, m);
    if m.effect.Fill? && key == m.effect.key {
      assert Make(s, r, m).cache[key] == m.effect.read;
    } else {
      assert key in s.cache && Make(s, r, m).cache[key] == s.cache[key];
      assert GoodKey(s, key) && GoodRead(s, key, s.cache[key]);
    }
  }

  /** Judged before the step, everything the step leaves in the cache or in flight is fresh. */
  lemma StepAddsFreshReads(s: State, e: Event)
    requires ReadsAreFresh(s)
    ensures forall key :: key in Step(s, e).cache ==> GoodPc(s, Served(key, Step(s, e).cache[key]))
    ensures forall q :: q in Step(s, e).requests ==> GoodPc(s, Step(s, e).requests[q])
    ensures forall u, i :: Version(s, u) <= i < Version(Step(s, e), u) ==> Bumps(Step(s, e), u)[i] == |s.past|
  {
    var s' := Step(s, e);
    if e.Advance? && e.r in s.requests {
      var m := NextMove(s, e.r, s.requests[e.r], e.listed);
      MoveKeepsReadsFresh(s, e.r, e.listed);
      MoveShape(s, e.r, m);
      forall key | key in s'.cache ensures GoodPc(s, Served(key, s'.cache[key])) {
        CachedReadIsFresh(s, e.r, m, key);
      }
    } else {
      forall key | key in s'.cache ensures GoodPc(s, Served(key, s'.cache[key])) {
        assert key in s.cache && s'.cache[key] == s.cache[key];
      }
    }
  }

  // --- The invariants over every run ---

  ghost predicate Coherent(s: State) {
    AuthorsKept(s) && SteadyUnlessPending(s) && ReadsAreFresh(s)
  }

  lemma {:induction false} RunKeepsCoherent(s: State, events: seq<Event>)
    requires Coherent(s)
    ensures Coherent(Run(s, events))
  {
    if events != [] {
      var before := Run(s, events[..|events| - 1]);
      var e := events[|events| - 1];
      RunKeepsCoherent(s, events[..|events| - 1]);
      StepKeepsAuthors(before, e);
      StepKeepsSteady(before, e);
      StepKeepsReadsFresh(before, e);
    }
  }

  lemma EveryRunIsCoherent(events: seq<Event>)
    ensures Coherent(Run(Init(), events))
  {
    RunKeepsCoherent(Init(), events);
  }

  lemma CurrentReadIsExact(s: State, key: Key, read: Read)
    requires Coherent(s) && GoodKey(s, key) && GoodRead(s, key, read)
    requires key.version == Version(s, key.user) && !Pending(s, key.user)
    ensures read.page == Uncached(s.db, key)
  {
    var u := key.user;
    assert SameView(At(s, read.followsAt), s.db, u);
    assert SameView(At(s, read.postsAt), s.db, u);
  }

  /**
   * What a feed page is, whoever computed it: the page, past the cursor and of
   * the size asked for, of the visible posts by those the user followed.
   */
  ghost predicate IsFeedPage(page: Page, follows: Db, posts: Db, u: UserId, size: nat, after: Option<Cursor>) {
    IsPageOf(page, FeedFilter(Following(follows, u), posts.posts), size, after)
  }

  lemma QueryIsAPage(key: Key, follows: Db, posts: Db)
    ensures var page := Query(key, Following(follows, key.user), posts.posts);
      IsFeedPage(page, follows, posts, key.user, key.size, key.after)
  {
    PageIsExact(FeedFilter(Following(follows, key.user), posts.posts), key.size, key.after);
  }

  /**
   * In every interleaving, a cache entry under a user's current version is the
   * page the database would compute now, unless a bump for that user is pending.
   */
  lemma CacheNeverStale(events: seq<Event>, key: Key)
    requires var s := Run(Init(), events);
      key in s.cache && key.version == Version(s, key.user) && !Pending(s, key.user)
    ensures var s := Run(Init(), events);
      && s.cache[key].page == Uncached(s.db, key)
      && IsFeedPage(s.cache[key].page, s.db, s.db, key.user, key.size, key.after)
  {
    EveryRunIsCoherent(events);
    var s := Run(Init(), events);
    CurrentReadIsExact(s, key, s.cache[key]);
    QueryIsAPage(key, s.db, s.db);
  }

  // --- What a reader is served ---

  predicate Reading(pc: Pc) {
    pc.ProbeCache? || pc.ReadFollowing? || pc.ReadPosts? || pc.WriteCache? || pc.Served?
  }

  /** Request r is a reader that fixed its cache key. */
  predicate HoldsKey(s: State, r: RequestId, key: Key) {
    r in s.requests && Reading(s.requests[r]) && s.requests[r].key == key
  }

  lemma {:induction false} RunExtends(s: State, r: RequestId, key: Key, events: seq<Event>)
    requires HoldsKey(s, r, key)
    ensures HoldsKey(Run(s, events), r, key)
    ensures Extends(s, Run(s, events))
  {
    if events != [] {
      var n := |events| - 1;
      var mid := Run(s, events[..n]);
      RunExtends(s, r, key, events[..n]);
      StepExtends(mid, events[n]);
      StepKeepsKey(mid, r, key, events[n]);
      ExtendsIsTransitive(s, mid, Step(mid, events[n]));
    }
  }

  lemma StepKeepsKey(s: State, r: RequestId, key: Key, e: Event)
    requires HoldsKey(s, r, key)
    ensures HoldsKey(Step(s, e), r, key)
  {
    if e.Advance? && e.r in s.requests { MoveShape(s, e.r, NextMove(s, e.r, s.requests[e.r], e.listed)); }
  }

  lemma ExtendsIsTransitive(a: State, b: State, c: State)
    requires Extends(a, b) && Extends(b, c)
    ensures Extends(a, c)
  {
    forall u ensures Bumps(a, u) <= Bumps(c, u) { assert Bumps(a, u) <= Bumps(b, u) <= Bumps(c, u); }
  }

  /** The state of a run right after reader r has read the version of its user. */
  ghost function VersionRead(events: seq<Event>, r: RequestId, listed: seq<UserId>): State {
    Step(Run(Init(), events), Advance(r, listed))
  }

  /**
   * In every interleaving, the page served to a getFeed, hit or miss, answers
   * the query on two moments of the database that are no older than the last
   * bump its user had when the request read the version. If no bump was then
   * pending, neither moment shows the user anything older than the database
   * at that point.
   */
  lemma ServedPageIsNoOlderThanItsRequest(
      before: seq<Event>, r: RequestId, listed: seq<UserId>, later: seq<Event>,
      u: UserId, limit: Option<int>, after: Option<Cursor>)
    requires var s0 := Run(Init(), before); r in s0.requests && s0.requests[r] == Started(GetFeed(u, limit, after))
    requires var s := Run(VersionRead(before, r, listed), later); r in s.requests && s.requests[r].Served?
    ensures var s0 := Run(Init(), before);
      var s := Run(VersionRead(before, r, listed), later);
      var Served(key, read) := s.requests[r];
      && key == Key(u, Version(s0, u), PageSize(limit), after)
      && Born(s0, u, Version(s0, u)) <= read.followsAt <= read.postsAt <= |s.past|
      && read.page == Query(key, Following(At(s, read.followsAt), u), At(s, read.postsAt).posts)
      && IsFeedPage(read.page, At(s, read.followsAt), At(s, read.postsAt), u, PageSize(limit), after)
      && (!Pending(s0, u) ==> forall i :: Born(s0, u, Version(s0, u)) <= i <= |s0.past| ==>
        SameView(At(s, i), s0.db, u))
  {
    var s0 := Run(Init(), before);
    var s1 := VersionRead(before, r, listed);
    var s := Run(s1, later);
    var key := Key(u, Version(s0, u), PageSize(limit), after);
    EveryRunIsCoherent(before);
    StepKeepsAuthors(s0, Advance(r, listed));
    StepKeepsSteady(s0, Advance(r, listed));
    StepKeepsReadsFresh(s0, Advance(r, listed));
    RunKeepsCoherent(s1, later);
    RunExtends(s1, r, key, later);
    assert GoodPc(s, s.requests[r]);
    QueryIsAPage(key, At(s, s.requests[r].read.followsAt), At(s, s.requests[r].read.postsAt));
    assert Bumps(s1, u) == Bumps(s0, u) && Bumps(s1, u) <= Bumps(s, u);
    forall i | !Pending(s0, u) && Born(s0, u, Version(s0, u)) <= i <= |s0.past|
      ensures SameView(At(s, i), s0.db, u)
    {
      assert At(s, i) == At(s1, i) == At(s0, i);
    }
  }

  lemma {:induction false} RunConcat(s: State, a: seq<Event>, b: seq<Event>)
    ensures Run(s, a + b) == Run(Run(s, a), b)
  {
    if b == [] {
      assert a + b == a;
    } else {
      var n := |b| - 1;
      assert (a + b)[..|a + b| - 1] == a + b[..n];
      RunConcat(s, a, b[..n]);
    }
  }

  /** No state along the run has a bump pending for u. */
  ghost predicate QuietFor(s: State, u: UserId, events: seq<Event>) {
    forall n :: 0 <= n <= |events| ==> !Pending(Run(s, events[..n]), u)
  }

  lemma {:induction false} QuietRunKeepsVersion(s: State, u: UserId, events: seq<Event>)
    requires QuietFor(s, u, events)
    ensures Version(Run(s, events), u) == Version(s, u)
  {
    if events != [] {
      var n := |events| - 1;
      var head, e := events[..n], events[n];
      assert forall k :: 0 <= k <= n ==> head[..k] == events[..k];
      QuietRunKeepsVersion(s, u, head);
      var mid := Run(s, head);
      assert !Pending(mid, u);
      if e.Advance? && e.r in mid.requests {
        var m := NextMove(mid, e.r, mid.requests[e.r], e.listed);
        MoveShape(mid, e.r, m);
        assert Owes(mid.db.follows, mid.requests[e.r], u) || m.effect != Incr(u);
      }
    }
  }

  /**
   * A getFeed during which no bump for its user is ever pending, so that it
   * overlaps no unfinished change of what the user sees, returns exactly the
   * page an uncached read returns at its start and at its end.
   */
  lemma QuietFeedIsExact(
      before: seq<Event>, r: RequestId, listed: seq<UserId>, later: seq<Event>,
      u: UserId, limit: Option<int>, after: Option<Cursor>)
    requires var s0 := Run(Init(), before);
      r in s0.requests && s0.requests[r] == Started(GetFeed(u, limit, after)) && !Pending(s0, u)
    requires QuietFor(VersionRead(before, r, listed), u, later)
    requires var s := Run(VersionRead(before, r, listed), later); r in s.requests && s.requests[r].Served?
    ensures var s0 := Run(Init(), before);
      var s := Run(VersionRead(before, r, listed), later);
      var key := Key(u, Version(s0, u), PageSize(limit), after);
      && s.requests[r].read.page == Uncached(s.db, key) == Uncached(s0.db, key)
      && IsFeedPage(s.requests[r].read.page, s.db, s.db, u, PageSize(limit), after)
      && IsFeedPage(s.requests[r].read.page, s0.db, s0.db, u, PageSize(limit), after)
  {
    var s0 := Run(Init(), before);
    var s1 := VersionRead(before, r, listed);
    var s := Run(s1, later);
    ServedPageIsNoOlderThanItsRequest(before, r, listed, later, u, limit, after);
    QuietRunKeepsVersion(s1, u, later);
    RunConcat(Init(), before, [Advance(r, listed)]);
    assert Run(Run(Init(), before), [Advance(r, listed)]) == s1 by {
      assert [Advance(r, listed)][..0] == [];
    }
    EveryRunIsCoherent(before + [Advance(r, listed)]);
    RunKeepsCoherent(s1, later);
    assert later[..|later|] == later;
    var read := s.requests[r].read;
    var key := s.requests[r].key;
    assert Bumps(s1, u) == Bumps(s0, u);
    RunExtends(s1, r, key, later);
    assert Bumps(s, u) == Bumps(s0, u);
    CurrentReadIsExact(s, key, read);
    EveryRunIsCoherent(before);
    assert Version(s0, u) > 0 ==> Bumps(s0, u)[Version(s0, u) - 1] <= |s0.past|;
    assert SameView(At(s, |s0.past|), s.db, u) && At(s, |s0.past|) == s0.db;
    QueryIsAPage(key, s.db, s.db);
    QueryIsAPage(key, s0.db, s0.db);
  }
}
