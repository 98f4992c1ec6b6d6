/** Optimistic locking of posts, over the runs of the feed protocol: no update is lost. */
module PostUpdates {
  import opened Domain
  import opened FeedProtocol

  // --- No lost updates ---

  /** The post its winners leave behind, applied in order. */
  function Told(original: Post, wins: seq<Win>): Post {
    if wins == [] then original
    else Patched(Told(original, wins[..|wins| - 1]), wins[|wins| - 1].patch)
  }

  /** Request r is told that it updated post id from version v. */
  predicate Won(s: State, r: RequestId, id: PostId, v: nat) {
    r in s.requests && ReplyOf(s.requests[r]) == Some(Updated(id, v))
  }

  predicate IsWinner(s: State, r: RequestId, id: PostId, v: nat) {
    && id in s.stories && v < |s.stories[id].wins| && s.stories[id].wins[v].writer == r
    && r in s.calls && s.calls[r].UpdatePost? && s.calls[r].id == id && s.calls[r].expected == v
    && s.calls[r].patch == s.stories[id].wins[v].patch
  }

  predicate CallKept(s: State, r: RequestId) {
    r in s.requests && r in s.calls &&
    match s.requests[r]
    case Started(call) => s.calls[r] == call
    case UpdateChecked(id, caller, expected, patch) => s.calls[r] == UpdatePost(id, caller, expected, patch)
    case _ => true
  }

  ghost predicate WritersWon(s: State) {
    forall id, v :: id in s.stories && 0 <= v < |s.stories[id].wins| ==> Won(s, s.stories[id].wins[v].writer, id, v)
  }

  /** The stored post is what its story tells. */
  predicate ToldByStory(s: State, id: PostId) {
    id in s.db.posts && id in s.stories && s.db.posts[id] == Told(s.stories[id].original, s.stories[id].wins)
  }

  ghost predicate NothingLost(s: State) {
    && s.calls.Keys == s.requests.Keys
    && (forall r :: r in s.requests ==> CallKept(s, r))
    && (forall id :: id in s.db.posts ==> ToldByStory(s, id))
    && (forall id :: id in s.stories ==> s.stories[id].original.version == 0)
    && (forall r, id, v: nat :: Won(s, r, id, v) ==> IsWinner(s, r, id, v))
    && WritersWon(s)
  }

  lemma {:induction false} ToldCountsWins(original: Post, wins: seq<Win>)
    ensures Told(original, wins).version == original.version + |wins|
    ensures Told(original, wins).author == original.author && Told(original, wins).createdAt == original.createdAt
  {
    if wins != [] { ToldCountsWins(original, wins[..|wins| - 1]); }
  }

  lemma StepKeepsNothingLost(s: State, e: Event)
    requires NothingLost(s)
    ensures NothingLost(Step(s, e))
  {
    if e.Advance? && e.r in s.requests {
      MoveKeepsNothingLost(s, e.r, e.listed);
    } else if e.Begin? {
      BeginKeepsNothingLost(s, e.r, e.call);
    } else {
      var s' := Step(s, e);
      assert forall q :: CallKept(s', q) <==> CallKept(s, q);
      assert forall q, id, v: nat :: Won(s', q, id, v) <==> Won(s, q, id, v);
      assert forall q, id, v: nat :: IsWinner(s', q, id, v) <==> IsWinner(s, q, id, v);
    }
  }

  lemma BeginKeepsNothingLost(s: State, r: RequestId, call: Call)
    requires NothingLost(s)
    ensures NothingLost(Step(s, Begin(r, call)))
  {
    var s' := Step(s, Begin(r, call));
    forall q | q in s'.requests ensures CallKept(s', q) { assert q in s.requests ==> CallKept(s, q); }
    forall q, id, v: nat | Won(s', q, id, v) ensures IsWinner(s', q, id, v) {
      assert Won(s, q, id, v) && IsWinner(s, q, id, v);
    }
    forall id, v: nat | id in s'.stories && v < |s'.stories[id].wins|
      ensures Won(s', s'.stories[id].wins[v].writer, id, v)
    {
      assert Won(s, s.stories[id].wins[v].writer, id, v);
    }
  }

  lemma MoveKeepsNothingLost(s: State, r: RequestId, listed: seq<UserId>)
    requires NothingLost(s) && r in s.requests
    ensures NothingLost(Make(s, r, NextMove(s, r, s.requests[r], listed)))
  {
    var m := NextMove(s, r, s.requests[r], listed);
    var s' := Make(s, r, m);
    assert CallKept(s, r);
    MoveShape(s, r, m);
    MoveKeepsPosts(s, m.effect);
    MoveKeepsWinners(s, r, listed);
    var mid := Apply(s, m.effect);
    assert s'.db == mid.db && s'.stories == mid.stories;
    forall id | id in s'.db.posts ensures ToldByStory(s', id) { assert ToldByStory(mid, id); }
    forall q | q in s'.requests ensures CallKept(s', q) { assert CallKept(s, q); }
  }

  lemma MoveKeepsPosts(s: State, effect: Effect)
    requires NothingLost(s)
    requires effect.Insert? ==> effect.post.version == 0
    ensures forall id :: id in Apply(s, effect).db.posts ==> ToldByStory(Apply(s, effect), id)
    ensures forall id :: id in Apply(s, effect).stories ==> Apply(s, effect).stories[id].original.version == 0
  {
    var s' := Apply(s, effect);
    forall id | id in s'.db.posts ensures ToldByStory(s', id) {
      if id in s.db.posts { assert ToldByStory(s, id); }
      if effect.Modify? && effect.id == id {
        ToldAppends(s.stories[id].original, s.stories[id].wins, Win(effect.writer, effect.patch));
      }
    }
  }

  lemma ToldAppends(original: Post, wins: seq<Win>, win: Win)
    ensures Told(original, wins + [win]) == Patched(Told(original, wins), win.patch)
  {
    assert (wins + [win])[..|wins|] == wins;
  }

  lemma StoriesAreKept(s: State, effect: Effect)
    requires !effect.Modify? && (effect.Insert? ==> effect.id !in s.stories)
    ensures var s' := Apply(s, effect);
      && (forall id :: id in s.stories ==> id in s'.stories && s'.stories[id] == s.stories[id])
      && (forall id :: id in s'.stories && id !in s.stories ==> s'.stories[id].wins == [])
  {
  }

  /** A move that updates no post leaves every winner in place. */
  lemma OtherMovesKeepWinners(s: State, r: RequestId, m: Move)
    requires NothingLost(s) && r in s.requests && !m.effect.Modify?
    requires m.effect.Insert? ==> m.effect.id !in s.stories
    requires forall id, v: nat ::
      ReplyOf(m.next) == Some(Updated(id, v)) <==> ReplyOf(s.requests[r]) == Some(Updated(id, v))
    ensures forall q, id, v: nat :: Won(Make(s, r, m), q, id, v) ==> IsWinner(Make(s, r, m), q, id, v)
    ensures WritersWon(Make(s, r, m))
  {
    var s' := Make(s, r, m);
    MoveShape(s, r, m);
    StoriesAreKept(s, m.effect);
    assert s'.stories == Apply(s, m.effect).stories;
    forall q, id, v: nat ensures Won(s', q, id, v) <==> Won(s, q, id, v) {}
    forall q, id, v: nat | Won(s', q, id, v) ensures IsWinner(s', q, id, v) {
      assert IsWinner(s, q, id, v);
    }
  }

  /** A successful compare-and-set adds its request as the winner of exactly the version it consumed. */
  lemma UpdateKeepsWinners(s: State, r: RequestId, id: PostId, patch: Patch, next: Pc)
    requires NothingLost(s) && r in s.requests && id in s.db.posts && ReplyOf(s.requests[r]).None?
    requires r in s.calls && s.calls[r].UpdatePost? && s.calls[r].id == id && s.calls[r].patch == patch
    requires s.calls[r].expected == s.db.posts[id].version && ReplyOf(next) == Some(Updated(id, s.db.posts[id].version))
    ensures var s' := Make(s, r, Move(Modify(id, patch, r), next));
      (forall q, i, v: nat :: Won(s', q, i, v) ==> IsWinner(s', q, i, v)) && WritersWon(s')
  {
    var s' := Make(s, r, Move(Modify(id, patch, r), next));
    assert ToldByStory(s, id);
    ToldCountsWins(s.stories[id].original, s.stories[id].wins);
    MoveShape(s, r, Move(Modify(id, patch, r), next));
    assert s'.stories == s.stories[id := s.stories[id].(wins := s.stories[id].wins + [Win(r, patch)])];
    forall q, i, v: nat | Won(s', q, i, v) ensures IsWinner(s', q, i, v) {
      if q != r { assert Won(s, q, i, v) && IsWinner(s, q, i, v); }
    }
    forall i, v: nat | i in s'.stories && v < |s'.stories[i].wins|
      ensures Won(s', s'.stories[i].wins[v].writer, i, v)
    {
      if i in s.stories && v < |s.stories[i].wins| {
        assert Won(s, s.stories[i].wins[v].writer, i, v);
      }
    }
  }

  lemma MoveKeepsWinners(s: State, r: RequestId, listed: seq<UserId>)
    requires NothingLost(s) && r in s.requests
    ensures var s' := Make(s, r, NextMove(s, r, s.requests[r], listed));
      (forall q, id, v: nat :: Won(s', q, id, v) ==> IsWinner(s', q, id, v)) && WritersWon(s')
  {
    var pc := s.requests[r];
    var m := NextMove(s, r, pc, listed);
    assert CallKept(s, r);
    if m.effect.Modify? {
      UpdateKeepsWinners(s, r, m.effect.id, m.effect.patch, m.next);
    } else {
      OtherMovesKeepWinners(s, r, m);
    }
  }

  lemma {:induction false} RunLosesNothing(s: State, events: seq<Event>)
    requires NothingLost(s)
    ensures NothingLost(Run(s, events))
  {
    if events != [] {
      RunLosesNothing(s, events[..|events| - 1]);
      StepKeepsNothingLost(Run(s, events[..|events| - 1]), events[|events| - 1]);
    }
  }

  /** Exactly one request is told that it updated the post from version v, and v is its update. */
  ghost predicate ConsumedOnce(s: State, id: PostId, v: nat) {
    exists r :: Won(s, r, id, v) && IsWinner(s, r, id, v) && forall q :: Won(s, q, id, v) ==> q == r
  }

  lemma VersionsAreConsumedOnce(s: State, id: PostId, v: nat)
    requires NothingLost(s) && id in s.stories && v < |s.stories[id].wins|
    ensures ConsumedOnce(s, id, v)
  {
    var w := s.stories[id].wins[v].writer;
    assert Won(s, w, id, v) && IsWinner(s, w, id, v);
    forall q | Won(s, q, id, v) ensures q == w { assert IsWinner(s, q, id, v); }
  }

  /**
   * No lost updates: in every interleaving a stored post is the fold of its
   * winners' partial updates in version order, its version counts them, and
   * each version is consumed by exactly one request, the one told so, whose
   * own update it is.
   */
  lemma NoLostUpdates(events: seq<Event>, id: PostId)
    requires id in Run(Init(), events).db.posts
    ensures var s := Run(Init(), events);
      && id in s.stories
      && s.db.posts[id] == Told(s.stories[id].original, s.stories[id].wins)
      && s.db.posts[id].version == |s.stories[id].wins|
      && (forall v: nat :: v < s.db.posts[id].version ==> ConsumedOnce(s, id, v))
      && (forall r, v: nat :: Won(s, r, id, v) ==> v < s.db.posts[id].version)
  {
    RunLosesNothing(Init(), events);
    var s := Run(Init(), events);
    assert ToldByStory(s, id);
    ToldCountsWins(s.stories[id].original, s.stories[id].wins);
    forall v: nat | v < s.db.posts[id].version ensures ConsumedOnce(s, id, v) {
      VersionsAreConsumedOnce(s, id, v);
    }
    forall r, v: nat | Won(s, r, id, v) ensures v < s.db.posts[id].version {
      assert IsWinner(s, r, id, v);
    }
  }

  // --- What the stored post shows ---

  /** Write i is the last that set the field, to value. */
  ghost predicate LastSetAt<T>(writes: seq<Option<T>>, i: nat, value: T) {
    i < |writes| && writes[i] == Some(value) && forall j :: i < j < |writes| ==> writes[j].None?
  }

  /** The value was set by the last write that set the field; when none did it is the original. */
  ghost predicate LastWrite<T>(writes: seq<Option<T>>, original: T, value: T) {
    if forall i :: 0 <= i < |writes| ==> writes[i].None? then value == original
    else exists i: nat :: LastSetAt(writes, i, value)
  }

  lemma LastWriteAppends<T>(writes: seq<Option<T>>, original: T, value: T, write: Option<T>)
    requires LastWrite(writes, original, value)
    ensures LastWrite(writes + [write], original, if write.Some? then write.value else value)
  {
    var more := writes + [write];
    if write.Some? {
      assert LastSetAt(more, |writes|, write.value);
    } else if exists i :: 0 <= i < |writes| && writes[i].Some? {
      var i: nat :| LastSetAt(writes, i, value);
      assert LastSetAt(more, i, value);
    }
  }

  function Contents(wins: seq<Win>): seq<Option<string>> {
    seq(|wins|, i requires 0 <= i < |wins| => wins[i].patch.content)
  }

  function Visibilities(wins: seq<Win>): seq<Option<Visibility>> {
    seq(|wins|, i requires 0 <= i < |wins| => wins[i].patch.visibility)
  }

  lemma {:induction false} ToldFields(original: Post, wins: seq<Win>)
    ensures LastWrite(Contents(wins), original.content, Told(original, wins).content)
    ensures LastWrite(Visibilities(wins), original.visibility, Told(original, wins).visibility)
  {
    if wins != [] {
      var init, patch := wins[..|wins| - 1], wins[|wins| - 1].patch;
      ToldFields(original, init);
      assert Contents(wins) == Contents(init) + [patch.content];
      assert Visibilities(wins) == Visibilities(init) + [patch.visibility];
      LastWriteAppends(Contents(init), original.content, Told(original, init).content, patch.content);
      LastWriteAppends(Visibilities(init), original.visibility, Told(original, init).visibility, patch.visibility);
    }
  }

  /**
   * In every run each field of a stored post is what the latest update that
   * set the field wrote, or as it was created; no update sets another field.
   */
  lemma StoredFieldsAreTheLatest(events: seq<Event>, id: PostId)
    requires id in Run(Init(), events).db.posts
    ensures var s := Run(Init(), events);
      && id in s.stories
      && LastWrite(Contents(s.stories[id].wins), s.stories[id].original.content, s.db.posts[id].content)
      && LastWrite(Visibilities(s.stories[id].wins), s.stories[id].original.visibility, s.db.posts[id].visibility)
      && s.db.posts[id].author == s.stories[id].original.author
      && s.db.posts[id].createdAt == s.stories[id].original.createdAt
  {
    NoLostUpdates(events, id);
    var story := Run(Init(), events).stories[id];
    ToldFields(story.original, story.wins);
    ToldCountsWins(story.original, story.wins);
  }
}
