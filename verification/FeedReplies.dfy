/**
 * What the answers of the writers mean, over the runs of the feed protocol:
 * each change that is reported was made, by the request it is reported to.
 */
module FeedReplies {
  import opened Domain
  import opened FeedProtocol
  import opened PostUpdates

  /** The update of a post: the fields the patch sets, the next version, and all else as it was. */
  predicate IsUpdateOf(p: Post, q: Post, patch: Patch) {
    && q.author == p.author && q.createdAt == p.createdAt && q.version == p.version + 1
    && (if patch.content.Some? then q.content == patch.content.value else q.content == p.content)
    && (if patch.visibility.Some? then q.visibility == patch.visibility.value else q.visibility == p.visibility)
  }

  /** What a step of a request changed: the post appeared, moved on or went, the edge appeared or went, nothing else. */
  predicate Made(a: Db, b: Db, call: Call, reply: Reply) {
    match reply
    case Created(id) =>
      && call.CreatePost? && call.id == id && id !in a.posts
      && b == a.(posts := a.posts[id := Post(call.author, call.content, call.visibility, 0, call.createdAt)])
    case Updated(id, v) =>
      && call.UpdatePost? && call.id == id && call.expected == v && id in a.posts && a.posts[id].version == v
      && id in b.posts && IsUpdateOf(a.posts[id], b.posts[id], call.patch)
      && b == a.(posts := a.posts[id := b.posts[id]])
    case Deleted(id) => call.DeletePost? && call.id == id && b == a.(posts := a.posts - {id})
    case Followed =>
      && call.Follow? && call.follower != call.followee && (call.follower, call.followee) !in a.follows
      && b == a.(follows := a.follows + {(call.follower, call.followee)})
    case Unfollowed =>
      && call.Unfollow? && (call.follower, call.followee) in a.follows
      && b == a.(follows := a.follows - {(call.follower, call.followee)})
    case _ => a == b
  }

  predicate Reports(reply: Reply) {
    reply.Created? || reply.Updated? || reply.Deleted? || reply.Followed? || reply.Unfollowed?
  }

  /** Event k of the run is the step of request r that made the reported change. */
  ghost predicate MadeAt(events: seq<Event>, k: int, r: RequestId, call: Call, reply: Reply) {
    0 <= k < |events| && events[k].Advance? && events[k].r == r &&
    Made(Run(Init(), events[..k]).db, Run(Init(), events[..k + 1]).db, call, reply)
  }

  ghost predicate WasMade(events: seq<Event>, r: RequestId, call: Call, reply: Reply) {
    exists k :: MadeAt(events, k, r, call, reply)
  }

  /** Where a request stands is where its call leads, and what it reports was made. */
  ghost predicate Truthful(events: seq<Event>, s: State, r: RequestId) {
    r in s.requests && r in s.calls &&
    match s.requests[r]
    case Started(call) => s.calls[r] == call
    case UpdateChecked(id, caller, expected, patch) => s.calls[r] == UpdatePost(id, caller, expected, patch)
    case DeleteChecked(id, caller) => s.calls[r] == DeletePost(id, caller)
    case FollowChecked(follower, followee) =>
      s.calls[r].Follow? && s.calls[r].follower == follower && s.calls[r].followee == followee && follower != followee
    case pc =>
      ReplyOf(pc).Some? && Reports(ReplyOf(pc).value) ==> WasMade(events, r, s.calls[r], ReplyOf(pc).value)
  }

  lemma ChangesStayMade(events: seq<Event>, e: Event, r: RequestId, call: Call, reply: Reply)
    requires WasMade(events, r, call, reply)
    ensures WasMade(events + [e], r, call, reply)
  {
    var k :| MadeAt(events, k, r, call, reply);
    assert (events + [e])[..k] == events[..k] && (events + [e])[..k + 1] == events[..k + 1];
    assert MadeAt(events + [e], k, r, call, reply);
  }

  /** A move that begins to report a change makes it. */
  lemma ReportsAreMade(s: State, r: RequestId, listed: seq<UserId>)
    requires r in s.requests && r in s.calls && Truthful([], s, r) && ReplyOf(s.requests[r]).None?
    requires forall id :: id in s.db.posts ==> id in s.stories
    ensures var m := NextMove(s, r, s.requests[r], listed);
      ReplyOf(m.next).Some? && Reports(ReplyOf(m.next).value) ==>
        Made(s.db, Apply(s, m.effect).db, s.calls[r], ReplyOf(m.next).value)
  {
  }

  lemma KeepsReporting(s: State, r: RequestId, listed: seq<UserId>)
    requires r in s.requests && ReplyOf(s.requests[r]).Some?
    ensures ReplyOf(NextMove(s, r, s.requests[r], listed).next) == ReplyOf(s.requests[r])
  {
  }

  lemma StepKeepsTruth(events: seq<Event>, e: Event, r: RequestId)
    requires var s := Run(Init(), events); NothingLost(s) && (r in s.requests ==> Truthful(events, s, r))
    requires r in Step(Run(Init(), events), e).requests
    ensures Truthful(events + [e], Step(Run(Init(), events), e), r)
  {
    var s := Run(Init(), events);
    var s' := Step(s, e);
    if e.Advance? && e.r in s.requests {
      MoveShape(s, e.r, NextMove(s, e.r, s.requests[e.r], e.listed));
    }
    if r in s.requests {
      if e.Advance? && e.r == r {
        OwnMoveKeepsTruth(events, r, e.listed);
      } else {
        assert s'.requests[r] == s.requests[r] && s'.calls[r] == s.calls[r];
        TruthCarries(events, e, s, s', r);
      }
    }
  }

  lemma TruthCarries(events: seq<Event>, e: Event, s: State, s': State, r: RequestId)
    requires Truthful(events, s, r)
    requires r in s'.requests && r in s'.calls && s'.requests[r] == s.requests[r] && s'.calls[r] == s.calls[r]
    ensures Truthful(events + [e], s', r)
  {
    var reply := ReplyOf(s.requests[r]);
    if reply.Some? && Reports(reply.value) { ChangesStayMade(events, e, r, s.calls[r], reply.value); }
  }

  lemma OwnMoveKeepsTruth(events: seq<Event>, r: RequestId, listed: seq<UserId>)
    requires var s := Run(Init(), events); NothingLost(s) && r in s.requests && Truthful(events, s, r)
    ensures Truthful(events + [Advance(r, listed)], Step(Run(Init(), events), Advance(r, listed)), r)
  {
    var s, e := Run(Init(), events), Advance(r, listed);
    var pc := s.requests[r];
    var m := NextMove(s, r, pc, listed);
    var more := events + [e];
    MoveShape(s, r, m);
    assert Step(s, e).requests[r] == m.next && Step(s, e).calls[r] == s.calls[r];
    var reply := ReplyOf(m.next);
    if reply.Some? && Reports(reply.value) {
      if ReplyOf(pc).Some? {
        KeepsReporting(s, r, listed);
        ChangesStayMade(events, e, r, s.calls[r], reply.value);
      } else {
        assert forall id :: id in s.db.posts ==> ToldByStory(s, id);
        ReportsAreMade(s, r, listed);
        assert more[..|events|] == events && more[..|events| + 1] == more;
        assert MadeAt(more, |events|, r, s.calls[r], reply.value);
      }
    }
  }

  /** In every run whatever a request reports, or is about to report, it made itself. */
  lemma {:induction false} EveryRunIsTruthful(events: seq<Event>, r: RequestId)
    requires r in Run(Init(), events).requests
    ensures Truthful(events, Run(Init(), events), r)
  {
    if events != [] {
      var head, e := events[..|events| - 1], events[|events| - 1];
      assert events == head + [e];
      RunLosesNothing(Init(), head);
      if r in Run(Init(), head).requests { EveryRunIsTruthful(head, r); }
      StepKeepsTruth(head, e, r);
    }
  }

  /**
   * A writer is told that it created, updated or deleted a post, or began or
   * ceased to follow, only if one of its own steps made exactly the change its
   * call asked for: the post or the edge was not there before, or was.
   */
  lemma ReportedChangesWereMade(events: seq<Event>, r: RequestId)
    requires var s := Run(Init(), events);
      r in s.requests && s.requests[r].Answered? && Reports(s.requests[r].reply)
    ensures var s := Run(Init(), events); r in s.calls && WasMade(events, r, s.calls[r], s.requests[r].reply)
  {
    EveryRunIsTruthful(events, r);
  }

  // --- A writer nobody interrupts ---

  /** The caller may make the change, and it is there to be made. */
  predicate Permitted(s: State, call: Call) {
    match call
    case GetFeed(_, _, _) => false
    case CreatePost(id, _, _, _, _) => id !in s.stories
    case UpdatePost(id, caller, expected, _) =>
      id in s.db.posts && s.db.posts[id].author == caller && s.db.posts[id].version == expected
    case DeletePost(id, caller) => id in s.db.posts && s.db.posts[id].author == caller
    case Follow(follower, followee, found) => follower != followee && found && (follower, followee) !in s.db.follows
    case Unfollow(follower, followee) => (follower, followee) in s.db.follows
  }

  function Success(call: Call): Reply
    requires !call.GetFeed?
  {
    match call
    case CreatePost(id, _, _, _, _) => Created(id)
    case UpdatePost(id, _, expected, _) => Updated(id, expected)
    case DeletePost(id, _) => Deleted(id)
    case Follow(_, _, _) => Followed
    case Unfollow(_, _) => Unfollowed
  }

  /** Why a change is refused; what is missing is told before whose it is, and that before a stale version. */
  predicate Refuses(db: Db, call: Call, reply: Reply) {
    match reply
    case SelfFollow => call.Follow? && call.follower == call.followee
    case NotFound =>
      || ((call.UpdatePost? || call.DeletePost?) && call.id !in db.posts)
      || (call.Follow? && call.follower != call.followee && !call.followeeExists)
      || (call.Unfollow? && (call.follower, call.followee) !in db.follows)
    case OwnershipRequired =>
      && (call.UpdatePost? || call.DeletePost?)
      && call.id in db.posts && db.posts[call.id].author != call.caller
    case Conflict =>
      || (call.UpdatePost? && call.id in db.posts && db.posts[call.id].author == call.caller &&
         db.posts[call.id].version != call.expected)
      || (call.Follow? && call.follower != call.followee && call.followeeExists &&
         (call.follower, call.followee) in db.follows)
    case _ => false
  }

  /** The state after the next two store calls, both made by request r. */
  ghost function TwoCalls(s: State, r: RequestId): State {
    Step(Step(s, Advance(r, [])), Advance(r, []))
  }

  /** The answer that is due, the change it reports, and nothing else, or a refusal that leaves everything as it was. */
  ghost predicate Settles(s: State, s': State, r: RequestId, call: Call) {
    r in s'.requests && ReplyOf(s'.requests[r]).Some? && !call.GetFeed? &&
    var reply := ReplyOf(s'.requests[r]).value;
    if Permitted(s, call) then reply == Success(call) && Made(s.db, s'.db, call, reply)
    else Refuses(s.db, call, reply) && s'.db == s.db
  }

  lemma EditsDoAsAsked(s: State, r: RequestId, call: Call)
    requires r in s.requests && s.requests[r] == Started(call) && (call.UpdatePost? || call.DeletePost?)
    requires forall id :: id in s.db.posts ==> id in s.stories
    ensures Settles(s, TwoCalls(s, r), r, call)
  {
  }

  lemma CreationsDoAsAsked(s: State, r: RequestId, call: Call)
    requires r in s.requests && s.requests[r] == Started(call) && call.CreatePost? && call.id !in s.stories
    requires forall id :: id in s.db.posts ==> id in s.stories
    ensures Settles(s, TwoCalls(s, r), r, call)
  {
  }

  lemma FollowsDoAsAsked(s: State, r: RequestId, call: Call)
    requires r in s.requests && s.requests[r] == Started(call) && (call.Follow? || call.Unfollow?)
    ensures Settles(s, TwoCalls(s, r), r, call)
  {
  }

  /**
   * A writer that nobody interrupts makes its change if and only if it may,
   * and its answer, success or the reason of the refusal, is settled by its
   * second store call.
   */
  lemma WritersDoAsAsked(events: seq<Event>, r: RequestId, call: Call)
    requires var s := Run(Init(), events);
      && r in s.requests && s.requests[r] == Started(call) && !call.GetFeed?
      && (call.CreatePost? ==> call.id !in s.stories)
    ensures Settles(Run(Init(), events), TwoCalls(Run(Init(), events), r), r, call)
  {
    var s := Run(Init(), events);
    RunLosesNothing(Init(), events);
    forall id | id in s.db.posts ensures id in s.stories { assert ToldByStory(s, id); }
    match call
    case CreatePost(_, _, _, _, _) => CreationsDoAsAsked(s, r, call);
    case Follow(_, _, _) => FollowsDoAsAsked(s, r, call);
    case Unfollow(_, _) => FollowsDoAsAsked(s, r, call);
    case _ => EditsDoAsAsked(s, r, call);
  }
}
