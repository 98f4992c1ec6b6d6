/**
 * Comment creation: visibility gate, parent check, replay lookup, insert
 * against the partial unique index on (author, key), refetch on a duplicate,
 * and one notification for the call that created the comment. Calls interleave
 * at every store call and may stop anywhere.
 */
module Comments {
  import opened Domain

  /** Comments are never deleted, so a comment's id is modelled by its place in the log. */
  datatype Comment = Comment(
    post: PostId, author: UserId, content: string, parent: Option<nat>, key: Option<string>, creator: RequestId)

  datatype Call = CreateComment(post: PostId, author: UserId, content: string, parent: Option<nat>, key: Option<string>)

  datatype PostInfo = PostInfo(author: UserId, visibility: Visibility)

  datatype Reply = Created(id: nat) | Replayed(id: nat) | NotFound | InvalidParent | DuplicateKey

  /** Where a call stands; each value names the store call it makes next. */
  datatype Pc =
    | ReadPost
    | ReadFollow(postAuthor: UserId)
    | ReadParent
    | FindReplay
    | Insert
    | Refetch
    | Publish(id: nat)
    | Answered(reply: Reply)

  datatype State = State(
    posts: map<PostId, PostInfo>,
    follows: set<(UserId, UserId)>,
    comments: seq<Comment>,
    calls: map<RequestId, Call>,
    requests: map<RequestId, Pc>,
    published: seq<nat>)

  datatype Event =
    | Begin(r: RequestId, call: Call)
    | Advance(r: RequestId)
    | PutPost(id: PostId, info: PostInfo)
    | RemovePost(id: PostId)
    | SetFollow(follower: UserId, followee: UserId, on: bool)

  function Init(): State {
    State(map[], {}, [], map[], map[], [])
  }

  /** Truthiness of the client key: absent and empty both mean none. */
  predicate Keyed(call: Call) {
    call.key.Some? && call.key.value != ""
  }

  /** The comment the index holds for an author and a key. */
  function Lookup(comments: seq<Comment>, author: UserId, key: string): (found: Option<nat>)
    ensures found.Some? ==>
      found.value < |comments| && comments[found.value].author == author && comments[found.value].key == Some(key)
    ensures found.None? ==> forall i :: 0 <= i < |comments| ==>
      !(comments[i].author == author && comments[i].key == Some(key))
  {
    if comments == [] then None
    else if comments[|comments| - 1].author == author && comments[|comments| - 1].key == Some(key)
      then Some(|comments| - 1)
    else Lookup(comments[..|comments| - 1], author, key)
  }

  function AfterGate(call: Call): Pc {
    if call.parent.Some? then ReadParent else AfterParent(call)
  }

  function AfterParent(call: Call): Pc {
    if Keyed(call) then FindReplay else Insert
  }

  function Goto(s: State, r: RequestId, pc: Pc): State {
    s.(requests := s.requests[r := pc])
  }

  function Next(s: State, r: RequestId, call: Call, pc: Pc): State {
    match pc
    case ReadPost =>
      Goto(s, r,
        if call.post !in s.posts then Answered(NotFound)
        else
          var post := s.posts[call.post];
          if post.visibility.Public? || post.author == call.author then AfterGate(call)
          else if post.visibility.FollowersOnly? then ReadFollow(post.author)
          else Answered(NotFound))
    case ReadFollow(author) =>
      Goto(s, r, if (call.author, author) in s.follows then AfterGate(call) else Answered(NotFound))
    case ReadParent =>
      Goto(s, r,
        if call.parent.Some? && call.parent.value < |s.comments| && s.comments[call.parent.value].post == call.post
        then AfterParent(call) else Answered(InvalidParent))
    case FindReplay =>
      var found := if call.key.Some? then Lookup(s.comments, call.author, call.key.value) else None;
      Goto(s, r, if found.Some? then Answered(Replayed(found.value)) else Insert)
    case Insert =>
      // The partial index covers every string key, the empty one included.
      if call.key.Some? && Lookup(s.comments, call.author, call.key.value).Some? then
        Goto(s, r, if Keyed(call) then Refetch else Answered(DuplicateKey))
      else
        Goto(s.(comments := s.comments + [Comment(call.post, call.author, call.content, call.parent, call.key, r)]),
             r, Publish(|s.comments|))
    case Refetch =>
      var found := if call.key.Some? then Lookup(s.comments, call.author, call.key.value) else None;
      Goto(s, r, if found.Some? then Answered(Replayed(found.value)) else Answered(DuplicateKey))
    case Publish(id) => Goto(s.(published := s.published + [id]), r, Answered(Created(id)))
    case Answered(_) => s
  }

  function Step(s: State, e: Event): State {
    match e
    case Begin(r, call) =>
      if r in s.requests then s else Goto(s, r, ReadPost).(calls := s.calls[r := call])
    case Advance(r) => if r in s.requests && r in s.calls then Next(s, r, s.calls[r], s.requests[r]) else s
    case PutPost(id, info) => s.(posts := s.posts[id := info])
    case RemovePost(id) => s.(posts := s.posts - {id})
    case SetFollow(f, g, on) => s.(follows := if on then s.follows + {(f, g)} else s.follows - {(f, g)})
  }

  function Run(s: State, events: seq<Event>): State {
    if events == [] then s else Step(Run(s, events[..|events| - 1]), events[|events| - 1])
  }

  // --- Invariants ---

  ghost predicate UniqueKeys(comments: seq<Comment>) {
    forall i, j :: 0 <= i < j < |comments| && comments[i].key.Some? && comments[i].author == comments[j].author ==>
      comments[i].key != comments[j].key
  }

  /** A comment is what its creator asked for, and its parent is an earlier comment on the same post. */
  predicate CommentOk(s: State, id: nat) {
    id < |s.comments| &&
    var c := s.comments[id];
    && c.creator in s.calls && c.creator in s.requests
    && s.calls[c.creator] == CreateComment(c.post, c.author, c.content, c.parent, c.key)
    && (s.requests[c.creator] == Publish(id) || s.requests[c.creator] == Answered(Created(id)))
    && (c.parent.Some? ==> c.parent.value < id && s.comments[c.parent.value].post == c.post)
  }

  predicate Owns(s: State, r: RequestId, id: nat) {
    id < |s.comments| && s.comments[id].creator == r
  }

  predicate PcOk(s: State, r: RequestId) {
    r in s.requests && r in s.calls &&
    var call := s.calls[r];
    match s.requests[r]
    case FindReplay => ParentOk(s, call) && Keyed(call)
    case Insert => ParentOk(s, call)
    case Refetch => Keyed(call) && Lookup(s.comments, call.author, call.key.value).Some?
    case Publish(id) => Owns(s, r, id) && id !in s.published
    case Answered(Created(id)) => Owns(s, r, id) && id in s.published
    case Answered(DuplicateKey) => !Keyed(call)
    case Answered(Replayed(id)) =>
      Keyed(call) && id < |s.comments| && s.comments[id].author == call.author && s.comments[id].key == call.key
    case _ => true
  }

  predicate ParentOk(s: State, call: Call) {
    call.parent.Some? ==> call.parent.value < |s.comments| && s.comments[call.parent.value].post == call.post
  }

  ghost predicate Inv(s: State) {
    && UniqueKeys(s.comments)
    && (forall id :: 0 <= id < |s.comments| ==> CommentOk(s, id))
    && (forall r :: r in s.requests ==> PcOk(s, r))
    && s.calls.Keys == s.requests.Keys
    && (forall i, j :: 0 <= i < j < |s.published| ==> s.published[i] != s.published[j])
    && (forall id :: id in s.published ==>
          id < |s.comments| && s.comments[id].creator in s.requests &&
            s.requests[s.comments[id].creator] == Answered(Created(id)))
  }

  /** A step leaves the comments alone, or appends the one its call asked for under a free key. */
  lemma StepShape(s: State, e: Event)
    ensures var s' := Step(s, e);
      s'.comments == s.comments ||
      (e.Advance? && e.r in s.requests && e.r in s.calls && s.requests[e.r].Insert? &&
        var call := s.calls[e.r];
        && (call.key.Some? ==> Lookup(s.comments, call.author, call.key.value).None?)
        && s'.comments == s.comments + [Comment(call.post, call.author, call.content, call.parent, call.key, e.r)])
    ensures var s' := Step(s, e);
      s'.calls == s.calls || (e.Begin? && e.r !in s.requests && s'.calls == s.calls[e.r := e.call])
    ensures var s' := Step(s, e); s'.requests.Keys == s.requests.Keys + if e.Begin? then {e.r} else {}
    ensures forall r :: r in s.requests ==>
      r in Step(s, e).requests && (Step(s, e).requests[r] == s.requests[r] || (e.Advance? && e.r == r))
  {
  }

  lemma StepGrows(s: State, e: Event)
    requires Inv(s)
    ensures s.comments <= Step(s, e).comments
    ensures UniqueKeys(Step(s, e).comments)
    ensures s.calls.Keys <= Step(s, e).calls.Keys && Step(s, e).calls.Keys == Step(s, e).requests.Keys
    ensures forall r :: r in s.calls ==> Step(s, e).calls[r] == s.calls[r]
    ensures forall r :: r in s.requests ==>
      r in Step(s, e).requests && (Step(s, e).requests[r] == s.requests[r] || (e.Advance? && e.r == r))
  {
    StepShape(s, e);
  }

  lemma StepKeepsComment(s: State, e: Event, id: nat)
    requires Inv(s) && id < |Step(s, e).comments|
    ensures CommentOk(Step(s, e), id)
  {
    StepGrows(s, e);
    if id < |s.comments| {
      assert CommentOk(s, id);
    } else {
      assert PcOk(s, e.r);
    }
  }

  lemma LookupGrows(a: seq<Comment>, b: seq<Comment>, author: UserId, key: string)
    requires a <= b && Lookup(a, author, key).Some?
    ensures Lookup(b, author, key).Some?
  {
    assert b[Lookup(a, author, key).value].key == Some(key);
  }

  lemma GrowthKeepsPc(s: State, s': State, r: RequestId)
    requires Inv(s) && PcOk(s, r) && s.comments <= s'.comments
    requires r in s'.requests && s'.requests[r] == s.requests[r] && r in s'.calls && s'.calls[r] == s.calls[r]
    requires s'.published == s.published || exists id, q ::
      q != r && Owns(s, q, id) && s'.published == s.published + [id]
    ensures PcOk(s', r)
  {
    var call := s.calls[r];
    if call.key.Some? && Lookup(s.comments, call.author, call.key.value).Some? {
      LookupGrows(s.comments, s'.comments, call.author, call.key.value);
    }
  }

  lemma OwnStepKeepsPc(s: State, r: RequestId)
    requires Inv(s) && r in s.requests && r in s.calls
    ensures PcOk(Step(s, Advance(r)), r)
  {
    assert PcOk(s, r);
    if s.requests[r].Insert? {
      var id := |s.comments|;
      assert id !in s.published;
    }
  }

  lemma StepKeepsPc(s: State, e: Event, r: RequestId)
    requires Inv(s) && r in Step(s, e).requests
    ensures PcOk(Step(s, e), r)
  {
    var s' := Step(s, e);
    StepGrows(s, e);
    if r in s.requests {
      assert PcOk(s, r);
      if e.Advance? && e.r == r {
        OwnStepKeepsPc(s, r);
      } else {
        if e.Advance? && e.r in s.requests && s.requests[e.r].Publish? {
          assert PcOk(s, e.r);
          assert Owns(s, e.r, s.requests[e.r].id) && s'.published == s.published + [s.requests[e.r].id];
        }
        GrowthKeepsPc(s, s', r);
      }
    }
  }

  lemma StepKeepsPublished(s: State, e: Event)
    requires Inv(s)
    ensures var s' := Step(s, e);
      && (forall i, j :: 0 <= i < j < |s'.published| ==> s'.published[i] != s'.published[j])
      && (forall id :: id in s'.published ==>
            id < |s'.comments| && s'.comments[id].creator in s'.requests &&
              s'.requests[s'.comments[id].creator] == Answered(Created(id)))
  {
    var s' := Step(s, e);
    StepGrows(s, e);
    if e.Advance? && e.r in s.requests {
      assert PcOk(s, e.r);
      if s.requests[e.r].Publish? {
        assert s'.published == s.published + [s.requests[e.r].id];
      } else {
        assert s'.published == s.published;
      }
    } else {
      assert s'.published == s.published;
    }
  }

  lemma {:induction false} RunKeepsInv(s: State, events: seq<Event>)
    requires Inv(s)
    ensures Inv(Run(s, events))
  {
    if events != [] {
      var mid, e := Run(s, events[..|events| - 1]), events[|events| - 1];
      RunKeepsInv(s, events[..|events| - 1]);
      StepGrows(mid, e);
      StepKeepsPublished(mid, e);
      forall id | 0 <= id < |Step(mid, e).comments|
        ensures CommentOk(Step(mid, e), id) { StepKeepsComment(mid, e, id); }
      forall r | r in Step(mid, e).requests ensures PcOk(Step(mid, e), r) { StepKeepsPc(mid, e, r); }
    }
  }

  // --- Idempotent creation ---

  predicate Succeeded(s: State, r: RequestId) {
    r in s.requests && s.requests[r].Answered? && (s.requests[r].reply.Created? || s.requests[r].reply.Replayed?)
  }

  lemma UniqueComment(comments: seq<Comment>, i: nat, j: nat)
    requires UniqueKeys(comments) && i < |comments| && j < |comments|
    requires comments[i].key.Some? && comments[i].key == comments[j].key && comments[i].author == comments[j].author
    ensures i == j
  {
  }

  /** The comment has the author and the key of the call. */
  predicate Carries(c: Comment, call: Call) {
    c.author == call.author && c.key == call.key
  }

  /**
   * In every interleaving of calls with one author and one key at most one
   * comment is stored, every successful call returns it, and exactly the call
   * that reports creating it publishes a notification for it, once.
   */
  lemma OneCommentPerKey(events: seq<Event>, q: RequestId, r: RequestId)
    requires var s := Run(Init(), events);
      && Succeeded(s, q) && Succeeded(s, r) && q in s.calls && r in s.calls
      && Keyed(s.calls[q]) && s.calls[q].key == s.calls[r].key && s.calls[q].author == s.calls[r].author
    ensures var s := Run(Init(), events);
      && s.requests[q].reply.id == s.requests[r].reply.id < |s.comments|
      && (forall i :: 0 <= i < |s.comments| && Carries(s.comments[i], s.calls[q]) ==> i == s.requests[q].reply.id)
      && (s.requests[q].reply.Created? && s.requests[r].reply.Created? ==> q == r)
      && (s.requests[q].reply.Created? ==>
            && multiset(s.published)[s.requests[q].reply.id] == 1
            && var call := s.calls[q];
               s.comments[s.requests[q].reply.id] ==
                 Comment(call.post, call.author, call.content, call.parent, call.key, q))
  {
    RunKeepsInv(Init(), events);
    var s := Run(Init(), events);
    assert PcOk(s, q) && PcOk(s, r);
    var i, j := s.requests[q].reply.id, s.requests[r].reply.id;
    assert CommentOk(s, i) && CommentOk(s, j);
    UniqueComment(s.comments, i, j);
    forall k | 0 <= k < |s.comments| && Carries(s.comments[k], s.calls[q])
      ensures k == i
    {
      UniqueComment(s.comments, i, k);
    }
    if s.requests[q].reply.Created? { DistinctCounts(s.published, i); }
  }

  lemma {:induction false} DistinctCounts(xs: seq<nat>, x: nat)
    requires forall i, j :: 0 <= i < j < |xs| ==> xs[i] != xs[j]
    ensures multiset(xs)[x] == if x in xs then 1 else 0
  {
    if xs != [] {
      var head, last := xs[..|xs| - 1], xs[|xs| - 1];
      assert xs == head + [last];
      DistinctCounts(head, x);
    }
  }

  /** A notification is published only for a comment whose creating call says so: a replay publishes nothing. */
  lemma OnlyCreatorsPublish(events: seq<Event>, id: nat)
    requires id in Run(Init(), events).published
    ensures var s := Run(Init(), events);
      && id < |s.comments| && s.comments[id].creator in s.requests
      && s.requests[s.comments[id].creator] == Answered(Created(id))
      && multiset(s.published)[id] == 1
  {
    RunKeepsInv(Init(), events);
    DistinctCounts(Run(Init(), events).published, id);
  }

  /** In no run is a keyed call answered with the bare duplicate-key error. */
  lemma KeyedCallsNeverFailOnDuplicates(events: seq<Event>, r: RequestId)
    requires var s := Run(Init(), events); r in s.calls && Keyed(s.calls[r])
    ensures var s := Run(Init(), events); r in s.requests && s.requests[r] != Answered(DuplicateKey)
  {
    RunKeepsInv(Init(), events);
    assert PcOk(Run(Init(), events), r);
  }

  lemma {:induction false} OthersLeaveTheRequest(s: State, events: seq<Event>, r: RequestId)
    requires Inv(s) && r in s.requests && forall e :: e in events ==> e != Advance(r)
    ensures Inv(Run(s, events)) && r in Run(s, events).requests && r in Run(s, events).calls
    ensures Run(s, events).requests[r] == s.requests[r] && Run(s, events).calls[r] == s.calls[r]
    ensures s.comments <= Run(s, events).comments
  {
    if events != [] {
      var head, e := events[..|events| - 1], events[|events| - 1];
      assert e in events && forall x :: x in head ==> x in events;
      OthersLeaveTheRequest(s, head, r);
      RunKeepsInv(s, head);
      RunKeepsInv(s, events);
      StepGrows(Run(s, head), e);
    }
  }

  /**
   * A keyed call whose insert finds the key taken is answered by its next two
   * store calls, whatever others do in between: it is a replay, and returns the
   * comment that took the key.
   */
  lemma RefetchFindsTheWinner(events: seq<Event>, r: RequestId, others: seq<Event>)
    requires var s := Run(Init(), events);
      && r in s.requests && r in s.calls && s.requests[r].Insert? && Keyed(s.calls[r])
      && Lookup(s.comments, s.calls[r].author, s.calls[r].key.value).Some?
    requires forall e :: e in others ==> e != Advance(r)
    ensures var s := Run(Init(), events);
      var s' := Step(Run(Step(s, Advance(r)), others), Advance(r));
      r in s'.requests &&
        s'.requests[r] == Answered(Replayed(Lookup(s.comments, s.calls[r].author, s.calls[r].key.value).value))
  {
    RunKeepsInv(Init(), events);
    var s := Run(Init(), events);
    var call := s.calls[r];
    var winner := Lookup(s.comments, call.author, call.key.value).value;
    var s1 := Step(s, Advance(r));
    RunKeepsInv(s, [Advance(r)]);
    assert Run(s, [Advance(r)]) == s1 by { assert [Advance(r)][..0] == []; }
    OthersLeaveTheRequest(s1, others, r);
    var s2 := Run(s1, others);
    assert s2.comments[winner] == s.comments[winner];
    LookupGrows(s.comments, s2.comments, call.author, call.key.value);
    UniqueComment(s2.comments, winner, Lookup(s2.comments, call.author, call.key.value).value);
  }

  // --- The visibility gate ---

  /** Event i of the run is the step in which request r read the post, and this is what it read. */
  predicate ReadsPost(events: seq<Event>, i: int, r: RequestId, id: PostId, post: PostInfo) {
    0 <= i < |events| && events[i] == Advance(r) &&
    var s := Run(Init(), events[..i]);
    r in s.requests && s.requests[r].ReadPost? && id in s.posts && s.posts[id] == post
  }

  /** Event j of the run is the step in which request r asked for the follow relation, and found it. */
  predicate ReadsFollow(events: seq<Event>, j: int, r: RequestId, follower: UserId, followee: UserId) {
    0 <= j < |events| && events[j] == Advance(r) &&
    var s := Run(Init(), events[..j]);
    r in s.requests && s.requests[r] == ReadFollow(followee) && (follower, followee) in s.follows
  }

  /** The request's own reads, of the post and then of the follow, showed its author a readable post. */
  ghost predicate PassedGate(events: seq<Event>, r: RequestId, call: Call) {
    exists i, post :: ReadsPost(events, i, r, call.post, post) && ShownAfter(events, i, r, call, post)
  }

  ghost predicate ShownAfter(events: seq<Event>, i: int, r: RequestId, call: Call, post: PostInfo) {
    || post.visibility.Public?
    || post.author == call.author
    || (post.visibility.FollowersOnly? && exists j :: i < j && ReadsFollow(events, j, r, call.author, post.author))
  }

  ghost predicate GateOk(events: seq<Event>, r: RequestId, call: Call, pc: Pc) {
    match pc
    case ReadPost => true
    case ReadFollow(author) => exists i :: ReadsPost(events, i, r, call.post, PostInfo(author, FollowersOnly))
    case Answered(NotFound) => true
    case _ => PassedGate(events, r, call)
  }

  lemma ReadsGrow(events: seq<Event>, e: Event, r: RequestId)
    ensures forall i, id, post :: ReadsPost(events, i, r, id, post) ==> ReadsPost(events + [e], i, r, id, post)
    ensures forall j, f, g :: ReadsFollow(events, j, r, f, g) ==> ReadsFollow(events + [e], j, r, f, g)
  {
    forall i, id, post | ReadsPost(events, i, r, id, post) ensures ReadsPost(events + [e], i, r, id, post) {
      assert (events + [e])[..i] == events[..i];
    }
    forall j, f, g | ReadsFollow(events, j, r, f, g) ensures ReadsFollow(events + [e], j, r, f, g) {
      assert (events + [e])[..j] == events[..j];
    }
  }

  lemma GateOkGrows(events: seq<Event>, e: Event, r: RequestId, call: Call, pc: Pc)
    requires GateOk(events, r, call, pc)
    ensures GateOk(events + [e], r, call, pc)
  {
    ReadsGrow(events, e, r);
    if PassedGate(events, r, call) {
      var i, post :| ReadsPost(events, i, r, call.post, post) && ShownAfter(events, i, r, call, post);
      assert ReadsPost(events + [e], i, r, call.post, post) && ShownAfter(events + [e], i, r, call, post);
    }
  }

  /** The call's own moves pass the gate only by reading what lets them. */
  lemma MovesThroughGate(s: State, r: RequestId, call: Call, pc: Pc)
    requires !pc.Answered?
    ensures r in Next(s, r, call, pc).requests
    ensures var next := Next(s, r, call, pc).requests[r];
      match pc
      case ReadPost =>
        next == Answered(NotFound) ||
        (call.post in s.posts && next.ReadFollow? && s.posts[call.post] == PostInfo(next.postAuthor, FollowersOnly)) ||
        (call.post in s.posts && (s.posts[call.post].visibility.Public? || s.posts[call.post].author == call.author)
         && !next.ReadPost? && !next.ReadFollow?)
      case ReadFollow(author) =>
        next == Answered(NotFound) || ((call.author, author) in s.follows && !next.ReadPost? && !next.ReadFollow?)
      case _ => !next.ReadPost? && !next.ReadFollow?
  {
    match pc
    case Insert =>
    case Publish(_) =>
    case _ =>
  }

  lemma MoveKeepsGate(events: seq<Event>, r: RequestId, call: Call, pc: Pc, next: Pc)
    requires GateOk(events, r, call, pc) && !pc.Answered?
    requires var s := Run(Init(), events); r in s.requests && s.requests[r] == pc
    requires var s' := Next(Run(Init(), events), r, call, pc); r in s'.requests && s'.requests[r] == next
    ensures GateOk(events + [Advance(r)], r, call, next)
  {
    var s, more := Run(Init(), events), events + [Advance(r)];
    assert more[..|events|] == events;
    MovesThroughGate(s, r, call, pc);
    ReadsGrow(events, Advance(r), r);
    if next != Answered(NotFound) {
      if pc.ReadPost? {
        assert ReadsPost(more, |events|, r, call.post, s.posts[call.post]);
        if !next.ReadFollow? { assert ShownAfter(more, |events|, r, call, s.posts[call.post]); }
      } else if pc.ReadFollow? {
        var post := PostInfo(pc.postAuthor, FollowersOnly);
        var i :| ReadsPost(events, i, r, call.post, post);
        assert ReadsFollow(more, |events|, r, call.author, post.author);
        assert ReadsPost(more, i, r, call.post, post) && ShownAfter(more, i, r, call, post);
      } else {
        GateOkGrows(events, Advance(r), r, call, pc);
      }
    }
  }

  lemma StepKeepsGate(events: seq<Event>, e: Event, r: RequestId)
    requires var s := Run(Init(), events); Inv(s) && r in s.requests && GateOk(events, r, s.calls[r], s.requests[r])
    ensures var s' := Step(Run(Init(), events), e);
      r in s'.requests && r in s'.calls && GateOk(events + [e], r, s'.calls[r], s'.requests[r])
  {
    var s := Run(Init(), events);
    StepGrows(s, e);
    if e == Advance(r) && !s.requests[r].Answered? {
      MoveKeepsGate(events, r, s.calls[r], s.requests[r], Step(s, e).requests[r]);
    } else {
      GateOkGrows(events, e, r, s.calls[r], s.requests[r]);
    }
  }

  lemma {:induction false} GateHolds(events: seq<Event>, r: RequestId)
    requires var s := Run(Init(), events); r in s.requests && r in s.calls
    ensures var s := Run(Init(), events); GateOk(events, r, s.calls[r], s.requests[r])
  {
    if events != [] {
      var head, e := events[..|events| - 1], events[|events| - 1];
      assert events == head + [e];
      RunKeepsInv(Init(), head);
      if r in Run(Init(), head).requests {
        GateHolds(head, r);
        StepKeepsGate(head, e, r);
      } else {
        NewCallsStart(Run(Init(), head), e, r);
      }
    }
  }

  lemma NewCallsStart(s: State, e: Event, r: RequestId)
    requires r !in s.requests && r in Step(s, e).requests
    ensures Step(s, e).requests[r].ReadPost?
  {
    StepShape(s, e);
  }

  /**
   * Nobody comments on a post the gate did not show them: the call of every
   * stored comment itself read the post, and, where that was for followers
   * only, then read that its author follows the post's author.
   */
  lemma CommentersPassedTheGate(events: seq<Event>, id: nat)
    requires id < |Run(Init(), events).comments|
    ensures var c := Run(Init(), events).comments[id];
      PassedGate(events, c.creator, CreateComment(c.post, c.author, c.content, c.parent, c.key))
  {
    RunKeepsInv(Init(), events);
    var s := Run(Init(), events);
    assert CommentOk(s, id);
    GateHolds(events, s.comments[id].creator);
  }

  // --- Comments form a forest ---

  /** The ids met by following parents from a comment, the comment first. */
  ghost function PathToRoot(comments: seq<Comment>, id: nat): seq<nat>
    requires id < |comments|
    requires forall i :: 0 <= i < |comments| && comments[i].parent.Some? ==> comments[i].parent.value < i
  {
    if comments[id].parent.None? then [id] else [id] + PathToRoot(comments, comments[id].parent.value)
  }

  lemma {:induction false} PathStaysOnPost(comments: seq<Comment>, id: nat)
    requires id < |comments|
    requires forall i :: 0 <= i < |comments| && comments[i].parent.Some? ==>
      comments[i].parent.value < i && comments[comments[i].parent.value].post == comments[i].post
    ensures var path := PathToRoot(comments, id);
      && |path| >= 1 && path[0] == id
      && (forall k :: 0 <= k < |path| ==> path[k] < |comments| && comments[path[k]].post == comments[id].post)
      && (forall k :: 0 <= k < |path| - 1 ==> comments[path[k]].parent == Some(path[k + 1]))
      && comments[path[|path| - 1]].parent.None?
  {
    if comments[id].parent.Some? {
      PathStaysOnPost(comments, comments[id].parent.value);
      var rest := PathToRoot(comments, comments[id].parent.value);
      var path := PathToRoot(comments, id);
      assert path == [id] + rest;
      forall k | 0 <= k < |path| - 1 ensures comments[path[k]].parent == Some(path[k + 1]) {
        if k > 0 { assert path[k] == rest[k - 1] && path[k + 1] == rest[k]; }
      }
    }
  }

  /**
   * In every reachable state the comments form a forest: from any comment the
   * parents lead, in finitely many steps, to a root, without leaving the post.
   */
  lemma CommentsFormAForest(events: seq<Event>, id: nat)
    requires id < |Run(Init(), events).comments|
    ensures var comments := Run(Init(), events).comments;
      exists path: seq<nat> :: |path| >= 1 && path[0] == id
        && (forall k :: 0 <= k < |path| ==> path[k] < |comments| && comments[path[k]].post == comments[id].post)
        && (forall k :: 0 <= k < |path| - 1 ==> comments[path[k]].parent == Some(path[k + 1]))
        && comments[path[|path| - 1]].parent.None?
  {
    RunKeepsInv(Init(), events);
    var s := Run(Init(), events);
    forall i | 0 <= i < |s.comments| && s.comments[i].parent.Some?
      ensures s.comments[i].parent.value < i && s.comments[s.comments[i].parent.value].post == s.comments[i].post
    {
      assert CommentOk(s, i);
    }
    PathStaysOnPost(s.comments, id);
  }
}
