/**
 * What a comment creation comes to when nobody interrupts it: it is made if
 * and only if the post may be read and the parent is a comment on that post.
 */
module CommentOutcomes {
  import opened Domain
  import opened Comments

  // --- The visibility gate ---

  /** Where the gate leaves a call when nothing changes between its two reads. */
  function AfterBothReads(s: State, r: RequestId, call: Call): Pc {
    var s1 := Next(s, r, call, ReadPost);
    if s1.requests[r].ReadFollow? then Next(s1, r, call, s1.requests[r]).requests[r] else s1.requests[r]
  }

  /** The gate lets through exactly those who may read the post, and reports it missing to all others. */
  lemma GateIsMayRead(s: State, r: RequestId, call: Call)
    ensures AfterBothReads(s, r, call) ==
      if call.post in s.posts &&
        MayRead(call.author, s.posts[call.post].author, s.posts[call.post].visibility, s.follows)
      then AfterGate(call) else Answered(NotFound)
  {
    var s1 := Next(s, r, call, ReadPost);
    assert s1.follows == s.follows;
  }

  // --- A call nobody interrupts ---

  /** The next n store calls are all made by request r. */
  function Alone(s: State, r: RequestId, n: nat): State
    decreases n
  {
    if n == 0 then s else Alone(Step(s, Advance(r)), r, n - 1)
  }

  predicate Readable(s: State, call: Call) {
    call.post in s.posts && MayRead(call.author, s.posts[call.post].author, s.posts[call.post].visibility, s.follows)
  }

  /** The client key, should there be one, was not used by the author before. */
  predicate KeyIsFree(s: State, call: Call) {
    call.key.Some? ==> Lookup(s.comments, call.author, call.key.value).None?
  }

  predicate Stands(s: State, r: RequestId, call: Call, pc: Pc) {
    r in s.requests && r in s.calls && s.calls[r] == call && s.requests[r] == pc
  }

  /** Request r made its comment, announced it, and was answered; nothing else was commented. */
  predicate CreatedIts(s: State, s': State, r: RequestId, call: Call) {
    && Stands(s', r, call, Answered(Created(|s.comments|)))
    && s'.comments == s.comments + [Comment(call.post, call.author, call.content, call.parent, call.key, r)]
    && s'.published == s.published + [|s.comments|]
  }

  predicate AnsweredOnly(s: State, s': State, r: RequestId, call: Call, reply: Reply) {
    Stands(s', r, call, Answered(reply)) && s'.comments == s.comments && s'.published == s.published
  }

  /** Only the place of request r differs. */
  predicate Moved(s: State, s': State, r: RequestId, call: Call, pc: Pc) {
    Stands(s', r, call, pc) && s' == s.(requests := s'.requests)
  }

  lemma {:induction false} AnswersAreFinal(s: State, r: RequestId, call: Call, reply: Reply, n: nat)
    requires Stands(s, r, call, Answered(reply))
    ensures Alone(s, r, n) == s
  {
    if n > 0 { AnswersAreFinal(Step(s, Advance(r)), r, call, reply, n - 1); }
  }

  lemma InsertCreates(s: State, r: RequestId, call: Call, n: nat)
    requires Stands(s, r, call, Insert) && KeyIsFree(s, call) && n >= 2
    ensures CreatedIts(s, Alone(s, r, n), r, call)
  {
    var s1 := Step(s, Advance(r));
    var s2 := Step(s1, Advance(r));
    assert Stands(s1, r, call, Publish(|s.comments|));
    assert CreatedIts(s, s2, r, call);
    AnswersAreFinal(s2, r, call, Created(|s.comments|), n - 2);
    assert Alone(s, r, n) == Alone(s1, r, n - 1) == Alone(s2, r, n - 2);
  }

  lemma AfterParentCreates(s: State, r: RequestId, call: Call, n: nat)
    requires Stands(s, r, call, AfterParent(call)) && KeyIsFree(s, call) && n >= 3
    ensures CreatedIts(s, Alone(s, r, n), r, call)
  {
    if Keyed(call) {
      assert Moved(s, Step(s, Advance(r)), r, call, Insert);
      InsertCreates(Step(s, Advance(r)), r, call, n - 1);
    } else {
      InsertCreates(s, r, call, n);
    }
  }

  lemma AfterGateCreates(s: State, r: RequestId, call: Call, n: nat)
    requires Stands(s, r, call, AfterGate(call)) && ParentOk(s, call) && KeyIsFree(s, call) && n >= 4
    ensures CreatedIts(s, Alone(s, r, n), r, call)
  {
    if call.parent.Some? {
      assert Moved(s, Step(s, Advance(r)), r, call, AfterParent(call));
      AfterParentCreates(Step(s, Advance(r)), r, call, n - 1);
    } else {
      AfterParentCreates(s, r, call, n);
    }
  }

  lemma AfterGateRefuses(s: State, r: RequestId, call: Call, n: nat)
    requires Stands(s, r, call, AfterGate(call)) && !ParentOk(s, call) && n >= 1
    ensures AnsweredOnly(s, Alone(s, r, n), r, call, InvalidParent)
  {
    var s1 := Step(s, Advance(r));
    assert AnsweredOnly(s, s1, r, call, InvalidParent);
    AnswersAreFinal(s1, r, call, InvalidParent, n - 1);
  }

  /** The gate takes one call or two and changes nothing but where the request stands. */
  lemma GatePasses(s: State, r: RequestId, call: Call) returns (n: nat, s': State)
    requires Stands(s, r, call, ReadPost)
    ensures 1 <= n <= 2 && Moved(s, s', r, call, if Readable(s, call) then AfterGate(call) else Answered(NotFound))
    ensures Alone(s, r, 6) == Alone(s', r, 6 - n)
  {
    s' := Step(s, Advance(r));
    n := 1;
    if s'.requests[r].ReadFollow? {
      n := 2;
      var s1 := s';
      s' := Step(s1, Advance(r));
      assert Alone(s, r, 6) == Alone(s1, r, 5);
    }
  }

  /** What the call comes to: refused as not found, refused for its parent, or made. */
  predicate ComesTo(s: State, s': State, r: RequestId, call: Call) {
    if !Readable(s, call) then AnsweredOnly(s, s', r, call, NotFound)
    else if !ParentOk(s, call) then AnsweredOnly(s, s', r, call, InvalidParent)
    else CreatedIts(s, s', r, call)
  }

  lemma PastTheGate(s: State, s1: State, r: RequestId, call: Call, n: nat)
    requires Moved(s, s1, r, call, if Readable(s, call) then AfterGate(call) else Answered(NotFound))
    requires KeyIsFree(s, call) && n >= 4
    ensures ComesTo(s, Alone(s1, r, n), r, call)
  {
    if !Readable(s, call) {
      AnswersAreFinal(s1, r, call, NotFound, n);
    } else if !ParentOk(s, call) {
      AfterGateRefuses(s1, r, call, n);
    } else {
      AfterGateCreates(s1, r, call, n);
    }
  }

  /**
   * A call nobody interrupts, under a key not used before, is answered by its
   * sixth store call at the latest: it creates exactly the comment asked for
   * and announces it once, if and only if its author may read the post and the
   * parent, should one be named, is a comment on the post.
   */
  lemma CommentIsCreatedIff(s: State, r: RequestId, call: Call)
    requires Stands(s, r, call, ReadPost) && KeyIsFree(s, call)
    ensures ComesTo(s, Alone(s, r, 6), r, call)
  {
    var n, s1 := GatePasses(s, r, call);
    PastTheGate(s, s1, r, call, 6 - n);
  }
}
