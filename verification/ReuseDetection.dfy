/**
 * Reuse of a rotated refresh token, over the runs of the session protocol:
 * exactly the reused tokens are detected, and losing a race is not reuse.
 */
module ReuseDetection {
  import opened Domain
  import opened Sessions
  import opened SessionOwners

  // --- Reuse detection is sound and complete ---

  /**
   * The possible places of a refresh request after it has read a live session;
   * stale tells whether the presented token had been rotated away by then.
   */
  predicate OnTrack(pc: Pc, token: RefreshToken, stale: bool) {
    match pc
    case ReadUser(t, seen) => t == token && (seen.hash != Sha(token) <==> stale)
    case Rotating(t, _, _) => t == token && !stale
    case FindLive(_, reply) => reply == ReuseDetected(token) && stale
    case RevokeEach(_, _, reply, sweep) => reply == ReuseDetected(token) && stale && sweep.None?
    case MarkEach(_, reply, sweep) => reply == ReuseDetected(token) && stale && sweep.None?
    case SingleFind(_, _, reply) => reply == UserGone
    case SingleRevoke(_, reply) => reply == UserGone
    case SingleMark(_, reply) => reply == UserGone
    case Answered(reply) =>
      if stale then reply == ReuseDetected(token) || reply == UserGone || reply == NotFound
      else reply == AlreadyRotated(token) || (reply.Refreshed? && reply.presented == token)
           || reply == UserGone || reply == NotFound
    case _ => false
  }

  lemma MoveKeepsTrack(s: State, r: RequestId, pc: Pc, pick: Option<SessionId>, token: RefreshToken, stale: bool)
    requires OnTrack(pc, token, stale)
    ensures OnTrack(NextMove(s, r, pc, pick).next, token, stale)
  {
  }

  lemma {:induction false} RunKeepsTrack(s: State, r: RequestId, token: RefreshToken, stale: bool, events: seq<Event>)
    requires r in s.requests && OnTrack(s.requests[r], token, stale)
    ensures r in Run(s, events).requests && OnTrack(Run(s, events).requests[r], token, stale)
  {
    if events != [] {
      var mid, e := Run(s, events[..|events| - 1]), events[|events| - 1];
      RunKeepsTrack(s, r, token, stale, events[..|events| - 1]);
      StepOfRequest(mid, e, r);
      if e.Advance? && e.r == r { MoveKeepsTrack(mid, r, mid.requests[r], e.pick, token, stale); }
    }
  }

  /** Reading a live session with a handed-out token shows whether the token was rotated away. */
  lemma ReadTellsReuse(s: State, r: RequestId, token: RefreshToken, pick: Option<SessionId>)
    requires Rotation(s) && r in s.requests && s.requests[r] == Started(Refresh(token, true))
    requires token in s.handedOut && Live(s, token.sid)
    ensures r in Step(s, Advance(r, pick)).requests
    ensures OnTrack(Step(s, Advance(r, pick)).requests[r], token, RotatedAway(s, token))
    ensures Step(s, Advance(r, pick)).requests[r].ReadUser?
  {
    assert ChainOk(s, token.sid);
    MoveKeepsRequest(s, r, pick);
    var c := Chain(s, token.sid);
    if RotatedAway(s, token) {
      var k :| 0 <= k < |c| - 1 && c[k] == Sha(token);
      assert c[k] != c[|c| - 1];
    }
  }

  /** The state in which request r has just made its first store call. */
  function AfterRead(config: Config, before: seq<Event>, r: RequestId, pick: Option<SessionId>): State {
    Step(Run(Init(config), before), Advance(r, pick))
  }

  /**
   * Sound: a request ends in AUTH_REUSE_DETECTED only if the token it presented
   * had been rotated away before it read the session.
   */
  lemma ReuseDetectionIsSound(config: Config, before: seq<Event>, r: RequestId, token: RefreshToken, verifies: bool,
                              pick: Option<SessionId>, later: seq<Event>)
    requires var s0 := Run(Init(config), before);
      r in s0.requests && s0.requests[r] == Started(Refresh(token, verifies))
    requires var s := Run(AfterRead(config, before, r, pick), later);
      r in s.requests && s.requests[r].Answered? && s.requests[r].reply.ReuseDetected?
    ensures RotatedAway(Run(Init(config), before), token)
    ensures Run(AfterRead(config, before, r, pick), later).requests[r].reply.presented == token
  {
    var s0, s1 := Run(Init(config), before), AfterRead(config, before, r, pick);
    EveryRunRotates(config, before);
    if verifies && token in s0.handedOut && Live(s0, token.sid) {
      ReadTellsReuse(s0, r, token, pick);
      RunKeepsTrack(s1, r, token, RotatedAway(s0, token), later);
    } else {
      assert s1.requests[r] == Answered(Invalid) || s1.requests[r] == Answered(Forbidden);
      AnswersAreFinal(s1, r, later);
    }
  }

  lemma {:induction false} AnswersAreFinal(s: State, r: RequestId, events: seq<Event>)
    requires r in s.requests && s.requests[r].Answered?
    ensures r in Run(s, events).requests && Run(s, events).requests[r] == s.requests[r]
  {
    if events != [] {
      var mid, e := Run(s, events[..|events| - 1]), events[|events| - 1];
      AnswersAreFinal(s, r, events[..|events| - 1]);
      StepOfRequest(mid, e, r);
    }
  }

  /**
   * Complete: a request that reads a live session with a token rotated away,
   * and then finds the user, can only be answered AUTH_REUSE_DETECTED.
   */
  lemma ReuseDetectionIsComplete(config: Config, before: seq<Event>, r: RequestId, token: RefreshToken,
                                 pick: Option<SessionId>, mid: seq<Event>, pick': Option<SessionId>,
                                 later: seq<Event>)
    requires var s0 := Run(Init(config), before);
      && r in s0.requests && s0.requests[r] == Started(Refresh(token, true))
      && token in s0.handedOut && Live(s0, token.sid) && RotatedAway(s0, token)
    requires var s2 := Run(AfterRead(config, before, r, pick), mid);
      r in s2.requests && s2.requests[r].ReadUser? && s2.requests[r].seen.user in s2.users
    requires var s := Run(Step(Run(AfterRead(config, before, r, pick), mid), Advance(r, pick')), later);
      r in s.requests && s.requests[r].Answered?
    ensures var s := Run(Step(Run(AfterRead(config, before, r, pick), mid), Advance(r, pick')), later);
      s.requests[r].reply == ReuseDetected(token)
  {
    var s0, s1 := Run(Init(config), before), AfterRead(config, before, r, pick);
    EveryRunRotates(config, before);
    ReadTellsReuse(s0, r, token, pick);
    RunKeepsTrack(s1, r, token, true, mid);
    var s2 := Run(s1, mid);
    var s3 := Step(s2, Advance(r, pick'));
    RunKeepsReuse(s3, r, token, later);
  }

  predicate InReuse(pc: Pc, token: RefreshToken) {
    match pc
    case FindLive(_, reply) => reply == ReuseDetected(token)
    case RevokeEach(_, _, reply, sweep) => reply == ReuseDetected(token) && sweep.None?
    case MarkEach(_, reply, sweep) => reply == ReuseDetected(token) && sweep.None?
    case Answered(reply) => reply == ReuseDetected(token)
    case _ => false
  }

  lemma {:induction false} RunKeepsReuse(s: State, r: RequestId, token: RefreshToken, events: seq<Event>)
    requires r in s.requests && InReuse(s.requests[r], token)
    ensures r in Run(s, events).requests && InReuse(Run(s, events).requests[r], token)
  {
    if events != [] {
      var mid, e := Run(s, events[..|events| - 1]), events[|events| - 1];
      RunKeepsReuse(s, r, token, events[..|events| - 1]);
      StepOfRequest(mid, e, r);
    }
  }

  // --- Losing the compare-and-set revokes nothing ---

  /** A refresh that only loses the compare-and-set, like one that wins it, has revoked nothing. */
  lemma LosingTheRaceRevokesNothing(config: Config, events: seq<Event>, r: RequestId, sid: SessionId)
    requires var s := Run(Init(config), events);
      r in s.requests && s.requests[r].Answered? &&
        (s.requests[r].reply.AlreadyRotated? || s.requests[r].reply.Refreshed?)
    ensures (r, sid) !in Run(Init(config), events).revocations
  {
    EveryRunIsOwned(config, events);
    assert !Acted(Run(Init(config), events).requests[r]);
  }
}
