/**
 * Revocation of sessions, over the runs of the session protocol: it is
 * permanent, and when a request that revokes is answered its work is done.
 */
module Revocation {
  import opened Domain
  import opened Sessions
  import opened SessionOwners

  // --- Revocation is permanent ---

  /** The session existed, and is revoked or swept away. */
  predicate Dead(s: State, sid: SessionId) {
    sid in s.chains && !Live(s, sid)
  }

  lemma StepKeepsDead(s: State, e: Event, sid: SessionId)
    requires Rotation(s) && Dead(s, sid)
    ensures Dead(Step(s, e), sid)
    ensures sid !in s.sessions ==> sid !in Step(s, e).sessions
  {
    if e.Advance? && e.r in s.requests {
      assert RequestOk(s, e.r, s.requests[e.r]);
      MovesAreLegal(s, e.r, e.pick);
      var m := NextMove(s, e.r, s.requests[e.r], e.pick);
      ApplyShape(s, e.r, m.effect);
    }
  }

  lemma {:induction false} RunKeepsDead(s: State, sid: SessionId, events: seq<Event>)
    requires Rotation(s) && Dead(s, sid)
    ensures Dead(Run(s, events), sid)
  {
    if events != [] {
      var head := events[..|events| - 1];
      RunKeepsDead(s, sid, head);
      RunKeepsRotation(s, head);
      StepKeepsDead(Run(s, head), events[|events| - 1], sid);
    }
  }

  /**
   * Revocation is permanent: once a session is revoked it is never live again,
   * whatever refreshes, logouts, revocations and sweeps interleave, racing
   * rotations included.
   */
  lemma RevocationIsPermanent(config: Config, before: seq<Event>, later: seq<Event>, sid: SessionId)
    requires Dead(Run(Init(config), before), sid)
    ensures var s := Run(Run(Init(config), before), later); Dead(s, sid)
  {
    EveryRunRotates(config, before);
    RunKeepsDead(Run(Init(config), before), sid, later);
  }

  predicate Unread(pc: Pc, token: RefreshToken, verifies: bool) {
    pc == Started(Refresh(token, verifies)) || pc == Answered(Invalid) || pc == Answered(Forbidden)
  }

  lemma StepKeepsUnread(s: State, e: Event, r: RequestId, token: RefreshToken, verifies: bool)
    requires !Live(s, token.sid) && r in s.requests && Unread(s.requests[r], token, verifies)
    ensures r in Step(s, e).requests && Unread(Step(s, e).requests[r], token, verifies)
  {
    StepOfRequest(s, e, r);
  }

  /**
   * A refresh that has not read the session when it is revoked is never
   * answered with tokens, not even after a sweep deleted the document.
   */
  lemma {:induction false} NoTokensAfterRevocation(config: Config, before: seq<Event>, later: seq<Event>,
      r: RequestId, token: RefreshToken, verifies: bool)
    requires var s0 := Run(Init(config), before);
      Dead(s0, token.sid) && r in s0.requests && s0.requests[r] == Started(Refresh(token, verifies))
    ensures var s := Run(Run(Init(config), before), later);
      r in s.requests && Unread(s.requests[r], token, verifies)
  {
    var s0 := Run(Init(config), before);
    if later != [] {
      var head, e := later[..|later| - 1], later[|later| - 1];
      NoTokensAfterRevocation(config, before, head, r, token, verifies);
      RevocationIsPermanent(config, before, head, token.sid);
      StepKeepsUnread(Run(s0, head), e, r, token, verifies);
    }
  }

  // --- An answered revocation is complete ---

  /** The sessions a call is about: those of its user, or the one it names. */
  predicate Concerns(s: State, call: Call, sid: SessionId) {
    match call
    case RevokeAll(user) => OwnedBy(s, sid, user)
    case RevokeSession(x, user) => sid == x && OwnedBy(s, sid, user)
    case Logout(_, refresh, _) => refresh.Some? && Presents(s, call, refresh.value) && sid == refresh.value.sid
    case Refresh(t, _) => OwnedBy(s, sid, t.user)
    case _ => false
  }

  /** Replies that promise an end: reuse ends all sessions of the user, a missing user the session presented. */
  predicate Promises(call: Call, reply: Reply, sid: SessionId) {
    match call
    case RevokeAll(_) => true
    case RevokeSession(_, _) => true
    case Logout(_, _, _) => true
    case Refresh(t, _) => reply.ReuseDetected? || ((reply.UserGone? || reply.NotFound?) && sid == t.sid)
    case _ => false
  }

  /** Request r keeps what its call promises for the session. */
  predicate Keeps(s: State, r: RequestId, sid: SessionId) {
    r in s.requests && r in s.calls &&
    match s.requests[r]
    case RevokeEach(remaining, _, _, _) => sid !in remaining ==> Dead(s, sid)
    case MarkEach(_, _, _) => Dead(s, sid)
    case DeleteEach(_) => Dead(s, sid)
    case SingleMark(x, _) => sid == x ==> Dead(s, sid)
    case Answered(reply) => Promises(s.calls[r], reply, sid) ==> Dead(s, sid)
    case _ => true
  }

  lemma OwnerIsKnown(s: State, sid: SessionId, user: UserId)
    requires Owned(s) && OwnedBy(s, sid, user)
    ensures sid in s.chains && (sid in s.sessions ==> s.sessions[sid].user == user)
  {
  }

  /** The lookups miss no live session the call concerns, and the revocation that follows ends it. */
  lemma OwnMoveOfLive(s: State, r: RequestId, pick: Option<SessionId>, sid: SessionId)
    requires Owned(s) && r in s.requests && Live(s, sid) && sid in s.chains
    requires Serves(s, s.calls[r], s.requests[r]) && Concerns(s, s.calls[r], sid) && Keeps(s, r, sid)
    ensures Keeps(Step(s, Advance(r, pick)), r, sid)
  {
    StepKeepsCalls(s, Advance(r, pick), r);
    match s.requests[r]
    case RevokeEach(_, _, _, _) => EndingKeepsPromise(s, r, pick, sid);
    case SingleRevoke(_, _) => EndingKeepsPromise(s, r, pick, sid);
    case SingleMark(_, _) => EndingKeepsPromise(s, r, pick, sid);
    case _ => LookingKeepsPromise(s, r, pick, sid);
  }

  /** Until it revokes, a request promises nothing it has not looked up. */
  lemma LookingKeepsPromise(s: State, r: RequestId, pick: Option<SessionId>, sid: SessionId)
    requires Owned(s) && r in s.requests && Live(s, sid) && Keeps(s, r, sid)
    requires Serves(s, s.calls[r], s.requests[r]) && Concerns(s, s.calls[r], sid)
    requires var pc := s.requests[r]; !pc.RevokeEach? && !pc.SingleRevoke? && !pc.SingleMark?
    ensures Keeps(Step(s, Advance(r, pick)), r, sid)
  {
    StepOfRequest(s, Advance(r, pick), r);
    StepKeepsCalls(s, Advance(r, pick), r);
    match s.requests[r]
    case FindLive(user, _) => OwnerIsKnown(s, sid, user);
    case SingleFind(x, user, _) => if x == sid { OwnerIsKnown(s, sid, user); }
    case _ =>
  }

  lemma EndingKeepsPromise(s: State, r: RequestId, pick: Option<SessionId>, sid: SessionId)
    requires r in s.requests && r in s.calls && Live(s, sid) && sid in s.chains && Keeps(s, r, sid)
    requires Serves(s, s.calls[r], s.requests[r]) && Concerns(s, s.calls[r], sid)
    requires var pc := s.requests[r]; pc.RevokeEach? || pc.SingleRevoke? || pc.SingleMark?
    ensures Keeps(Step(s, Advance(r, pick)), r, sid)
  {
    var m := NextMove(s, r, s.requests[r], pick);
    StepOfRequest(s, Advance(r, pick), r);
    ApplyShape(s, r, m.effect);
  }

  lemma StepKeepsPromise(s: State, e: Event, r: RequestId, sid: SessionId)
    requires Rotation(s) && Owned(s) && r in s.requests && Concerns(s, s.calls[r], sid) && Keeps(s, r, sid)
    ensures Keeps(Step(s, e), r, sid)
  {
    StepKeepsCalls(s, e, r);
    ConcernIsKnown(s, s.calls[r], sid);
    if Dead(s, sid) {
      StepKeepsDead(s, e, sid);
      DeadKeepsPromises(Step(s, e), r, sid);
    } else if e.Advance? && e.r == r {
      assert Serves(s, s.calls[r], s.requests[r]);
      OwnMoveOfLive(s, r, e.pick, sid);
    } else {
      StepOfRequest(s, e, r);
      OthersKeepPromises(s, Step(s, e), r, sid);
    }
  }

  lemma DeadKeepsPromises(s: State, r: RequestId, sid: SessionId)
    requires Dead(s, sid) && r in s.requests && r in s.calls
    ensures Keeps(s, r, sid)
  {
  }

  lemma OthersKeepPromises(s: State, s': State, r: RequestId, sid: SessionId)
    requires Keeps(s, r, sid) && !Dead(s, sid)
    requires r in s'.requests && r in s'.calls && s'.requests[r] == s.requests[r] && s'.calls[r] == s.calls[r]
    ensures Keeps(s', r, sid)
  {
  }

  lemma ConcernIsKnown(s: State, call: Call, sid: SessionId)
    requires Owned(s) && Concerns(s, call, sid)
    ensures sid in s.chains
  {
    if call.Logout? { assert OwnedBy(s, sid, call.refresh.value.user); }
  }

  lemma StepKeepsConcern(s: State, e: Event, call: Call, sid: SessionId)
    requires Rotation(s) && Owned(s) && Concerns(s, call, sid)
    ensures Concerns(Step(s, e), call, sid)
  {
    StepGrows(s, e);
    assert Chain(s, sid) <= Chain(Step(s, e), sid);
  }

  lemma {:induction false} RunKeepsPromise(s: State, r: RequestId, sid: SessionId, events: seq<Event>)
    requires Rotation(s) && Owned(s) && r in s.requests && Concerns(s, s.calls[r], sid) && Keeps(s, r, sid)
    ensures var s' := Run(s, events);
      r in s'.requests && r in s'.calls && s'.calls[r] == s.calls[r] && Concerns(s', s'.calls[r], sid) &&
        Keeps(s', r, sid)
  {
    if events != [] {
      var head, e := events[..|events| - 1], events[|events| - 1];
      RunKeepsPromise(s, r, sid, head);
      RunKeepsRotation(s, head);
      RunKeepsOwned(s, head);
      StepKeepsPromise(Run(s, head), e, r, sid);
      StepKeepsConcern(Run(s, head), e, s.calls[r], sid);
      StepKeepsCalls(Run(s, head), e, r);
    }
  }

  /**
   * From the call to its answer, whatever interleaves: a session the call
   * concerned when the request stood at it is dead once the answer promises so.
   */
  lemma AnswersKeepTheirPromise(config: Config, before: seq<Event>, r: RequestId, sid: SessionId, later: seq<Event>)
    requires var s0 := Run(Init(config), before);
      r in s0.requests && s0.requests[r].Started? && Concerns(s0, s0.requests[r].call, sid)
    requires var s := Run(Run(Init(config), before), later);
      && r in s.requests && s.requests[r].Answered?
      && Promises(Run(Init(config), before).requests[r].call, s.requests[r].reply, sid)
    ensures Dead(Run(Run(Init(config), before), later), sid)
  {
    EveryRunIsOwned(config, before);
    var s0 := Run(Init(config), before);
    assert Serves(s0, s0.calls[r], s0.requests[r]);
    RunKeepsPromise(s0, r, sid, later);
  }

  /**
   * Revoking all sessions of a user is complete: it is answered with success,
   * and by then every session the user had when the call began is dead.
   */
  lemma GlobalRevocationIsComplete(config: Config, before: seq<Event>, r: RequestId, user: UserId, later: seq<Event>)
    requires var s0 := Run(Init(config), before); r in s0.requests && s0.requests[r] == Started(RevokeAll(user))
    requires var s := Run(Run(Init(config), before), later); r in s.requests && s.requests[r].Answered?
    ensures var s0, s := Run(Init(config), before), Run(Run(Init(config), before), later);
      s.requests[r] == Answered(Done) && forall sid :: OwnedBy(s0, sid, user) ==> Dead(s, sid)
  {
    var s0, s := Run(Init(config), before), Run(Run(Init(config), before), later);
    forall sid | OwnedBy(s0, sid, user) ensures Dead(s, sid) { AnswersKeepTheirPromise(config, before, r, sid, later); }
    AnsweredServes(config, before, r, later);
  }

  /** Every answer serves the call the request stood at. */
  lemma AnsweredServes(config: Config, before: seq<Event>, r: RequestId, later: seq<Event>)
    requires var s0 := Run(Init(config), before); r in s0.requests && s0.requests[r].Started?
    ensures var s := Run(Run(Init(config), before), later);
      r in s.requests && r in s.calls && s.calls[r] == Run(Init(config), before).requests[r].call &&
        Serves(s, s.calls[r], s.requests[r])
  {
    EveryRunIsOwned(config, before);
    var s0 := Run(Init(config), before);
    assert Serves(s0, s0.calls[r], s0.requests[r]);
    RunKeepsOwned(s0, later);
    RunKeepsCalls(s0, r, later);
  }

  /** Calls that end one session: revoking it, logging out with a genuine token, refreshing for a user who is gone. */
  predicate EndsOne(s: State, call: Call, reply: Reply, sid: SessionId) {
    match call
    case RevokeSession(x, user) => x == sid && OwnedBy(s, sid, user)
    case Logout(_, refresh, verifies) => refresh.Some? && refresh.value in s.handedOut && verifies &&
      refresh.value.sid == sid
    case Refresh(t, _) => t.sid == sid && t in s.handedOut && (reply == UserGone || reply == NotFound)
    case _ => false
  }

  /**
   * Ending one session is complete from the call: once a revocation by its
   * owner, a logout with a genuine refresh token, or a refresh whose user is
   * gone is answered, whatever the answer, the session is dead.
   */
  lemma SingleRevocationIsComplete(config: Config, before: seq<Event>, r: RequestId, sid: SessionId, later: seq<Event>)
    requires var s0 := Run(Init(config), before); r in s0.requests && s0.requests[r].Started?
    requires var s := Run(Run(Init(config), before), later);
      && r in s.requests && s.requests[r].Answered?
      && EndsOne(Run(Init(config), before), Run(Init(config), before).requests[r].call, s.requests[r].reply, sid)
    ensures Dead(Run(Run(Init(config), before), later), sid)
  {
    var s0, s := Run(Init(config), before), Run(Run(Init(config), before), later);
    EveryRunIsOwned(config, before);
    if s0.requests[r].call.Refresh? { assert OwnedBy(s0, sid, s0.requests[r].call.token.user); }
    AnswersKeepTheirPromise(config, before, r, sid, later);
  }

  /** Naming a session of somebody else, or none, ends in not found and revokes nothing. */
  lemma ForeignSessionsAreNotFound(config: Config, before: seq<Event>, r: RequestId, sid: SessionId, user: UserId,
                                   later: seq<Event>)
    requires var s0 := Run(Init(config), before);
      r in s0.requests && s0.requests[r] == Started(RevokeSession(sid, user))
    requires var s := Run(Run(Init(config), before), later); r in s.requests && s.requests[r].Answered?
    requires !OwnedBy(Run(Run(Init(config), before), later), sid, user)
    ensures var s := Run(Run(Init(config), before), later);
      s.requests[r] == Answered(NotFound) && forall x :: (r, x) !in s.revocations
  {
    AnsweredServes(config, before, r, later);
    EveryRunIsOwned(config, before);
    RunKeepsOwned(Run(Init(config), before), later);
  }
}
