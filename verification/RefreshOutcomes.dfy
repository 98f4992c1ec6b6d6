/**
 * What a refresh is answered, over the runs of the session protocol: a user
 * who is gone gets no tokens and loses the session, and a current token of a
 * standing session and user is exchanged.
 */
module RefreshOutcomes {
  import opened Domain
  import opened Sessions
  import opened SessionOwners
  import opened Revocation

  // --- The user is gone ---

  /** The places of a refresh that found its user gone; it is told NotFound only if the session is gone as well. */
  predicate Ejected(s: State, r: RequestId, sid: SessionId) {
    r in s.requests &&
    match s.requests[r]
    case SingleFind(x, _, reply) => x == sid && reply == UserGone
    case SingleRevoke(x, reply) => x == sid && reply == UserGone
    case SingleMark(x, reply) => x == sid && reply == UserGone
    case Answered(reply) => Dead(s, sid) && (reply == UserGone || (reply == NotFound && sid !in s.sessions))
    case _ => false
  }

  /** A refresh on its way to ending the session has the owner's session before it. */
  lemma OwnStepKeepsEjected(s: State, r: RequestId, pick: Option<SessionId>, token: RefreshToken)
    requires Rotation(s) && Owned(s) && Ejected(s, r, token.sid)
    requires r in s.calls && s.calls[r] == Refresh(token, true) && token in s.handedOut
    requires Keeps(s, r, token.sid) && Keeps(Step(s, Advance(r, pick)), r, token.sid)
    ensures Ejected(Step(s, Advance(r, pick)), r, token.sid)
  {
    StepOfRequest(s, Advance(r, pick), r);
    StepKeepsCalls(s, Advance(r, pick), r);
    assert Serves(s, s.calls[r], s.requests[r]) && OwnedBy(s, token.sid, token.user);
    OwnerIsKnown(s, token.sid, token.user);
    ApplyShape(s, r, NextMove(s, r, s.requests[r], pick).effect);
  }

  lemma OtherStepKeepsEjected(s: State, e: Event, r: RequestId, sid: SessionId)
    requires Rotation(s) && Ejected(s, r, sid) && !(e.Advance? && e.r == r)
    ensures Ejected(Step(s, e), r, sid)
  {
    StepOfRequest(s, e, r);
    if s.requests[r].Answered? { StepKeepsDead(s, e, sid); }
  }

  lemma StepKeepsEjected(s: State, e: Event, r: RequestId, token: RefreshToken)
    requires Rotation(s) && Owned(s) && Ejected(s, r, token.sid)
    requires r in s.calls && s.calls[r] == Refresh(token, true) && token in s.handedOut
    requires Concerns(s, s.calls[r], token.sid) && Keeps(s, r, token.sid)
    ensures Ejected(Step(s, e), r, token.sid)
  {
    if e.Advance? && e.r == r {
      StepKeepsPromise(s, e, r, token.sid);
      OwnStepKeepsEjected(s, r, e.pick, token);
    } else {
      OtherStepKeepsEjected(s, e, r, token.sid);
    }
  }

  lemma {:induction false} RunKeepsEjected(s: State, r: RequestId, token: RefreshToken, events: seq<Event>)
    requires Rotation(s) && Owned(s) && Ejected(s, r, token.sid)
    requires r in s.calls && s.calls[r] == Refresh(token, true) && token in s.handedOut && Keeps(s, r, token.sid)
    ensures Ejected(Run(s, events), r, token.sid)
  {
    if events != [] {
      var head, e := events[..|events| - 1], events[|events| - 1];
      var mid := Run(s, head);
      RunKeepsEjected(s, r, token, head);
      RunKeepsRotation(s, head);
      RunKeepsOwned(s, head);
      RunKeepsPromise(s, r, token.sid, head);
      assert Serves(mid, mid.calls[r], mid.requests[r]);
      StepKeepsEjected(mid, e, r, token);
    }
  }

  /**
   * A refresh that looks its user up after the account was removed gets no
   * tokens in any continuation: it is on its way to revoke the session, or has
   * been told that the user is gone, and then the session is dead.
   */
  lemma RemovedUserGetsNoTokens(config: Config, before: seq<Event>, r: RequestId, pick: Option<SessionId>,
                                later: seq<Event>)
    requires var s0 := Run(Init(config), before);
      r in s0.requests && s0.requests[r].ReadUser? && s0.requests[r].seen.user !in s0.users
    ensures var s0 := Run(Init(config), before);
      Ejected(Run(Step(s0, Advance(r, pick)), later), r, s0.requests[r].token.sid)
  {
    var s0 := Run(Init(config), before);
    var s1 := Step(s0, Advance(r, pick));
    var token := s0.requests[r].token;
    EveryRunIsOwned(config, before);
    assert Serves(s0, s0.calls[r], s0.requests[r]);
    assert Run(s0, [Advance(r, pick)]) == s1 by { assert [Advance(r, pick)][..0] == []; }
    RunKeepsRotation(s0, [Advance(r, pick)]);
    RunKeepsOwned(s0, [Advance(r, pick)]);
    RunKeepsPromise(s0, r, token.sid, [Advance(r, pick)]);
    RunKeepsEjected(s1, r, token, later);
  }

  // --- A request nobody interrupts ---

  /** The next n store calls are all made by request r. */
  function Alone(s: State, r: RequestId, n: nat): State
    decreases n
  {
    if n == 0 then s else Alone(Step(s, Advance(r, None)), r, n - 1)
  }

  function NewSession(s: State, token: RefreshToken): Session {
    Session(token.user, Sha(token), s.now, s.now + s.config.refreshMaxAge, None)
  }

  /** A login nobody interrupts opens a session of the user and hands out its first tokens. */
  lemma LoginOpensASession(s: State, r: RequestId, user: UserId, sid: SessionId)
    requires r in s.requests && s.requests[r] == Started(Login(user, sid)) && sid !in s.chains
    ensures var s', token := Alone(s, r, 1), RefreshToken(sid, user, r);
      && s'.requests == s.requests[r := Answered(LoggedIn(AccessToken(sid, user, s.now), token))]
      && s'.sessions == s.sessions[sid := NewSession(s, token)]
      && s'.handedOut == s.handedOut + {token}
  {
    assert Alone(s, r, 1) == Step(s, Advance(r, None));
  }

  /** The presented token is the current one of a live session, and the session's user exists. */
  predicate Exchangeable(s: State, token: RefreshToken) {
    && token in s.handedOut && Live(s, token.sid) && s.sessions[token.sid].hash == Sha(token)
    && s.sessions[token.sid].user == token.user && token.user in s.users
  }

  /** Request r exchanged the token: its session stores the next token and lives a full lifetime from now. */
  predicate ExchangedFor(s: State, s': State, r: RequestId, token: RefreshToken) {
    var next := RefreshToken(token.sid, token.user, r);
    && s'.requests == s.requests[r := Answered(Refreshed(token, AccessToken(token.sid, token.user, s.now), next))]
    && s'.sessions == s.sessions[token.sid := NewSession(s, next)]
    && s'.handedOut == s.handedOut + {next}
  }

  lemma ReadsTheSession(s: State, r: RequestId, token: RefreshToken)
    requires r in s.requests && s.requests[r] == Started(Refresh(token, true)) && Exchangeable(s, token)
    ensures var s' := Step(s, Advance(r, None));
      s' == s.(requests := s.requests[r := ReadUser(token, s.sessions[token.sid])]) && Exchangeable(s', token)
  {
  }

  lemma FindsTheUser(s: State, r: RequestId, token: RefreshToken)
    requires r in s.requests && Exchangeable(s, token) && s.requests[r] == ReadUser(token, s.sessions[token.sid])
    ensures var s', next := Step(s, Advance(r, None)), RefreshToken(token.sid, token.user, r);
      s' == s.(requests := s.requests[r := Rotating(token, next, AccessToken(token.sid, token.user, s.now))]) &&
      Exchangeable(s', token)
  {
  }

  lemma WinsTheExchange(s: State, r: RequestId, token: RefreshToken)
    requires r in s.requests && Exchangeable(s, token)
    requires var next := RefreshToken(token.sid, token.user, r);
      s.requests[r] == Rotating(token, next, AccessToken(token.sid, token.user, s.now))
    ensures ExchangedFor(s, Step(s, Advance(r, None)), r, token)
  {
  }

  lemma ExchangeIsOfTheStart(s: State, s2: State, s3: State, r: RequestId, token: RefreshToken)
    requires Exchangeable(s, token) && ExchangedFor(s2, s3, r, token)
    requires r in s2.requests && s2 == s.(requests := s.requests[r := s2.requests[r]])
    ensures ExchangedFor(s, s3, r, token)
  {
  }

  /** A refresh with a current token, interrupted by nobody, is answered with the next tokens of the session. */
  lemma CurrentTokenIsExchanged(s: State, r: RequestId, token: RefreshToken)
    requires r in s.requests && s.requests[r] == Started(Refresh(token, true)) && Exchangeable(s, token)
    ensures ExchangedFor(s, Alone(s, r, 3), r, token)
  {
    var s1 := Step(s, Advance(r, None));
    var s2 := Step(s1, Advance(r, None));
    ReadsTheSession(s, r, token);
    FindsTheUser(s1, r, token);
    WinsTheExchange(s2, r, token);
    ExchangeIsOfTheStart(s, s2, Step(s2, Advance(r, None)), r, token);
    assert Alone(s, r, 3) == Alone(s1, r, 2) == Alone(s2, r, 1) == Step(s2, Advance(r, None));
  }

  /** A token that is not genuine or whose session is unknown is invalid, one of a revoked session is forbidden. */
  lemma RefusedAtOnce(s: State, r: RequestId, token: RefreshToken, verifies: bool)
    requires r in s.requests && s.requests[r] == Started(Refresh(token, verifies))
    requires !verifies || token !in s.handedOut || token.sid !in s.sessions || s.sessions[token.sid].revokedAt.Some?
    ensures var reply := if verifies && token in s.handedOut && token.sid in s.sessions then Forbidden else Invalid;
      Step(s, Advance(r, None)) == s.(requests := s.requests[r := Answered(reply)])
  {
  }

  lemma NamesItsSession(s: State, r: RequestId, user: UserId, sid: SessionId)
    requires r in s.requests && s.requests[r] == Started(RevokeSession(sid, user))
    ensures Step(s, Advance(r, None)) == s.(requests := s.requests[r := SingleFind(sid, user, Done)])
  {
  }

  lemma FindsItsSession(s: State, r: RequestId, user: UserId, sid: SessionId)
    requires r in s.requests && s.requests[r] == SingleFind(sid, user, Done)
    requires Live(s, sid) && s.sessions[sid].user == user
    ensures Step(s, Advance(r, None)) == s.(requests := s.requests[r := SingleRevoke(sid, Done)])
  {
  }

  lemma EndsAndMarks(s: State, r: RequestId, sid: SessionId)
    requires r in s.requests && s.requests[r] == SingleRevoke(sid, Done) && sid in s.sessions
    ensures var s' := Step(Step(s, Advance(r, None)), Advance(r, None));
      && s'.requests == s.requests[r := Answered(Done)]
      && s'.sessions == s.sessions[sid := s.sessions[sid].(revokedAt := Some(s.now))]
      && s'.markers == s.markers[sid := s.now]
  {
    var s1 := Step(s, Advance(r, None));
    assert s1.requests == s.requests[r := SingleMark(sid, Done)] && s1.markers == s.markers && s1.now == s.now;
  }

  /** A revocation of a session by its owner, interrupted by nobody, ends and marks it and is answered with success. */
  lemma OwnerEndsTheSession(s: State, r: RequestId, user: UserId, sid: SessionId)
    requires r in s.requests && s.requests[r] == Started(RevokeSession(sid, user))
    requires Live(s, sid) && s.sessions[sid].user == user
    ensures var s' := Alone(s, r, 4);
      && s'.requests == s.requests[r := Answered(Done)]
      && s'.sessions == s.sessions[sid := s.sessions[sid].(revokedAt := Some(s.now))]
      && s'.markers == s.markers[sid := s.now]
  {
    var s1 := Step(s, Advance(r, None));
    var s2 := Step(s1, Advance(r, None));
    var s3 := Step(s2, Advance(r, None));
    NamesItsSession(s, r, user, sid);
    FindsItsSession(s1, r, user, sid);
    EndsAndMarks(s2, r, sid);
    assert Alone(s, r, 4) == Alone(s1, r, 3) == Alone(s2, r, 2) == Alone(s3, r, 1) == Step(s3, Advance(r, None));
  }
}
