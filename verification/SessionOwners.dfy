/**
 * Whose sessions a request acts on, over the runs of the session protocol: all
 * tokens of a session are its owner's, every request keeps to the call it was
 * asked for, and it revokes only sessions that call concerns.
 */
module SessionOwners {
  import opened Domain
  import opened Sessions

  /** The session was opened for the user: its first refresh token is theirs. */
  predicate OwnedBy(s: State, sid: SessionId, user: UserId) {
    Chain(s, sid) != [] && Chain(s, sid)[0].token.user == user
  }

  /** A call for a genuine refresh token: the one presented, or the one to log out with. */
  predicate Presents(s: State, call: Call, t: RefreshToken) {
    t in s.handedOut &&
    (call == Refresh(t, true) || (call.Logout? && call.refresh == Some(t) && call.verifies))
  }

  /** The sessions a call may revoke; a sweep any, its choice being by idleness. */
  predicate MayRevoke(s: State, call: Call, sid: SessionId) {
    match call
    case RevokeAll(user) => OwnedBy(s, sid, user)
    case RevokeSession(x, user) => sid == x && OwnedBy(s, sid, user)
    case Logout(_, refresh, _) => refresh.Some? && Presents(s, call, refresh.value) && sid == refresh.value.sid
    case Refresh(t, _) => Presents(s, call, t) && OwnedBy(s, sid, t.user)
    case Sweep => sid in s.chains
    case Login(_, _) => false
  }

  /** An access token carries the session and owner of the refresh token it comes with. */
  predicate Paired(s: State, access: AccessToken, refresh: RefreshToken) {
    access.sid == refresh.sid && access.user == refresh.user && access.mintedAt <= s.now
  }

  /** How a revocation of many sessions came about, and what it will answer. */
  predicate Bulk(s: State, call: Call, reply: Reply, sweep: Option<int>) {
    match call
    case Sweep => sweep.Some? && reply == Done
    case RevokeAll(_) => sweep.None? && reply == Done
    case Refresh(t, _) => sweep.None? && Presents(s, call, t) && reply == ReuseDetected(t)
    case _ => false
  }

  /** The same for a single session. */
  predicate Single(s: State, call: Call, sid: SessionId, reply: Reply) {
    MayRevoke(s, call, sid) &&
    match call
    case RevokeSession(_, _) => reply == Done
    case Logout(_, _, _) => reply == Done
    case Refresh(t, _) => sid == t.sid && reply == UserGone
    case _ => false
  }

  predicate ReplyServes(s: State, call: Call, reply: Reply) {
    match reply
    case LoggedIn(access, refresh) =>
      call == Login(refresh.user, refresh.sid) && refresh in s.handedOut && Paired(s, access, refresh)
    case Refreshed(presented, access, next) =>
      && call == Refresh(presented, true) && presented in s.handedOut && next in s.handedOut
      && next.sid == presented.sid && next.user == presented.user && Paired(s, access, next)
    case ReuseDetected(presented) => Presents(s, call, presented) && call.Refresh?
    case AlreadyRotated(presented) => Presents(s, call, presented) && call.Refresh?
    case Invalid => call.Refresh?
    case Forbidden => call.Refresh?
    case UserGone => call.Refresh? && Presents(s, call, call.token)
    case NotFound => call.RevokeSession? || (call.Refresh? && Presents(s, call, call.token))
    case Done =>
      call.RevokeAll? || call.Logout? || call.Sweep? || (call.RevokeSession? && OwnedBy(s, call.sid, call.user))
  }

  /** Where a request stands is where its call leads. */
  predicate Serves(s: State, call: Call, pc: Pc) {
    match pc
    case Started(c) => c == call
    case ReadUser(t, seen) => call == Refresh(t, true) && Presents(s, call, t) && seen.user == t.user
    case Rotating(t, next, access) =>
      && call == Refresh(t, true) && Presents(s, call, t)
      && next.sid == t.sid && next.user == t.user && Paired(s, access, next)
    case FindLive(user, reply) =>
      Bulk(s, call, reply, None) && user == if call.RevokeAll? then call.user else call.token.user
    case RevokeEach(remaining, matched, reply, sweep) =>
      && remaining <= matched && Bulk(s, call, reply, sweep)
      && forall sid :: sid in matched ==> MayRevoke(s, call, sid)
    case MarkEach(_, reply, sweep) => Bulk(s, call, reply, sweep)
    case DeleteEach(_) => call.Sweep?
    case SingleFind(sid, user, reply) =>
      || (call == RevokeSession(sid, user) && reply == Done)
      || (call.Refresh? && Presents(s, call, call.token) && sid == call.token.sid && user == call.token.user &&
        reply == UserGone)
    case SingleRevoke(sid, reply) => Single(s, call, sid, reply)
    case SingleMark(sid, reply) => Single(s, call, sid, reply)
    case LogoutFind(refresh, verifies) => call.Logout? && call.refresh == refresh && call.verifies == verifies
    case Answered(reply) => ReplyServes(s, call, reply)
  }

  /** From here on a request may have revoked something. */
  predicate Acted(pc: Pc) {
    pc.RevokeEach? || pc.MarkEach? || pc.DeleteEach? || pc.SingleMark? ||
    (pc.Answered? && !pc.reply.AlreadyRotated? && !pc.reply.Refreshed? && !pc.reply.LoggedIn?)
  }

  ghost predicate Owned(s: State) {
    && s.calls.Keys == s.requests.Keys
    && (forall sid :: sid in s.sessions ==> OwnedBy(s, sid, s.sessions[sid].user))
    && (forall t :: t in s.handedOut ==> OwnedBy(s, t.sid, t.user))
    && (forall r :: r in s.requests ==> Serves(s, s.calls[r], s.requests[r]))
    && (forall p :: p in s.revocations ==>
          p.0 in s.requests && Acted(s.requests[p.0]) && MayRevoke(s, s.calls[p.0], p.1))
  }

  lemma OwnershipGrows(s: State, s': State, call: Call, sid: SessionId)
    requires Grows(s, s') && MayRevoke(s, call, sid) && s.chains.Keys <= s'.chains.Keys
    ensures MayRevoke(s', call, sid)
  {
    assert Chain(s, sid) <= Chain(s', sid);
  }

  lemma ServiceGrows(s: State, s': State, call: Call, pc: Pc)
    requires Grows(s, s') && s.now <= s'.now && s.chains.Keys <= s'.chains.Keys && Serves(s, call, pc)
    ensures Serves(s', call, pc)
  {
    if pc.RevokeEach? {
      forall sid | sid in pc.matched ensures MayRevoke(s', call, sid) { OwnershipGrows(s, s', call, sid); }
    }
    if pc.SingleRevoke? || pc.SingleMark? { OwnershipGrows(s, s', call, pc.sid); }
    if call.RevokeSession? { assert Chain(s, call.sid) <= Chain(s', call.sid); }
  }

  lemma SessionsHaveChains(s: State, sid: SessionId)
    requires Owned(s) && sid in s.sessions
    ensures sid in s.chains && OwnedBy(s, sid, s.sessions[sid].user)
  {
  }

  lemma StartServes(s: State, r: RequestId, call: Call)
    requires Owned(s)
    ensures var m := StartMove(s, r, call); m.effect.Create? || Serves(s, call, m.next)
  {
    match call
    case Refresh(token, verifies) =>
      if token in s.handedOut && token.sid in s.sessions {
        assert OwnedBy(s, token.sid, token.user) && OwnedBy(s, token.sid, s.sessions[token.sid].user);
      }
    case Sweep => forall sid | sid in s.sessions ensures sid in s.chains { SessionsHaveChains(s, sid); }
    case _ =>
  }

  lemma LookupServes(s: State, r: RequestId, call: Call, pc: Pc, pick: Option<SessionId>)
    requires Owned(s) && Serves(s, call, pc) && (pc.FindLive? || pc.SingleFind? || pc.LogoutFind?)
    ensures Serves(s, call, NextMove(s, r, pc, pick).next)
  {
    match pc
    case FindLive(user, _) =>
      forall sid | sid in s.sessions && s.sessions[sid].user == user
        ensures OwnedBy(s, sid, user) { SessionsHaveChains(s, sid); }
    case SingleFind(sid, user, _) =>
      if sid in s.sessions { SessionsHaveChains(s, sid); }
    case LogoutFind(refresh, _) =>
  }

  /** What a move leads to serves the call, judged by the history before its effect, except for tokens it hands out. */
  lemma MovesServe(s: State, r: RequestId, call: Call, pc: Pc, pick: Option<SessionId>)
    requires Owned(s) && Serves(s, call, pc)
    ensures var m := NextMove(s, r, pc, pick);
      m.effect.Create? || m.effect.Rotate? || Serves(s, call, m.next)
  {
    match pc
    case Started(_) => StartServes(s, r, call);
    case FindLive(_, _) => LookupServes(s, r, call, pc, pick);
    case SingleFind(_, _, _) => LookupServes(s, r, call, pc, pick);
    case LogoutFind(_, _) => LookupServes(s, r, call, pc, pick);
    case _ =>
  }

  /** A move revokes only what its call concerns. */
  lemma MovesRevokeTheirOwn(s: State, r: RequestId, call: Call, pc: Pc, pick: Option<SessionId>)
    requires Serves(s, call, pc)
    ensures var m := NextMove(s, r, pc, pick);
      (m.effect.Revoke? ==> MayRevoke(s, call, m.effect.sid) && Acted(m.next)) && (Acted(pc) ==> Acted(m.next))
  {
  }

  /** A move that hands a token out hands it to the session's owner, and says so. */
  lemma HandOutServes(s: State, r: RequestId, pick: Option<SessionId>)
    requires Rotation(s) && Owned(s) && r in s.requests
    requires var m := NextMove(s, r, s.requests[r], pick); m.effect.Create? || m.effect.Rotate?
    ensures var m := NextMove(s, r, s.requests[r], pick); var s' := Make(s, r, m);
      && OwnedBy(s', m.effect.sid, m.effect.token.user) && m.effect.token.sid == m.effect.sid
      && m.effect.token in s'.handedOut && Serves(s', s.calls[r], m.next)
  {
    var m := NextMove(s, r, s.requests[r], pick);
    var s' := Make(s, r, m);
    assert RequestOk(s, r, s.requests[r]) && Serves(s, s.calls[r], s.requests[r]);
    MovesAreLegal(s, r, pick);
    if m.effect.Rotate? {
      assert ChainOk(s, m.effect.sid);
      assert OwnedBy(s, m.effect.sid, m.effect.token.user);
      assert Chain(s', m.effect.sid) == Chain(s, m.effect.sid) + [Sha(m.effect.token)];
    } else {
      assert Chain(s', m.effect.sid) == [Sha(m.effect.token)];
    }
  }

  /** Nothing changes whose a session is. */
  lemma MoveKeepsSessionsOwned(s: State, r: RequestId, pick: Option<SessionId>, sid: SessionId)
    requires Rotation(s) && Owned(s) && r in s.requests
    requires sid in Make(s, r, NextMove(s, r, s.requests[r], pick)).sessions
    ensures var s' := Make(s, r, NextMove(s, r, s.requests[r], pick)); OwnedBy(s', sid, s'.sessions[sid].user)
  {
    var m := NextMove(s, r, s.requests[r], pick);
    assert RequestOk(s, r, s.requests[r]);
    MovesAreLegal(s, r, pick);
    ApplyGrows(s, r, m);
    MakeGrows(s, r, m);
    if sid in s.sessions && !m.effect.Create? {
      SessionsHaveChains(s, sid);
      UsersAreKept(s, r, m, sid);
      assert Chain(s, sid) <= Chain(Make(s, r, m), sid);
    } else if m.effect.Create? {
      HandOutServes(s, r, pick);
      if sid != m.effect.sid { CreateKeepsOthers(s, r, m, sid); }
    } else {
      ApplyShape(s, r, m.effect);
    }
  }

  lemma UsersAreKept(s: State, r: RequestId, m: Move, sid: SessionId)
    requires sid in s.sessions && sid in Make(s, r, m).sessions && !m.effect.Create?
    ensures Make(s, r, m).sessions[sid].user == s.sessions[sid].user
  {
    ApplyShape(s, r, m.effect);
  }

  lemma CreateKeepsOthers(s: State, r: RequestId, m: Move, sid: SessionId)
    requires Owned(s) && m.effect.Create? && sid != m.effect.sid && sid in Make(s, r, m).sessions
    ensures var s' := Make(s, r, m); OwnedBy(s', sid, s'.sessions[sid].user)
  {
    assert sid in s.sessions && Chain(Make(s, r, m), sid) == Chain(s, sid);
    SessionsHaveChains(s, sid);
  }

  lemma MoveKeepsOwned(s: State, r: RequestId, pick: Option<SessionId>)
    requires Rotation(s) && Owned(s) && r in s.requests
    ensures Owned(Make(s, r, NextMove(s, r, s.requests[r], pick)))
  {
    var m := NextMove(s, r, s.requests[r], pick);
    var s' := Make(s, r, m);
    assert RequestOk(s, r, s.requests[r]);
    MovesAreLegal(s, r, pick);
    ApplyGrows(s, r, m);
    ApplyShape(s, r, m.effect);
    MakeGrows(s, r, m);
    MovesRevokeTheirOwn(s, r, s.calls[r], s.requests[r], pick);
    if m.effect.Create? || m.effect.Rotate? { HandOutServes(s, r, pick); }
    forall sid | sid in s'.sessions
      ensures OwnedBy(s', sid, s'.sessions[sid].user) { MoveKeepsSessionsOwned(s, r, pick, sid); }
    forall t | t in s'.handedOut ensures OwnedBy(s', t.sid, t.user) {
      if t in s.handedOut { assert OwnedBy(s, t.sid, t.user) && Chain(s, t.sid) <= Chain(s', t.sid); }
    }
    forall q | q in s'.requests ensures Serves(s', s'.calls[q], s'.requests[q]) { MoveKeepsService(s, r, pick, q); }
    forall p | p in s'.revocations
      ensures p.0 in s'.requests && Acted(s'.requests[p.0]) && MayRevoke(s', s'.calls[p.0], p.1)
    {
      MoveKeepsWarrant(s, r, m, p);
    }
  }

  lemma MoveKeepsService(s: State, r: RequestId, pick: Option<SessionId>, q: RequestId)
    requires Rotation(s) && Owned(s) && r in s.requests && q in s.requests
    requires var s' := Make(s, r, NextMove(s, r, s.requests[r], pick));
      Grows(s, s') && s.chains.Keys <= s'.chains.Keys && s'.now == s.now
    ensures var s' := Make(s, r, NextMove(s, r, s.requests[r], pick));
      q in s'.requests && q in s'.calls && Serves(s', s'.calls[q], s'.requests[q])
  {
    var m := NextMove(s, r, s.requests[r], pick);
    var s' := Make(s, r, m);
    ApplyShape(s, r, m.effect);
    if q == r && (m.effect.Create? || m.effect.Rotate?) {
      HandOutServes(s, r, pick);
    } else {
      if q == r { MovesServe(s, r, s.calls[r], s.requests[r], pick); }
      ServiceGrows(s, s', s.calls[q], s'.requests[q]);
    }
  }

  lemma MakeGrows(s: State, r: RequestId, m: Move)
    requires Grows(s, Apply(s, r, m.effect))
    ensures Grows(s, Make(s, r, m)) && s.chains.Keys <= Make(s, r, m).chains.Keys && Make(s, r, m).now == s.now
  {
    var mid, s' := Apply(s, r, m.effect), Make(s, r, m);
    forall sid ensures Chain(s, sid) <= Chain(s', sid) { assert Chain(s', sid) == Chain(mid, sid); }
    ApplyShape(s, r, m.effect);
  }

  lemma MoveKeepsWarrant(s: State, r: RequestId, m: Move, p: (RequestId, SessionId))
    requires Owned(s) && r in s.requests && Grows(s, Make(s, r, m)) && s.chains.Keys <= Make(s, r, m).chains.Keys
    requires p in Make(s, r, m).revocations
    requires m.effect.Revoke? ==> MayRevoke(s, s.calls[r], m.effect.sid) && Acted(m.next)
    requires Acted(s.requests[r]) ==> Acted(m.next)
    ensures var s' := Make(s, r, m);
      p.0 in s'.requests && Acted(s'.requests[p.0]) && MayRevoke(s', s'.calls[p.0], p.1)
  {
    var s' := Make(s, r, m);
    ApplyShape(s, r, m.effect);
    assert p in s.revocations || (m.effect.Revoke? && p == (r, m.effect.sid));
    assert MayRevoke(s, s.calls[p.0], p.1);
    OwnershipGrows(s, s', s.calls[p.0], p.1);
  }

  lemma StepKeepsOwned(s: State, e: Event)
    requires Rotation(s) && Owned(s)
    ensures Owned(Step(s, e))
  {
    if e.Advance? && e.r in s.requests {
      MoveKeepsOwned(s, e.r, e.pick);
    } else {
      QuietStepKeepsOwned(s, Step(s, e), if e.Begin? then e.r else 0);
    }
  }

  /** A step that touches no session and at most begins a request keeps everything as it was. */
  lemma QuietStepKeepsOwned(s: State, s': State, r: RequestId)
    requires Owned(s) && s.now <= s'.now
    requires s'.sessions == s.sessions && s'.chains == s.chains && s'.handedOut == s.handedOut
    requires s'.revocations == s.revocations
    requires (s'.requests == s.requests && s'.calls == s.calls) ||
      (r !in s.requests &&
       exists call :: s'.requests == s.requests[r := Started(call)] && s'.calls == s.calls[r := call])
    ensures Owned(s')
  {
    assert Grows(s, s');
    forall sid | sid in s'.sessions ensures OwnedBy(s', sid, s'.sessions[sid].user) { SessionsHaveChains(s, sid); }
    forall t | t in s'.handedOut ensures OwnedBy(s', t.sid, t.user) { assert OwnedBy(s, t.sid, t.user); }
    forall q | q in s'.requests ensures Serves(s', s'.calls[q], s'.requests[q]) {
      if q in s.requests { ServiceGrows(s, s', s.calls[q], s'.requests[q]); }
    }
    forall p | p in s'.revocations
      ensures p.0 in s'.requests && Acted(s'.requests[p.0]) && MayRevoke(s', s'.calls[p.0], p.1)
    {
      OwnershipGrows(s, s', s.calls[p.0], p.1);
    }
  }

  lemma {:induction false} RunKeepsOwned(s: State, events: seq<Event>)
    requires Rotation(s) && Owned(s)
    ensures Owned(Run(s, events))
  {
    if events != [] {
      var head := events[..|events| - 1];
      RunKeepsOwned(s, head);
      RunKeepsRotation(s, head);
      StepKeepsOwned(Run(s, head), events[|events| - 1]);
    }
  }

  lemma StepGrows(s: State, e: Event)
    requires Rotation(s)
    ensures Grows(s, Step(s, e)) && s.chains.Keys <= Step(s, e).chains.Keys
  {
    if e.Advance? && e.r in s.requests {
      var m := NextMove(s, e.r, s.requests[e.r], e.pick);
      assert RequestOk(s, e.r, s.requests[e.r]);
      MovesAreLegal(s, e.r, e.pick);
      ApplyGrows(s, e.r, m);
      MakeGrows(s, e.r, m);
    }
  }

  lemma StepKeepsCalls(s: State, e: Event, r: RequestId)
    requires r in s.requests && r in s.calls
    ensures r in Step(s, e).requests && r in Step(s, e).calls && Step(s, e).calls[r] == s.calls[r]
  {
    StepOfRequest(s, e, r);
    if e.Advance? && e.r in s.requests {
      ApplyShape(s, e.r, NextMove(s, e.r, s.requests[e.r], e.pick).effect);
    }
  }

  lemma {:induction false} RunKeepsCalls(s: State, r: RequestId, events: seq<Event>)
    requires r in s.requests && r in s.calls
    ensures r in Run(s, events).requests && r in Run(s, events).calls && Run(s, events).calls[r] == s.calls[r]
  {
    if events != [] {
      RunKeepsCalls(s, r, events[..|events| - 1]);
      StepKeepsCalls(Run(s, events[..|events| - 1]), events[|events| - 1], r);
    }
  }

  lemma EveryRunIsOwned(config: Config, events: seq<Event>)
    ensures Rotation(Run(Init(config), events)) && Owned(Run(Init(config), events))
  {
    EveryRunRotates(config, events);
    RunKeepsOwned(Init(config), events);
  }

  /** A login or refresh that is answered handed out tokens of one session, to its owner. */
  predicate HandedOver(s: State, access: AccessToken, refresh: RefreshToken) {
    exists r :: r in s.requests && s.requests[r].Answered? &&
      (s.requests[r].reply == LoggedIn(access, refresh) ||
       (s.requests[r].reply.Refreshed? && s.requests[r].reply.access == access &&
         s.requests[r].reply.refresh == refresh))
  }

  /**
   * In every run the access and refresh token of one answer carry the same
   * session and user, the session was opened for that user, and neither is
   * from the future; after a refresh they are those of the presented token.
   */
  lemma TokensBelongToTheirSession(config: Config, events: seq<Event>, r: RequestId)
    requires var s := Run(Init(config), events);
      r in s.requests && s.requests[r].Answered? && (s.requests[r].reply.LoggedIn? || s.requests[r].reply.Refreshed?)
    ensures var s := Run(Init(config), events);
      var reply := s.requests[r].reply;
      && r in s.calls && reply.refresh in s.handedOut && Paired(s, reply.access, reply.refresh)
      && OwnedBy(s, reply.refresh.sid, reply.refresh.user)
      && (reply.LoggedIn? ==> s.calls[r] == Login(reply.refresh.user, reply.refresh.sid))
      && (reply.Refreshed? ==>
            && s.calls[r] == Refresh(reply.presented, true) && reply.presented in s.handedOut
            && reply.refresh.sid == reply.presented.sid && reply.refresh.user == reply.presented.user)
  {
    EveryRunIsOwned(config, events);
  }

  /**
   * In every run a request revokes only what it was asked to: its user's
   * sessions, the one session named and owned by its user, the session of the
   * genuine token it logs out with, or, for a refresh, sessions of the owner
   * of the genuine token it presents.
   */
  lemma RevocationsAreWarranted(config: Config, events: seq<Event>, r: RequestId, sid: SessionId)
    requires (r, sid) in Run(Init(config), events).revocations
    ensures var s := Run(Init(config), events); r in s.calls && MayRevoke(s, s.calls[r], sid)
  {
    EveryRunIsOwned(config, events);
  }
}
