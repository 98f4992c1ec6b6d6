/**
 * Refresh-token rotation, reuse detection, revocation and the idle sweep as a
 * shared-state protocol. One event is one store call of one request, so any
 * requests interleave; multi-document updates and deletes take effect one
 * document at a time, in any order.
 */
module Sessions {
  import opened Domain

  type SessionId = nat

  /** A refresh token: session (jti), owner (sub) and the nonce of the request that minted it. */
  datatype RefreshToken = RefreshToken(sid: SessionId, user: UserId, nonce: RequestId)

  /** An access token: session (sid), owner (sub) and the millisecond it was minted at. */
  datatype AccessToken = AccessToken(sid: SessionId, user: UserId, mintedAt: nat)

  /** SHA-256, taken to be injective. */
  datatype Hash = Sha(token: RefreshToken)

  datatype Session = Session(user: UserId, hash: Hash, lastActiveAt: int, expiresAt: int, revokedAt: Option<int>)

  datatype Call =
    | Login(user: UserId, sid: SessionId)
    | Refresh(token: RefreshToken, verifies: bool)
    | RevokeSession(sid: SessionId, user: UserId)
    | RevokeAll(user: UserId)
    | Logout(access: Option<AccessToken>, refresh: Option<RefreshToken>, verifies: bool)
    | Sweep

  datatype Reply =
    | LoggedIn(access: AccessToken, refresh: RefreshToken)
    | Refreshed(presented: RefreshToken, access: AccessToken, refresh: RefreshToken)
    | Invalid | Forbidden | UserGone | NotFound | Done
    | ReuseDetected(presented: RefreshToken)
    | AlreadyRotated(presented: RefreshToken)

  /** Where a request stands; each value names the store call it makes next. */
  datatype Pc =
    | Started(call: Call)
    | ReadUser(token: RefreshToken, seen: Session)
    | Rotating(token: RefreshToken, next: RefreshToken, access: AccessToken)
    | FindLive(user: UserId, reply: Reply)
    | RevokeEach(remaining: set<SessionId>, matched: set<SessionId>, reply: Reply, sweep: Option<int>)
    | MarkEach(remaining: set<SessionId>, reply: Reply, sweep: Option<int>)
    | DeleteEach(cutoff: int)
    | SingleFind(sid: SessionId, user: UserId, reply: Reply)
    | SingleRevoke(sid: SessionId, reply: Reply)
    | SingleMark(sid: SessionId, reply: Reply)
    | LogoutFind(refresh: Option<RefreshToken>, verifies: bool)
    | Answered(reply: Reply)

  /** Token lifetimes and the idle horizon, in milliseconds. */
  datatype Config = Config(accessMaxAge: nat, refreshMaxAge: nat, idleTtl: nat)

  /**
   * markers tells when a session's marker was last written, blacklist when a
   * token's entry lapses. calls, chains and revocations are history: what each
   * request was asked for, the hashes each session ever stored, in order, and
   * which request revoked which session.
   */
  datatype State = State(
    config: Config,
    now: nat,
    users: set<UserId>,
    sessions: map<SessionId, Session>,
    markers: map<SessionId, nat>,
    blacklist: map<AccessToken, nat>,
    requests: map<RequestId, Pc>,
    calls: map<RequestId, Call>,
    handedOut: set<RefreshToken>,
    chains: map<SessionId, seq<Hash>>,
    revocations: set<(RequestId, SessionId)>)

  function Init(config: Config): State {
    State(config, 0, {}, map[], map[], map[], map[], map[], {}, map[], {})
  }

  // --- Steps ---

  datatype Effect =
    | Pure
    | Create(sid: SessionId, session: Session, token: RefreshToken)
    | Rotate(sid: SessionId, token: RefreshToken)
    | Revoke(sid: SessionId)
    | Mark(sid: SessionId)
    | Delete(sid: SessionId)
    | Blacklist(access: AccessToken, ttl: nat)

  datatype Move = Move(effect: Effect, next: Pc)

  /**
   * Advance makes the next store call of a request; pick chooses the document
   * a multi-document call touches next, None meaning the call is over.
   */
  datatype Event =
    | Begin(r: RequestId, call: Call)
    | Advance(r: RequestId, pick: Option<SessionId>)
    | Tick(ms: nat)
    | AddUser(user: UserId)
    | RemoveUser(user: UserId)

  function Live(s: State, sid: SessionId): bool {
    sid in s.sessions && s.sessions[sid].revokedAt.None?
  }

  function Revoked(session: Session, at: int): Session {
    session.(revokedAt := Some(at))
  }

  function Rotated(session: Session, token: RefreshToken, now: int, refreshMaxAge: nat): Session {
    session.(hash := Sha(token), lastActiveAt := now, expiresAt := now + refreshMaxAge)
  }

  function Chain(s: State, sid: SessionId): seq<Hash> {
    if sid in s.chains then s.chains[sid] else []
  }

  function Apply(s: State, r: RequestId, effect: Effect): State {
    match effect
    case Pure => s
    case Create(sid, session, token) =>
      s.(sessions := s.sessions[sid := session],
         chains := s.chains[sid := [session.hash]],
         handedOut := s.handedOut + {token})
    case Rotate(sid, token) =>
      if sid in s.sessions then
        s.(sessions := s.sessions[sid := Rotated(s.sessions[sid], token, s.now, s.config.refreshMaxAge)],
           chains := s.chains[sid := Chain(s, sid) + [Sha(token)]],
           handedOut := s.handedOut + {token})
      else s
    case Revoke(sid) =>
      if sid in s.sessions then
        s.(sessions := s.sessions[sid := Revoked(s.sessions[sid], s.now)],
           revocations := s.revocations + {(r, sid)})
      else s
    case Mark(sid) => s.(markers := s.markers[sid := s.now])
    case Delete(sid) => s.(sessions := s.sessions - {sid})
    case Blacklist(access, ttl) => s.(blacklist := s.blacklist[access := s.now + 1000 * ttl])
  }

  /** exp, in seconds: jsonwebtoken adds the lifetime to the whole second of minting. */
  function ExpiresAt(config: Config, t: AccessToken): nat {
    (t.mintedAt / 1000 * 1000 + config.accessMaxAge) / 1000
  }

  function StartMove(s: State, r: RequestId, call: Call): Move {
    match call
    case Login(user, sid) =>
      if sid in s.chains then Move(Pure, Started(call))
      else
        var token := RefreshToken(sid, user, r);
        Move(Create(sid, Session(user, Sha(token), s.now, s.now + s.config.refreshMaxAge, None), token),
             Answered(LoggedIn(AccessToken(sid, user, s.now), token)))
    case Refresh(token, verifies) =>
      Move(Pure,
        if !verifies || token !in s.handedOut then Answered(Invalid)
        else if token.sid !in s.sessions then Answered(Invalid)
        else if s.sessions[token.sid].revokedAt.Some? then Answered(Forbidden)
        else ReadUser(token, s.sessions[token.sid]))
    case RevokeSession(sid, user) => Move(Pure, SingleFind(sid, user, Done))
    case RevokeAll(user) => Move(Pure, FindLive(user, Done))
    case Logout(access, refresh, verifies) =>
      var next := LogoutFind(refresh, verifies);
      if access.Some? && ExpiresAt(s.config, access.value) > s.now / 1000
      then Move(Blacklist(access.value, ExpiresAt(s.config, access.value) - s.now / 1000), next)
      else Move(Pure, next)
    case Sweep =>
      var cutoff := s.now - s.config.idleTtl;
      var idle := set sid | sid in s.sessions && Live(s, sid) && s.sessions[sid].lastActiveAt < cutoff;
      Move(Pure, RevokeEach(idle, idle, Done, Some(cutoff)))
  }

  function NextMove(s: State, r: RequestId, pc: Pc, pick: Option<SessionId>): Move {
    match pc
    case Started(call) => StartMove(s, r, call)
    case ReadUser(token, seen) =>
      Move(Pure,
        if seen.user !in s.users then SingleFind(token.sid, seen.user, UserGone)
        else if seen.hash != Sha(token) then FindLive(seen.user, ReuseDetected(token))
        else Rotating(token, RefreshToken(token.sid, seen.user, r), AccessToken(token.sid, seen.user, s.now)))
    case Rotating(token, next, access) =>
      if token.sid in s.sessions && s.sessions[token.sid].hash == Sha(token)
      then Move(Rotate(token.sid, next), Answered(Refreshed(token, access, next)))
      else Move(Pure, Answered(AlreadyRotated(token)))
    case FindLive(user, reply) =>
      var live := set sid | sid in s.sessions && Live(s, sid) && s.sessions[sid].user == user;
      Move(Pure, RevokeEach(live, live, reply, None))
    case RevokeEach(remaining, matched, reply, sweep) =>
      if remaining == {} then Move(Pure, MarkEach(matched, reply, sweep))
      else if pick.None? || pick.value !in remaining then Move(Pure, pc)
      else
        Move(if Live(s, pick.value) then Revoke(pick.value) else Pure,
             RevokeEach(remaining - {pick.value}, matched, reply, sweep))
    case MarkEach(remaining, reply, sweep) =>
      if remaining == {} then Move(Pure, if sweep.Some? then DeleteEach(sweep.value) else Answered(reply))
      else if pick.None? || pick.value !in remaining then Move(Pure, pc)
      else Move(Mark(pick.value), MarkEach(remaining - {pick.value}, reply, sweep))
    case DeleteEach(cutoff) =>
      if pick.None? then Move(Pure, Answered(Done))
      else if pick.value in s.sessions && s.sessions[pick.value].revokedAt.Some? &&
        s.sessions[pick.value].expiresAt < cutoff
      then Move(Delete(pick.value), pc)
      else Move(Pure, pc)
    case SingleFind(sid, user, reply) =>
      Move(Pure,
        if sid !in s.sessions || s.sessions[sid].user != user then Answered(NotFound)
        else if s.sessions[sid].revokedAt.Some? then Answered(reply)
        else SingleRevoke(sid, reply))
    case SingleRevoke(sid, reply) => Move(Revoke(sid), SingleMark(sid, reply))
    case SingleMark(sid, reply) => Move(Mark(sid), Answered(reply))
    case LogoutFind(refresh, verifies) =>
      Move(Pure,
        if refresh.None? || !verifies || refresh.value !in s.handedOut then Answered(Done)
        else if !Live(s, refresh.value.sid) then Answered(Done)
        else SingleRevoke(refresh.value.sid, Done))
    case Answered(_) => Move(Pure, pc)
  }

  function Make(s: State, r: RequestId, m: Move): State {
    var s' := Apply(s, r, m.effect);
    s'.(requests := s'.requests[r := m.next])
  }

  function Step(s: State, e: Event): State {
    match e
    case Begin(r, call) =>
      if r in s.requests then s else s.(requests := s.requests[r := Started(call)], calls := s.calls[r := call])
    case Advance(r, pick) => if r in s.requests then Make(s, r, NextMove(s, r, s.requests[r], pick)) else s
    case Tick(ms) => s.(now := s.now + ms)
    case AddUser(user) => s.(users := s.users + {user})
    case RemoveUser(user) => s.(users := s.users - {user})
  }

  function Run(s: State, events: seq<Event>): State {
    if events == [] then s else Step(Run(s, events[..|events| - 1]), events[|events| - 1])
  }

  // --- What one store call can do ---

  lemma ApplyShape(s: State, r: RequestId, effect: Effect)
    ensures var s' := Apply(s, r, effect);
      && s'.requests == s.requests && s'.calls == s.calls
      && s'.config == s.config && s'.now == s.now && s'.users == s.users
      && (effect.Mark? || s'.markers == s.markers)
      && (effect.Blacklist? || s'.blacklist == s.blacklist)
      && (effect.Create? || effect.Rotate? || (s'.chains == s.chains && s'.handedOut == s.handedOut))
      && (effect.Revoke? || s'.revocations == s.revocations)
      && (effect.Pure? || effect.Mark? || effect.Blacklist? ==> s'.sessions == s.sessions)
  {
    match effect
    case Create(_, _, _) =>
    case Rotate(_, _) =>
    case Revoke(_) =>
    case _ =>
  }

  /** A request changes only by its own moves. */
  lemma StepOfRequest(s: State, e: Event, r: RequestId)
    requires r in s.requests
    ensures r in Step(s, e).requests
    ensures Step(s, e).requests[r] ==
      if e.Advance? && e.r == r then NextMove(s, r, s.requests[r], e.pick).next else s.requests[r]
  {
    if e.Advance? && e.r in s.requests {
      ApplyShape(s, e.r, NextMove(s, e.r, s.requests[e.r], e.pick).effect);
    }
  }

  lemma NewRequestIsStarted(s: State, e: Event, r: RequestId)
    requires r !in s.requests && r in Step(s, e).requests
    ensures e.Begin? && e.r == r && Step(s, e).requests[r] == Started(e.call)
  {
    if e.Advance? && e.r in s.requests {
      ApplyShape(s, e.r, NextMove(s, e.r, s.requests[e.r], e.pick).effect);
    }
  }

  // --- Invariant: the chain of stored hashes ---

  ghost predicate Distinct<T>(xs: seq<T>) {
    forall i, j :: 0 <= i < j < |xs| ==> xs[i] != xs[j]
  }

  /** The nonce of a stored token belongs to a request that has already been answered. */
  predicate Spent(s: State, nonce: RequestId) {
    nonce in s.requests && s.requests[nonce].Answered?
  }

  ghost predicate ChainOk(s: State, sid: SessionId) {
    var c := Chain(s, sid);
    && Distinct(c)
    && (forall h :: h in c ==> h.token.sid == sid && h.token in s.handedOut && Spent(s, h.token.nonce))
    && (sid in s.chains ==> c != [])
    && (sid in s.sessions ==> sid in s.chains && s.sessions[sid].hash == c[|c| - 1])
  }

  /** A successful exchange replaced the presented token's link of the chain by its successor. */
  predicate Exchanged(s: State, r: RequestId, presented: RefreshToken, next: RefreshToken) {
    next.nonce == r && next.sid == presented.sid &&
    exists k :: 0 <= k < |Chain(s, presented.sid)| - 1 &&
      Chain(s, presented.sid)[k] == Sha(presented) && Chain(s, presented.sid)[k + 1] == Sha(next)
  }

  /** The token was in the session once and has been rotated away. */
  predicate RotatedAway(s: State, token: RefreshToken) {
    exists k :: 0 <= k < |Chain(s, token.sid)| - 1 && Chain(s, token.sid)[k] == Sha(token)
  }

  predicate PresentedReply(s: State, r: RequestId, reply: Reply) {
    match reply
    case Refreshed(presented, _, next) => Exchanged(s, r, presented, next)
    case ReuseDetected(presented) => RotatedAway(s, presented)
    case _ => true
  }

  predicate RequestOk(s: State, r: RequestId, pc: Pc) {
    match pc
    case ReadUser(token, seen) =>
      token in s.handedOut && seen.hash in Chain(s, token.sid) && (seen.hash != Sha(token) ==> RotatedAway(s, token))
    case Rotating(token, next, _) => next.sid == token.sid && next.nonce == r
    case FindLive(_, reply) => PresentedReply(s, r, reply)
    case RevokeEach(_, _, reply, _) => PresentedReply(s, r, reply)
    case MarkEach(_, reply, _) => PresentedReply(s, r, reply)
    case SingleFind(_, _, reply) => PresentedReply(s, r, reply)
    case SingleRevoke(_, reply) => PresentedReply(s, r, reply)
    case SingleMark(_, reply) => PresentedReply(s, r, reply)
    case Answered(reply) => PresentedReply(s, r, reply)
    case _ => true
  }

  ghost predicate Rotation(s: State) {
    && (forall sid :: ChainOk(s, sid))
    && (forall t :: t in s.handedOut ==> Sha(t) in Chain(s, t.sid))
    && (forall r :: r in s.requests ==> RequestOk(s, r, s.requests[r]))
  }

  ghost predicate Grows(s: State, s': State) {
    && (forall sid :: Chain(s, sid) <= Chain(s', sid))
    && s.handedOut <= s'.handedOut
  }

  lemma GrowthKeepsRequest(s: State, s': State, r: RequestId, pc: Pc)
    requires Grows(s, s') && RequestOk(s, r, pc)
    ensures RequestOk(s', r, pc)
  {
    forall sid ensures Chain(s, sid) <= Chain(s', sid) {}
    forall token | RotatedAway(s, token) ensures RotatedAway(s', token) {
      var k :| 0 <= k < |Chain(s, token.sid)| - 1 && Chain(s, token.sid)[k] == Sha(token);
      assert Chain(s', token.sid)[k] == Sha(token);
    }
    forall presented, next | Exchanged(s, r, presented, next) ensures Exchanged(s', r, presented, next) {
      var k :| 0 <= k < |Chain(s, presented.sid)| - 1 &&
        Chain(s, presented.sid)[k] == Sha(presented) && Chain(s, presented.sid)[k + 1] == Sha(next);
      assert Chain(s', presented.sid)[k] == Sha(presented) && Chain(s', presented.sid)[k + 1] == Sha(next);
    }
    if pc.ReadUser? {
      assert Chain(s, pc.token.sid) <= Chain(s', pc.token.sid);
    }
  }

  /** A rotation in flight, or a login, continues the chain with a token nobody stored before. */
  predicate Legal(s: State, r: RequestId, m: Move) {
    match m.effect
    case Create(sid, session, token) =>
      && sid !in s.chains && token == RefreshToken(sid, session.user, r) && session.hash == Sha(token)
      && session.revokedAt.None? && m.next.Answered? && m.next.reply.LoggedIn?
    case Rotate(sid, token) =>
      && sid in s.sessions && token.sid == sid && token.nonce == r
      && m.next.Answered? && m.next.reply.Refreshed? && m.next.reply.refresh == token
      && m.next.reply.presented.sid == sid && s.sessions[sid].hash == Sha(m.next.reply.presented)
    case Delete(sid) => sid in s.sessions && s.sessions[sid].revokedAt.Some?
    case _ => true
  }

  lemma MovesAreLegal(s: State, r: RequestId, pick: Option<SessionId>)
    requires r in s.requests && RequestOk(s, r, s.requests[r])
    ensures Legal(s, r, NextMove(s, r, s.requests[r], pick))
  {
  }

  lemma ApplyGrows(s: State, r: RequestId, m: Move)
    requires Legal(s, r, m)
    ensures Grows(s, Apply(s, r, m.effect))
  {
    ApplyShape(s, r, m.effect);
    var s' := Apply(s, r, m.effect);
    forall sid ensures Chain(s, sid) <= Chain(s', sid) {}
  }

  /** The request after a move is consistent with the history before its effect. */
  lemma MoveKeepsRequest(s: State, r: RequestId, pick: Option<SessionId>)
    requires Rotation(s) && r in s.requests
    ensures var m := NextMove(s, r, s.requests[r], pick);
      m.effect.Rotate? || RequestOk(s, r, m.next)
  {
    var pc := s.requests[r];
    assert RequestOk(s, r, pc);
    if pc.Started? && pc.call.Refresh? {
      var token := pc.call.token;
      assert ChainOk(s, token.sid);
      if token in s.handedOut && token.sid in s.sessions {
        var c := Chain(s, token.sid);
        assert Sha(token) in c;
        var k :| 0 <= k < |c| && c[k] == Sha(token);
        assert s.sessions[token.sid].hash == c[|c| - 1];
      }
    }
  }

  lemma MoveKeepsRotation(s: State, r: RequestId, pick: Option<SessionId>)
    requires Rotation(s) && r in s.requests
    ensures Rotation(Make(s, r, NextMove(s, r, s.requests[r], pick)))
  {
    var m := NextMove(s, r, s.requests[r], pick);
    var mid, s' := Apply(s, r, m.effect), Make(s, r, m);
    assert RequestOk(s, r, s.requests[r]);
    MovesAreLegal(s, r, pick);
    ApplyGrows(s, r, m);
    ApplyShape(s, r, m.effect);
    MoveKeepsRequest(s, r, pick);
    assert forall sid :: Chain(s', sid) == Chain(mid, sid);
    forall sid ensures ChainOk(s', sid) { ChainStaysOk(s, r, m, sid); }
    forall t | t in s'.handedOut ensures Sha(t) in Chain(s', t.sid) {
      assert t in s.handedOut ==> Sha(t) in Chain(s, t.sid);
      assert Chain(s, t.sid) <= Chain(mid, t.sid);
    }
    forall q | q in s'.requests ensures RequestOk(s', q, s'.requests[q]) {
      if q == r && m.effect.Rotate? {
        RotationIsRecorded(s, r, m);
      } else {
        GrowthKeepsRequest(s, s', q, s'.requests[q]);
      }
    }
  }

  lemma RotationIsRecorded(s: State, r: RequestId, m: Move)
    requires Legal(s, r, m) && m.effect.Rotate? && ChainOk(s, m.effect.sid)
    ensures Exchanged(Make(s, r, m), r, m.next.reply.presented, m.next.reply.refresh)
  {
    var c, c' := Chain(s, m.effect.sid), Chain(Make(s, r, m), m.effect.sid);
    assert c' == c + [Sha(m.effect.token)];
    assert c'[|c| - 1] == Sha(m.next.reply.presented) && c'[|c|] == Sha(m.next.reply.refresh);
  }

  lemma ChainStaysOk(s: State, r: RequestId, m: Move, sid: SessionId)
    requires ChainOk(s, sid) && Legal(s, r, m) && r in s.requests
    requires Spent(s, r) ==> m == Move(Pure, s.requests[r])
    ensures ChainOk(Make(s, r, m), sid)
  {
    var s' := Make(s, r, m);
    var c, c' := Chain(s, sid), Chain(s', sid);
    ApplyShape(s, r, m.effect);
    forall h | h in c ensures Spent(s', h.token.nonce) { assert Spent(s, h.token.nonce); }
    if (m.effect.Create? || m.effect.Rotate?) && m.effect.sid == sid {
      var added := Sha(m.effect.token);
      assert c' == c + [added];
      assert added !in c by { assert added in c ==> Spent(s, added.token.nonce); }
      AppendKeepsDistinct(c, added);
    } else {
      assert c' == c;
    }
  }

  lemma AppendKeepsDistinct<T>(xs: seq<T>, x: T)
    requires Distinct(xs) && x !in xs
    ensures Distinct(xs + [x])
  {
  }

  lemma StepKeepsRotation(s: State, e: Event)
    requires Rotation(s)
    ensures Rotation(Step(s, e))
  {
    if e.Advance? && e.r in s.requests {
      MoveKeepsRotation(s, e.r, e.pick);
    } else {
      var s' := Step(s, e);
      assert Grows(s, s');
      forall sid ensures ChainOk(s', sid) { assert ChainOk(s, sid); }
      forall t | t in s'.handedOut ensures Sha(t) in Chain(s', t.sid) { assert Sha(t) in Chain(s, t.sid); }
      forall q | q in s'.requests ensures RequestOk(s', q, s'.requests[q]) {
        if q in s.requests { GrowthKeepsRequest(s, s', q, s'.requests[q]); }
      }
    }
  }

  lemma {:induction false} RunKeepsRotation(s: State, events: seq<Event>)
    requires Rotation(s)
    ensures Rotation(Run(s, events))
  {
    if events != [] {
      RunKeepsRotation(s, events[..|events| - 1]);
      StepKeepsRotation(Run(s, events[..|events| - 1]), events[|events| - 1]);
    }
  }

  lemma EveryRunRotates(config: Config, events: seq<Event>)
    ensures Rotation(Run(Init(config), events))
  {
    RunKeepsRotation(Init(config), events);
  }

  // --- Each refresh token is exchanged at most once ---

  lemma SuccessorsAreUnique(s: State, q: RequestId, x: RefreshToken, r: RequestId, y: RefreshToken, t: RefreshToken)
    requires ChainOk(s, t.sid) && Exchanged(s, q, t, x) && Exchanged(s, r, t, y)
    ensures q == r
  {
    var c := Chain(s, t.sid);
    var i :| 0 <= i < |c| - 1 && c[i] == Sha(t) && c[i + 1] == Sha(x);
    var j :| 0 <= j < |c| - 1 && c[j] == Sha(t) && c[j + 1] == Sha(y);
    assert i == j;
  }

  /** In every interleaving no refresh token is exchanged for new tokens by two requests. */
  lemma TokensAreExchangedAtMostOnce(config: Config, events: seq<Event>, q: RequestId, r: RequestId)
    requires var s := Run(Init(config), events);
      && q in s.requests && r in s.requests
      && s.requests[q].Answered? && s.requests[q].reply.Refreshed?
      && s.requests[r].Answered? && s.requests[r].reply.Refreshed?
      && s.requests[q].reply.presented == s.requests[r].reply.presented
    ensures q == r
  {
    var s := Run(Init(config), events);
    EveryRunRotates(config, events);
    var t := s.requests[q].reply.presented;
    assert RequestOk(s, q, s.requests[q]) && RequestOk(s, r, s.requests[r]);
    SuccessorsAreUnique(s, q, s.requests[q].reply.refresh, r, s.requests[r].reply.refresh, t);
  }

  /**
   * In every interleaving the hashes a session ever stored form one
   * never-repeating chain, of exactly the tokens handed out for it, whose tail
   * is the stored hash.
   */
  lemma StoredHashesFormAChain(config: Config, events: seq<Event>, sid: SessionId)
    ensures var s := Run(Init(config), events);
      && Distinct(Chain(s, sid))
      && (sid in s.sessions ==> Chain(s, sid) != [] && s.sessions[sid].hash == Chain(s, sid)[|Chain(s, sid)| - 1])
      && (forall h: Hash :: h in Chain(s, sid) <==> h.token.sid == sid && h.token in s.handedOut)
  {
    EveryRunRotates(config, events);
    var s := Run(Init(config), events);
    assert ChainOk(s, sid);
    forall h: Hash | h.token.sid == sid && h.token in s.handedOut ensures h in Chain(s, sid) {
      assert h == Sha(h.token);
    }
  }

  /** Only the tail of the chain can rotate: a changed hash means its token was exchanged just now. */
  lemma OnlyTheTailRotates(config: Config, events: seq<Event>, e: Event, sid: SessionId)
    requires var s := Run(Init(config), events);
      sid in s.sessions && sid in Step(s, e).sessions && Step(s, e).sessions[sid].hash != s.sessions[sid].hash
    ensures var s := Run(Init(config), events);
      && e.Advance? && e.r in s.requests && s.requests[e.r].Rotating?
      && s.sessions[sid].hash == Sha(s.requests[e.r].token)
      && Chain(Step(s, e), sid) == Chain(s, sid) + [Step(s, e).sessions[sid].hash]
      && Step(s, e).sessions[sid].hash == Sha(s.requests[e.r].next)
  {
    var s := Run(Init(config), events);
    EveryRunRotates(config, events);
    assert ChainOk(s, sid);
    if e.Advance? && e.r in s.requests {
      assert RequestOk(s, e.r, s.requests[e.r]);
      MovesAreLegal(s, e.r, e.pick);
      var m := NextMove(s, e.r, s.requests[e.r], e.pick);
      assert m.effect.Rotate? || m.effect.Create?;
    }
  }
}
