/**
 * The acceptance decision of the authentication middleware, and why a token
 * that was logged out, or whose session was revoked, stays refused: the Redis
 * keys outlast the token. Keys lapse at a millisecond, tokens at a second.
 */
module AccessGate {
  import opened Domain
  import opened Sessions
  import opened SessionOwners
  import opened Revocation

  /** ceil(maxAge / 1000), at least one second. */
  function RevocationTtl(config: Config): (ttl: nat)
    ensures ttl >= 1 && 1000 * ttl >= config.accessMaxAge
    ensures ttl == 1 || 1000 * (ttl - 1) < config.accessMaxAge
  {
    var ceil := (config.accessMaxAge + 999) / 1000;
    if ceil < 1 then 1 else ceil
  }

  function MarkerLapsesAt(config: Config, writtenAt: nat): nat {
    writtenAt + 1000 * RevocationTtl(config)
  }

  predicate MarkerAlive(s: State, sid: SessionId) {
    sid in s.markers && s.now < MarkerLapsesAt(s.config, s.markers[sid])
  }

  predicate BlacklistAlive(s: State, t: AccessToken) {
    t in s.blacklist && s.now < s.blacklist[t]
  }

  /** jsonwebtoken compares whole seconds: the token is dead from the second exp on. */
  predicate Unexpired(s: State, t: AccessToken) {
    s.now / 1000 < ExpiresAt(s.config, t)
  }

  datatype Decision = Accept(user: UserId, sid: SessionId) | Blacklisted | Expired | SessionRevoked | UserNotFound

  /**
   * The middleware makes its reads one after the other: the blacklist, then
   * the token itself, then the marker, then the user, each in the state the
   * stores have reached by then.
   */
  function Authenticate(atBlacklist: State, atVerify: State, atMarker: State, atUser: State, t: AccessToken): Decision {
    if BlacklistAlive(atBlacklist, t) then Blacklisted
    else if !Unexpired(atVerify, t) then Expired
    else if MarkerAlive(atMarker, t.sid) then SessionRevoked
    else if t.user !in atUser.users then UserNotFound
    else Accept(t.user, t.sid)
  }

  ghost predicate TimesOk(s: State) {
    && (forall sid :: sid in s.markers ==> s.markers[sid] <= s.now)
    && (forall t :: t in s.blacklist ==> s.blacklist[t] >= 1000 * ExpiresAt(s.config, t))
  }

  /** Time and markers only move forward, and lifetimes are fixed. */
  ghost predicate Later(s: State, s': State) {
    && s'.config == s.config && s.now <= s'.now
    && (forall sid :: sid in s.markers ==> sid in s'.markers && s.markers[sid] <= s'.markers[sid])
    && s.blacklist.Keys <= s'.blacklist.Keys
  }

  lemma StepKeepsTimes(s: State, e: Event)
    requires TimesOk(s)
    ensures TimesOk(Step(s, e)) && Later(s, Step(s, e))
  {
    if e.Advance? && e.r in s.requests {
      var m := NextMove(s, e.r, s.requests[e.r], e.pick);
      ApplyShape(s, e.r, m.effect);
      var s' := Step(s, e);
      if m.effect.Blacklist? {
        var x := ExpiresAt(s.config, m.effect.access);
        assert s'.blacklist == s.blacklist[m.effect.access := s.now + 1000 * (x - s.now / 1000)];
        assert s.now + 1000 * (x - s.now / 1000) >= 1000 * x;
      }
    }
  }

  lemma {:induction false} RunKeepsTimes(s: State, events: seq<Event>)
    requires TimesOk(s)
    ensures TimesOk(Run(s, events)) && Later(s, Run(s, events))
  {
    if events != [] {
      RunKeepsTimes(s, events[..|events| - 1]);
      StepKeepsTimes(Run(s, events[..|events| - 1]), events[|events| - 1]);
    }
  }

  // --- The revocation marker ---

  /** A token minted no later than the marker was written is dead when the marker lapses. */
  lemma MarkerOutlivesToken(config: Config, t: AccessToken, writtenAt: nat)
    requires t.mintedAt <= writtenAt
    ensures 1000 * ExpiresAt(config, t) <= MarkerLapsesAt(config, writtenAt)
  {
    var base := t.mintedAt / 1000 * 1000;
    assert base <= t.mintedAt;
    assert 1000 * ((base + config.accessMaxAge) / 1000) <= base + config.accessMaxAge;
  }

  /**
   * Once the marker of its session is written, an access token minted before
   * is refused by every request that makes its checks at one instant, for ever.
   */
  lemma MarkedTokenIsRefusedForEver(config: Config, before: seq<Event>, later: seq<Event>, t: AccessToken)
    requires var s0 := Run(Init(config), before); t.sid in s0.markers && t.mintedAt <= s0.markers[t.sid]
    ensures var s := Run(Run(Init(config), before), later); !Authenticate(s, s, s, s, t).Accept?
  {
    var s0 := Run(Init(config), before);
    var s := Run(s0, later);
    RunKeepsTimes(Init(config), before);
    RunKeepsTimes(s0, later);
    MarkerOutlivesToken(config, t, s.markers[t.sid]);
  }

  /**
   * Across instants there is one gap, and this is all of it: such a token
   * passes only a request that verified it before it expired and read the
   * marker after the marker had lapsed.
   */
  lemma OnlyStraddlingRequestsPass(config: Config, before: seq<Event>, a: seq<Event>, b: seq<Event>, c: seq<Event>,
                                   d: seq<Event>, t: AccessToken)
    requires var s0 := Run(Init(config), before); t.sid in s0.markers && t.mintedAt <= s0.markers[t.sid]
    requires var s0 := Run(Init(config), before);
      var s1 := Run(s0, a); var s2 := Run(s1, b); var s3 := Run(s2, c); var s4 := Run(s3, d);
      Authenticate(s1, s2, s3, s4, t).Accept?
    ensures var s0 := Run(Init(config), before);
      var s2 := Run(Run(s0, a), b); var s3 := Run(s2, c);
      t.sid in s3.markers &&
      s2.now < 1000 * ExpiresAt(config, t) <= MarkerLapsesAt(config, s3.markers[t.sid]) <= s3.now
  {
    var s0 := Run(Init(config), before);
    var s1 := Run(s0, a);
    var s2 := Run(s1, b);
    var s3 := Run(s2, c);
    RunKeepsTimes(Init(config), before);
    RunKeepsTimes(s0, a);
    RunKeepsTimes(s1, b);
    RunKeepsTimes(s2, c);
    MarkerOutlivesToken(config, t, s3.markers[t.sid]);
    assert s2.now < 1000 * (s2.now / 1000) + 1000;
  }

  /** How many seconds the marker's lifetime is rounded up past the token's. */
  function Slack(config: Config): nat {
    if config.accessMaxAge > 0 && config.accessMaxAge % 1000 == 0 then 0 else 1
  }

  lemma LifetimesDifferBySlack(config: Config, t: AccessToken)
    ensures ExpiresAt(config, t) + Slack(config) == t.mintedAt / 1000 + RevocationTtl(config)
  {
    var a := config.accessMaxAge;
    assert a == 1000 * (a / 1000) + a % 1000;
    assert t.mintedAt / 1000 * 1000 + a == 1000 * (t.mintedAt / 1000 + a / 1000) + a % 1000;
    assert (1000 * (t.mintedAt / 1000 + a / 1000) + a % 1000) / 1000 == t.mintedAt / 1000 + a / 1000;
    assert (a + 999) / 1000 == a / 1000 + if a % 1000 == 0 then 0 else 1;
  }

  lemma MarkerOutlastsIff(config: Config, t: AccessToken, writtenAt: nat)
    ensures 1000 * ExpiresAt(config, t) <= MarkerLapsesAt(config, writtenAt)
      <==> 1000 * (t.mintedAt / 1000 - Slack(config)) <= writtenAt
  {
    LifetimesDifferBySlack(config, t);
  }

  /**
   * The exact condition: a marker written at w keeps a token of its session
   * refused at every instant from w on if and only if the second the token was
   * minted in, less the slack, had begun by w. With lifetimes of whole seconds
   * the slack is none.
   */
  lemma MarkerSufficesIff(config: Config, t: AccessToken, writtenAt: nat)
    ensures (forall now: nat :: writtenAt <= now && now / 1000 < ExpiresAt(config, t) ==>
      now < MarkerLapsesAt(config, writtenAt))
      <==> 1000 * (t.mintedAt / 1000 - Slack(config)) <= writtenAt
  {
    MarkerOutlastsIff(config, t, writtenAt);
    var lapse := MarkerLapsesAt(config, writtenAt);
    if 1000 * ExpiresAt(config, t) <= lapse {
      forall now: nat | now / 1000 < ExpiresAt(config, t) ensures now < lapse {
        assert now < 1000 * (now / 1000) + 1000 <= 1000 * ExpiresAt(config, t);
      }
    } else {
      assert writtenAt <= lapse && lapse / 1000 < ExpiresAt(config, t);
    }
  }

  /** Every request that makes its checks at one instant, now or after any further events, is refused. */
  ghost predicate RefusedForEver(s: State, t: AccessToken) {
    forall later: seq<Event> :: !AcceptedAt(Run(s, later), t)
  }

  predicate AcceptedAt(s: State, t: AccessToken) {
    Authenticate(s, s, s, s, t).Accept?
  }

  /**
   * Over runs: a token of a marked session is refused for ever if and only if
   * it is blacklisted, has expired, or was minted no later than the marker
   * covers. A refresh that races with a revocation and mints later fails that.
   */
  lemma MarkedTokenIsRefusedIff(config: Config, before: seq<Event>, t: AccessToken)
    requires t.sid in Run(Init(config), before).markers
    ensures var s := Run(Init(config), before);
      RefusedForEver(s, t) <==>
        t in s.blacklist || !Unexpired(s, t) || 1000 * (t.mintedAt / 1000 - Slack(config)) <= s.markers[t.sid]
  {
    var s := Run(Init(config), before);
    RunKeepsTimes(Init(config), before);
    MarkerOutlastsIff(config, t, s.markers[t.sid]);
    if t in s.blacklist || !Unexpired(s, t) || 1000 * (t.mintedAt / 1000 - Slack(config)) <= s.markers[t.sid] {
      forall later: seq<Event> ensures !AcceptedAt(Run(s, later), t) {
        RunKeepsTimes(s, later);
        CoveredStaysRefused(s, Run(s, later), t);
      }
    } else {
      var later := UntilLapse(s, t);
      assert AcceptedAt(Run(s, later), t);
    }
  }

  /** A blacklisted, expired or covered token is refused in every later state. */
  lemma CoveredStaysRefused(s: State, s': State, t: AccessToken)
    requires Later(s, s') && TimesOk(s')
    requires t in s.blacklist || !Unexpired(s, t) ||
      (t.sid in s.markers && 1000 * ExpiresAt(s.config, t) <= MarkerLapsesAt(s.config, s.markers[t.sid]))
    ensures !AcceptedAt(s', t)
  {
    if Unexpired(s', t) { assert s'.now < 1000 * (s'.now / 1000) + 1000 <= 1000 * ExpiresAt(s.config, t); }
  }

  /** Otherwise waiting for the marker to lapse, with the user there, gets the token accepted. */
  lemma UntilLapse(s: State, t: AccessToken) returns (later: seq<Event>)
    requires TimesOk(s) && t.sid in s.markers && t !in s.blacklist && Unexpired(s, t)
    requires MarkerLapsesAt(s.config, s.markers[t.sid]) < 1000 * ExpiresAt(s.config, t)
    ensures AcceptedAt(Run(s, later), t)
  {
    var lapse := MarkerLapsesAt(s.config, s.markers[t.sid]);
    var wait := if lapse > s.now then lapse - s.now else 0;
    later := [AddUser(t.user), Tick(wait)];
    assert later[..1] == [AddUser(t.user)] && later[..1][..0] == [];
    var s1 := Step(s, AddUser(t.user));
    assert Run(s, later[..1]) == s1 && Run(s, later) == Step(s1, Tick(wait));
    assert wait > 0 ==> lapse / 1000 < ExpiresAt(s.config, t);
  }

  // --- From a revocation to refused tokens ---

  predicate MarkedSince(s: State, sid: SessionId, since: int) {
    sid in s.markers && s.markers[sid] >= since
  }

  /** Request q is still bound to write the session's marker. */
  predicate OwesMark(s: State, q: RequestId, sid: SessionId) {
    q in s.requests &&
    match s.requests[q]
    case RevokeEach(_, matched, _, _) => sid in matched
    case MarkEach(remaining, _, _) => sid in remaining
    case SingleMark(x, _) => x == sid
    case _ => false
  }

  ghost predicate MarkIsComing(s: State, sid: SessionId) {
    exists q :: OwesMark(s, q, sid)
  }

  /** A session stays live, or is marked, or somebody is bound to mark it. */
  ghost predicate Covered(s: State, sid: SessionId, since: int) {
    Live(s, sid) || MarkedSince(s, sid, since) || MarkIsComing(s, sid)
  }

  /** Whoever ends a session owes its marker. */
  lemma RevokerOwesMark(s: State, e: Event, sid: SessionId)
    requires Rotation(s) && Owned(s) && Live(s, sid) && !Live(Step(s, e), sid)
    ensures MarkIsComing(Step(s, e), sid)
  {
    assert e.Advance? && e.r in s.requests;
    var m := NextMove(s, e.r, s.requests[e.r], e.pick);
    assert RequestOk(s, e.r, s.requests[e.r]) && Serves(s, s.calls[e.r], s.requests[e.r]);
    MovesAreLegal(s, e.r, e.pick);
    ApplyShape(s, e.r, m.effect);
    StepOfRequest(s, e, e.r);
    assert m.effect == Revoke(sid);
    assert OwesMark(Step(s, e), e.r, sid);
  }

  /** A marker that is owed is written, or still owed. */
  lemma DebtIsPaid(s: State, e: Event, q: RequestId, sid: SessionId)
    requires OwesMark(s, q, sid)
    ensures OwesMark(Step(s, e), q, sid) || MarkedSince(Step(s, e), sid, s.now)
  {
    StepOfRequest(s, e, q);
    if e.Advance? && e.r == q {
      ApplyShape(s, q, NextMove(s, q, s.requests[q], e.pick).effect);
    }
  }

  lemma StepKeepsCovered(s: State, e: Event, sid: SessionId, since: int)
    requires Rotation(s) && Owned(s) && TimesOk(s) && Covered(s, sid, since) && since <= s.now
    ensures Covered(Step(s, e), sid, since)
  {
    StepKeepsTimes(s, e);
    if Live(s, sid) {
      if !Live(Step(s, e), sid) { RevokerOwesMark(s, e, sid); }
    } else if !MarkedSince(s, sid, since) {
      var q :| OwesMark(s, q, sid);
      DebtIsPaid(s, e, q, sid);
    }
  }

  lemma {:induction false} RunKeepsCovered(s: State, sid: SessionId, since: int, events: seq<Event>)
    requires Rotation(s) && Owned(s) && TimesOk(s) && Covered(s, sid, since) && since <= s.now
    ensures Covered(Run(s, events), sid, since)
  {
    if events != [] {
      var head := events[..|events| - 1];
      RunKeepsCovered(s, sid, since, head);
      RunKeepsRotation(s, head);
      RunKeepsOwned(s, head);
      RunKeepsTimes(s, head);
      StepKeepsCovered(Run(s, head), events[|events| - 1], sid, since);
    }
  }

  /**
   * However a session ends, by a user's revocation, reuse, logout or the sweep:
   * an access token that was handed out while it was live is refused for ever
   * as soon as the session is dead and nobody is still bound to mark it.
   */
  lemma RevokedAccessIsRefused(config: Config, before: seq<Event>, later: seq<Event>, t: AccessToken,
                               refresh: RefreshToken)
    requires HandedOver(Run(Init(config), before), t, refresh) && Live(Run(Init(config), before), t.sid)
    requires var s := Run(Run(Init(config), before), later); Dead(s, t.sid) && !MarkIsComing(s, t.sid)
    ensures RefusedForEver(Run(Run(Init(config), before), later), t)
  {
    var s0, s := Run(Init(config), before), Run(Run(Init(config), before), later);
    EveryRunIsOwned(config, before);
    var r :| r in s0.requests && s0.requests[r].Answered? &&
      (s0.requests[r].reply == LoggedIn(t, refresh) ||
       (s0.requests[r].reply.Refreshed? && s0.requests[r].reply.access == t &&
         s0.requests[r].reply.refresh == refresh));
    assert Serves(s0, s0.calls[r], s0.requests[r]);
    RunKeepsTimes(Init(config), before);
    RunKeepsTimes(s0, later);
    RunKeepsCovered(s0, t.sid, s0.now, later);
    assert MarkedSince(s, t.sid, s0.now);
    MarkerOutlivesToken(config, t, s.markers[t.sid]);
    forall more: seq<Event> ensures !AcceptedAt(Run(s, more), t) {
      RunKeepsTimes(s, more);
      CoveredStaysRefused(s, Run(s, more), t);
    }
  }

  /**
   * From the call: an access token handed out to a session that was live when
   * the call began is refused for ever once a revocation that concerns the
   * session is answered, unless another request has revoked the session in
   * between and is still to mark it.
   */
  lemma RevocationRefusesAccess(config: Config, before: seq<Event>, r: RequestId, later: seq<Event>, t: AccessToken,
                                refresh: RefreshToken)
    requires var s0 := Run(Init(config), before);
      && HandedOver(s0, t, refresh) && Live(s0, t.sid)
      && r in s0.requests && s0.requests[r].Started? && Concerns(s0, s0.requests[r].call, t.sid)
    requires var s := Run(Run(Init(config), before), later);
      && r in s.requests && s.requests[r].Answered?
      && Promises(Run(Init(config), before).requests[r].call, s.requests[r].reply, t.sid)
    ensures var s := Run(Run(Init(config), before), later);
      RefusedForEver(s, t) || exists q :: q != r && OwesMark(s, q, t.sid)
  {
    AnswersKeepTheirPromise(config, before, r, t.sid, later);
    var s := Run(Run(Init(config), before), later);
    if MarkIsComing(s, t.sid) {
      var q :| OwesMark(s, q, t.sid);
      assert q != r;
    } else {
      RevokedAccessIsRefused(config, before, later, t, refresh);
    }
  }

  /**
   * Once a user's revocation of all sessions has been answered, an access token
   * handed out to a session of theirs that was live at the call is refused for
   * ever, unless another request has revoked that session and is still to mark it.
   */
  lemma GlobalRevocationRefusesAccess(config: Config, before: seq<Event>, r: RequestId, user: UserId,
                                      later: seq<Event>, t: AccessToken, refresh: RefreshToken)
    requires var s0 := Run(Init(config), before);
      && HandedOver(s0, t, refresh) && t.user == user && Live(s0, t.sid)
      && r in s0.requests && s0.requests[r] == Started(RevokeAll(user))
    requires var s := Run(Run(Init(config), before), later); r in s.requests && s.requests[r].Answered?
    ensures var s := Run(Run(Init(config), before), later);
      RefusedForEver(s, t) || exists q :: q != r && OwesMark(s, q, t.sid)
  {
    var s0 := Run(Init(config), before);
    EveryRunIsOwned(config, before);
    var q :| q in s0.requests && s0.requests[q].Answered? &&
      (s0.requests[q].reply == LoggedIn(t, refresh) ||
       (s0.requests[q].reply.Refreshed? && s0.requests[q].reply.access == t &&
         s0.requests[q].reply.refresh == refresh));
    assert Serves(s0, s0.calls[q], s0.requests[q]);
    assert OwnedBy(s0, refresh.sid, refresh.user);
    RevocationRefusesAccess(config, before, r, later, t, refresh);
  }

  // --- The blacklist ---

  /**
   * A token presented at logout is refused by every request that starts after
   * the logout blacklisted it, for ever: the blacklist is read before the
   * token is verified, so no request can slip between the two.
   */
  lemma LoggedOutTokenIsRefusedForEver(config: Config, before: seq<Event>, r: RequestId, pick: Option<SessionId>,
                                       a: seq<Event>, b: seq<Event>, atMarker: State, atUser: State, t: AccessToken)
    requires var s0 := Run(Init(config), before);
      r in s0.requests && s0.requests[r].Started? && s0.requests[r].call.Logout? &&
        s0.requests[r].call.access == Some(t)
    ensures var s1 := Run(Step(Run(Init(config), before), Advance(r, pick)), a);
      !Authenticate(s1, Run(s1, b), atMarker, atUser, t).Accept?
  {
    var s0 := Run(Init(config), before);
    var out := Step(s0, Advance(r, pick));
    var s1 := Run(out, a);
    var s2 := Run(s1, b);
    RunKeepsTimes(Init(config), before);
    StepKeepsTimes(s0, Advance(r, pick));
    RunKeepsTimes(out, a);
    RunKeepsTimes(s1, b);
    LogoutBlacklists(s0, r, pick, t);
    if !BlacklistAlive(s1, t) {
      LapsedMeansExpired(s1.now, s2.now, ExpiresAt(config, t));
    }
  }

  /** The first call of a logout blacklists the token it was given, unless that has expired. */
  lemma LogoutBlacklists(s: State, r: RequestId, pick: Option<SessionId>, t: AccessToken)
    requires r in s.requests && s.requests[r].Started? && s.requests[r].call.Logout? &&
      s.requests[r].call.access == Some(t)
    ensures t in Step(s, Advance(r, pick)).blacklist || s.now >= 1000 * ExpiresAt(s.config, t)
  {
    assert s.now >= 1000 * (s.now / 1000);
  }

  lemma LapsedMeansExpired(now: int, later: int, exp: int)
    requires now <= later && now >= 1000 * exp
    ensures later / 1000 >= exp
  {
  }
}
