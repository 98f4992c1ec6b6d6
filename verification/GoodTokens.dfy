/**
 * The authentication middleware lets good tokens through, over the runs of the
 * session protocol: markers and dead sessions come from revocations, blacklist
 * entries from logouts, and a token that met neither is decided by its age and
 * its user alone.
 */
module GoodTokens {
  import opened Domain
  import opened Sessions
  import opened SessionOwners
  import opened Revocation
  import opened AccessGate

  /** Some request revoked the session. */
  ghost predicate WasRevoked(s: State, sid: SessionId) {
    exists r :: (r, sid) in s.revocations
  }

  /** Some logout was asked for with the token. */
  ghost predicate WasPresented(s: State, t: AccessToken) {
    exists r :: r in s.calls && s.calls[r].Logout? && s.calls[r].access == Some(t)
  }

  /** What a request is done revoking, or about to mark, was revoked. */
  ghost predicate EndsTheRevoked(s: State, pc: Pc) {
    match pc
    case RevokeEach(remaining, matched, _, _) =>
      forall sid :: sid in matched && sid !in remaining ==> WasRevoked(s, sid)
    case MarkEach(remaining, _, _) => forall sid :: sid in remaining ==> WasRevoked(s, sid)
    case SingleMark(sid, _) => WasRevoked(s, sid)
    case _ => true
  }

  ghost predicate Warranted(s: State) {
    && (forall sid :: Dead(s, sid) ==> WasRevoked(s, sid))
    && (forall sid :: sid in s.markers ==> WasRevoked(s, sid))
    && (forall r :: r in s.requests ==> EndsTheRevoked(s, s.requests[r]))
    && (forall t :: t in s.blacklist ==> WasPresented(s, t))
  }

  /** Revocations and calls are never forgotten. */
  lemma StepKeepsHistory(s: State, e: Event)
    ensures s.revocations <= Step(s, e).revocations
    ensures s.calls.Keys == s.requests.Keys ==>
      forall r :: r in s.calls ==> r in Step(s, e).calls && Step(s, e).calls[r] == s.calls[r]
  {
    if e.Advance? && e.r in s.requests { ApplyShape(s, e.r, NextMove(s, e.r, s.requests[e.r], e.pick).effect); }
  }

  /** A session that dies was revoked by the step that ends it. */
  lemma DeathIsARevocation(s: State, e: Event, sid: SessionId)
    requires Rotation(s) && Owned(s) && Dead(Step(s, e), sid) && (Dead(s, sid) ==> WasRevoked(s, sid))
    ensures WasRevoked(Step(s, e), sid)
  {
    StepKeepsHistory(s, e);
    if Dead(s, sid) {
      var r :| (r, sid) in s.revocations;
      assert (r, sid) in Step(s, e).revocations;
    } else {
      assert e.Advance? && e.r in s.requests;
      var m := NextMove(s, e.r, s.requests[e.r], e.pick);
      assert RequestOk(s, e.r, s.requests[e.r]);
      MovesAreLegal(s, e.r, e.pick);
      ApplyShape(s, e.r, m.effect);
      assert m.effect == Revoke(sid);
      assert (e.r, sid) in Step(s, e).revocations;
    }
  }

  lemma RevokedStays(s: State, e: Event, sid: SessionId)
    requires WasRevoked(s, sid)
    ensures WasRevoked(Step(s, e), sid)
  {
    StepKeepsHistory(s, e);
    var r :| (r, sid) in s.revocations;
    assert (r, sid) in Step(s, e).revocations;
  }

  lemma PresentedStays(s: State, e: Event, t: AccessToken)
    requires Owned(s) && WasPresented(s, t)
    ensures WasPresented(Step(s, e), t)
  {
    StepKeepsHistory(s, e);
    var r :| r in s.calls && s.calls[r].Logout? && s.calls[r].access == Some(t);
    assert r in Step(s, e).calls;
  }

  /** Revoking a session that was matched leaves it revoked, by this request or an earlier one. */
  lemma RevokingRevokes(s: State, r: RequestId, pick: Option<SessionId>, sid: SessionId)
    requires Rotation(s) && Owned(s) && Warranted(s) && r in s.requests
    requires match s.requests[r]
             case RevokeEach(remaining, _, _, _) => sid in remaining && pick == Some(sid)
             case SingleRevoke(x, _) => x == sid
             case _ => false
    ensures WasRevoked(Step(s, Advance(r, pick)), sid)
  {
    assert Serves(s, s.calls[r], s.requests[r]) && MayRevoke(s, s.calls[r], sid);
    assert sid in s.chains;
    var s' := Step(s, Advance(r, pick));
    ApplyShape(s, r, NextMove(s, r, s.requests[r], pick).effect);
    assert Dead(s', sid);
    DeathIsARevocation(s, Advance(r, pick), sid);
  }

  lemma PickEndsTheRevoked(s: State, r: RequestId, pick: Option<SessionId>)
    requires Rotation(s) && Owned(s) && Warranted(s) && r in s.requests && s.requests[r].RevokeEach?
    ensures EndsTheRevoked(Step(s, Advance(r, pick)), NextMove(s, r, s.requests[r], pick).next)
  {
    var e, pc := Advance(r, pick), s.requests[r];
    assert EndsTheRevoked(s, pc);
    forall sid | WasRevoked(s, sid) ensures WasRevoked(Step(s, e), sid) { RevokedStays(s, e, sid); }
    if pick.Some? && pick.value in pc.remaining {
      RevokingRevokes(s, r, pick, pick.value);
      assert forall sid :: sid !in pc.remaining - {pick.value} ==> sid == pick.value || sid !in pc.remaining;
    }
  }

  lemma EndedStaysEnded(s: State, e: Event, pc: Pc)
    requires EndsTheRevoked(s, pc)
    ensures EndsTheRevoked(Step(s, e), pc)
  {
    forall sid | WasRevoked(s, sid) ensures WasRevoked(Step(s, e), sid) { RevokedStays(s, e, sid); }
  }

  /** Moves that revoke nothing have nothing new to account for. */
  lemma OtherMovesEndTheRevoked(s: State, r: RequestId, pc: Pc, pick: Option<SessionId>)
    requires EndsTheRevoked(s, pc) && !pc.RevokeEach? && !pc.SingleRevoke?
    ensures EndsTheRevoked(s, NextMove(s, r, pc, pick).next)
  {
  }

  lemma OwnMoveEndsTheRevoked(s: State, r: RequestId, pick: Option<SessionId>)
    requires Rotation(s) && Owned(s) && Warranted(s) && r in s.requests
    ensures EndsTheRevoked(Step(s, Advance(r, pick)), NextMove(s, r, s.requests[r], pick).next)
  {
    var pc := s.requests[r];
    assert EndsTheRevoked(s, pc);
    if pc.RevokeEach? {
      PickEndsTheRevoked(s, r, pick);
    } else if pc.SingleRevoke? {
      RevokingRevokes(s, r, pick, pc.sid);
    } else {
      OtherMovesEndTheRevoked(s, r, pc, pick);
      EndedStaysEnded(s, Advance(r, pick), NextMove(s, r, pc, pick).next);
    }
  }

  lemma StepEndsTheRevoked(s: State, e: Event, r: RequestId)
    requires Rotation(s) && Owned(s) && Warranted(s) && r in Step(s, e).requests
    ensures EndsTheRevoked(Step(s, e), Step(s, e).requests[r])
  {
    if r !in s.requests {
      NewRequestIsStarted(s, e, r);
    } else {
      StepOfRequest(s, e, r);
      EndedStaysEnded(s, e, s.requests[r]);
      if e.Advance? && e.r == r { OwnMoveEndsTheRevoked(s, r, e.pick); }
    }
  }

  /** Only who revoked a session marks it. */
  lemma MarkersAreOfTheRevoked(s: State, e: Event, sid: SessionId)
    requires Warranted(s) && sid in Step(s, e).markers
    ensures WasRevoked(s, sid)
  {
    if e.Advance? && e.r in s.requests {
      ApplyShape(s, e.r, NextMove(s, e.r, s.requests[e.r], e.pick).effect);
      assert EndsTheRevoked(s, s.requests[e.r]);
    }
  }

  /** Only a logout blacklists, and only the token it was given. */
  lemma BlacklistIsOfLogouts(s: State, e: Event, t: AccessToken)
    requires Owned(s) && Warranted(s) && t in Step(s, e).blacklist
    ensures WasPresented(s, t)
  {
    if e.Advance? && e.r in s.requests {
      var m := NextMove(s, e.r, s.requests[e.r], e.pick);
      ApplyShape(s, e.r, m.effect);
      if t !in s.blacklist {
        assert Serves(s, s.calls[e.r], s.requests[e.r]);
        assert m.effect.Blacklist? && m.effect.access == t && s.requests[e.r].Started?;
      }
    }
  }

  lemma StepKeepsWarranted(s: State, e: Event)
    requires Rotation(s) && Owned(s) && Warranted(s)
    ensures Warranted(Step(s, e))
  {
    var s' := Step(s, e);
    forall sid | Dead(s', sid) ensures WasRevoked(s', sid) { DeathIsARevocation(s, e, sid); }
    forall sid | sid in s'.markers ensures WasRevoked(s', sid) {
      MarkersAreOfTheRevoked(s, e, sid);
      RevokedStays(s, e, sid);
    }
    forall r | r in s'.requests ensures EndsTheRevoked(s', s'.requests[r]) { StepEndsTheRevoked(s, e, r); }
    forall t | t in s'.blacklist ensures WasPresented(s', t) {
      BlacklistIsOfLogouts(s, e, t);
      PresentedStays(s, e, t);
    }
  }

  lemma {:induction false} EveryRunIsWarranted(config: Config, events: seq<Event>)
    ensures Warranted(Run(Init(config), events))
  {
    if events != [] {
      var head := events[..|events| - 1];
      EveryRunIsWarranted(config, head);
      EveryRunIsOwned(config, head);
      StepKeepsWarranted(Run(Init(config), head), events[|events| - 1]);
    }
  }

  /** In every run, only sessions that a request revoked are dead, and only those are marked. */
  lemma DeadMeansRevoked(config: Config, events: seq<Event>, sid: SessionId)
    requires var s := Run(Init(config), events); Dead(s, sid) || sid in s.markers
    ensures WasRevoked(Run(Init(config), events), sid)
  {
    EveryRunIsWarranted(config, events);
  }

  /** The decision on a token that nothing is held against, by its age in whole seconds and by its user. */
  function Untroubled(config: Config, now: nat, users: set<UserId>, t: AccessToken): Decision {
    if now / 1000 >= (t.mintedAt / 1000 * 1000 + config.accessMaxAge) / 1000 then Expired
    else if t.user !in users then UserNotFound
    else Accept(t.user, t.sid)
  }

  /**
   * Good tokens get through: when no logout presented the token before the
   * blacklist is read, and nobody revoked its session before the marker is
   * read, it is accepted for its own user and session until its age in whole
   * seconds is up, provided the user exists. The four reads may lie any
   * events apart.
   */
  lemma GoodTokenIsAccepted(config: Config, before: seq<Event>, a: seq<Event>, b: seq<Event>, c: seq<Event>,
                            t: AccessToken)
    requires var s1 := Run(Init(config), before); !WasPresented(s1, t)
    requires var s3 := Run(Init(config), before + a + b); !WasRevoked(s3, t.sid)
    ensures var s1, s2 := Run(Init(config), before), Run(Init(config), before + a);
      var s3, s4 := Run(Init(config), before + a + b), Run(Init(config), before + a + b + c);
      Authenticate(s1, s2, s3, s4, t) == Untroubled(config, s2.now, s4.users, t)
  {
    EveryRunIsWarranted(config, before);
    EveryRunIsWarranted(config, before + a + b);
    RunKeepsTimes(Init(config), before + a);
  }
}
