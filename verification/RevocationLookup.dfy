/**
 * Which sessions a revocation of many sessions ends, over the runs of the
 * session protocol: exactly those its lookup found, for a user's revocation,
 * for reuse, and for the idle sweep.
 */
module RevocationLookup {
  import opened Domain
  import opened Sessions
  import opened SessionOwners
  import opened Revocation

  predicate IdleAt(s: State, sid: SessionId) {
    Live(s, sid) && s.sessions[sid].lastActiveAt < s.now - s.config.idleTtl
  }

  /** What the lookup at which a request stands would find now. */
  function Found(s: State, pc: Pc): set<SessionId> {
    match pc
    case FindLive(user, _) => set sid | sid in s.sessions && Live(s, sid) && s.sessions[sid].user == user
    case _ => set sid | sid in s.sessions && IdleAt(s, sid)
  }

  predicate AtLookup(pc: Pc) {
    pc.FindLive? || pc == Started(Sweep)
  }

  /** Event k of the run is the lookup of request r. */
  predicate LooksUp(config: Config, events: seq<Event>, k: nat, r: RequestId) {
    k < |events| && events[k].Advance? && events[k].r == r &&
    var s := Run(Init(config), events[..k]);
    r in s.requests && r in s.calls && AtLookup(s.requests[r])
  }

  /** A request that has made its lookup. */
  predicate PastLookup(call: Call, pc: Pc) {
    pc.RevokeEach? || pc.MarkEach? || pc.DeleteEach? ||
    (pc.Answered? && (call.RevokeAll? || call.Sweep? || pc.reply.ReuseDetected?))
  }

  /** Request r has revoked only what it found, and what it is done with is dead. */
  ghost predicate Follows(s: State, r: RequestId, found: set<SessionId>) {
    && r in s.requests
    && (forall sid :: (r, sid) in s.revocations ==> sid in found)
    && match s.requests[r]
       case RevokeEach(remaining, matched, _, _) =>
         matched == found && forall sid :: sid in found && sid !in remaining ==> Dead(s, sid)
       case _ => forall sid :: sid in found ==> Dead(s, sid)
  }

  lemma OtherStepsFollow(s: State, e: Event, r: RequestId, found: set<SessionId>)
    requires Rotation(s) && Follows(s, r, found) && !(e.Advance? && e.r == r)
    ensures Follows(Step(s, e), r, found)
  {
    var s' := Step(s, e);
    StepOfRequest(s, e, r);
    forall sid | Dead(s, sid) ensures Dead(s', sid) { StepKeepsDead(s, e, sid); }
    if e.Advance? && e.r in s.requests {
      ApplyShape(s, e.r, NextMove(s, e.r, s.requests[e.r], e.pick).effect);
    }
    forall sid | (r, sid) in s'.revocations ensures sid in found { assert (r, sid) in s.revocations; }
  }

  lemma OwnMoveFollows(s: State, r: RequestId, pick: Option<SessionId>, found: set<SessionId>)
    requires Rotation(s) && Owned(s) && Follows(s, r, found) && PastLookup(s.calls[r], s.requests[r])
    ensures Follows(Step(s, Advance(r, pick)), r, found)
  {
    var e := Advance(r, pick);
    var s' := Step(s, e);
    var m := NextMove(s, r, s.requests[r], pick);
    StepOfRequest(s, e, r);
    assert Serves(s, s.calls[r], s.requests[r]);
    forall sid | Dead(s, sid) ensures Dead(s', sid) { StepKeepsDead(s, e, sid); }
    if s.requests[r].RevokeEach? && pick.Some? && pick.value in s.requests[r].remaining {
      PickedIsDead(s, r, pick.value);
    }
    OnlyPickedIsRevoked(s, r, pick);
  }

  lemma OnlyPickedIsRevoked(s: State, r: RequestId, pick: Option<SessionId>)
    requires r in s.requests && r in s.calls && PastLookup(s.calls[r], s.requests[r])
    ensures forall sid :: (r, sid) in Step(s, Advance(r, pick)).revocations ==>
      (r, sid) in s.revocations || (s.requests[r].RevokeEach? && sid in s.requests[r].remaining)
  {
    var m := NextMove(s, r, s.requests[r], pick);
    ApplyShape(s, r, m.effect);
  }

  lemma PickedIsDead(s: State, r: RequestId, sid: SessionId)
    requires Owned(s) && r in s.requests && s.requests[r].RevokeEach? && sid in s.requests[r].remaining
    ensures Dead(Step(s, Advance(r, Some(sid))), sid)
  {
    var m := NextMove(s, r, s.requests[r], Some(sid));
    ApplyShape(s, r, m.effect);
    assert Serves(s, s.calls[r], s.requests[r]) && MayRevoke(s, s.calls[r], sid);
    assert sid in s.chains;
  }

  /** The lookup itself: nothing was revoked before it, and it takes what it finds. */
  lemma LookupFollows(s: State, r: RequestId, pick: Option<SessionId>)
    requires Owned(s) && r in s.requests && AtLookup(s.requests[r])
    ensures Follows(Step(s, Advance(r, pick)), r, Found(s, s.requests[r]))
  {
    var m := NextMove(s, r, s.requests[r], pick);
    StepOfRequest(s, Advance(r, pick), r);
    ApplyShape(s, r, m.effect);
    assert m.effect.Pure? && m.next.RevokeEach?;
    assert m.next.matched == Found(s, s.requests[r]);
    assert forall sid :: (r, sid) !in s.revocations by {
      forall sid ensures (r, sid) !in s.revocations { assert !Acted(s.requests[r]); }
    }
  }

  /** Nobody gets past a lookup without making it. */
  lemma OnlyThroughLookup(s: State, r: RequestId, pc: Pc, pick: Option<SessionId>, call: Call)
    requires Serves(s, call, pc) && PastLookup(call, NextMove(s, r, pc, pick).next) && !PastLookup(call, pc)
    ensures AtLookup(pc)
  {
  }

  lemma {:induction false} LookupWasMade(config: Config, events: seq<Event>, r: RequestId) returns (k: nat)
    requires var s := Run(Init(config), events);
      r in s.requests && r in s.calls && PastLookup(s.calls[r], s.requests[r])
    ensures LooksUp(config, events, k, r)
    ensures var s0, s := Run(Init(config), events[..k]), Run(Init(config), events);
      s0.calls[r] == s.calls[r] && Follows(s, r, Found(s0, s0.requests[r]))
  {
    var n := |events| - 1;
    var head, e := events[..n], events[n];
    var mid := Run(Init(config), head);
    EveryRunIsOwned(config, head);
    if r !in mid.requests { NewRequestIsStarted(mid, e, r); }
    StepOfRequest(mid, e, r);
    StepKeepsCalls(mid, e, r);
    if PastLookup(mid.calls[r], mid.requests[r]) {
      k := LookupWasMade(config, head, r);
      assert head[..k] == events[..k];
      var s0 := Run(Init(config), events[..k]);
      if e.Advance? && e.r == r {
        OwnMoveFollows(mid, r, e.pick, Found(s0, s0.requests[r]));
      } else {
        OtherStepsFollow(mid, e, r, Found(s0, s0.requests[r]));
      }
    } else {
      assert Serves(mid, mid.calls[r], mid.requests[r]);
      OnlyThroughLookup(mid, r, mid.requests[r], e.pick, mid.calls[r]);
      LookupFollows(mid, r, e.pick);
      k := n;
    }
  }

  lemma {:induction false} RunSplits(s: State, events: seq<Event>, k: nat)
    requires k <= |events|
    ensures Run(s, events) == Run(Run(s, events[..k]), events[k..])
  {
    var n := |events| - 1;
    if k == |events| {
      assert events[..k] == events && events[k..] == [];
    } else {
      var head, tail := events[..n], events[k..];
      RunSplits(s, head, k);
      assert head[..k] == events[..k];
      assert tail[..|tail| - 1] == head[k..] && tail[|tail| - 1] == events[n];
    }
  }

  /** All sessions the user had at event k, and none but live ones of theirs, were ended by request r. */
  ghost predicate EndedAllOf(config: Config, events: seq<Event>, k: nat, r: RequestId, user: UserId)
    requires k <= |events|
  {
    var s0, s := Run(Init(config), events[..k]), Run(Init(config), events);
    && (forall sid :: OwnedBy(s0, sid, user) ==> Dead(s, sid))
    && (forall sid :: (r, sid) in s.revocations ==> Live(s0, sid) && OwnedBy(s0, sid, user))
  }

  lemma FollowedLookupEndsAll(config: Config, events: seq<Event>, k: nat, r: RequestId, user: UserId)
    requires LooksUp(config, events, k, r)
    requires var s0, s := Run(Init(config), events[..k]), Run(Init(config), events);
      && s0.requests[r].FindLive? && s0.requests[r].user == user
      && Follows(s, r, Found(s0, s0.requests[r])) && s.requests[r].Answered?
    ensures EndedAllOf(config, events, k, r, user)
  {
    var s0, s := Run(Init(config), events[..k]), Run(Init(config), events);
    EveryRunIsOwned(config, events[..k]);
    RunSplits(Init(config), events, k);
    forall sid | OwnedBy(s0, sid, user) ensures Dead(s, sid) {
      OwnerIsKnown(s0, sid, user);
      if Dead(s0, sid) { RunKeepsDead(s0, sid, events[k..]); }
    }
    forall sid | (r, sid) in s.revocations ensures Live(s0, sid) && OwnedBy(s0, sid, user) {
      assert sid in Found(s0, s0.requests[r]);
      SessionsHaveChains(s0, sid);
    }
  }

  /**
   * An answered revocation of all sessions of a user looked them up once: every
   * session the user had at that moment is dead, and what it revoked was live
   * and theirs then. A session opened after the lookup is not touched by it.
   */
  lemma GlobalRevocationIsExact(config: Config, events: seq<Event>, r: RequestId)
    requires var s := Run(Init(config), events);
      r in s.requests && r in s.calls && s.calls[r].RevokeAll? && s.requests[r].Answered?
    ensures exists k: nat ::
      LooksUp(config, events, k, r) && EndedAllOf(config, events, k, r, Run(Init(config), events).calls[r].user)
  {
    var k := LookupWasMade(config, events, r);
    var s0 := Run(Init(config), events[..k]);
    EveryRunIsOwned(config, events[..k]);
    assert Serves(s0, s0.calls[r], s0.requests[r]);
    FollowedLookupEndsAll(config, events, k, r, s0.calls[r].user);
  }

  /**
   * Whoever is answered AUTH_REUSE_DETECTED looked up the sessions of the owner
   * of the presented token: every session that user had at that moment is dead,
   * the reused one included, and nothing else was revoked.
   */
  lemma ReuseRevokesEverySession(config: Config, events: seq<Event>, r: RequestId, token: RefreshToken)
    requires var s := Run(Init(config), events); r in s.requests && s.requests[r] == Answered(ReuseDetected(token))
    ensures OwnedBy(Run(Init(config), events), token.sid, token.user) && Dead(Run(Init(config), events), token.sid)
    ensures exists k: nat :: LooksUp(config, events, k, r) && EndedAllOf(config, events, k, r, token.user)
  {
    EveryRunIsOwned(config, events);
    var s := Run(Init(config), events);
    assert Serves(s, s.calls[r], s.requests[r]);
    var k := LookupWasMade(config, events, r);
    var s0 := Run(Init(config), events[..k]);
    EveryRunIsOwned(config, events[..k]);
    assert Serves(s0, s0.calls[r], s0.requests[r]);
    FollowedLookupEndsAll(config, events, k, r, token.user);
    assert OwnedBy(s0, token.sid, token.user);
  }

  /** What the sweep of request r revoked by the end was idle at event k. */
  ghost predicate RevokedIdleOf(config: Config, events: seq<Event>, k: nat, r: RequestId)
    requires k <= |events|
  {
    var s0, s := Run(Init(config), events[..k]), Run(Init(config), events);
    r in s0.requests && s0.requests[r] == Started(Sweep) &&
    forall sid :: (r, sid) in s.revocations ==> IdleAt(s0, sid)
  }

  ghost predicate EndedIdleOf(config: Config, events: seq<Event>, k: nat)
    requires k <= |events|
  {
    var s0, s := Run(Init(config), events[..k]), Run(Init(config), events);
    forall sid :: IdleAt(s0, sid) ==> Dead(s, sid)
  }

  /**
   * A sweep looks once for the live sessions idle past the horizon: under any
   * interleaving it revokes no other, and when it is done all of them are dead,
   * also those that were used again after it looked.
   */
  lemma SweepRevokesOnlyTheIdle(config: Config, events: seq<Event>, r: RequestId)
    requires var s := Run(Init(config), events);
      r in s.requests && r in s.calls && s.calls[r] == Sweep && !s.requests[r].Started?
    ensures exists k: nat ::
      LooksUp(config, events, k, r) && RevokedIdleOf(config, events, k, r) &&
      (Run(Init(config), events).requests[r].Answered? ==> EndedIdleOf(config, events, k))
  {
    EveryRunIsOwned(config, events);
    var s := Run(Init(config), events);
    assert Serves(s, s.calls[r], s.requests[r]);
    var k := LookupWasMade(config, events, r);
    var s0 := Run(Init(config), events[..k]);
    EveryRunIsOwned(config, events[..k]);
    assert Serves(s0, s0.calls[r], s0.requests[r]);
    forall sid | (r, sid) in s.revocations ensures IdleAt(s0, sid) { assert sid in Found(s0, s0.requests[r]); }
    assert forall sid :: IdleAt(s0, sid) ==> sid in Found(s0, s0.requests[r]);
  }
}
