/** The lifetimes of sessions, over the runs of the session protocol, and what the idle sweep may delete. */
module SessionSweep {
  import opened Domain
  import opened Sessions

  /** The cutoff a sweeping request works with. */
  function CutoffOf(pc: Pc): Option<int> {
    match pc
    case RevokeEach(_, _, _, sweep) => sweep
    case MarkEach(_, _, sweep) => sweep
    case DeleteEach(cutoff) => Some(cutoff)
    case _ => None
  }

  /** Sessions live for the refresh lifetime from their last activity, and cutoffs lie an idle horizon back. */
  ghost predicate OnTime(s: State) {
    && (forall sid :: sid in s.sessions ==>
          s.sessions[sid].lastActiveAt <= s.now &&
          s.sessions[sid].expiresAt == s.sessions[sid].lastActiveAt + s.config.refreshMaxAge)
    && (forall r :: r in s.requests && CutoffOf(s.requests[r]).Some? ==>
          CutoffOf(s.requests[r]).value <= s.now - s.config.idleTtl)
  }

  lemma MoveKeepsCutoff(s: State, r: RequestId, pc: Pc, pick: Option<SessionId>)
    ensures var m := NextMove(s, r, pc, pick);
      CutoffOf(m.next).None? || CutoffOf(m.next) == CutoffOf(pc) || CutoffOf(m.next) == Some(s.now - s.config.idleTtl)
  {
  }

  lemma ApplyKeepsLifetimes(s: State, r: RequestId, pick: Option<SessionId>)
    requires OnTime(s) && r in s.requests
    ensures var s' := Apply(s, r, NextMove(s, r, s.requests[r], pick).effect);
      forall sid :: sid in s'.sessions ==>
        s'.sessions[sid].lastActiveAt <= s.now &&
        s'.sessions[sid].expiresAt == s'.sessions[sid].lastActiveAt + s.config.refreshMaxAge
  {
    var m := NextMove(s, r, s.requests[r], pick);
    ApplyShape(s, r, m.effect);
    assert m.effect.Create? ==>
      m.effect.session.lastActiveAt == s.now && m.effect.session.expiresAt == s.now + s.config.refreshMaxAge;
  }

  lemma StepKeepsOnTime(s: State, e: Event)
    requires OnTime(s)
    ensures OnTime(Step(s, e))
  {
    if e.Advance? && e.r in s.requests {
      var m := NextMove(s, e.r, s.requests[e.r], e.pick);
      ApplyShape(s, e.r, m.effect);
      ApplyKeepsLifetimes(s, e.r, e.pick);
      MoveKeepsCutoff(s, e.r, s.requests[e.r], e.pick);
      assert Step(s, e).requests == s.requests[e.r := m.next];
    }
  }

  lemma {:induction false} RunKeepsOnTime(s: State, events: seq<Event>)
    requires OnTime(s)
    ensures OnTime(Run(s, events))
  {
    if events != [] {
      RunKeepsOnTime(s, events[..|events| - 1]);
      StepKeepsOnTime(Run(s, events[..|events| - 1]), events[|events| - 1]);
    }
  }

  /**
   * Under any interleaving a session document disappears only when it is
   * revoked, expired before the horizon, and so unused for the whole refresh
   * lifetime before that.
   */
  lemma OnlyRevokedSessionsAreDeleted(config: Config, events: seq<Event>, e: Event, sid: SessionId)
    requires sid in Run(Init(config), events).sessions && sid !in Step(Run(Init(config), events), e).sessions
    ensures var s := Run(Init(config), events);
      && s.sessions[sid].revokedAt.Some?
      && s.sessions[sid].expiresAt < s.now - s.config.idleTtl
      && s.sessions[sid].lastActiveAt < s.now - s.config.idleTtl - s.config.refreshMaxAge
  {
    var s := Run(Init(config), events);
    EveryRunRotates(config, events);
    RunKeepsOnTime(Init(config), events);
    if e.Advance? && e.r in s.requests {
      assert RequestOk(s, e.r, s.requests[e.r]);
      MovesAreLegal(s, e.r, e.pick);
      ApplyShape(s, e.r, NextMove(s, e.r, s.requests[e.r], e.pick).effect);
    }
  }

  /** The sweep of request r visits these documents, one after the other. */
  function Visits(r: RequestId, sids: seq<SessionId>): seq<Event> {
    seq(|sids|, i requires 0 <= i < |sids| => Advance(r, Some(sids[i])))
  }

  predicate Expired(s: State, sid: SessionId, cutoff: int) {
    sid in s.sessions && s.sessions[sid].revokedAt.Some? && s.sessions[sid].expiresAt < cutoff
  }

  function Unvisited(s: State, sids: seq<SessionId>, cutoff: int): map<SessionId, Session> {
    map sid | sid in s.sessions && !(sid in sids && Expired(s, sid, cutoff)) :: s.sessions[sid]
  }

  /** Visiting documents in any order deletes exactly those that are revoked and expired past the cutoff. */
  lemma {:induction false} VisitsDeleteTheExpired(s: State, r: RequestId, cutoff: int, sids: seq<SessionId>)
    requires r in s.requests && s.requests[r] == DeleteEach(cutoff)
    ensures Run(s, Visits(r, sids)) == s.(sessions := Unvisited(s, sids, cutoff))
  {
    var events := Visits(r, sids);
    if sids == [] {
      assert Unvisited(s, sids, cutoff) == s.sessions;
    } else {
      var n := |sids| - 1;
      var head, sid := sids[..n], sids[n];
      assert events[..n] == Visits(r, head);
      VisitsDeleteTheExpired(s, r, cutoff, head);
      assert sids == head + [sid];
      var mid := Run(s, Visits(r, head));
      VisitDeletes(mid, r, cutoff, sid);
      assert Unvisited(mid, [sid], cutoff) == Unvisited(s, sids, cutoff);
    }
  }

  lemma VisitDeletes(s: State, r: RequestId, cutoff: int, sid: SessionId)
    requires r in s.requests && s.requests[r] == DeleteEach(cutoff)
    ensures Step(s, Advance(r, Some(sid))) == s.(sessions := Unvisited(s, [sid], cutoff))
  {
    assert s.requests[r := s.requests[r]] == s.requests;
    if Expired(s, sid, cutoff) {
      assert s.sessions - {sid} == Unvisited(s, [sid], cutoff);
    } else {
      assert s.sessions == Unvisited(s, [sid], cutoff);
    }
  }
}
