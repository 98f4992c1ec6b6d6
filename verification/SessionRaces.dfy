/**
 * Runs of the session protocol that show where its promises end: a token that
 * outlives its marker, a request that straddles it, a session opened after a
 * lookup, and a session that is swept although it was just used.
 */
module SessionRaces {
  import opened Domain
  import opened Sessions
  import opened SessionOwners
  import opened Revocation
  import opened AccessGate

  lemma {:induction false} RunCons(s: State, e: Event, rest: seq<Event>)
    ensures Run(s, [e] + rest) == Run(Step(s, e), rest)
  {
    var events := [e] + rest;
    if rest == [] {
      assert events[..0] == [] && events[|events| - 1] == e;
    } else {
      assert events[..|events| - 1] == [e] + rest[..|rest| - 1];
      RunCons(s, e, rest[..|rest| - 1]);
    }
  }

  lemma {:induction false} RunBoth(s: State, a: seq<Event>, b: seq<Event>)
    ensures Run(s, a + b) == Run(Run(s, a), b)
  {
    if b == [] {
      assert a + b == a;
    } else {
      assert (a + b)[..|a + b| - 1] == a + b[..|b| - 1];
      RunBoth(s, a, b[..|b| - 1]);
    }
  }

  lemma RunTwo(s: State, e: Event, f: Event)
    ensures Run(s, [e, f]) == Step(Step(s, e), f)
  {
    RunOne(s, e);
    assert [e, f][..1] == [e];
  }

  lemma RunOne(s: State, e: Event)
    ensures Run(s, [e]) == Step(s, e)
  {
    assert [e][..0] == [];
  }

  lemma RunInThree(s: State, a: seq<Event>, b: seq<Event>, c: seq<Event>)
    ensures Run(s, a + b + c) == Run(Run(Run(s, a), b), c)
  {
    RunBoth(s, a + b, c);
    RunBoth(s, a, b);
  }

  lemma RunThree(s: State, e: Event, f: Event, g: Event)
    ensures Run(s, [e, f, g]) == Step(Step(Step(s, e), f), g)
  {
    assert [e, f, g] == [e] + [f, g];
    RunCons(s, e, [f, g]);
    RunTwo(Step(s, e), f, g);
  }

  const FIRST := RefreshToken(0, 0, 1)
  const ACCESS := AccessToken(0, 0, 0)
  const LATE := AccessToken(0, 0, 2000)

  // --- The parts of the runs ---

  /** User 0 opens session 0. */
  const OPEN := [AddUser(0), Begin(1, Login(0, 0)), Advance(1, None)]

  /** Request 3 is asked to revoke all sessions of user 0, and looks them up. */
  const LOOK := [Begin(3, RevokeAll(0)), Advance(3, None), Advance(3, None)]

  /** It revokes session 0, */
  const END := [Advance(3, Some(0)), Advance(3, None)]

  /** marks it, and answers. */
  const MARK := [Advance(3, Some(0)), Advance(3, None)]

  /** Request 2 presents the first refresh token, and reads the session. */
  const READ := [Begin(2, Refresh(FIRST, true)), Advance(2, None)]

  /** Two seconds later it goes on: it mints, and rotates. */
  const MINT := [Tick(2000), Advance(2, None), Advance(2, None)]

  /** User 0 has just opened session 0, at time 0. */
  function Opened(config: Config): State {
    State(config, 0, {0}, map[0 := Session(0, Sha(FIRST), 0, config.refreshMaxAge, None)], map[], map[],
      map[1 := Answered(LoggedIn(ACCESS, FIRST))], map[1 := Login(0, 0)], {FIRST}, map[0 := [Sha(FIRST)]], {})
  }

  lemma OpenRuns(config: Config)
    ensures Run(Init(config), OPEN) == Opened(config)
  {
    RunThree(Init(config), AddUser(0), Begin(1, Login(0, 0)), Advance(1, None));
  }

  /** Session 0 of user 0 is the only one, and live. */
  predicate Alone(s: State) {
    s.sessions.Keys == {0} && s.sessions[0].user == 0 && s.sessions[0].revokedAt.None?
  }

  lemma LookRuns(s: State)
    requires 3 !in s.requests && Alone(s)
    ensures Run(s, LOOK) ==
      s.(requests := s.requests[3 := RevokeEach({0}, {0}, Done, None)], calls := s.calls[3 := RevokeAll(0)])
  {
    RunThree(s, Begin(3, RevokeAll(0)), Advance(3, None), Advance(3, None));
    var asked := s.(requests := s.requests[3 := FindLive(0, Done)], calls := s.calls[3 := RevokeAll(0)]);
    assert Step(Step(s, Begin(3, RevokeAll(0))), Advance(3, None)) == asked;
    LookupFinds(asked);
  }

  lemma LookupFinds(s: State)
    requires 3 in s.requests && s.requests[3] == FindLive(0, Done) && Alone(s)
    ensures Step(s, Advance(3, None)) == s.(requests := s.requests[3 := RevokeEach({0}, {0}, Done, None)])
  {
    assert (set sid | sid in s.sessions && Live(s, sid) && s.sessions[sid].user == 0) == {0};
  }

  lemma EndRuns(s: State)
    requires 3 in s.requests && s.requests[3] == RevokeEach({0}, {0}, Done, None) && Alone(s)
    ensures Run(s, END) ==
      s.(requests := s.requests[3 := MarkEach({0}, Done, None)],
         sessions := s.sessions[0 := Revoked(s.sessions[0], s.now)],
         revocations := s.revocations + {(3, 0)})
  {
    RunTwo(s, Advance(3, Some(0)), Advance(3, None));
    EndOne(s);
    assert s.requests[3 := RevokeEach({}, {0}, Done, None)][3 := MarkEach({0}, Done, None)] ==
           s.requests[3 := MarkEach({0}, Done, None)];
  }

  lemma EndOne(s: State)
    requires 3 in s.requests && s.requests[3] == RevokeEach({0}, {0}, Done, None) && Alone(s)
    ensures Step(s, Advance(3, Some(0))) ==
      s.(requests := s.requests[3 := RevokeEach({}, {0}, Done, None)],
         sessions := s.sessions[0 := Revoked(s.sessions[0], s.now)],
         revocations := s.revocations + {(3, 0)})
  {
    var none: set<SessionId> := {0} - {0};
    assert none == {};
  }

  lemma MarkRuns(s: State)
    requires 3 in s.requests && s.requests[3] == MarkEach({0}, Done, None)
    ensures Run(s, MARK) == s.(requests := s.requests[3 := Answered(Done)], markers := s.markers[0 := s.now])
  {
    RunTwo(s, Advance(3, Some(0)), Advance(3, None));
    MarkOne(s);
    AnswerAfterMarks(s.(requests := s.requests[3 := MarkEach({}, Done, None)], markers := s.markers[0 := s.now]));
    assert s.requests[3 := MarkEach({}, Done, None)][3 := Answered(Done)] == s.requests[3 := Answered(Done)];
  }

  lemma MarkOne(s: State)
    requires 3 in s.requests && s.requests[3] == MarkEach({0}, Done, None)
    ensures Step(s, Advance(3, Some(0))) ==
      s.(requests := s.requests[3 := MarkEach({}, Done, None)], markers := s.markers[0 := s.now])
  {
    var none: set<SessionId> := {0} - {0};
    assert none == {};
  }

  lemma AnswerAfterMarks(s: State)
    requires 3 in s.requests && s.requests[3] == MarkEach({}, Done, None)
    ensures Step(s, Advance(3, None)) == s.(requests := s.requests[3 := Answered(Done)])
  {
  }

  /** The state when request 3 has killed and marked session 0. */
  function Revoked0(s: State): State
    requires 0 in s.sessions
  {
    s.(requests := s.requests[3 := Answered(Done)], calls := s.calls[3 := RevokeAll(0)],
       sessions := s.sessions[0 := Revoked(s.sessions[0], s.now)], markers := s.markers[0 := s.now],
       revocations := s.revocations + {(3, 0)})
  }

  /** Undisturbed, the revocation of all sessions kills and marks session 0 now. */
  lemma RevokeRuns(s: State)
    requires 3 !in s.requests && Alone(s)
    ensures Run(s, LOOK + END + MARK) == Revoked0(s)
  {
    RunInThree(s, LOOK, END, MARK);
    LookRuns(s);
    var s1 := s.(requests := s.requests[3 := RevokeEach({0}, {0}, Done, None)], calls := s.calls[3 := RevokeAll(0)]);
    EndRuns(s1);
    EndAndMark(s, s1);
  }

  lemma EndAndMark(s: State, s1: State)
    requires Alone(s)
    requires s1 ==
      s.(requests := s.requests[3 := RevokeEach({0}, {0}, Done, None)], calls := s.calls[3 := RevokeAll(0)])
    ensures Run(Run(s1, END), MARK) == Revoked0(s)
  {
    EndRuns(s1);
    MarkRuns(Run(s1, END));
    assert s1.requests[3 := MarkEach({0}, Done, None)][3 := Answered(Done)] == s.requests[3 := Answered(Done)];
  }

  lemma ReadRuns(s: State)
    requires 2 !in s.requests && FIRST in s.handedOut && Alone(s)
    ensures Run(s, READ) ==
      s.(requests := s.requests[2 := ReadUser(FIRST, s.sessions[0])], calls := s.calls[2 := Refresh(FIRST, true)])
  {
    RunTwo(s, Begin(2, Refresh(FIRST, true)), Advance(2, None));
  }

  lemma MintRuns(s: State, seen: Session)
    requires s.now == 0 && 0 in s.users && 0 in s.sessions && s.sessions[0].hash == Sha(FIRST)
    requires 2 in s.requests && s.requests[2] == ReadUser(FIRST, seen) && seen.user == 0 && seen.hash == Sha(FIRST)
    ensures var s' := Run(s, MINT);
      && s'.now == 2000 && s'.config == s.config && s'.markers == s.markers && s'.blacklist == s.blacklist
      && s'.calls == s.calls && s'.requests == s.requests[2 := Answered(Refreshed(FIRST, LATE, RefreshToken(0, 0, 2)))]
      && 0 in s'.sessions && s'.sessions[0].revokedAt == s.sessions[0].revokedAt && s.chains.Keys <= s'.chains.Keys
  {
    RunThree(s, Tick(2000), Advance(2, None), Advance(2, None));
    var late := s.(now := 2000);
    assert Step(s, Tick(2000)) == late;
    assert Step(late, Advance(2, None)) ==
      late.(requests := s.requests[2 := Rotating(FIRST, RefreshToken(0, 0, 2), LATE)]);
  }

  // --- A token that outlives its marker ---

  const RACE := OPEN + READ + (LOOK + END + MARK) + MINT

  lemma RaceRuns(config: Config)
    ensures var s := Run(Init(config), RACE);
      && s.config == config && s.now == 2000 && s.markers == map[0 := 0] && s.blacklist == map[]
      && 2 in s.requests && 3 in s.requests && 2 in s.calls && 3 in s.calls
      && s.calls[3] == RevokeAll(0) && s.requests[3] == Answered(Done)
      && s.requests[2] == Answered(Refreshed(FIRST, LATE, RefreshToken(0, 0, 2)))
      && Dead(s, 0)
  {
    RunBoth(Init(config), OPEN + READ + (LOOK + END + MARK), MINT);
    RunBoth(Init(config), OPEN + READ, LOOK + END + MARK);
    RunBoth(Init(config), OPEN, READ);
    OpenRuns(config);
    ReadRuns(Opened(config));
    RevokeRuns(Run(Opened(config), READ));
    MintRuns(Run(Init(config), OPEN + READ + (LOOK + END + MARK)), Opened(config).sessions[0]);
  }

  /**
   * A refresh reads the session, all sessions of its user are revoked and
   * marked, and only then it mints and rotates: it is answered tokens, and its
   * access token is not refused for ever, although the session is dead.
   */
  lemma RacingRefreshOutlivesTheMarker(config: Config)
    requires config.accessMaxAge >= 1000
    ensures var s := Run(Init(config), RACE);
      && 2 in s.requests && 3 in s.requests && 3 in s.calls
      && s.calls[3] == RevokeAll(LATE.user) && s.requests[3] == Answered(Done)
      && s.requests[2].Answered? && s.requests[2].reply.Refreshed? && s.requests[2].reply.access == LATE
      && Dead(s, LATE.sid) && LATE.sid in s.markers && !RefusedForEver(s, LATE)
  {
    RaceRuns(config);
    MarkedTokenIsRefusedIff(config, RACE, LATE);
    LifetimesDifferBySlack(config, LATE);
  }

  // --- A request that straddles the lapse of a marker ---

  const REVOKED := OPEN + (LOOK + END + MARK)

  /** The last millisecond in which the token is good, and the first in which the marker has lapsed. */
  function LastGood(config: Config): int {
    1000 * ExpiresAt(config, ACCESS) - 1
  }

  function At(config: Config, now: nat): State {
    Run(Init(config), REVOKED).(now := now)
  }

  /**
   * A request that verifies a token just before it expires and looks for the
   * marker after that has lapsed is accepted, although the session was revoked
   * and marked when the token was already out.
   */
  lemma StraddlingRequestPasses(config: Config)
    requires config.accessMaxAge >= 1000
    ensures var s := Run(Init(config), REVOKED);
      && s.now == 0 && Dead(s, 0) && 0 in s.markers && ACCESS.mintedAt <= s.markers[0] && RefusedForEver(s, ACCESS)
    ensures LastGood(config) >= 0 && LastGood(config) < MarkerLapsesAt(config, 0)
    ensures var s1, s2 := At(config, LastGood(config)), At(config, MarkerLapsesAt(config, 0));
      && s1 == Step(Run(Init(config), REVOKED), Tick(LastGood(config)))
      && s2 == Step(s1, Tick(MarkerLapsesAt(config, 0) - LastGood(config)))
      && Authenticate(s1, s1, s2, s2, ACCESS).Accept?
  {
    RunBoth(Init(config), OPEN, LOOK + END + MARK);
    OpenRuns(config);
    RevokeRuns(Opened(config));
    MarkedTokenIsRefusedIff(config, REVOKED, ACCESS);
    MarkerOutlivesToken(config, ACCESS, 0);
    LifetimesDifferBySlack(config, ACCESS);
  }

  // --- A session opened after a lookup ---

  /** Request 1 looks for the sessions of user 0, who has none yet; user 0 logs in; request 1 finishes. */
  const LOOK_EARLY := [Begin(1, RevokeAll(0)), Advance(1, None), Advance(1, None)]
  const OPEN_LATE := [Begin(2, Login(0, 0)), Advance(2, None)]
  const FINISH := [Advance(1, None), Advance(1, None)]

  /** A session opened between the lookup of a revocation of all sessions and its end survives it. */
  lemma LateSessionSurvives(config: Config)
    ensures var s := Run(Init(config), LOOK_EARLY + OPEN_LATE + FINISH);
      && 1 in s.calls && 1 in s.requests && s.calls[1] == RevokeAll(0) && s.requests[1] == Answered(Done)
      && Live(s, 0) && OwnedBy(s, 0, 0)
  {
    RunInThree(Init(config), LOOK_EARLY, OPEN_LATE, FINISH);
    NothingIsFound(config);
    var found := Run(Init(config), LOOK_EARLY);
    OpenLateRuns(found);
    FinishRuns(Run(found, OPEN_LATE));
  }

  lemma NothingIsFound(config: Config)
    ensures Run(Init(config), LOOK_EARLY) ==
      Init(config).(requests := map[1 := RevokeEach({}, {}, Done, None)], calls := map[1 := RevokeAll(0)])
  {
    var s := Init(config);
    RunThree(s, Begin(1, RevokeAll(0)), Advance(1, None), Advance(1, None));
    var asked := s.(requests := map[1 := FindLive(0, Done)], calls := map[1 := RevokeAll(0)]);
    assert Step(Step(s, Begin(1, RevokeAll(0))), Advance(1, None)) == asked;
    LookupOfNobody(asked);
  }

  lemma LookupOfNobody(s: State)
    requires 1 in s.requests && s.requests[1] == FindLive(0, Done)
    requires forall sid :: sid in s.sessions ==> s.sessions[sid].user != 0
    ensures Step(s, Advance(1, None)) == s.(requests := s.requests[1 := RevokeEach({}, {}, Done, None)])
  {
    assert (set sid | sid in s.sessions && Live(s, sid) && s.sessions[sid].user == 0) == {};
  }

  lemma OpenLateRuns(s: State)
    requires 1 in s.requests && 1 in s.calls && 2 !in s.requests && 0 !in s.chains
    ensures var s' := Run(s, OPEN_LATE);
      && 1 in s'.requests && s'.requests[1] == s.requests[1] && 1 in s'.calls && s'.calls[1] == s.calls[1]
      && Live(s', 0) && OwnedBy(s', 0, 0)
  {
    RunTwo(s, Begin(2, Login(0, 0)), Advance(2, None));
  }

  lemma FinishRuns(s: State)
    requires 1 in s.requests && s.requests[1] == RevokeEach({}, {}, Done, None)
    ensures Run(s, FINISH) == s.(requests := s.requests[1 := Answered(Done)])
  {
    RunTwo(s, Advance(1, None), Advance(1, None));
    NothingToRevoke(s);
    NothingToMark(s.(requests := s.requests[1 := MarkEach({}, Done, None)]));
    assert s.requests[1 := MarkEach({}, Done, None)][1 := Answered(Done)] == s.requests[1 := Answered(Done)];
  }

  lemma NothingToRevoke(s: State)
    requires 1 in s.requests && s.requests[1] == RevokeEach({}, {}, Done, None)
    ensures Step(s, Advance(1, None)) == s.(requests := s.requests[1 := MarkEach({}, Done, None)])
  {
  }

  lemma NothingToMark(s: State)
    requires 1 in s.requests && s.requests[1] == MarkEach({}, Done, None)
    ensures Step(s, Advance(1, None)) == s.(requests := s.requests[1 := Answered(Done)])
  {
  }

  // --- A session renewed after the sweep has looked ---

  /** Long after the login the sweep looks, */
  const SWEEP := [Begin(3, Sweep), Advance(3, None)]

  /** a refresh renews the session, */
  const RENEW := [Advance(2, None), Advance(2, None)]

  /** and the sweep revokes what it found. */
  const SEIZE := [Advance(3, Some(0))]

  function WaitAndSweep(config: Config): seq<Event> {
    OPEN + [Tick(config.idleTtl + 1)] + SWEEP
  }

  function RenewThenSeize(): seq<Event> {
    READ + RENEW + SEIZE
  }

  function RenewedRun(config: Config): seq<Event> {
    WaitAndSweep(config) + RenewThenSeize()
  }

  /** The sweep, request 3, has revoked session 0, which a refresh, request 2, has renewed just now. */
  predicate SweptWhileActive(s: State) {
    && 3 in s.calls && 2 in s.requests && s.calls[3] == Sweep
    && s.requests[2].Answered? && s.requests[2].reply.Refreshed? && s.requests[2].reply.refresh.sid == 0
    && (3, 0) in s.revocations && Dead(s, 0) && 0 in s.sessions && s.sessions[0].lastActiveAt == s.now
  }

  /** Request 3 is sweeping, and has found session 0. */
  function Sweeping(s: State): State {
    s.(requests := s.requests[3 := RevokeEach({0}, {0}, Done, Some(1))], calls := s.calls[3 := Sweep])
  }

  predicate IdleAlone(s: State) {
    3 !in s.requests && Alone(s) && s.sessions[0].lastActiveAt == 0
  }

  lemma SweepLooks(s: State)
    requires IdleAlone(s) && s.now == s.config.idleTtl + 1
    ensures Run(s, SWEEP) == Sweeping(s)
  {
    var asked := s.(requests := s.requests[3 := Started(Sweep)], calls := s.calls[3 := Sweep]);
    RunTwo(s, Begin(3, Sweep), Advance(3, None));
    assert Step(s, Begin(3, Sweep)) == asked;
    SweepFinds(asked);
    assert asked.requests[3 := Sweeping(s).requests[3]] == Sweeping(s).requests;
  }

  lemma SweepFinds(s: State)
    requires 3 in s.requests && s.requests[3] == Started(Sweep)
    requires Alone(s) && s.sessions[0].lastActiveAt == 0 && s.now == s.config.idleTtl + 1
    ensures Step(s, Advance(3, None)) == s.(requests := s.requests[3 := RevokeEach({0}, {0}, Done, Some(1))])
  {
    assert (set sid | sid in s.sessions && Live(s, sid) && s.sessions[sid].lastActiveAt < 1) == {0};
  }

  lemma RenewRuns(s: State)
    requires 2 in s.requests && Alone(s) && s.requests[2] == ReadUser(FIRST, s.sessions[0])
    requires 0 in s.users && s.sessions[0].hash == Sha(FIRST)
    ensures var s' := Run(s, RENEW);
      && s'.now == s.now && s'.calls == s.calls && Alone(s') && s'.sessions[0].lastActiveAt == s.now && 0 in s'.chains
      && s'.requests == s.requests[2 := Answered(Refreshed(FIRST, AccessToken(0, 0, s.now), RefreshToken(0, 0, 2)))]
  {
    RunTwo(s, Advance(2, None), Advance(2, None));
    assert Step(s, Advance(2, None)) ==
      s.(requests := s.requests[2 := Rotating(FIRST, RefreshToken(0, 0, 2), AccessToken(0, 0, s.now))]);
  }

  /** A session that a refresh renews after the sweep has looked is revoked although it is active now. */
  lemma RefreshedSessionIsSwept(config: Config)
    ensures SweptWhileActive(Run(Init(config), RenewedRun(config)))
  {
    WaitAndSweepRuns(config);
    WaitedIsReady(config);
    RenewAndRevoke(Sweeping(Waited(config)));
    RunBoth(Init(config), WaitAndSweep(config), RenewThenSeize());
  }

  function Waited(config: Config): State {
    Opened(config).(now := config.idleTtl + 1)
  }

  lemma WaitAndSweepRuns(config: Config)
    ensures Run(Init(config), WaitAndSweep(config)) == Sweeping(Waited(config))
  {
    var wait := Tick(config.idleTtl + 1);
    RunInThree(Init(config), OPEN, [wait], SWEEP);
    OpenRuns(config);
    RunOne(Opened(config), wait);
    assert Step(Opened(config), wait) == Waited(config);
    SweepLooks(Waited(config));
  }

  /** Session 0 can be renewed by request 2, and is in the hands of the sweep. */
  predicate Ready(s: State) {
    && 2 !in s.requests && FIRST in s.handedOut && Alone(s) && 0 in s.users && s.sessions[0].hash == Sha(FIRST)
    && 3 in s.requests && 3 in s.calls && s.calls[3] == Sweep && s.requests[3] == RevokeEach({0}, {0}, Done, Some(1))
  }

  lemma WaitedIsReady(config: Config)
    ensures Ready(Sweeping(Waited(config)))
  {
  }

  lemma RenewAndRevoke(s: State)
    requires Ready(s)
    ensures SweptWhileActive(Run(s, RenewThenSeize()))
  {
    RunInThree(s, READ, RENEW, SEIZE);
    ReadRuns(s);
    RenewRuns(Run(s, READ));
    RunOne(Run(Run(s, READ), RENEW), Advance(3, Some(0)));
  }
}
