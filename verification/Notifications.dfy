/**
 * Delivery of notification jobs: an at-least-once runner retries a
 * check, insert, refetch sequence against a unique index. Attempts of any jobs
 * interleave at every store call, may fail at any call, even after the insert
 * took effect, and may stop anywhere.
 */
module Notifications {
  import opened Domain
  import opened InlineRunner
  import Keys

  datatype JobType = FollowEvent | CommentEvent | LikeEvent

  /** Dedupe keys are only ever compared. */
  datatype Key = Key(text: string)

  /** A job after schema validation; valid tells whether it passed. */
  datatype Job = Job(
    kind: JobType, recipient: UserId, actor: UserId, resource: nat, dedupeKey: Key,
    targetSummary: Option<string>, deepLink: Option<string>, valid: bool)

  datatype Notification = Notification(
    recipient: UserId, actor: UserId, kind: JobType, actorName: string, action: string,
    targetSummary: string, deepLink: string, resource: nat, dedupeKey: Key)

  function Action(kind: JobType): string {
    match kind
    case FollowEvent => "started following you"
    case CommentEvent => "commented on your post"
    case LikeEvent => "liked your post"
  }

  function DefaultSummary(kind: JobType): string {
    match kind
    case FollowEvent => "New follower"
    case CommentEvent => "New comment"
    case LikeEvent => "New like"
  }

  function DefaultDeepLink(job: Job): string {
    if job.kind.FollowEvent? then "/users/" + Keys.Decimal(job.actor) else "/posts/" + Keys.Decimal(job.resource)
  }

  function Payload(job: Job, actorName: string): Notification {
    Notification(job.recipient, job.actor, job.kind, actorName, Action(job.kind),
      if job.targetSummary.Some? then job.targetSummary.value else DefaultSummary(job.kind),
      if job.deepLink.Some? then job.deepLink.value else DefaultDeepLink(job),
      job.resource, job.dedupeKey)
  }

  /** Where an attempt stands; each value names the store call it makes next. */
  datatype Stage =
    | ReadActor
    | ReadRecipient(actorName: string)
    | FindExisting(actorName: string)
    | Insert(actorName: string)
    | Refetch

  /** An attempt under way, or how the last one settled the job. */
  datatype Pc =
    | Attempt(n: nat, stage: Stage)
    | Settled(outcome: Outcome)

  /** A stored notification and, as history, the job whose attempt inserted it. */
  datatype Row = Row(note: Notification, creator: RequestId)

  /** outcomes is history: what each attempt of a job came to, in order. */
  datatype State = State(
    users: map<UserId, string>,
    rows: seq<Row>,
    jobs: map<RequestId, Job>,
    requests: map<RequestId, Pc>,
    outcomes: map<RequestId, seq<Outcome>>)

  /**
   * Fail is a dependency failure of the pending store call; tookEffect says
   * whether an insert had reached the database all the same.
   */
  datatype Event =
    | Begin(r: RequestId, job: Job)
    | Advance(r: RequestId)
    | Fail(r: RequestId, tookEffect: bool)
    | PutUser(u: UserId, name: string)
    | RemoveUser(u: UserId)

  function Init(): State {
    State(map[], [], map[], map[], map[])
  }

  function Lookup(rows: seq<Row>, key: Key): Option<nat>
    ensures Lookup(rows, key).Some? ==>
      Lookup(rows, key).value < |rows| && rows[Lookup(rows, key).value].note.dedupeKey == key
    ensures Lookup(rows, key).None? ==> forall i :: 0 <= i < |rows| ==> rows[i].note.dedupeKey != key
  {
    if rows == [] then None
    else if rows[|rows| - 1].note.dedupeKey == key then Some(|rows| - 1)
    else Lookup(rows[..|rows| - 1], key)
  }

  function Goto(s: State, r: RequestId, pc: Pc): State {
    s.(requests := s.requests[r := pc])
  }

  const INVALID_JOB := Failed(Error("Invalid notification job", true, 400))
  const NO_ACTOR := Failed(Error("Notification actor no longer exists", true, 404))
  const NO_ROW := Failed(Error("duplicate key", false, 0))
  const DEPENDENCY_FAILED := Failed(Error("dependency failed", false, 0))

  function OutcomesOf(s: State, r: RequestId): seq<Outcome> {
    if r in s.outcomes then s.outcomes[r] else []
  }

  /** Attempt n is over: a retryable failure leads to the next one while the budget lasts. */
  function End(s: State, r: RequestId, n: nat, outcome: Outcome): State {
    var retry := outcome.Failed? && IsRetryable(outcome.error) && n < MAX_ATTEMPTS;
    Goto(s, r, if retry then Attempt(n + 1, ReadActor) else Settled(outcome))
      .(outcomes := s.outcomes[r := OutcomesOf(s, r) + [outcome]])
  }

  /** What a store call of an attempt leads to: the next stage, the end of the attempt, or an insert and its end. */
  datatype Move = Go(stage: Stage) | Finish(outcome: Outcome) | Store(actorName: string)

  function Decide(users: map<UserId, string>, rows: seq<Row>, job: Job, stage: Stage): Move {
    match stage
    case ReadActor =>
      if !job.valid then Finish(INVALID_JOB)
      else if job.recipient == job.actor then Finish(Dropped)
      else if job.actor !in users then Finish(NO_ACTOR)
      else Go(ReadRecipient(users[job.actor]))
    case ReadRecipient(name) => if job.recipient in users then Go(FindExisting(name)) else Finish(Dropped)
    case FindExisting(name) =>
      var found := Lookup(rows, job.dedupeKey);
      if found.Some? then Finish(Delivered(found.value, false)) else Go(Insert(name))
    case Insert(name) =>
      // The unique index refuses an existing key.
      if Lookup(rows, job.dedupeKey).Some? then Go(Refetch) else Store(name)
    case Refetch =>
      var found := Lookup(rows, job.dedupeKey);
      Finish(if found.Some? then Delivered(found.value, false) else NO_ROW)
  }

  function Stored(s: State, r: RequestId, job: Job, actorName: string): State {
    s.(rows := s.rows + [Row(Payload(job, actorName), r)])
  }

  function Make(s: State, r: RequestId, job: Job, n: nat, m: Move): State {
    match m
    case Go(stage) => Goto(s, r, Attempt(n, stage))
    case Finish(outcome) => End(s, r, n, outcome)
    case Store(name) => End(Stored(s, r, job, name), r, n, Delivered(|s.rows|, true))
  }

  /** The pending call fails; an insert may have reached the database all the same. */
  function Break(s: State, r: RequestId, job: Job, n: nat, m: Move, tookEffect: bool): State {
    End(if tookEffect && m.Store? then Stored(s, r, job, m.actorName) else s, r, n, DEPENDENCY_FAILED)
  }

  predicate Attempting(s: State, r: RequestId) {
    r in s.requests && r in s.jobs && s.requests[r].Attempt?
  }

  function MoveOf(s: State, r: RequestId): Move
    requires Attempting(s, r)
  {
    Decide(s.users, s.rows, s.jobs[r], s.requests[r].stage)
  }

  function Step(s: State, e: Event): State {
    match e
    case Begin(r, job) =>
      if r in s.requests then s else Goto(s, r, Attempt(1, ReadActor)).(jobs := s.jobs[r := job])
    case Advance(r) =>
      if Attempting(s, r) then Make(s, r, s.jobs[r], s.requests[r].n, MoveOf(s, r)) else s
    case Fail(r, tookEffect) =>
      if Attempting(s, r) then Break(s, r, s.jobs[r], s.requests[r].n, MoveOf(s, r), tookEffect) else s
    case PutUser(u, name) => s.(users := s.users[u := name])
    case RemoveUser(u) => s.(users := s.users - {u})
  }

  function Run(s: State, events: seq<Event>): State {
    if events == [] then s else Step(Run(s, events[..|events| - 1]), events[|events| - 1])
  }

  /** So far every attempt failed retryably. */
  ghost predicate AllRetried(outcomes: seq<Outcome>) {
    forall o :: o in outcomes ==> o.Failed? && IsRetryable(o.error)
  }

  ghost predicate PcOk(s: State, r: RequestId) {
    r in s.requests && r in s.jobs &&
    match s.requests[r]
    case Attempt(n, stage) =>
      && 1 <= n <= MAX_ATTEMPTS && |OutcomesOf(s, r)| == n - 1 && AllRetried(OutcomesOf(s, r))
      && (stage.Refetch? ==> Lookup(s.rows, s.jobs[r].dedupeKey).Some?)
      && (!stage.ReadActor? ==> s.jobs[r].valid && s.jobs[r].recipient != s.jobs[r].actor)
    case Settled(outcome) =>
      && Settles(OutcomesOf(s, r), |OutcomesOf(s, r)|) && outcome == OutcomesOf(s, r)[|OutcomesOf(s, r)| - 1]
      && (outcome.Delivered? ==>
            && outcome.index < |s.rows| && s.rows[outcome.index].note.dedupeKey == s.jobs[r].dedupeKey
            && (outcome.created ==> s.rows[outcome.index].creator == r))
  }

  predicate RowOk(s: State, row: Row) {
    && row.creator in s.jobs && s.jobs[row.creator].valid
    && row.note == Payload(s.jobs[row.creator], row.note.actorName)
    && row.note.recipient != row.note.actor
  }

  ghost predicate UniqueKeys(rows: seq<Row>) {
    forall i, j :: 0 <= i < j < |rows| ==> rows[i].note.dedupeKey != rows[j].note.dedupeKey
  }

  ghost predicate Inv(s: State) {
    && UniqueKeys(s.rows)
    && (forall i :: 0 <= i < |s.rows| ==> RowOk(s, s.rows[i]))
    && (forall r :: r in s.requests ==> PcOk(s, r))
    && s.jobs.Keys == s.requests.Keys
    && s.outcomes.Keys <= s.requests.Keys
  }

  /** Rows are only ever appended, each with a key no row had, and jobs never change. */
  ghost predicate Grows(s: State, s': State) {
    && s.rows <= s'.rows
    && (forall r :: r in s.jobs ==> r in s'.jobs && s'.jobs[r] == s.jobs[r])
  }

  lemma LookupGrows(a: seq<Row>, b: seq<Row>, key: Key)
    requires a <= b && Lookup(a, key).Some?
    ensures Lookup(b, key).Some?
  {
    assert b[Lookup(a, key).value].note.dedupeKey == key;
  }

  lemma UniqueLookup(rows: seq<Row>, i: nat)
    requires UniqueKeys(rows) && i < |rows|
    ensures Lookup(rows, rows[i].note.dedupeKey) == Some(i)
  {
  }

  /** Everything but the rows, the request and its outcomes stays; the rows grow by a stored notification only. */
  ghost predicate OnlyMoves(s: State, s': State, r: RequestId, job: Job, m: Move) {
    && s'.users == s.users && s'.jobs == s.jobs
    && s'.requests.Keys == s.requests.Keys + {r} && s'.outcomes.Keys <= s.outcomes.Keys + {r}
    && (forall q :: q in s.requests && q != r ==>
      s'.requests[q] == s.requests[q] && OutcomesOf(s', q) == OutcomesOf(s, q))
    && (s'.rows == s.rows || (m.Store? && s'.rows == s.rows + [Row(Payload(job, m.actorName), r)]))
  }

  lemma MovesOnly(s: State, r: RequestId, job: Job, n: nat, m: Move, tookEffect: bool)
    ensures OnlyMoves(s, Make(s, r, job, n, m), r, job, m)
    ensures OnlyMoves(s, Break(s, r, job, n, m, tookEffect), r, job, m)
  {
    var hit := if tookEffect && m.Store? then Stored(s, r, job, m.actorName) else s;
    EndMovesOne(hit, r, n, DEPENDENCY_FAILED);
    match m
    case Go(_) =>
    case Finish(outcome) => EndMovesOne(s, r, n, outcome);
    case Store(name) => EndMovesOne(Stored(s, r, job, name), r, n, Delivered(|s.rows|, true));
  }

  lemma EndMovesOne(s: State, r: RequestId, n: nat, outcome: Outcome)
    ensures var s' := End(s, r, n, outcome);
      && s'.users == s.users && s'.jobs == s.jobs && s'.rows == s.rows
      && s'.requests.Keys == s.requests.Keys + {r} && s'.outcomes.Keys == s.outcomes.Keys + {r}
      && (forall q :: q in s.requests && q != r ==>
        s'.requests[q] == s.requests[q] && OutcomesOf(s', q) == OutcomesOf(s, q))
  {
  }

  /** A store call of an attempt moves its request alone; other events leave all requests and rows alone. */
  lemma StepShape(s: State, e: Event)
    ensures
      if (e.Advance? || e.Fail?) && Attempting(s, e.r) then OnlyMoves(s, Step(s, e), e.r, s.jobs[e.r], MoveOf(s, e.r))
      else
        var s' := Step(s, e);
        && s'.rows == s.rows && s'.outcomes == s.outcomes
        && if e.Begin? && e.r !in s.requests
           then s'.requests == s.requests[e.r := Attempt(1, ReadActor)] && s'.jobs == s.jobs[e.r := e.job]
           else s'.requests == s.requests && s'.jobs == s.jobs
  {
    if (e.Advance? || e.Fail?) && Attempting(s, e.r) {
      MovesOnly(s, e.r, s.jobs[e.r], s.requests[e.r].n, MoveOf(s, e.r), e.Fail? && e.tookEffect);
    }
  }

  lemma StoresNewKeys(s: State, r: RequestId)
    requires Attempting(s, r) && MoveOf(s, r).Store?
    ensures Lookup(s.rows, s.jobs[r].dedupeKey).None? && s.requests[r].stage == Insert(MoveOf(s, r).actorName)
  {
  }

  lemma StepGrows(s: State, e: Event)
    requires Inv(s)
    ensures Grows(s, Step(s, e))
    ensures UniqueKeys(Step(s, e).rows)
    ensures Step(s, e).jobs.Keys == Step(s, e).requests.Keys && Step(s, e).outcomes.Keys <= Step(s, e).requests.Keys
  {
    StepShape(s, e);
    if (e.Advance? || e.Fail?) && Attempting(s, e.r) && MoveOf(s, e.r).Store? { StoresNewKeys(s, e.r); }
  }

  lemma StepKeepsRow(s: State, e: Event, i: nat)
    requires Inv(s) && i < |Step(s, e).rows|
    ensures RowOk(Step(s, e), Step(s, e).rows[i])
  {
    StepShape(s, e);
    StepGrows(s, e);
    if i < |s.rows| {
      assert RowOk(s, s.rows[i]);
    } else {
      StoresNewKeys(s, e.r);
      assert PcOk(s, e.r);
    }
  }

  lemma GrowthKeepsPc(s: State, s': State, r: RequestId)
    requires Grows(s, s') && PcOk(s, r)
    requires r in s'.requests && s'.requests[r] == s.requests[r] && OutcomesOf(s', r) == OutcomesOf(s, r)
    ensures PcOk(s', r)
  {
    if Lookup(s.rows, s.jobs[r].dedupeKey).Some? { LookupGrows(s.rows, s'.rows, s.jobs[r].dedupeKey); }
  }

  /** Ending attempt n leaves a further attempt, or a job settled as the runner settles it. */
  lemma EndKeepsPc(s: State, mid: State, r: RequestId, outcome: Outcome)
    requires PcOk(s, r) && s.requests[r].Attempt?
    requires mid == s.(rows := mid.rows)
    requires outcome.Delivered? ==>
      && outcome.index < |mid.rows| && mid.rows[outcome.index].note.dedupeKey == s.jobs[r].dedupeKey
      && (outcome.created ==> mid.rows[outcome.index].creator == r)
    ensures PcOk(End(mid, r, s.requests[r].n, outcome), r)
  {
    var outs := OutcomesOf(s, r);
    assert OutcomesOf(End(mid, r, s.requests[r].n, outcome), r) == outs + [outcome];
    forall i | 0 <= i < |outs| ensures outs[i].Failed? && IsRetryable(outs[i].error) { assert outs[i] in outs; }
  }

  /** A decision is sound: what it delivers is there, and a refetch follows only a key that is taken. */
  lemma DecisionIsSound(s: State, r: RequestId)
    requires PcOk(s, r) && Attempting(s, r)
    ensures var job, m := s.jobs[r], MoveOf(s, r);
      match m
      case Go(stage) => (stage.Refetch? ==> Lookup(s.rows, job.dedupeKey).Some?) && job.valid &&
        job.recipient != job.actor
      case Finish(o) => o.Delivered? ==>
        !o.created && o.index < |s.rows| && s.rows[o.index].note.dedupeKey == job.dedupeKey
      case Store(_) => true
  {
  }

  lemma AttemptKeepsPc(s: State, r: RequestId, tookEffect: bool)
    requires PcOk(s, r) && Attempting(s, r)
    ensures PcOk(Step(s, Advance(r)), r)
    ensures PcOk(Step(s, Fail(r, tookEffect)), r)
  {
    var job, m := s.jobs[r], MoveOf(s, r);
    DecisionIsSound(s, r);
    EndKeepsPc(s, if tookEffect && m.Store? then Stored(s, r, job, m.actorName) else s, r, DEPENDENCY_FAILED);
    match m
    case Go(stage) => assert OutcomesOf(Step(s, Advance(r)), r) == OutcomesOf(s, r);
    case Finish(outcome) => EndKeepsPc(s, s, r, outcome);
    case Store(name) => EndKeepsPc(s, Stored(s, r, job, name), r, Delivered(|s.rows|, true));
  }

  lemma StepKeepsPc(s: State, e: Event, r: RequestId)
    requires Inv(s) && r in Step(s, e).requests
    ensures PcOk(Step(s, e), r)
  {
    StepShape(s, e);
    StepGrows(s, e);
    if r in s.requests {
      assert PcOk(s, r);
      if (e.Advance? || e.Fail?) && e.r == r && s.requests[r].Attempt? {
        AttemptKeepsPc(s, r, e.Fail? && e.tookEffect);
      } else {
        GrowthKeepsPc(s, Step(s, e), r);
      }
    }
  }

  lemma StepKeepsInv(s: State, e: Event)
    requires Inv(s)
    ensures Inv(Step(s, e))
  {
    StepGrows(s, e);
    forall i | 0 <= i < |Step(s, e).rows| ensures RowOk(Step(s, e), Step(s, e).rows[i]) { StepKeepsRow(s, e, i); }
    forall r | r in Step(s, e).requests ensures PcOk(Step(s, e), r) { StepKeepsPc(s, e, r); }
  }

  lemma {:induction false} RunKeepsInv(s: State, events: seq<Event>)
    requires Inv(s)
    ensures Inv(Run(s, events))
  {
    if events != [] {
      RunKeepsInv(s, events[..|events| - 1]);
      StepKeepsInv(Run(s, events[..|events| - 1]), events[|events| - 1]);
    }
  }

  // --- What a delivery read ---

  /** Event i of the run is the step in which request r read its actor, and this was the name. */
  predicate ReadsActor(events: seq<Event>, i: int, r: RequestId, actor: UserId, name: string) {
    0 <= i < |events| && events[i] == Advance(r) &&
    var s := Run(Init(), events[..i]);
    r in s.requests && s.requests[r].Attempt? && s.requests[r].stage.ReadActor? && actor in s.users &&
      s.users[actor] == name
  }

  /** Event i of the run is the step in which request r found its recipient. */
  predicate ReadsRecipient(events: seq<Event>, i: int, r: RequestId, recipient: UserId) {
    0 <= i < |events| && events[i] == Advance(r) &&
    var s := Run(Init(), events[..i]);
    r in s.requests && s.requests[r].Attempt? && s.requests[r].stage.ReadRecipient? && recipient in s.users
  }

  /** The request itself read the actor's name, and then found the recipient. */
  ghost predicate ReadBoth(events: seq<Event>, r: RequestId, job: Job, name: string) {
    exists i, j :: ReadsActor(events, i, r, job.actor, name) && i < j && ReadsRecipient(events, j, r, job.recipient)
  }

  ghost predicate StageRead(events: seq<Event>, r: RequestId, job: Job, stage: Stage) {
    match stage
    case ReadRecipient(name) => exists i :: ReadsActor(events, i, r, job.actor, name)
    case FindExisting(name) => ReadBoth(events, r, job, name)
    case Insert(name) => ReadBoth(events, r, job, name)
    case _ => true
  }

  ghost predicate ReadsOk(events: seq<Event>, s: State) {
    && (forall r :: Attempting(s, r) ==> StageRead(events, r, s.jobs[r], s.requests[r].stage))
    && (forall i :: 0 <= i < |s.rows| && s.rows[i].creator in s.jobs ==>
          ReadBoth(events, s.rows[i].creator, s.jobs[s.rows[i].creator], s.rows[i].note.actorName))
  }

  lemma ReadsGrow(events: seq<Event>, e: Event, r: RequestId, job: Job)
    ensures forall i, name :: ReadsActor(events, i, r, job.actor, name) ==>
      ReadsActor(events + [e], i, r, job.actor, name)
    ensures forall name :: ReadBoth(events, r, job, name) ==> ReadBoth(events + [e], r, job, name)
  {
    forall i, name | ReadsActor(events, i, r, job.actor, name) ensures ReadsActor(events + [e], i, r, job.actor, name) {
      assert (events + [e])[..i] == events[..i];
    }
    forall name | ReadBoth(events, r, job, name) ensures ReadBoth(events + [e], r, job, name) {
      var i, j :| ReadsActor(events, i, r, job.actor, name) && i < j && ReadsRecipient(events, j, r, job.recipient);
      assert (events + [e])[..j] == events[..j];
      assert ReadsRecipient(events + [e], j, r, job.recipient);
    }
  }

  /** A request's own step gets past a read only by making it. */
  lemma OwnStepReads(events: seq<Event>, r: RequestId, next: Stage)
    requires var s := Run(Init(), events);
      && Attempting(s, r) && StageRead(events, r, s.jobs[r], s.requests[r].stage)
      && MoveOf(s, r) == Go(next)
    ensures StageRead(events + [Advance(r)], r, Run(Init(), events).jobs[r], next)
  {
    var s, more := Run(Init(), events), events + [Advance(r)];
    var job := s.jobs[r];
    assert more[..|events|] == events;
    ReadsGrow(events, Advance(r), r, job);
    match s.requests[r].stage
    case ReadActor => assert ReadsActor(more, |events|, r, job.actor, s.users[job.actor]);
    case ReadRecipient(name) =>
      var i :| ReadsActor(events, i, r, job.actor, name);
      assert ReadsActor(more, i, r, job.actor, name) && ReadsRecipient(more, |events|, r, job.recipient);
    case _ =>
  }

  /** Where an attempt goes on, it goes where its decision says; where it ends, the next one starts afresh. */
  lemma NextStage(s: State, e: Event, r: RequestId)
    requires Attempting(Step(s, e), r)
    ensures Step(s, e).requests[r].stage.ReadActor? || (Attempting(s, r) && Step(s, e).jobs[r] == s.jobs[r])
    ensures Step(s, e).requests[r].stage.ReadActor? || Step(s, e).requests[r] == s.requests[r] ||
      (e == Advance(r) && MoveOf(s, r) == Go(Step(s, e).requests[r].stage))
  {
    StepShape(s, e);
  }

  lemma StepKeepsStageReads(events: seq<Event>, e: Event, r: RequestId)
    requires var s := Run(Init(), events); ReadsOk(events, s) && Attempting(Step(s, e), r)
    ensures var s' := Step(Run(Init(), events), e); StageRead(events + [e], r, s'.jobs[r], s'.requests[r].stage)
  {
    var s := Run(Init(), events);
    NextStage(s, e, r);
    var next := Step(s, e).requests[r].stage;
    if !next.ReadActor? {
      ReadsGrow(events, e, r, s.jobs[r]);
      if Step(s, e).requests[r] != s.requests[r] { OwnStepReads(events, r, next); }
    }
  }

  /** A new row is the request's own, and its stage has read both users. */
  lemma NewRowIsRead(events: seq<Event>, e: Event, i: nat)
    requires var s := Run(Init(), events); Inv(s) && ReadsOk(events, s)
    requires |Run(Init(), events).rows| <= i < |Step(Run(Init(), events), e).rows|
    ensures var s, s' := Run(Init(), events), Step(Run(Init(), events), e);
      s'.rows[i].creator in s.jobs &&
      ReadBoth(events, s'.rows[i].creator, s.jobs[s'.rows[i].creator], s'.rows[i].note.actorName)
  {
    var s := Run(Init(), events);
    StepShape(s, e);
    StoresNewKeys(s, e.r);
    assert StageRead(events, e.r, s.jobs[e.r], s.requests[e.r].stage);
  }

  lemma StepKeepsRowRead(events: seq<Event>, e: Event, i: nat)
    requires var s := Run(Init(), events); Inv(s) && ReadsOk(events, s)
    requires var s' := Step(Run(Init(), events), e); i < |s'.rows| && s'.rows[i].creator in s'.jobs
    ensures var s' := Step(Run(Init(), events), e);
      ReadBoth(events + [e], s'.rows[i].creator, s'.jobs[s'.rows[i].creator], s'.rows[i].note.actorName)
  {
    var s, s' := Run(Init(), events), Step(Run(Init(), events), e);
    StepGrows(s, e);
    if i < |s.rows| {
      assert RowOk(s, s.rows[i]);
    } else {
      NewRowIsRead(events, e, i);
    }
    ReadsGrow(events, e, s'.rows[i].creator, s'.jobs[s'.rows[i].creator]);
  }

  lemma {:induction false} ReadsAreKept(events: seq<Event>)
    ensures ReadsOk(events, Run(Init(), events))
  {
    if events != [] {
      var head, e := events[..|events| - 1], events[|events| - 1];
      var s := Run(Init(), events);
      assert events == head + [e];
      ReadsAreKept(head);
      RunKeepsInv(Init(), head);
      forall r | Attempting(s, r)
        ensures StageRead(events, r, s.jobs[r], s.requests[r].stage) { StepKeepsStageReads(head, e, r); }
      forall i | 0 <= i < |s.rows| && s.rows[i].creator in s.jobs
        ensures ReadBoth(events, s.rows[i].creator, s.jobs[s.rows[i].creator], s.rows[i].note.actorName)
      {
        StepKeepsRowRead(head, e, i);
      }
    }
  }

  // --- Effectively once ---

  predicate DeliveredAt(s: State, r: RequestId, index: nat, created: bool) {
    r in s.requests && s.requests[r] == Settled(Delivered(index, created))
  }

  /**
   * Effectively once: in every interleaving of repeated, retried and
   * interrupted deliveries there is at most one notification per dedupe key;
   * all deliveries of a key return that one; at most one of them, the one
   * whose attempt inserted it, reports having created it; and its content is
   * the payload of that job, with the name the inserting request itself read
   * for the actor before it found the recipient.
   */
  lemma DeliveredEffectivelyOnce(events: seq<Event>, q: RequestId, i: nat, qCreated: bool, r: RequestId, j: nat,
                                 rCreated: bool)
    requires var s := Run(Init(), events);
      && DeliveredAt(s, q, i, qCreated) && DeliveredAt(s, r, j, rCreated)
      && q in s.jobs && r in s.jobs && s.jobs[q].dedupeKey == s.jobs[r].dedupeKey
    ensures var s := Run(Init(), events);
      && UniqueKeys(s.rows)
      && i == j < |s.rows|
      && (qCreated && rCreated ==> q == r)
      && var row := s.rows[j];
         && row.creator in s.jobs && s.jobs[row.creator].dedupeKey == s.jobs[r].dedupeKey
         && row.note == Payload(s.jobs[row.creator], row.note.actorName)
         && ReadBoth(events, row.creator, s.jobs[row.creator], row.note.actorName)
         && (rCreated ==> row.creator == r)
  {
    RunKeepsInv(Init(), events);
    ReadsAreKept(events);
    var s := Run(Init(), events);
    assert PcOk(s, q) && PcOk(s, r);
    UniqueLookup(s.rows, i);
    UniqueLookup(s.rows, j);
    assert RowOk(s, s.rows[j]);
  }

  lemma {:induction false} OthersLeaveTheRequest(s: State, events: seq<Event>, r: RequestId)
    requires Inv(s) && r in s.requests && forall e :: e in events ==> e != Advance(r) && !(e.Fail? && e.r == r)
    ensures var s' := Run(s, events);
      && Inv(s') && r in s'.requests && r in s'.jobs && s'.requests[r] == s.requests[r] && s'.jobs[r] == s.jobs[r]
      && s.rows <= s'.rows
  {
    if events != [] {
      var head, e := events[..|events| - 1], events[|events| - 1];
      assert e in events && forall x :: x in head ==> x in events;
      OthersLeaveTheRequest(s, head, r);
      StepKeepsInv(Run(s, head), e);
      StepShape(Run(s, head), e);
      StepGrows(Run(s, head), e);
    }
  }

  lemma InsertGoesToRefetch(s: State, r: RequestId)
    requires Attempting(s, r) && s.requests[r].stage.Insert? && Lookup(s.rows, s.jobs[r].dedupeKey).Some?
    ensures Step(s, Advance(r)) == Goto(s, r, Attempt(s.requests[r].n, Refetch))
  {
  }

  lemma RefetchDelivers(s: State, r: RequestId)
    requires Attempting(s, r) && s.requests[r].stage.Refetch? && Lookup(s.rows, s.jobs[r].dedupeKey).Some?
    ensures DeliveredAt(Step(s, Advance(r)), r, Lookup(s.rows, s.jobs[r].dedupeKey).value, false)
  {
  }

  /**
   * An attempt whose insert finds the key taken delivers the notification that
   * took it with its next two store calls, whatever others do in between.
   */
  lemma RefetchFindsTheWinner(events: seq<Event>, r: RequestId, others: seq<Event>)
    requires var s := Run(Init(), events);
      Attempting(s, r) && s.requests[r].stage.Insert? && Lookup(s.rows, s.jobs[r].dedupeKey).Some?
    requires forall e :: e in others ==> e != Advance(r) && !(e.Fail? && e.r == r)
    ensures var s := Run(Init(), events);
      var s' := Step(Run(Step(s, Advance(r)), others), Advance(r));
      DeliveredAt(s', r, Lookup(s.rows, s.jobs[r].dedupeKey).value, false)
  {
    RunKeepsInv(Init(), events);
    var s := Run(Init(), events);
    var winner := Lookup(s.rows, s.jobs[r].dedupeKey).value;
    var s1 := Step(s, Advance(r));
    InsertGoesToRefetch(s, r);
    StepKeepsInv(s, Advance(r));
    OthersLeaveTheRequest(s1, others, r);
    var s2 := Run(s1, others);
    UniqueLookup(s2.rows, winner);
    RefetchDelivers(s2, r);
  }

  // --- Bounded retry ---

  lemma PrefixSettles(outcomes: seq<Outcome>, all: seq<Outcome>, attempts: nat)
    requires Settles(outcomes, |outcomes|) && outcomes <= all && Settles(all, attempts)
    ensures attempts == |outcomes|
  {
    assert forall i :: 0 <= i < |outcomes| ==> all[i] == outcomes[i];
    SettlesOnce(all, attempts, |outcomes|);
  }

  lemma RowsAreOfValidJobs(s: State, r: RequestId)
    requires Inv(s)
    ensures forall i :: 0 <= i < |s.rows| && s.rows[i].creator == r ==>
      r in s.jobs && s.jobs[r].valid && s.jobs[r].recipient != s.jobs[r].actor
  {
    forall i | 0 <= i < |s.rows| && s.rows[i].creator == r
      ensures r in s.jobs && s.jobs[r].valid && s.jobs[r].recipient != s.jobs[r].actor
    {
      assert RowOk(s, s.rows[i]);
    }
  }

  lemma AttemptsOfTheRequest(s: State, r: RequestId, all: seq<Outcome>, attempts: nat)
    requires PcOk(s, r)
    ensures |OutcomesOf(s, r)| <= MAX_ATTEMPTS
    ensures s.requests[r].Attempt? ==> s.requests[r].n == |OutcomesOf(s, r)| + 1 <= MAX_ATTEMPTS
    ensures s.requests[r].Settled? ==>
      && Settles(OutcomesOf(s, r), |OutcomesOf(s, r)|)
      && s.requests[r].outcome == OutcomesOf(s, r)[|OutcomesOf(s, r)| - 1]
      && (OutcomesOf(s, r) <= all && Settles(all, attempts) ==> attempts == |OutcomesOf(s, r)|)
  {
    if s.requests[r].Settled? && OutcomesOf(s, r) <= all && Settles(all, attempts) {
      PrefixSettles(OutcomesOf(s, r), all, attempts);
    }
  }

  /**
   * A job makes one to five attempts, and an invalid or self-directed job never
   * creates anything. Once settled, its attempts are those that the inline
   * runner makes on any outcomes that begin like its own, with the same result.
   */
  lemma AttemptsAreBounded(events: seq<Event>, r: RequestId, all: seq<Outcome>, attempts: nat)
    requires r in Run(Init(), events).requests
    ensures var s := Run(Init(), events);
      && |OutcomesOf(s, r)| <= MAX_ATTEMPTS
      && (s.requests[r].Attempt? ==> s.requests[r].n == |OutcomesOf(s, r)| + 1 <= MAX_ATTEMPTS)
      && (s.requests[r].Settled? ==>
            && Settles(OutcomesOf(s, r), |OutcomesOf(s, r)|)
            && s.requests[r].outcome == OutcomesOf(s, r)[|OutcomesOf(s, r)| - 1]
            && (OutcomesOf(s, r) <= all && Settles(all, attempts) ==> attempts == |OutcomesOf(s, r)|))
      && (forall i :: 0 <= i < |s.rows| && s.rows[i].creator == r ==>
            r in s.jobs && s.jobs[r].valid && s.jobs[r].recipient != s.jobs[r].actor)
  {
    RunKeepsInv(Init(), events);
    var s := Run(Init(), events);
    AttemptsOfTheRequest(s, r, all, attempts);
    RowsAreOfValidJobs(s, r);
  }
}
