/**
 * What a notification says, and what a delivery comes to when nobody
 * interrupts it and no store call fails.
 */
module DeliveryOutcomes {
  import opened Domain
  import opened InlineRunner
  import opened Notifications
  import Keys

  /** The words a client shows for each kind of event. */
  predicate Words(kind: JobType, action: string, summary: string) {
    match kind
    case FollowEvent => action == "started following you" && summary == "New follower"
    case CommentEvent => action == "commented on your post" && summary == "New comment"
    case LikeEvent => action == "liked your post" && summary == "New like"
  }

  /** The notification goes to the job's recipient, and speaks of its actor, kind, resource, summary and link. */
  predicate Tells(note: Notification, job: Job, actorName: string) {
    && note.recipient == job.recipient && note.actor == job.actor && note.actorName == actorName
    && note.kind == job.kind && note.resource == job.resource && note.dedupeKey == job.dedupeKey
    && Words(job.kind, note.action, if job.targetSummary.None? then note.targetSummary else DefaultSummary(job.kind))
    && (job.targetSummary.Some? ==> note.targetSummary == job.targetSummary.value)
    && (job.deepLink.Some? ==> note.deepLink == job.deepLink.value)
    && (job.deepLink.None? && job.kind.FollowEvent? ==> note.deepLink == "/users/" + Keys.Decimal(job.actor))
    && (job.deepLink.None? && !job.kind.FollowEvent? ==> note.deepLink == "/posts/" + Keys.Decimal(job.resource))
  }

  lemma PayloadTells(job: Job, actorName: string)
    ensures Tells(Payload(job, actorName), job, actorName)
  {
  }

  /** In every run each stored notification says what the valid job that created it asked for, and to whom. */
  lemma EveryNotificationTellsItsJob(events: seq<Event>, i: nat)
    requires i < |Run(Init(), events).rows|
    ensures var s := Run(Init(), events);
      var row := s.rows[i];
      && row.creator in s.jobs && s.jobs[row.creator].valid
      && Tells(row.note, s.jobs[row.creator], row.note.actorName) && row.note.recipient != row.note.actor
  {
    RunKeepsInv(Init(), events);
    var s := Run(Init(), events);
    var row := s.rows[i];
    assert RowOk(s, row);
    PayloadTells(s.jobs[row.creator], row.note.actorName);
  }

  // --- A delivery nobody interrupts ---

  /** The next n store calls are all made by request r, and succeed. */
  function Alone(s: State, r: RequestId, n: nat): State
    decreases n
  {
    if n == 0 then s else Alone(Step(s, Advance(r)), r, n - 1)
  }

  predicate Stands(s: State, r: RequestId, job: Job, pc: Pc) {
    r in s.requests && r in s.jobs && s.jobs[r] == job && s.requests[r] == pc
  }

  /** Only the place and the outcomes of request r differ. */
  predicate Moved(s: State, s': State, r: RequestId, job: Job, pc: Pc) {
    Stands(s', r, job, pc) && s'.rows == s.rows && s'.users == s.users
  }

  /** The job is settled by a new notification of request r, which tells it. */
  predicate Creates(s: State, s': State, r: RequestId, job: Job) {
    && Stands(s', r, job, Settled(Delivered(|s.rows|, true)))
    && |s'.rows| == |s.rows| + 1 && s'.rows[..|s.rows|] == s.rows && s'.rows[|s.rows|].creator == r
    && job.actor in s.users && Tells(s'.rows[|s.rows|].note, job, s.users[job.actor])
  }

  lemma {:induction false} SettledStays(s: State, r: RequestId, job: Job, outcome: Outcome, n: nat)
    requires Stands(s, r, job, Settled(outcome))
    ensures Alone(s, r, n) == s
  {
    if n > 0 { SettledStays(Step(s, Advance(r)), r, job, outcome, n - 1); }
  }

  lemma EndSettles(s: State, r: RequestId, job: Job, n: nat, stage: Stage, outcome: Outcome)
    requires Stands(s, r, job, Attempt(n, stage)) && MoveOf(s, r) == Finish(outcome)
    requires !(outcome.Failed? && IsRetryable(outcome.error))
    ensures Moved(s, Step(s, Advance(r)), r, job, Settled(outcome))
  {
    EndMovesOne(s, r, n, outcome);
  }

  lemma Goes(s: State, r: RequestId, job: Job, n: nat, stage: Stage, next: Stage)
    requires Stands(s, r, job, Attempt(n, stage)) && MoveOf(s, r) == Go(next)
    ensures Moved(s, Step(s, Advance(r)), r, job, Attempt(n, next))
  {
  }

  lemma InsertCreates(s: State, r: RequestId, job: Job, n: nat, name: string)
    requires Stands(s, r, job, Attempt(n, Insert(name))) && Lookup(s.rows, job.dedupeKey).None?
    requires job.actor in s.users && s.users[job.actor] == name
    ensures Creates(s, Step(s, Advance(r)), r, job)
  {
    PayloadTells(job, name);
    EndMovesOne(Stored(s, r, job, name), r, n, Delivered(|s.rows|, true));
  }

  /** How a delivery is settled, by the job, the users and the notifications there are. */
  ghost predicate SettledAs(s: State, s': State, r: RequestId, job: Job) {
    if !job.valid then
      exists text :: Moved(s, s', r, job, Settled(Failed(Error(text, true, 400))))
    else if job.recipient == job.actor then Moved(s, s', r, job, Settled(Dropped))
    else if job.actor !in s.users then
      exists text :: Moved(s, s', r, job, Settled(Failed(Error(text, true, 404))))
    else if job.recipient !in s.users then Moved(s, s', r, job, Settled(Dropped))
    else if Lookup(s.rows, job.dedupeKey).Some? then
      Moved(s, s', r, job, Settled(Delivered(Lookup(s.rows, job.dedupeKey).value, false)))
    else Creates(s, s', r, job)
  }

  lemma RefusalsSettle(s: State, r: RequestId, job: Job, n: nat)
    requires Stands(s, r, job, Attempt(n, ReadActor))
    requires !job.valid || job.recipient == job.actor || job.actor !in s.users
    ensures SettledAs(s, Step(s, Advance(r)), r, job) && Step(s, Advance(r)).requests[r].Settled?
  {
    var outcome := if !job.valid then INVALID_JOB else if job.recipient == job.actor then Dropped else NO_ACTOR;
    EndSettles(s, r, job, n, ReadActor, outcome);
  }

  /**
   * A delivery nobody interrupts is settled by its fourth store call at the
   * latest: an invalid job or a missing actor is refused for good, a job to
   * oneself or to a missing recipient is dropped, and any other is delivered
   * once, to its recipient and as it says, by the notification its key has
   * already or by a new one.
   */
  lemma DeliveryIsSettled(s: State, r: RequestId, job: Job, n: nat)
    requires Stands(s, r, job, Attempt(n, ReadActor))
    ensures SettledAs(s, Alone(s, r, 4), r, job)
  {
    var s1 := Step(s, Advance(r));
    if !job.valid || job.recipient == job.actor || job.actor !in s.users {
      RefusalsSettle(s, r, job, n);
      SettledStays(s1, r, job, s1.requests[r].outcome, 3);
    } else {
      var name := s.users[job.actor];
      Goes(s, r, job, n, ReadActor, ReadRecipient(name));
      FoundActorSettles(s1, r, job, n, name);
      assert Alone(s, r, 4) == Alone(s1, r, 3);
    }
  }

  lemma FoundActorSettles(s: State, r: RequestId, job: Job, n: nat, name: string)
    requires Stands(s, r, job, Attempt(n, ReadRecipient(name))) && job.valid && job.recipient != job.actor
    requires job.actor in s.users && s.users[job.actor] == name
    ensures SettledAs(s, Alone(s, r, 3), r, job)
  {
    var s1 := Step(s, Advance(r));
    assert Alone(s, r, 3) == Alone(s1, r, 2);
    if job.recipient !in s.users {
      EndSettles(s, r, job, n, ReadRecipient(name), Dropped);
      SettledStays(s1, r, job, Dropped, 2);
    } else {
      Goes(s, r, job, n, ReadRecipient(name), FindExisting(name));
      FoundBothSettles(s1, r, job, n, name);
    }
  }

  lemma FoundBothSettles(s: State, r: RequestId, job: Job, n: nat, name: string)
    requires Stands(s, r, job, Attempt(n, FindExisting(name))) && job.valid && job.recipient != job.actor
    requires job.actor in s.users && s.users[job.actor] == name && job.recipient in s.users
    ensures SettledAs(s, Alone(s, r, 2), r, job)
  {
    var s1 := Step(s, Advance(r));
    var s2 := Step(s1, Advance(r));
    assert Alone(s, r, 2) == Alone(s1, r, 1) == Alone(s2, r, 0) == s2;
    var found := Lookup(s.rows, job.dedupeKey);
    if found.Some? {
      EndSettles(s, r, job, n, FindExisting(name), Delivered(found.value, false));
      SettledStays(s1, r, job, Delivered(found.value, false), 1);
    } else {
      Goes(s, r, job, n, FindExisting(name), Insert(name));
      InsertCreates(s1, r, job, n, name);
    }
  }

  // --- Which attempt settles a job ---

  /** An outcome that ends the attempts: a delivery, a drop, or an error that is the client's. */
  predicate Terminal(outcome: Outcome) {
    !outcome.Failed? || (outcome.error.domain && outcome.error.status < 500)
  }

  /** The first terminal attempt settles a job, or the fifth when none before it is. */
  lemma SettlesIff(outcomes: seq<Outcome>, n: nat)
    requires |outcomes| == 5
    ensures Settles(outcomes, n) <==>
      && 1 <= n <= 5
      && (forall i :: 0 <= i < n - 1 ==> !Terminal(outcomes[i]))
      && (n == 5 || Terminal(outcomes[n - 1]))
  {
    forall o: Outcome ensures Terminal(o) <==> !(o.Failed? && IsRetryable(o.error)) {}
  }
}
