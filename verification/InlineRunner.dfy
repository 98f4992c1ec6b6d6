/** The in-process notification runner: bounded retry and the bounded dead-letter buffer. */
module InlineRunner {
  import opened Domain

  const MAX_ATTEMPTS := 5
  const DEAD_LETTER_CAPACITY := 100

  /** An error; domain errors carry a string code and a numeric status. */
  datatype Error = Error(message: string, domain: bool, status: nat)

  datatype Outcome = Delivered(index: nat, created: bool) | Dropped | Failed(error: Error)

  datatype Letter = Letter(job: nat, message: string)

  datatype Reply = Done(outcome: Outcome) | DeadLettered

  predicate IsRetryable(e: Error) {
    !(e.domain && e.status < 500)
  }

  /** The last n elements, in order. */
  function Last<T>(xs: seq<T>, n: nat): seq<T> {
    if |xs| <= n then xs else xs[|xs| - n..]
  }

  /** Attempt number n, counted from 1, is the one that settles the job. */
  ghost predicate Settles(outcomes: seq<Outcome>, n: nat) {
    && 1 <= n <= MAX_ATTEMPTS && n <= |outcomes|
    && (forall i :: 0 <= i < n - 1 ==> outcomes[i].Failed? && IsRetryable(outcomes[i].error))
    && (outcomes[n - 1].Failed? ==> n == MAX_ATTEMPTS || !IsRetryable(outcomes[n - 1].error))
  }

  /** The settling attempt is unique: the contract of the runner leaves it no choice. */
  lemma SettlesOnce(outcomes: seq<Outcome>, m: nat, n: nat)
    requires Settles(outcomes, m) && Settles(outcomes, n)
    ensures m == n
  {
  }

  class Worker {
    var deadLetters: seq<Letter>
    /** Every letter the buffer was ever given. */
    ghost var recorded: seq<Letter>

    ghost predicate Valid()
      reads this
    {
      deadLetters == Last(recorded, DEAD_LETTER_CAPACITY)
    }

    constructor ()
      ensures Valid() && recorded == []
    {
      deadLetters, recorded := [], [];
    }

    /**
     * durable is None without a durable queue, and otherwise whether its write
     * succeeded; only when it did not does the letter go to the buffer.
     */
    method RecordDeadLetter(job: nat, error: Error, durable: Option<bool>)
      requires Valid()
      modifies this
      ensures Valid()
      ensures recorded == if durable == Some(true) then old(recorded) else old(recorded) + [Letter(job, error.message)]
      ensures |deadLetters| == (if |recorded| < 100 then |recorded| else 100)
      ensures deadLetters == recorded[|recorded| - |deadLetters|..]
    {
      if durable == Some(true) {
        return;
      }
      deadLetters := deadLetters + [Letter(job, error.message)];
      recorded := recorded + [Letter(job, error.message)];
      if |deadLetters| > DEAD_LETTER_CAPACITY {
        deadLetters := deadLetters[1..];
      }
    }

    method ClearDeadLetters()
      modifies this
      ensures Valid() && deadLetters == [] && recorded == []
    {
      deadLetters, recorded := [], [];
    }

    /**
     * outcomes[i] is what attempt i + 1 gives when it is made. The job is
     * settled by the first attempt that does not fail retryably, or by the
     * fifth; it is dead-lettered exactly when that attempt failed, and then
     * exactly one letter, with that attempt's error, is recorded.
     */
    method RunInline(job: nat, outcomes: seq<Outcome>) returns (reply: Reply, attempts: nat)
      requires Valid() && |outcomes| == MAX_ATTEMPTS
      modifies this
      ensures Valid()
      ensures Settles(outcomes, attempts)
      ensures !outcomes[attempts - 1].Failed? ==> reply == Done(outcomes[attempts - 1]) && recorded == old(recorded)
      ensures outcomes[attempts - 1].Failed? ==>
        reply == DeadLettered && recorded == old(recorded) + [Letter(job, outcomes[attempts - 1].error.message)]
    {
      var lastError := Error("unknown error", false, 0);
      attempts := 0;
      while attempts < MAX_ATTEMPTS
        invariant 0 <= attempts <= MAX_ATTEMPTS
        invariant forall i :: 0 <= i < attempts ==> outcomes[i].Failed? && IsRetryable(outcomes[i].error)
        invariant attempts > 0 ==> lastError == outcomes[attempts - 1].error
        invariant Valid() && recorded == old(recorded)
      {
        var outcome := outcomes[attempts];
        attempts := attempts + 1;
        if !outcome.Failed? {
          return Done(outcome), attempts;
        }
        lastError := outcome.error;
        if !IsRetryable(lastError) {
          break;
        }
      }
      RecordDeadLetter(job, lastError, None);
      reply := DeadLettered;
    }
  }
}
