/** The refresh bookkeeping every automated record carries (a planet, a
    user's FIO data): the last successful refresh, a status, the last error,
    the time of the next retry and the count of consecutive failures.
    Times are whole seconds. */
module Automation {
  import opened Common

  datatype RefreshStatus = Ok | Pending | Retrying | Failed

  /** After this many consecutive failures a record is no longer retried. */
  const MAX_RETRIES: nat := 10
  /** Retry delay of the base model; planets override it with 30. */
  const DEFAULT_RETRY_DELAY_MINUTES: nat := 15
  /** Stored error messages are cut to this many characters. */
  const MAX_ERROR_LENGTH: nat := 2000
  const SECONDS_PER_MINUTE: nat := 60

  /** The five automation columns of one row. */
  datatype AutomationState = AutomationState(
    lastRefreshedAt: int,
    status: RefreshStatus,
    error: Option<string>,
    nextRetryAt: Option<int>,
    errorCount: nat)

  /** Column defaults of a freshly created row. */
  function Initial(now: int): AutomationState
  {
    AutomationState(now, Ok, None, None, 0)
  }

  predicate IsPermanentlyFailed(a: AutomationState)
  {
    a.errorCount >= MAX_RETRIES
  }

  /** A success clears every trace of earlier failures and stamps the
      refresh time. */
  function RecordSuccess(a: AutomationState, now: int): (b: AutomationState)
    ensures b.status == Ok && b.errorCount == 0 && b.error == None && b.nextRetryAt == None
    ensures b.lastRefreshedAt == now
  {
    AutomationState(now, Ok, None, None, 0)
  }

  /** A failure counts once, keeps the last successful refresh time and the
      first characters of the message, and either schedules a retry after
      exactly the delay or gives up for good. */
  function RecordFailure(a: AutomationState, message: string, now: int, delayMinutes: nat): (b: AutomationState)
    ensures b.errorCount == a.errorCount + 1
    ensures b.lastRefreshedAt == a.lastRefreshedAt
    ensures b.error == Some(Prefix(message, MAX_ERROR_LENGTH))
    ensures b.status == Failed <==> a.errorCount + 1 >= MAX_RETRIES
    ensures b.status == Retrying <==> a.errorCount + 1 < MAX_RETRIES
    ensures b.status == Retrying ==> b.nextRetryAt == Some(now + delayMinutes * 60)
    ensures b.status == Failed ==> b.nextRetryAt == None
  {
    var counted := a.(errorCount := a.errorCount + 1, error := Some(Prefix(message, MAX_ERROR_LENGTH)));
    if IsPermanentlyFailed(counted) then
      counted.(status := Failed, nextRetryAt := None)
    else
      counted.(status := Retrying, nextRetryAt := Some(now + delayMinutes * SECONDS_PER_MINUTE))
  }

  /** The outcome of one refresh attempt: `None` on success, the text of the
      exception otherwise. */
  function RecordOutcome(a: AutomationState, error: Option<string>, now: int, delayMinutes: nat): (b: AutomationState)
    ensures Settled(b)
  {
    match error
    case None => RecordSuccess(a, now)
    case Some(message) => RecordFailure(a, message, now, delayMinutes)
  }

  /** The states a recorded outcome can leave behind: the status agrees with
      the failure count, only a retrying record has a retry time, and errors
      are bounded. */
  predicate Settled(a: AutomationState)
  {
    && a.status != Pending
    && (a.status == Ok <==> a.errorCount == 0)
    && (a.status == Failed <==> IsPermanentlyFailed(a))
    && (a.status == Ok ==> a.error == None)
    && (a.status != Ok ==> a.error.Some? && |a.error.value| <= MAX_ERROR_LENGTH)
    && (a.nextRetryAt.Some? <==> a.status == Retrying)
  }

  /** The delay is fixed: it depends neither on the count nor on the error. */
  lemma RetryDelayIsFixed(a: AutomationState, b: AutomationState, m1: string, m2: string, now: int, delayMinutes: nat)
    requires a.errorCount + 1 < MAX_RETRIES && b.errorCount + 1 < MAX_RETRIES
    ensures RecordFailure(a, m1, now, delayMinutes).nextRetryAt == RecordFailure(b, m2, now, delayMinutes).nextRetryAt
  {
  }

  /** One refresh attempt: its outcome and when it finished. */
  datatype Attempt = Attempt(error: Option<string>, at: int)

  /** The state after recording a series of attempts in order. */
  function Replay(a: AutomationState, attempts: seq<Attempt>, delayMinutes: nat): AutomationState
  {
    if |attempts| == 0 then a
    else
      var last := attempts[|attempts| - 1];
      RecordOutcome(Replay(a, attempts[..|attempts| - 1], delayMinutes), last.error, last.at, delayMinutes)
  }

  predicate HasSuccess(attempts: seq<Attempt>)
  {
    exists k :: 0 <= k < |attempts| && attempts[k].error.None?
  }

  /** Failures after the last success. */
  function TrailingFailures(attempts: seq<Attempt>): nat
  {
    if |attempts| == 0 then 0
    else if attempts[|attempts| - 1].error.None? then 0
    else 1 + TrailingFailures(attempts[..|attempts| - 1])
  }

  /** The failure count is the number of consecutive failures: those since
      the last success, or all of them added to the old count. */
  lemma {:induction false} ReplayErrorCount(a: AutomationState, attempts: seq<Attempt>, delayMinutes: nat)
    ensures Replay(a, attempts, delayMinutes).errorCount ==
      if HasSuccess(attempts) then TrailingFailures(attempts) else a.errorCount + |attempts|
  {
    if |attempts| > 0 {
      var init := attempts[..|attempts| - 1];
      ReplayErrorCount(a, init, delayMinutes);
      if attempts[|attempts| - 1].error.Some? {
        assert HasSuccess(attempts) <==> HasSuccess(init) by {
          if HasSuccess(attempts) {
            var k :| 0 <= k < |attempts| && attempts[k].error.None?;
            assert init[k] == attempts[k];
          }
          if HasSuccess(init) {
            var k :| 0 <= k < |init| && init[k].error.None?;
            assert attempts[k] == init[k];
          }
        }
      } else {
        assert HasSuccess(attempts);
      }
    }
  }

  /** A success forgets the history before it: two records that go through
      the same series of attempts containing a success end up equal. */
  lemma {:induction false} SuccessForgetsHistory(a: AutomationState, b: AutomationState, attempts: seq<Attempt>, delayMinutes: nat)
    requires HasSuccess(attempts)
    ensures Replay(a, attempts, delayMinutes) == Replay(b, attempts, delayMinutes)
  {
    var init := attempts[..|attempts| - 1];
    if attempts[|attempts| - 1].error.Some? {
      var k :| 0 <= k < |attempts| && attempts[k].error.None?;
      assert init[k] == attempts[k];
      SuccessForgetsHistory(a, b, init, delayMinutes);
    }
  }

  /** Starting from a healthy record, an unbroken run of failures is retried
      until the tenth, which marks the record failed; the last successful
      refresh time is kept throughout. */
  lemma {:induction false} FailureRun(a: AutomationState, attempts: seq<Attempt>, delayMinutes: nat)
    requires a.errorCount == 0
    requires |attempts| > 0
    requires forall k :: 0 <= k < |attempts| ==> attempts[k].error.Some?
    ensures var b := Replay(a, attempts, delayMinutes);
      && b.errorCount == |attempts|
      && b.lastRefreshedAt == a.lastRefreshedAt
      && (b.status == Failed <==> |attempts| >= MAX_RETRIES)
      && (b.status == Retrying <==> |attempts| < MAX_RETRIES)
  {
    var init := attempts[..|attempts| - 1];
    ReplayErrorCount(a, attempts, delayMinutes);
    assert !HasSuccess(attempts);
    if |init| > 0 {
      FailureRun(a, init, delayMinutes);
    }
  }

  /** A record carrying the automation columns, with `saved` standing for the
      row as last written to the database. */
  class AutomatedRecord {
    var lastRefreshedAt: int
    var status: RefreshStatus
    var error: Option<string>
    var nextRetryAt: Option<int>
    var errorCount: nat
    const retryDelayMinutes: nat
    var saved: AutomationState

    function State(): AutomationState
      reads this
    {
      AutomationState(lastRefreshedAt, status, error, nextRetryAt, errorCount)
    }

    /** A new row with the column defaults, already stored. */
    constructor (now: int, retryDelayMinutes: nat)
      ensures State() == Initial(now)
      ensures saved == Initial(now)
      ensures this.retryDelayMinutes == retryDelayMinutes
    {
      lastRefreshedAt := now;
      status := Ok;
      error := None;
      nextRetryAt := None;
      errorCount := 0;
      this.retryDelayMinutes := retryDelayMinutes;
      saved := Initial(now);
    }

    /** Records an outcome in the five columns and, when `commit` holds,
        writes exactly those columns. */
    method UpdateRefreshResult(err: Option<string>, now: int, commit: bool)
      modifies this
      ensures State() == RecordOutcome(old(State()), err, now, retryDelayMinutes)
      ensures saved == if commit then State() else old(saved)
      ensures Settled(State())
    {
      if err.None? {
        status := Ok;
        error := None;
        lastRefreshedAt := now;
        nextRetryAt := None;
        errorCount := 0;
      } else {
        errorCount := errorCount + 1;
        error := Some(Prefix(err.value, MAX_ERROR_LENGTH));
        if errorCount >= MAX_RETRIES {
          status := Failed;
          nextRetryAt := None;
        } else {
          status := Retrying;
          nextRetryAt := Some(now + retryDelayMinutes * SECONDS_PER_MINUTE);
        }
      }
      if commit {
        saved := State();
      }
    }

    /** Sets the status to `Pending` and saves the row. */
    method MarkPending()
      modifies this
      ensures State() == old(State()).(status := Pending)
      ensures saved == State()
    {
      status := Pending;
      saved := State();
    }
  }
}
