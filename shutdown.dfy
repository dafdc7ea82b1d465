/** `waitForThreadPoolShutdown` of App.java: cancel the pool with
    `shutdownNow`, wait up to 10 seconds for it to terminate, and if it has
    not, warn, cancel again and wait once more, warning a second time if
    that wait fails too.

    The pool itself is not modelled. What each `awaitTermination` call
    answers is an input (an oracle): the pool terminated in time, the
    timeout elapsed, or the waiting thread was interrupted, in which case
    `awaitTermination` throws `InterruptedException`, which the routine
    does not catch. The result is the trace of the calls the routine makes
    on the pool and of the lines it writes to standard error. */
module Shutdown {

  /** Timeout of each `awaitTermination` call, in seconds. */
  const TIMEOUT_SECONDS: nat := 10

  /** The two lines the routine writes to standard error. */
  datatype Message = NotCompleted | NotTerminated

  /** The text of each line, as printed. */
  function Text(m: Message): string {
    match m
    case NotCompleted => "Pool did not complete within 10 seconds"
    case NotTerminated => "Pool did not terminate"
  }

  /** What one call of `awaitTermination` does. */
  datatype AwaitResult =
    | Terminated    // returns true
    | TimedOut      // returns false
    | Interrupted   // throws InterruptedException

  datatype Event =
    | ShutdownNow
    | AwaitTermination(seconds: nat, result: AwaitResult)
    | Warning(message: Message)

  /** How the routine ends: normally, or by propagating the exception. */
  datatype Outcome = Returned | InterruptedException

  /** The lines written to standard error while producing `trace`, in order. */
  function StderrLines(trace: seq<Event>): seq<string> {
    if trace == [] then []
    else StderrLines(AllButLast(trace)) + (if Last(trace).Warning? then [Text(Last(trace).message)] else [])
  }

  function Last(trace: seq<Event>): Event
    requires trace != []
  {
    trace[|trace| - 1]
  }

  function AllButLast(trace: seq<Event>): seq<Event>
    requires trace != []
  {
    trace[..|trace| - 1]
  }

  function ShutdownCalls(trace: seq<Event>): nat {
    if trace == [] then 0
    else ShutdownCalls(AllButLast(trace)) + (if Last(trace) == ShutdownNow then 1 else 0)
  }

  function AwaitCalls(trace: seq<Event>): nat {
    if trace == [] then 0
    else AwaitCalls(AllButLast(trace)) + (if Last(trace).AwaitTermination? then 1 else 0)
  }

  /** The longest the routine can block: the sum of the timeouts of its waits. */
  function WaitBudget(trace: seq<Event>): nat {
    if trace == [] then 0
    else WaitBudget(AllButLast(trace)) + (if Last(trace).AwaitTermination? then Last(trace).seconds else 0)
  }

  /** Appending one event adds only that event's share to each tally. */
  lemma Tallies(trace: seq<Event>, e: Event)
    ensures ShutdownCalls(trace + [e]) == ShutdownCalls(trace) + (if e == ShutdownNow then 1 else 0)
    ensures AwaitCalls(trace + [e]) == AwaitCalls(trace) + (if e.AwaitTermination? then 1 else 0)
    ensures WaitBudget(trace + [e]) == WaitBudget(trace) + (if e.AwaitTermination? then e.seconds else 0)
    ensures StderrLines(trace + [e]) == StderrLines(trace) + (if e.Warning? then [Text(e.message)] else [])
  {
  }

  /** The first stage: cancel, then wait. */
  function FirstStage(r: AwaitResult): seq<Event> {
    [ShutdownNow, AwaitTermination(TIMEOUT_SECONDS, r)]
  }

  /** After a first timeout: warn, cancel again, wait again. */
  function Retry(r: AwaitResult): seq<Event> {
    [Warning(NotCompleted), ShutdownNow, AwaitTermination(TIMEOUT_SECONDS, r)]
  }

  /** What the routine does, event by event, given what its two waits
      answer; the second answer matters only after a first timeout. */
  function ShutdownTrace(firstWait: AwaitResult, secondWait: AwaitResult): seq<Event> {
    if firstWait != TimedOut then FirstStage(firstWait)
    else if secondWait != TimedOut then FirstStage(TimedOut) + Retry(secondWait)
    else FirstStage(TimedOut) + Retry(TimedOut) + [Warning(NotTerminated)]
  }

  /** Whether the routine returns or propagates `InterruptedException`. */
  function ShutdownOutcome(firstWait: AwaitResult, secondWait: AwaitResult): Outcome {
    if firstWait == Interrupted || (firstWait == TimedOut && secondWait == Interrupted)
    then InterruptedException
    else Returned
  }

  method WaitForThreadPoolShutdown(firstWait: AwaitResult, secondWait: AwaitResult)
    returns (trace: seq<Event>, outcome: Outcome)
    ensures trace == ShutdownTrace(firstWait, secondWait)
    ensures outcome == ShutdownOutcome(firstWait, secondWait)
    // a first success or interruption ends the routine after one wait
    ensures firstWait != TimedOut ==>
              trace == [ShutdownNow, AwaitTermination(TIMEOUT_SECONDS, firstWait)]
    // a first timeout is followed by the warning, a second cancellation and
    // a second wait whose answer is `secondWait`
    ensures firstWait == TimedOut && secondWait != TimedOut ==>
              trace == [ShutdownNow, AwaitTermination(TIMEOUT_SECONDS, TimedOut), Warning(NotCompleted),
                        ShutdownNow, AwaitTermination(TIMEOUT_SECONDS, secondWait)]
    // and when that wait fails too, by the second warning
    ensures firstWait == TimedOut && secondWait == TimedOut ==>
              trace == [ShutdownNow, AwaitTermination(TIMEOUT_SECONDS, TimedOut), Warning(NotCompleted),
                        ShutdownNow, AwaitTermination(TIMEOUT_SECONDS, TimedOut), Warning(NotTerminated)]
    ensures outcome == InterruptedException <==>
              firstWait == Interrupted || (firstWait == TimedOut && secondWait == Interrupted)
  {
    trace := [ShutdownNow];
    trace := trace + [AwaitTermination(TIMEOUT_SECONDS, firstWait)];
    if firstWait == Interrupted {
      outcome := InterruptedException;
    } else if firstWait == TimedOut {
      trace := trace + [Warning(NotCompleted)];
      trace := trace + [ShutdownNow];
      trace := trace + [AwaitTermination(TIMEOUT_SECONDS, secondWait)];
      if secondWait == Interrupted {
        outcome := InterruptedException;
      } else {
        if secondWait == TimedOut {
          trace := trace + [Warning(NotTerminated)];
        }
        outcome := Returned;
      }
    } else {
      outcome := Returned;
    }
  }

  /** Tallies and stderr lines of the first stage. */
  lemma FirstStageTallies(r: AwaitResult)
    ensures ShutdownCalls(FirstStage(r)) == 1 && AwaitCalls(FirstStage(r)) == 1
    ensures WaitBudget(FirstStage(r)) == TIMEOUT_SECONDS
    ensures StderrLines(FirstStage(r)) == []
  {
    Tallies([], ShutdownNow);
    Tallies([ShutdownNow], AwaitTermination(TIMEOUT_SECONDS, r));
    assert [ShutdownNow] + [AwaitTermination(TIMEOUT_SECONDS, r)] == FirstStage(r);
  }

  /** Tallies and stderr lines of the first stage followed by the retry. */
  lemma RetryTallies(r: AwaitResult)
    ensures ShutdownCalls(FirstStage(TimedOut) + Retry(r)) == 2
    ensures AwaitCalls(FirstStage(TimedOut) + Retry(r)) == 2
    ensures WaitBudget(FirstStage(TimedOut) + Retry(r)) == 2 * TIMEOUT_SECONDS
    ensures StderrLines(FirstStage(TimedOut) + Retry(r)) == [Text(NotCompleted)]
  {
    var first := FirstStage(TimedOut);
    FirstStageTallies(TimedOut);
    Tallies(first, Warning(NotCompleted));
    Tallies(first + [Warning(NotCompleted)], ShutdownNow);
    Tallies(first + [Warning(NotCompleted)] + [ShutdownNow], AwaitTermination(TIMEOUT_SECONDS, r));
    assert first + [Warning(NotCompleted)] + [ShutdownNow] + [AwaitTermination(TIMEOUT_SECONDS, r)]
        == first + Retry(r);
  }

  /** What the escalating shutdown promises, for every pair of answers of
      `awaitTermination`. */
  lemma ShutdownEscalation(firstWait: AwaitResult, secondWait: AwaitResult)
    // the pool is cancelled before anything else, and every wait comes right
    // after a cancellation
    ensures var trace := ShutdownTrace(firstWait, secondWait);
      && |trace| >= 2 && trace[0] == ShutdownNow
      && trace[1] == AwaitTermination(TIMEOUT_SECONDS, firstWait)
      && forall i :: 0 <= i < |trace| && trace[i].AwaitTermination? ==>
           0 < i && trace[i - 1] == ShutdownNow && trace[i].seconds == TIMEOUT_SECONDS
    // termination on the first wait: one cancellation, no warning
    ensures firstWait == Terminated ==>
              ShutdownTrace(firstWait, secondWait) == [ShutdownNow, AwaitTermination(TIMEOUT_SECONDS, Terminated)]
              && ShutdownOutcome(firstWait, secondWait) == Returned
    // bounded escalation: at most two cancellations and two waits, so at
    // most twice the timeout; one of each unless the first wait timed out
    ensures ShutdownCalls(ShutdownTrace(firstWait, secondWait)) <= 2
    ensures AwaitCalls(ShutdownTrace(firstWait, secondWait)) <= 2
    ensures WaitBudget(ShutdownTrace(firstWait, secondWait)) <= 2 * TIMEOUT_SECONDS
    ensures firstWait != TimedOut <==> ShutdownCalls(ShutdownTrace(firstWait, secondWait)) == 1
    ensures firstWait != TimedOut <==> AwaitCalls(ShutdownTrace(firstWait, secondWait)) == 1
    ensures firstWait != TimedOut <==> WaitBudget(ShutdownTrace(firstWait, secondWait)) == TIMEOUT_SECONDS
    // the warnings, in order
    ensures Warning(NotCompleted) in ShutdownTrace(firstWait, secondWait) <==> firstWait == TimedOut
    ensures Warning(NotTerminated) in ShutdownTrace(firstWait, secondWait) <==>
              firstWait == TimedOut && secondWait == TimedOut
    ensures StderrLines(ShutdownTrace(firstWait, secondWait))
         == if firstWait != TimedOut then []
            else if secondWait != TimedOut then [Text(NotCompleted)]
            else [Text(NotCompleted), Text(NotTerminated)]
    // an interruption ends the routine at the interrupted wait
    ensures ShutdownOutcome(firstWait, secondWait) == InterruptedException ==>
              var trace := ShutdownTrace(firstWait, secondWait);
              trace[|trace| - 1] == AwaitTermination(TIMEOUT_SECONDS, Interrupted)
  {
    if firstWait != TimedOut {
      FirstStageTallies(firstWait);
    } else if secondWait != TimedOut {
      RetryTallies(secondWait);
    } else {
      RetryTallies(TimedOut);
      Tallies(FirstStage(TimedOut) + Retry(TimedOut), Warning(NotTerminated));
    }
  }
}
