# Concurrency-Java, modelled in Dafny

The program is a small concurrency demonstration. It has three versions of
a shared counter. `CounterWithIssue` uses a bare `val += 1`. `Counter` makes
`increment` and `get` `synchronized`. `SafeCounterWithoutLock` wraps an
`AtomicInteger`. Its `main` submits 10,000 trials. Each trial makes a fresh
counter, submits two `increment` tasks to a four-thread pool, joins them,
and prints "Incorrect counter value: N" when the counter does not read 2.
It then shuts the pool down with an escalating two-stage protocol. A
separate routine counts the probable primes in [2, n], once with a
sequential stream and once with a parallel one.

This project models the sequential logic of those pieces:

- `int32.dfy` (module `Int32`): Java's 32-bit `int` and its wrap-around
  increment.
- `counters.dfy` (module `Counters`): the three counter classes, each with its
  one mutable field, a constructor, `Increment` and `Get`. `CounterWithIssue`
  also has `Load` and `Store`, the two halves of its bare `val += 1`.
- `interleaving.dfy` (module `Interleaving`): the two tasks of one trial as an
  explicit schedule of atomic steps over the shared cell. A `synchronized` or
  atomic increment is one whole step. A bare `val += 1` is a load step and
  a store step. The module proves that whole steps always reach 2. It also
  proves that load/store steps reach 2 exactly when the two increments do
  not overlap, and 1 otherwise.
- `trials.dfy` (module `Trials`): one trial on a freshly allocated counter
  object, driven by a schedule, and the loop of 10,000 trials, each run to
  its join, returning the values it would report.
- `shutdown.dfy` (module `Shutdown`): `waitForThreadPoolShutdown`. The results of
  its two `awaitTermination` calls are inputs, and it returns the trace of
  pool calls and warnings. The function `ShutdownTrace` gives that trace for
  each pair of answers; the lemma `ShutdownEscalation` proves the protocol's
  properties about it.
- `primes.dfy` (module `ProbablePrimes`): the sequential count and the parallel
  count over an arbitrary cut of the range into contiguous chunks, with the
  proof that they agree.

Inputs that stand for the environment:

- The interleaving chosen by the pool and the JVM is a schedule parameter,
  one per trial.
- The answers of `awaitTermination` are parameters: terminated, timed out,
  or interrupted.
- `isProbablePrime(50)` is an arbitrary predicate `int -> bool`.
- The way the parallel stream cuts the range is a parameter: the sizes of
  the chunks.

Which counter class `main` uses is a parameter (`Trials.Variant`). As
written, `main` constructs `SafeCounterWithoutLock` and has the other two
lines commented out.

## Model

| member | source | states |
|---|---|---|
| `Int32.Succ32` | app/src/main/java/concurrency/App.java:65 | the result of Java `int` `+ 1` is congruent to x + 1 modulo 2^32; it is exactly x + 1 below the largest `int` and wraps to the smallest one at it |
| `Int32.Succ32Unique` | app/src/main/java/concurrency/App.java:65 | any 32-bit value congruent to x + 1 modulo 2^32 equals `Succ32(x)`, so wrap-around addition determines the increment |
| `Counters.CounterWithIssue.constructor` | app/src/main/java/concurrency/App.java:62 | a fresh `CounterWithIssue` holds 0 |
| `Counters.CounterWithIssue.Load` | app/src/main/java/concurrency/App.java:65 | the load half of `val += 1` returns the current value and changes nothing |
| `Counters.CounterWithIssue.Store` | app/src/main/java/concurrency/App.java:65 | the store half of `val += 1` writes the 32-bit successor of the value loaded earlier, regardless of what the field holds at the time |
| `Counters.CounterWithIssue.Increment` | app/src/main/java/concurrency/App.java:64-66 | `val += 1` is `Load` then `Store` of the loaded value: run alone, the new value is the 32-bit successor of the old, exactly one more below the largest `int` |
| `Counters.CounterWithIssue.Get` | app/src/main/java/concurrency/App.java:68-70 | returns the stored value and changes nothing |
| `Counters.Counter.constructor` | app/src/main/java/concurrency/App.java:74 | a fresh `Counter` holds 0 |
| `Counters.Counter.Increment` | app/src/main/java/concurrency/App.java:76-78 | the new value is the 32-bit successor of the old, exactly one more below the largest `int` |
| `Counters.Counter.Get` | app/src/main/java/concurrency/App.java:80-82 | returns the stored value and changes nothing |
| `Counters.SafeCounterWithoutLock.constructor` | app/src/main/java/concurrency/App.java:87 | a fresh `SafeCounterWithoutLock` holds 0 |
| `Counters.SafeCounterWithoutLock.Increment` | app/src/main/java/concurrency/App.java:93-95 | `incrementAndGet` makes the new value the 32-bit successor of the old |
| `Counters.SafeCounterWithoutLock.Get` | app/src/main/java/concurrency/App.java:89-91 | returns the stored value and changes nothing |
| `Interleaving.RunProgress` | app/src/main/java/concurrency/App.java:34-37 | each step a schedule gives a task advances that task by one step of its increment, a finished task stays finished, and the other task is unaffected |
| `Interleaving.CompleteFinishes` | app/src/main/java/concurrency/App.java:37-38 | after a complete schedule, the point where `allOf` releases its continuation, both increments have taken effect |
| `Interleaving.WholeStepConserves` | app/src/main/java/concurrency/App.java:76-95 | under any schedule of whole-step increments, the cell plus the number of pending increments never changes, so no update is lost |
| `Interleaving.WholeStepReachesTwo` | app/src/main/java/concurrency/App.java:34-40 | for `Counter` and `SafeCounterWithoutLock`, every complete schedule of the two increments on a fresh counter ends at exactly 2 |
| `Interleaving.WholeStepSchedules` | app/src/main/java/concurrency/App.java:34-35 | the complete whole-step schedules are exactly the two orderings of the two tasks |
| `Interleaving.LoadStoreOutcome` | app/src/main/java/concurrency/App.java:61-71 | with load/store increments on a fresh counter, a complete schedule ends at 2 if and only if one increment runs entirely before the other, and at 1 if and only if they overlap |
| `Interleaving.LostUpdateExists` | app/src/main/java/concurrency/App.java:39-40 | some complete schedule of two bare `val += 1` ends at 1, which the check in `main` reports |
| `Trials.RunIssueTrial` | app/src/main/java/concurrency/App.java:30-44 | a trial on a fresh `CounterWithIssue` reads the value the schedule semantics gives; it is 2 exactly for serial schedules and 1 otherwise |
| `Trials.RunSynchronizedTrial` | app/src/main/java/concurrency/App.java:31-44 | a trial on a fresh `Counter` reads the value the schedule semantics gives, and that value is 2 under every complete schedule |
| `Trials.RunLockFreeTrial` | app/src/main/java/concurrency/App.java:32-44 | a trial on a fresh `SafeCounterWithoutLock` reads the value the schedule semantics gives, and that value is 2 under every complete schedule |
| `Trials.RunTrial` | app/src/main/java/concurrency/App.java:32-44 | one trial of the chosen variant: the observed value matches the schedule semantics, is 2 for the safe variants, and is 2 for `CounterWithIssue` exactly on serial schedules |
| `Trials.RunTrials` | app/src/main/java/concurrency/App.java:29-45 | 10,000 trials, each run to its join under its own schedule; the report lists every observed value other than 2, in trial order; it is empty for the safe variants, and for `CounterWithIssue` it holds one 1 per overlapping schedule |
| `Trials.WholeStepNeverReports` | app/src/main/java/concurrency/App.java:38-41 | with `Counter` or `SafeCounterWithoutLock` the anomaly branch never fires, for any number of trials |
| `Trials.IssueReportsOverlaps` | app/src/main/java/concurrency/App.java:38-41 | with `CounterWithIssue` exactly the overlapping trials report, each with the value 1 |
| `Trials.AnomaliesAppend` | app/src/main/java/concurrency/App.java:29-45 | trials are independent: the report of two consecutive runs of trials is the concatenation of their reports |
| `Trials.IssueCanReport` | app/src/main/java/concurrency/App.java:29-45 | with `CounterWithIssue` there are schedules for a full 10,000-trial run under which it reports an incorrect value |
| `Shutdown.WaitForThreadPoolShutdown` | app/src/main/java/concurrency/App.java:50-59 | for every pair of answers of the two waits, the trace of pool calls and warnings is `ShutdownTrace` of them, given literally per case: a first wait that succeeds or is interrupted ends the routine after one `shutdownNow` and one 10-second wait; a first timeout adds the first warning, a second `shutdownNow` and a second wait; a second timeout adds "Pool did not terminate". The routine propagates `InterruptedException` if and only if a wait it reaches is interrupted |
| `Shutdown.ShutdownEscalation` | app/src/main/java/concurrency/App.java:50-59 | `shutdownNow` comes first and right before every 10-second wait. A first-wait success gives exactly one `shutdownNow` and no warning. There are at most two `shutdownNow` calls and two waits, so at most 20 s of waiting, and exactly one of each unless the first wait times out. The first warning appears if and only if the first wait times out. "Pool did not terminate" appears if and only if both waits time out. The lines on standard error are, in order, none, the first warning, or both warnings. An interruption ends the routine at the interrupted wait |
| `ProbablePrimes.CountIn` | app/src/main/java/concurrency/App.java:163-166 | the filter-count over a half-open interval is at most the interval's length |
| `ProbablePrimes.CountProbablePrimesNoParallel` | app/src/main/java/concurrency/App.java:162-169 | the sequential count over [2, n] is at most n - 1, and 0 when n < 2 |
| `ProbablePrimes.CountProbablePrimesParallel` | app/src/main/java/concurrency/App.java:152-160 | for every test predicate and every cut of [2, n] into contiguous chunks, the parallel count equals the sequential count |
| `ProbablePrimes.CountSplit` | app/src/main/java/concurrency/App.java:155 | the count over two adjacent intervals adds up to the count over their union |
| `ProbablePrimes.ChunkedCountIsCount` | app/src/main/java/concurrency/App.java:152-160 | adding per-chunk counts of consecutive chunks gives the count of the interval they cover |
| `ProbablePrimes.CountDependsOnRange` | app/src/main/java/concurrency/App.java:165 | two tests that agree on the range give the same count |
| `ProbablePrimes.CountAllIff` | app/src/main/java/concurrency/App.java:163-166 | the count equals the interval's length if and only if every integer in it passes the test |
| `ProbablePrimes.CountNoneIff` | app/src/main/java/concurrency/App.java:163-166 | the count is 0 if and only if no integer in the interval passes the test |
| `ProbablePrimes.CountUpToTen` | app/src/main/java/concurrency/App.java:152-169 | with a test that matches exact primality on [2, 10], both counts for n = 10 are 4 |

## Left out

- `getWebpage` (App.java:99-134): HTTP connection and stream reading are I/O only.
- `getPerformancePart3` (App.java:136-149): it only measures wall-clock time and prints it.
- `main` as one procedure: the trial loop (`Trials.RunTrials`) and the shutdown
  (`Shutdown.WaitForThreadPoolShutdown`) are modelled separately. The call to
  `getPerformancePart3` before them and the pool construction
  `newFixedThreadPool(4)` are not modelled. The pool size has no effect on the
  modelled results.
- The real `ExecutorService`, `CompletableFuture.runAsync`, `allOf` and
  `thenApply`: they are represented only by the schedule of one trial. The
  join becomes the requirement that the schedule is complete. The
  continuation becomes the read after the schedule.
- `synchronized`, `volatile` and `AtomicInteger` semantics are represented
  only by an increment taking one indivisible step. The model assumes a
  sequentially consistent cell. Stale reads that the Java memory model would
  allow for the non-`volatile` field of `CounterWithIssue` are not modelled.
- Trials run one after another in the model. In the program the continuations
  of different trials may run in any order. Trials touch disjoint counters,
  so this does not change any trial's value. The model does not capture the
  order in which the lines are printed.
- The report holds the printed values N, not the text "Incorrect counter
  value: N". The second `get()` on line 40 reads the same value as the one
  on line 39, because both increments are finished by then.
- `BigInteger.isProbablePrime(50)` and its 2^-50 error bound: a library call,
  kept as an arbitrary predicate.
- How `.parallel()` really splits the range: it is decided by the runtime and
  modelled as an arbitrary cut into contiguous chunks.
- `n` and the counts are Java `long`s, modelled as unbounded integers. The
  count is at most n - 1, so it never overflows a `long`.
- `Trials.IssueCanReport`: proves only that a reporting run is possible. The
  claim that an anomaly is likely over 10,000 trials is about probability
  and JVM scheduling, and is not modelled.
- `Trials.RunTrials`: every trial is taken to reach its join. In the program
  `main` only submits the tasks and then calls `waitForThreadPoolShutdown`
  (App.java:47), whose `shutdownNow` (App.java:51) can cancel increments of
  trials that have not run yet. Such a trial never completes its `allOf`, so
  its continuation never runs and it prints nothing. The model does not
  capture those trials. The safe variants still never report. For
  `CounterWithIssue` the count of reports is one per overlapping trial among
  the trials that complete.
- `SecurityException` from `shutdownNow` is not modelled; the routine never catches it.
