/** The trial loop of App.java's `main`: it submits 10,000 trials, each
    constructing a fresh counter, submitting two `increment` tasks to the
    pool, joining them with `allOf`, and then printing "Incorrect counter
    value: N" whenever the counter does not read 2. Every trial is taken to
    reach its join. The pool's choice of interleaving
    for each trial is an input (a schedule, see module Interleaving); the
    report is the sequence of values N that were printed, in trial order. */
module Trials {
  import opened Int32
  import opened Interleaving
  import Counters

  /** Number of trials `main` submits. */
  const TRIALS: nat := 10_000

  /** The value the continuation of the join compares the counter with. */
  const EXPECTED: i32 := 2

  /** Which of the three counter classes a run of trials constructs. As
      written, `main` constructs `SafeCounterWithoutLock` and has the other
      two commented out; here the choice is a parameter. */
  datatype Variant = WithIssue | Synchronized | LockFree

  function GranularityOf(v: Variant): Granularity {
    match v
    case WithIssue => LoadStore
    case Synchronized => WholeStep
    case LockFree => WholeStep
  }

  /** What the check after the join reads from a fresh counter of variant
      `v` whose two increments ran under schedule `s`. */
  function Observed(v: Variant, s: seq<Task>): i32 {
    Run(GranularityOf(v), Fresh, s).cell
  }

  /** The values reported as incorrect by trials run under `schedules`, in
      trial order. */
  function Anomalies(v: Variant, schedules: seq<seq<Task>>): seq<i32>
    decreases |schedules|
  {
    if schedules == [] then []
    else
      var last := Observed(v, schedules[|schedules| - 1]);
      Anomalies(v, schedules[..|schedules| - 1]) + (if last != EXPECTED then [last] else [])
  }

  /** Number of schedules in which the two load/store increments overlap. */
  function OverlappingCount(schedules: seq<seq<Task>>): nat
    decreases |schedules|
  {
    if schedules == [] then 0
    else
      OverlappingCount(schedules[..|schedules| - 1])
      + (if Serial(schedules[|schedules| - 1]) then 0 else 1)
  }

  function PhaseFromDone(done: bool): Phase {
    if done then Done else Ready
  }

  /** One trial with `CounterWithIssue`: each task's `val += 1` is carried
      out as its load step and its store step, at the positions the schedule
      gives them. */
  method RunIssueTrial(s: seq<Task>) returns (observed: i32)
    requires Complete(LoadStore, s)
    ensures observed == Observed(WithIssue, s)
    ensures observed == EXPECTED <==> Serial(s)
    ensures observed == 1 <==> !Serial(s)
  {
    var counter := new Counters.CounterWithIssue();
    var first, second := Ready, Ready;
    for i := 0 to |s|
      invariant Run(LoadStore, World(counter.val, first, second), s[i..]) == Run(LoadStore, Fresh, s)
    {
      assert s[i..][1..] == s[i + 1..];
      var task := s[i];
      var phase := if task == First then first else second;
      match phase {
        case Ready =>
          var loaded := counter.Load();
          phase := Loaded(loaded);
        case Loaded(loaded) =>
          counter.Store(loaded);
          phase := Done;
        case Done =>
      }
      if task == First {
        first := phase;
      } else {
        second := phase;
      }
    }
    observed := counter.Get();
    LoadStoreOutcome(s);
  }

  /** One trial with `Counter`: a task's `synchronized increment` runs
      whole when the schedule first picks that task. */
  method RunSynchronizedTrial(s: seq<Task>) returns (observed: i32)
    requires Complete(WholeStep, s)
    ensures observed == Observed(Synchronized, s)
    ensures observed == EXPECTED
  {
    var counter := new Counters.Counter();
    var firstDone, secondDone := false, false;
    for i := 0 to |s|
      invariant Run(WholeStep, World(counter.val, PhaseFromDone(firstDone), PhaseFromDone(secondDone)), s[i..])
             == Run(WholeStep, Fresh, s)
    {
      assert s[i..][1..] == s[i + 1..];
      if s[i] == First && !firstDone {
        counter.Increment();
        firstDone := true;
      } else if s[i] == Second && !secondDone {
        counter.Increment();
        secondDone := true;
      }
    }
    observed := counter.Get();
    WholeStepReachesTwo(s);
  }

  /** One trial with `SafeCounterWithoutLock`: a task's `incrementAndGet`
      runs whole when the schedule first picks that task. */
  method RunLockFreeTrial(s: seq<Task>) returns (observed: i32)
    requires Complete(WholeStep, s)
    ensures observed == Observed(LockFree, s)
    ensures observed == EXPECTED
  {
    var counter := new Counters.SafeCounterWithoutLock();
    var firstDone, secondDone := false, false;
    for i := 0 to |s|
      invariant Run(WholeStep, World(counter.counter, PhaseFromDone(firstDone), PhaseFromDone(secondDone)), s[i..])
             == Run(WholeStep, Fresh, s)
    {
      assert s[i..][1..] == s[i + 1..];
      if s[i] == First && !firstDone {
        counter.Increment();
        firstDone := true;
      } else if s[i] == Second && !secondDone {
        counter.Increment();
        secondDone := true;
      }
    }
    observed := counter.Get();
    WholeStepReachesTwo(s);
  }

  /** One trial (the body of the loop in `main`) on a fresh counter of
      variant `v`. */
  method RunTrial(v: Variant, s: seq<Task>) returns (observed: i32)
    requires Complete(GranularityOf(v), s)
    ensures observed == Observed(v, s)
    ensures v != WithIssue ==> observed == EXPECTED
    ensures v == WithIssue ==> (observed == EXPECTED <==> Serial(s))
  {
    match v
    case WithIssue => observed := RunIssueTrial(s);
    case Synchronized => observed := RunSynchronizedTrial(s);
    case LockFree => observed := RunLockFreeTrial(s);
  }

  /** The loop of `main`: TRIALS trials, trial `i` run to its join under
      `schedules[i]`; a wrong value is reported and the loop goes on. */
  method RunTrials(v: Variant, schedules: seq<seq<Task>>) returns (report: seq<i32>)
    requires |schedules| == TRIALS
    requires forall i :: 0 <= i < |schedules| ==> Complete(GranularityOf(v), schedules[i])
    ensures report == Anomalies(v, schedules)
    ensures v != WithIssue ==> report == []
    ensures v == WithIssue ==> |report| == OverlappingCount(schedules)
    ensures v == WithIssue ==> forall k :: 0 <= k < |report| ==> report[k] == 1
  {
    report := [];
    for i := 0 to TRIALS
      invariant report == Anomalies(v, schedules[..i])
    {
      var observed := RunTrial(v, schedules[i]);
      if observed != EXPECTED {
        report := report + [observed];
      }
      assert schedules[..i + 1][..i] == schedules[..i];
    }
    assert schedules[..TRIALS] == schedules;
    if v == WithIssue {
      IssueReportsOverlaps(schedules);
    } else {
      WholeStepNeverReports(v, schedules);
    }
  }

  /** With `Counter` or `SafeCounterWithoutLock`, no trial ever reports. */
  lemma {:induction false} WholeStepNeverReports(v: Variant, schedules: seq<seq<Task>>)
    requires v != WithIssue
    requires forall i :: 0 <= i < |schedules| ==> Complete(GranularityOf(v), schedules[i])
    ensures Anomalies(v, schedules) == []
    decreases |schedules|
  {
    if schedules != [] {
      var n := |schedules| - 1;
      WholeStepNeverReports(v, schedules[..n]);
      WholeStepReachesTwo(schedules[n]);
    }
  }

  /** With `CounterWithIssue`, exactly the trials whose increments overlap
      report, and each reports the value 1. */
  lemma {:induction false} IssueReportsOverlaps(schedules: seq<seq<Task>>)
    requires forall i :: 0 <= i < |schedules| ==> Complete(LoadStore, schedules[i])
    ensures |Anomalies(WithIssue, schedules)| == OverlappingCount(schedules)
    ensures forall k :: 0 <= k < |Anomalies(WithIssue, schedules)| ==> Anomalies(WithIssue, schedules)[k] == 1
    decreases |schedules|
  {
    if schedules != [] {
      var n := |schedules| - 1;
      IssueReportsOverlaps(schedules[..n]);
      LoadStoreOutcome(schedules[n]);
    }
  }

  /** Trials are independent: the report of two consecutive runs of trials
      is the report of the first followed by the report of the second. */
  lemma {:induction false} AnomaliesAppend(v: Variant, a: seq<seq<Task>>, b: seq<seq<Task>>)
    ensures Anomalies(v, a + b) == Anomalies(v, a) + Anomalies(v, b)
    decreases |b|
  {
    if b == [] {
      assert a + b == a;
    } else {
      var n := |b| - 1;
      assert (a + b)[..|a + b| - 1] == a + b[..n];
      AnomaliesAppend(v, a, b[..n]);
    }
  }

  /** With `CounterWithIssue`, the pool may choose interleavings under which a
      full run of TRIALS trials reports an incorrect counter value. */
  lemma IssueCanReport()
    ensures exists schedules: seq<seq<Task>> ::
              && |schedules| == TRIALS
              && (forall i :: 0 <= i < |schedules| ==> Complete(LoadStore, schedules[i]))
              && Anomalies(WithIssue, schedules) != []
  {
    var overlap := [First, Second, First, Second];
    LoadStoreOutcome(overlap);
    var schedules := seq(TRIALS, _ => overlap);
    assert schedules[TRIALS - 1] == overlap;
    assert Anomalies(WithIssue, schedules) != [];
  }
}
