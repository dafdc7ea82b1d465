/** One trial of App.java's `main` submits two tasks, each calling
    `increment` once on the same counter. The thread pool and the memory
    model decide how their work interleaves; here an interleaving is an
    explicit SCHEDULE: the sequence of tasks, one entry per atomic step, in
    the order the steps take effect on the shared cell.

    How many atomic steps an `increment` takes is what distinguishes the
    variants: a `synchronized` method or `AtomicInteger.incrementAndGet` is
    one whole step, while a bare `val += 1` is a load step followed by a
    store step, with the loaded value held privately by the task between
    the two. */
module Interleaving {
  import opened Int32

  /** The two tasks of a trial, `increment1` and `increment2`. */
  datatype Task = First | Second

  datatype Granularity =
    | WholeStep   // `Counter` (synchronized) and `SafeCounterWithoutLock` (atomic)
    | LoadStore   // `CounterWithIssue` (bare `val += 1`)

  /** Where one task is inside its `increment`. */
  datatype Phase =
    | Ready                    // not started
    | Loaded(register: i32)    // has read the cell, not yet written it back
    | Done                     // its write has taken effect

  /** The shared cell and the progress of both tasks. */
  datatype World = World(cell: i32, first: Phase, second: Phase)

  /** A freshly constructed counter, no task started. */
  const Fresh: World := World(0, Ready, Ready)

  function PhaseOf(w: World, t: Task): Phase {
    match t
    case First => w.first
    case Second => w.second
  }

  function WithPhase(w: World, t: Task, ph: Phase): World {
    match t
    case First => w.(first := ph)
    case Second => w.(second := ph)
  }

  function StepsPerTask(g: Granularity): nat {
    match g
    case WholeStep => 1
    case LoadStore => 2
  }

  /** The next atomic step of task `t`; a finished task takes no step. */
  function Step(g: Granularity, w: World, t: Task): World {
    match PhaseOf(w, t)
    case Ready =>
      if g == WholeStep then WithPhase(w.(cell := Succ32(w.cell)), t, Done)
      else WithPhase(w, t, Loaded(w.cell))
    case Loaded(r) => WithPhase(w.(cell := Succ32(r)), t, Done)
    case Done => w
  }

  /** The world after the steps of schedule `s`, first entry first. */
  function Run(g: Granularity, w: World, s: seq<Task>): World
    decreases |s|
  {
    if s == [] then w else Run(g, Step(g, w, s[0]), s[1..])
  }

  function Count(s: seq<Task>, t: Task): nat {
    if s == [] then 0 else (if s[0] == t then 1 else 0) + Count(s[1..], t)
  }

  /** A schedule the join in `main` can release after: each task has been
      given exactly as many steps as its `increment` takes. */
  predicate Complete(g: Granularity, s: seq<Task>) {
    Count(s, First) == StepsPerTask(g) && Count(s, Second) == StepsPerTask(g)
  }

  /** A load/store schedule in which one increment runs entirely before the
      other: no task writes back after the other task has loaded. */
  predicate Serial(s: seq<Task>) {
    s == [First, First, Second, Second] || s == [Second, Second, First, First]
  }

  /** Steps task `t` still needs in phase `ph`. */
  function Remaining(g: Granularity, ph: Phase): nat {
    match ph
    case Ready => StepsPerTask(g)
    case Loaded(_) => 1
    case Done => 0
  }

  /** Number of tasks whose increment has not yet taken effect. */
  function Pending(w: World): nat {
    (if w.first == Done then 0 else 1) + (if w.second == Done then 0 else 1)
  }

  predicate NoneLoaded(w: World) {
    !w.first.Loaded? && !w.second.Loaded?
  }

  lemma {:induction false} CountSum(s: seq<Task>)
    ensures Count(s, First) + Count(s, Second) == |s|
  {
    if s != [] {
      CountSum(s[1..]);
    }
  }

  /** Each step given to a task moves it one step closer to Done, and a
      task that is Done stays Done. */
  lemma {:induction false} RunProgress(g: Granularity, w: World, s: seq<Task>, t: Task)
    ensures Remaining(g, PhaseOf(Run(g, w, s), t))
         == if Count(s, t) >= Remaining(g, PhaseOf(w, t)) then 0
            else Remaining(g, PhaseOf(w, t)) - Count(s, t)
    decreases |s|
  {
    if s != [] {
      RunProgress(g, Step(g, w, s[0]), s[1..], t);
    }
  }

  /** The join releases the validation only after both increments have
      taken effect: after a complete schedule on a fresh counter, both
      tasks are Done. */
  lemma CompleteFinishes(g: Granularity, s: seq<Task>)
    requires Complete(g, s)
    ensures Run(g, Fresh, s).first == Done && Run(g, Fresh, s).second == Done
  {
    RunProgress(g, Fresh, s, First);
    RunProgress(g, Fresh, s, Second);
  }

  /** With whole-step increments no update is lost, under ANY schedule: the
      cell plus the number of pending increments never changes. */
  lemma {:induction false} WholeStepConserves(w: World, s: seq<Task>)
    requires NoneLoaded(w)
    requires w.cell as int + Pending(w) <= MAX
    ensures NoneLoaded(Run(WholeStep, w, s))
    ensures Run(WholeStep, w, s).cell as int + Pending(Run(WholeStep, w, s))
         == w.cell as int + Pending(w)
    decreases |s|
  {
    if s != [] {
      WholeStepConserves(Step(WholeStep, w, s[0]), s[1..]);
    }
  }

  /** `Counter` and `SafeCounterWithoutLock`: every complete schedule of the
      two increments on a fresh counter leaves it at exactly 2. */
  lemma WholeStepReachesTwo(s: seq<Task>)
    requires Complete(WholeStep, s)
    ensures Run(WholeStep, Fresh, s).cell == 2
  {
    CompleteFinishes(WholeStep, s);
    WholeStepConserves(Fresh, s);
  }

  /** The complete whole-step schedules are exactly the two orderings of
      the two increments. */
  lemma WholeStepSchedules(s: seq<Task>)
    ensures Complete(WholeStep, s) <==> s == [First, Second] || s == [Second, First]
  {
    if Complete(WholeStep, s) {
      CountSum(s);
      var a, b := s[0], s[1];
      assert s[1..] == [b] && s[1..][1..] == [];
      assert Count(s, First) == (if a == First then 1 else 0) + (if b == First then 1 else 0);
      assert s == [a, b];
    }
    if s == [First, Second] || s == [Second, First] {
      assert s[1..] == [s[1]] && s[1..][1..] == [];
      assert Count(s, First) == 1 && Count(s, Second) == 1 by {
        assert Count([s[1]], First) == (if s[1] == First then 1 else 0);
        assert Count([s[1]], Second) == (if s[1] == Second then 1 else 0);
      }
    }
  }

  /** `CounterWithIssue`: a complete load/store schedule on a fresh counter
      ends at 2 exactly when the two increments do not overlap, and loses
      one update (ends at 1) in every other schedule. */
  lemma LoadStoreOutcome(s: seq<Task>)
    requires Complete(LoadStore, s)
    ensures Run(LoadStore, Fresh, s).cell == 2 <==> Serial(s)
    ensures Run(LoadStore, Fresh, s).cell == 1 <==> !Serial(s)
  {
    CountSum(s);
    assert |s| == 4;
    var a, b, c, d := s[0], s[1], s[2], s[3];
    assert s == [a, b, c, d];
    assert s[1..] == [b, c, d] && s[1..][1..] == [c, d] && s[1..][1..][1..] == [d];
    var w1 := Step(LoadStore, Fresh, a);
    var w2 := Step(LoadStore, w1, b);
    var w3 := Step(LoadStore, w2, c);
    var w4 := Step(LoadStore, w3, d);
    assert Run(LoadStore, w3, [d]) == w4;
    assert Run(LoadStore, w2, [c, d]) == w4;
    assert Run(LoadStore, w1, [b, c, d]) == w4;
    assert Run(LoadStore, Fresh, s) == w4;
    assert Count(s, First) == (if a == First then 1 else 0) + (if b == First then 1 else 0)
                             + (if c == First then 1 else 0) + (if d == First then 1 else 0) by {
      assert Count([d], First) == (if d == First then 1 else 0);
      assert Count([c, d], First) == (if c == First then 1 else 0) + Count([d], First);
      assert Count([b, c, d], First) == (if b == First then 1 else 0) + Count([c, d], First);
    }
  }

  /** The lost update the demonstration exists to show: some complete
      schedule of two bare `val += 1` leaves a fresh counter at 1, which the
      check in `main` reports as an incorrect counter value. */
  lemma LostUpdateExists()
    ensures exists s :: Complete(LoadStore, s) && Run(LoadStore, Fresh, s).cell == 1
  {
    var s := [First, Second, First, Second];
    LoadStoreOutcome(s);
  }
}
