/** The three counter variants of App.java. Each is a one-field cell holding a
    Java `int`, starting at 0, with `increment` and `get`. Run one call at a
    time, the three behave identically; they differ only in how much of
    `increment` another thread can interleave with, which is modelled in
    module Interleaving. */
module Counters {
  import opened Int32

  /** `CounterWithIssue`: a plain field, updated by a bare `val += 1`. */
  class CounterWithIssue {
    var val: i32

    constructor ()
      ensures val == 0
    {
      val := 0;
    }

    /** The load half of `val += 1`: reads `val` and changes nothing. */
    method Load() returns (loaded: i32)
      ensures loaded == val
    {
      loaded := val;
    }

    /** The store half of `val += 1`: writes the successor of the value
        loaded earlier, whatever `val` holds by now. */
    method Store(loaded: i32)
      modifies this
      ensures val == Succ32(loaded)
    {
      val := Succ32(loaded);
    }

    /** `val += 1` is a load of `val` followed by a store of the loaded
        value plus one; nothing keeps another thread out between the two. */
    method Increment()
      modifies this
      ensures val == Succ32(old(val))
      ensures old(val) as int < MAX ==> val as int == old(val) as int + 1
    {
      var loaded := Load();
      Store(loaded);
    }

    method Get() returns (v: i32)
      ensures v == val
    {
      v := val;
    }
  }

  /** `Counter`: a `volatile` field whose `increment` and `get` are both
      `synchronized` on the instance, so each runs as one indivisible step. */
  class Counter {
    var val: i32

    constructor ()
      ensures val == 0
    {
      val := 0;
    }

    method Increment()
      modifies this
      ensures val == Succ32(old(val))
      ensures old(val) as int < MAX ==> val as int == old(val) as int + 1
    {
      val := Succ32(val);
    }

    method Get() returns (v: i32)
      ensures v == val
    {
      v := val;
    }
  }

  /** `SafeCounterWithoutLock`: the value lives in an `AtomicInteger`;
      `incrementAndGet` is one indivisible read-modify-write (with the same
      wrap-around as `int` addition) and `get` an atomic load. */
  class SafeCounterWithoutLock {
    var counter: i32

    constructor ()
      ensures counter == 0
    {
      counter := 0;
    }

    method Increment()
      modifies this
      ensures counter == Succ32(old(counter))
      ensures old(counter) as int < MAX ==> counter as int == old(counter) as int + 1
    {
      counter := Succ32(counter);
    }

    method Get() returns (v: i32)
      ensures v == counter
    {
      v := counter;
    }
  }
}
