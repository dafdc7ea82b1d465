/** Java's 32-bit `int`: the type of `val` in the counter classes and of the
    value an `AtomicInteger` holds. Java integer addition wraps around
    modulo 2^32 (section 15.18.2 of the Java Language Specification), so
    adding 1 to the largest `int` yields the smallest one. */
module Int32 {

  const MIN: int := -0x8000_0000
  const MAX: int := 0x7fff_ffff
  const MODULUS: int := 0x1_0000_0000

  newtype i32 = x: int | -0x8000_0000 <= x <= 0x7fff_ffff

  /** `x + 1` as Java evaluates it on an `int`: the one 32-bit value that is
      congruent to the mathematical `x + 1` modulo 2^32. Below the largest
      value this is exactly one more than `x`. */
  function Succ32(x: i32): (r: i32)
    ensures (r as int - x as int - 1) % MODULUS == 0
    ensures x as int < MAX ==> r as int == x as int + 1
    ensures x as int == MAX ==> r as int == MIN
  {
    if x == 0x7fff_ffff then -0x8000_0000 else x + 1
  }

  /** Succ32 is the ONLY wrap-around successor: any 32-bit value congruent
      to `x + 1` modulo 2^32 is `Succ32(x)`. */
  lemma Succ32Unique(x: i32, y: i32)
    requires (y as int - x as int - 1) % MODULUS == 0
    ensures y == Succ32(x)
  {
  }
}
