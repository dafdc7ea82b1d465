/** `countProbablePrimesNoParallel` and `countProbablePrimesParallel` of
    App.java: both count the integers of the closed range [2, n] that pass
    `isProbablePrime(50)`. The test itself is a library call and is kept
    abstract: every function here takes it as an arbitrary predicate
    `probablePrime`. The parallel stream lets the runtime cut the range into
    contiguous chunks, count each chunk and add the counts; the cut is an
    input, given as the sizes of the chunks in range order. */
module ProbablePrimes {

  /** Number of integers in `rangeClosed(2, n)`. */
  function RangeSize(n: int): nat {
    if n < 2 then 0 else n - 1
  }

  /** Number of integers in [lo, hi) that satisfy `p`. */
  function CountIn(p: int -> bool, lo: int, hi: int): (r: nat)
    ensures r <= if lo < hi then hi - lo else 0
    decreases hi - lo
  {
    if lo >= hi then 0 else (if p(lo) then 1 else 0) + CountIn(p, lo + 1, hi)
  }

  /** The sequential stream: filter [2, n] by the test, then count. */
  function CountProbablePrimesNoParallel(probablePrime: int -> bool, n: int): (r: nat)
    ensures r <= RangeSize(n)
    ensures n < 2 ==> r == 0
  {
    CountIn(probablePrime, 2, n + 1)
  }

  function Sum(sizes: seq<nat>): nat {
    if sizes == [] then 0 else sizes[0] + Sum(sizes[1..])
  }

  /** Sum of the counts of consecutive chunks starting at `lo`. */
  function ChunkedCount(p: int -> bool, lo: int, sizes: seq<nat>): nat
    decreases |sizes|
  {
    if sizes == [] then 0
    else CountIn(p, lo, lo + sizes[0]) + ChunkedCount(p, lo + sizes[0], sizes[1..])
  }

  /** The parallel stream: [2, n] cut into chunks of the given sizes, each
      chunk counted on its own, the counts added. Whatever the cut, the
      result is that of the sequential stream. */
  function CountProbablePrimesParallel(probablePrime: int -> bool, n: int, chunks: seq<nat>): (r: nat)
    requires Sum(chunks) == RangeSize(n)
    ensures r == CountProbablePrimesNoParallel(probablePrime, n)
  {
    ChunkedCountIsCount(probablePrime, 2, chunks);
    assert 2 + Sum(chunks) == (if n < 2 then 2 else n + 1);
    ChunkedCount(probablePrime, 2, chunks)
  }

  /** Counting is additive over adjacent intervals. */
  lemma {:induction false} CountSplit(p: int -> bool, lo: int, mid: int, hi: int)
    requires lo <= mid <= hi
    ensures CountIn(p, lo, mid) + CountIn(p, mid, hi) == CountIn(p, lo, hi)
    decreases mid - lo
  {
    if lo < mid {
      CountSplit(p, lo + 1, mid, hi);
    }
  }

  /** Counting chunk by chunk equals counting the whole interval the chunks
      cover. */
  lemma {:induction false} ChunkedCountIsCount(p: int -> bool, lo: int, sizes: seq<nat>)
    ensures ChunkedCount(p, lo, sizes) == CountIn(p, lo, lo + Sum(sizes))
    decreases |sizes|
  {
    if sizes != [] {
      ChunkedCountIsCount(p, lo + sizes[0], sizes[1..]);
      CountSplit(p, lo, lo + sizes[0], lo + Sum(sizes));
    }
  }

  /** The count depends only on the test's answers inside the range. */
  lemma {:induction false} CountDependsOnRange(p: int -> bool, q: int -> bool, lo: int, hi: int)
    requires forall k :: lo <= k < hi ==> p(k) == q(k)
    ensures CountIn(p, lo, hi) == CountIn(q, lo, hi)
    decreases hi - lo
  {
    if lo < hi {
      CountDependsOnRange(p, q, lo + 1, hi);
    }
  }

  /** The count reaches the size of the range exactly when every integer in
      it passes the test. */
  lemma {:induction false} CountAllIff(p: int -> bool, lo: int, hi: int)
    requires lo <= hi
    ensures CountIn(p, lo, hi) == hi - lo <==> forall k :: lo <= k < hi ==> p(k)
    decreases hi - lo
  {
    if lo < hi {
      CountAllIff(p, lo + 1, hi);
    }
  }

  /** The count is zero exactly when no integer in the range passes. */
  lemma {:induction false} CountNoneIff(p: int -> bool, lo: int, hi: int)
    ensures CountIn(p, lo, hi) == 0 <==> forall k :: lo <= k < hi ==> !p(k)
    decreases hi - lo
  {
    if lo < hi {
      CountNoneIff(p, lo + 1, hi);
    }
  }

  /** Exact primality, by trial division. */
  predicate IsPrime(k: int) {
    k >= 2 && NoDivisorBelow(k, k)
  }

  /** No `d` with 2 <= d < bound divides k. */
  predicate NoDivisorBelow(k: int, bound: int)
    decreases bound
  {
    bound <= 2 || (k % (bound - 1) != 0 && NoDivisorBelow(k, bound - 1))
  }

  /** A test that answers like exact primality on [2, 10] counts 4 probable
      primes there (2, 3, 5 and 7), sequentially and under every cut. */
  lemma CountUpToTen(probablePrime: int -> bool, chunks: seq<nat>)
    requires forall k :: 2 <= k <= 10 ==> probablePrime(k) == IsPrime(k)
    requires Sum(chunks) == RangeSize(10)
    ensures CountProbablePrimesNoParallel(probablePrime, 10) == 4
    ensures CountProbablePrimesParallel(probablePrime, 10, chunks) == 4
  {
    CountDependsOnRange(probablePrime, IsPrime, 2, 11);
    assert IsPrime(2) && IsPrime(3) && IsPrime(5) && IsPrime(7);
    assert !IsPrime(4) && !IsPrime(6) && !IsPrime(8) && !IsPrime(9) && !IsPrime(10);
    assert CountIn(IsPrime, 2, 11) == 4 by {
      assert CountIn(IsPrime, 11, 11) == 0;
      assert CountIn(IsPrime, 10, 11) == 0;
      assert CountIn(IsPrime, 9, 11) == 0;
      assert CountIn(IsPrime, 8, 11) == 0;
      assert CountIn(IsPrime, 7, 11) == 1;
      assert CountIn(IsPrime, 6, 11) == 1;
      assert CountIn(IsPrime, 5, 11) == 2;
      assert CountIn(IsPrime, 4, 11) == 2;
      assert CountIn(IsPrime, 3, 11) == 3;
    }
  }
}
