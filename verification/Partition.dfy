/** The range partition of ThreadUtils.c: closed arithmetic, over mathematical integers. */
module Partition {
  import opened Ring

  // [start, end) of thread `threadIndex` out of `numThreads`, for `numValues` values.
  function Range(threadIndex: nat, numValues: nat, numThreads: nat): (nat, nat)
    requires 1 <= numThreads && threadIndex < numThreads
  {
    var valuesPerThread := numValues / numThreads;
    var startIndex := threadIndex * valuesPerThread;
    var endIndex := startIndex + valuesPerThread;
    (startIndex, if threadIndex == numThreads - 1 then endIndex + numValues % numThreads else endIndex)
  }

  /** The ranges tile [0, numValues): they start at 0, each ends where the next begins, and the last ends
      at numValues. */
  lemma RangesTile(t: nat, numValues: nat, numThreads: nat)
    requires t < numThreads
    ensures Range(t, numValues, numThreads).0 <= Range(t, numValues, numThreads).1 <= numValues
    ensures t == 0 ==> Range(t, numValues, numThreads).0 == 0
    ensures t + 1 < numThreads ==> Range(t, numValues, numThreads).1 == Range(t + 1, numValues, numThreads).0
    ensures t + 1 == numThreads ==> Range(t, numValues, numThreads).1 == numValues
  {
    var per := numValues / numThreads;
    assert numValues == numThreads * per + numValues % numThreads;
    assert (t + 1) * per == t * per + per;
    if t + 1 < numThreads {
      MultipleOrder(per, t + 1, numThreads);
    }
  }

  /** The work is divided evenly: all threads but the last get equally much, and the last gets that and a
      remainder of less than one value a thread. */
  lemma RangesEven(numValues: nat, numThreads: nat) returns (len: nat)
    requires 1 <= numThreads
    ensures forall t: nat :: t + 1 < numThreads ==>
              Range(t, numValues, numThreads).1 - Range(t, numValues, numThreads).0 == len
    ensures var last := Range(numThreads - 1, numValues, numThreads); len <= last.1 - last.0 < len + numThreads
  {
    len := numValues / numThreads;
  }

  // Some way of dividing [0, numValues) that tiles it and is even in this sense.
  ghost predicate EvenTiling(r: nat -> (nat, nat), len: nat, numValues: nat, numThreads: nat)
    requires 1 <= numThreads
  {
    && r(0).0 == 0 && r(numThreads - 1).1 == numValues
    && (forall t: nat :: t + 1 < numThreads ==> r(t).1 == r(t + 1).0)
    && (forall t: nat :: t + 1 < numThreads ==> r(t).1 == r(t).0 + len)
    && r(numThreads - 1).0 + len <= r(numThreads - 1).1 < r(numThreads - 1).0 + len + numThreads
  }

  lemma {:induction false} EvenStart(r: nat -> (nat, nat), len: nat, numValues: nat, numThreads: nat, t: nat)
    requires 1 <= numThreads && EvenTiling(r, len, numValues, numThreads) && t < numThreads
    ensures r(t).0 == t * len
  {
    if t > 0 {
      EvenStart(r, len, numValues, numThreads, t - 1);
      assert t * len == (t - 1) * len + len;
    }
  }

  /** There is only one way to divide the work like that. */
  lemma EvenTilingIsRange(r: nat -> (nat, nat), len: nat, numValues: nat, numThreads: nat, t: nat)
    requires 1 <= numThreads && EvenTiling(r, len, numValues, numThreads) && t < numThreads
    ensures r(t) == Range(t, numValues, numThreads)
  {
    var last := numThreads - 1;
    EvenStart(r, len, numValues, numThreads, last);
    assert numThreads * len == last * len + len;
    var rest := numValues - numThreads * len;
    assert 0 <= rest < numThreads;
    assert len * numThreads == numThreads * len;
    ModuloUnique(numThreads, numValues, len, rest);
    LengthIsQuotient(len, rest, numValues, numThreads);
    EvenStart(r, len, numValues, numThreads, t);
  }

  lemma LengthIsQuotient(len: nat, rest: nat, numValues: nat, numThreads: nat)
    requires rest < numThreads && numValues == len * numThreads + rest
    ensures numValues / numThreads == len
  {
    var q, r := numValues / numThreads, numValues % numThreads;
    assert numValues == q * numThreads + r;
    assert (q - len) * numThreads == rest - r;
    MultipleIsSmall(numThreads, q - len, rest - r);
  }

  /** Every value index belongs to exactly one thread. */
  lemma EveryIndexOnce(i: nat, numValues: nat, numThreads: nat) returns (t: nat)
    requires 1 <= numThreads && i < numValues
    ensures t < numThreads && Range(t, numValues, numThreads).0 <= i < Range(t, numValues, numThreads).1
    ensures forall u: nat ::
              u < numThreads && Range(u, numValues, numThreads).0 <= i < Range(u, numValues, numThreads).1 ==> u == t
  {
    t := 0;
    RangesTile(0, numValues, numThreads);
    while i >= Range(t, numValues, numThreads).1
      invariant t < numThreads && Range(t, numValues, numThreads).0 <= i
      invariant Range(t, numValues, numThreads).1 <= numValues
      invariant t + 1 == numThreads ==> Range(t, numValues, numThreads).1 == numValues
      decreases numThreads - t
    {
      RangesTile(t, numValues, numThreads);
      RangesTile(t + 1, numValues, numThreads);
      t := t + 1;
    }
    forall u: nat | u < numThreads && Range(u, numValues, numThreads).0 <= i < Range(u, numValues, numThreads).1
      ensures u == t
    {
      RangesOrdered(u, t, numValues, numThreads);
      RangesOrdered(t, u, numValues, numThreads);
    }
  }

  lemma {:induction false} RangesOrdered(t: nat, u: nat, numValues: nat, numThreads: nat)
    requires t < numThreads && u < numThreads
    ensures t < u ==> Range(t, numValues, numThreads).1 <= Range(u, numValues, numThreads).0
    decreases u
  {
    if t < u {
      RangesTile(u - 1, numValues, numThreads);
      RangesOrdered(t, u - 1, numValues, numThreads);
    }
  }

  // The sum of `f` over [from, end).
  function Sum(f: nat -> int, from: nat, end: nat): int
    requires from <= end
    decreases end - from
  {
    if from == end then 0 else Sum(f, from, end - 1) + f(end - 1)
  }

  // With SumSplits this determines the sum.
  lemma SumOfOne(f: nat -> int, i: nat)
    ensures Sum(f, i, i) == 0 && Sum(f, i, i + 1) == f(i)
  {
  }

  lemma {:induction false} SumSplits(f: nat -> int, from: nat, mid: nat, end: nat)
    requires from <= mid <= end
    ensures Sum(f, from, end) == Sum(f, from, mid) + Sum(f, mid, end)
    decreases end
  {
    if mid < end {
      SumSplits(f, from, mid, end - 1);
    }
  }

  // The sum of the results of threads 0 .. count - 1.
  function ThreadSums(f: nat -> int, count: nat, numValues: nat, numThreads: nat): int
    requires 1 <= numThreads && count <= numThreads
  {
    if count == 0 then 0
    else
      var t := count - 1;
      RangesTile(t, numValues, numThreads);
      ThreadSums(f, t, numValues, numThreads)
      + Sum(f, Range(t, numValues, numThreads).0, Range(t, numValues, numThreads).1)
  }

  lemma {:induction false} PartialSums(f: nat -> int, count: nat, numValues: nat, numThreads: nat)
    requires 1 <= count <= numThreads
    ensures ThreadSums(f, count, numValues, numThreads) == Sum(f, 0, Range(count - 1, numValues, numThreads).1)
  {
    RangesTile(count - 1, numValues, numThreads);
    if count > 1 {
      PartialSums(f, count - 1, numValues, numThreads);
      RangesTile(count - 2, numValues, numThreads);
    }
    SumSplits(f, 0, Range(count - 1, numValues, numThreads).0, Range(count - 1, numValues, numThreads).1);
  }

  /** What the threads compute on their ranges adds up to the whole. */
  lemma SumsAddUp(f: nat -> int, numValues: nat, numThreads: nat)
    requires 1 <= numThreads
    ensures ThreadSums(f, numThreads, numValues, numThreads) == Sum(f, 0, numValues)
  {
    PartialSums(f, numThreads, numValues, numThreads);
    RangesTile(numThreads - 1, numValues, numThreads);
  }
}
