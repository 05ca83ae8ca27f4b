/** The three check disciplines of FirstTestHyperThreads.c over a FIFO: every value, group by group, and
    one XOR per group. `values` is the stream of values a thread computes (CalcFunction), with
    whatever soft errors hit it; the queues deliver a prefix of what is enqueued (SimpleQueue, SectionQueue). */
module CheckModes {
  import opened Ring
  import opened Words
  import Simple = SimpleQueue
  import Section = SectionQueue
  import opened Fairness
  import Partition

  datatype Mode = EveryTime | EachModuloTimes | Encoding

  /** The arithmetic of `long`. The loops below use nothing but these two operations, and are proved for
      whatever they are; LONG is what they are. */
  datatype Arith<!V> = Arith(zero: V, add: (V, V) -> V, xor: (V, V) -> V)

  const LONG: Arith<Word> := Arith(0, (x: Word, y: Word) => Words.Add(x, y), (x: Word, y: Word) => Words.Xor(x, y))

  // ---- What the modes are meant to do ----

  function Sum<V>(a: Arith<V>, values: nat -> V, n: nat): V
  {
    if n == 0 then a.zero else a.add(Sum(a, values, n - 1), values(n - 1))
  }

  // The XOR of `len` values from index `from`.
  function Xor<V>(a: Arith<V>, values: nat -> V, from: nat, len: nat): V
  {
    if len == 0 then a.zero else a.xor(Xor(a, values, from, len - 1), values(from + (len - 1)))
  }

  // How many queue operations a thread makes.
  function Operations(mode: Mode, n: nat, m: nat): nat
    requires 1 <= m
  {
    match mode
    case EveryTime => n
    case EachModuloTimes => (n / m) * m
    case Encoding => n / m
  }

  // The k-th value a thread checks: it enqueues it, or expects it.
  function Checked<V>(a: Arith<V>, mode: Mode, m: nat, values: nat -> V): nat -> V
  {
    if mode.Encoding? then (k: nat) => Xor(a, values, k * m, m) else values
  }

  // The sum of the values the consumer accumulates.
  function Accumulated<V>(a: Arith<V>, mode: Mode, n: nat, m: nat, values: nat -> V): V
    requires 1 <= m
  {
    if mode.EachModuloTimes? then Sum(a, values, (n / m) * m) else Sum(a, values, n)
  }

  function Prefix<V>(f: nat -> V, n: nat): seq<V>
  {
    seq(n, (k: nat) => f(k))
  }

  // ---- The producer loops ----

  method ProduceEveryTime<V(==)>(a: Arith<V>, n: nat, m: nat, values: nat -> V) returns (sent: seq<V>, result: V)
    requires 1 <= m
    ensures sent == Prefix(Checked(a, EveryTime, m, values), Operations(EveryTime, n, m))
    ensures sent == seq(n, (i: nat) => values(i))
    ensures result == Sum(a, values, n)
  {
    sent, result := [], a.zero;
    for i := 0 to n
      invariant sent == Prefix(values, i) && result == Sum(a, values, i)
    {
      var calcValue := values(i);
      result := a.add(result, calcValue);
      sent := sent + [calcValue];
    }
  }

  method ProduceGrouped<V(==)>(a: Arith<V>, n: nat, m: nat, values: nat -> V) returns (sent: seq<V>, result: V)
    requires 1 <= m
    ensures sent == Prefix(Checked(a, EachModuloTimes, m, values), Operations(EachModuloTimes, n, m))
    ensures sent == seq((n / m) * m, (i: nat) => values(i))
    ensures result == Sum(a, values, n)
  {
    var groupLimit := m - 1;
    var auxValues := new V[m](_ => a.zero);
    var residue := 0;
    ghost var g := 0;
    sent, result := [], a.zero;
    for i := 0 to n
      invariant 0 <= residue < m && i == g * m + residue
      invariant forall k :: 0 <= k < residue ==> auxValues[k] == values(g * m + k)
      invariant sent == Prefix(values, g * m) && result == Sum(a, values, i)
    {
      auxValues[residue] := values(i);
      result := a.add(result, auxValues[residue]);
      residue := residue + 1;
      if residue - 1 == groupLimit {
        for j := 0 to m
          invariant sent == Prefix(values, g * m + j)
        {
          sent := sent + [auxValues[j]];
        }
        NextMultiple(g, m);
        residue := 0;
        g := g + 1;
      }
    }
    QuotientIs(n, m, g, residue);
  }

  method ProduceEncoded<V(==)>(a: Arith<V>, n: nat, m: nat, values: nat -> V) returns (sent: seq<V>, result: V)
    requires 1 <= m
    ensures sent == Prefix(Checked(a, Encoding, m, values), Operations(Encoding, n, m))
    ensures sent == seq(n / m, (g: nat) => Xor(a, values, g * m, m))
    ensures result == Sum(a, values, n)
  {
    var groupLimit := m - 1;
    var residue, xorMine := 0, a.zero;
    ghost var g := 0;
    ghost var expected := Checked(a, Encoding, m, values);
    sent, result := [], a.zero;
    for i := 0 to n
      invariant 0 <= residue < m && i == g * m + residue
      invariant xorMine == Xor(a, values, g * m, residue)
      invariant sent == Prefix(expected, g) && result == Sum(a, values, i)
    {
      var calcValue := values(i);
      result := a.add(result, calcValue);
      xorMine := a.xor(xorMine, calcValue);
      residue := residue + 1;
      if residue - 1 == groupLimit {
        assert xorMine == expected(g);
        sent := sent + [xorMine];
        NextMultiple(g, m);
        xorMine, residue := a.zero, 0;
        g := g + 1;
      }
    }
    QuotientIs(n, m, g, residue);
  }

  lemma NextMultiple(g: nat, m: nat)
    ensures (g + 1) * m == g * m + m
  {
  }

  lemma QuotientIs(n: nat, m: nat, g: nat, r: nat)
    requires r < m && n == g * m + r
    ensures n / m == g && n % m == r
  {
    ModuloUnique(m, n, g, r);
    assert (n / m - g) * m == 0;
    MultipleIsSmall(m, n / m - g, 0);
  }

  // ---- The consumer loops ----

  // Passed: the loop ended. Alarm: the taken-th arrival did not match. Starved: it spins on the queue.
  datatype End<V> = Passed(result: V) | Alarm | Starved

  // The end of a consumer that expects `n` values and is given `arrivals`.
  ghost predicate Judges<V>(expected: nat -> V, n: nat, result: V, arrivals: seq<V>, taken: nat, end: End<V>)
  {
    && taken <= |arrivals| && taken <= n
    && arrivals[..taken] == Prefix(expected, taken)
    && match end
       case Passed(r) => taken == n && r == result
       case Alarm => taken < n && taken < |arrivals| && arrivals[taken] != expected(taken)
       case Starved => taken < n && taken == |arrivals|
  }

  lemma TakeOne<V>(f: nat -> V, arrivals: seq<V>, taken: nat)
    requires taken < |arrivals| && arrivals[..taken] == Prefix(f, taken) && arrivals[taken] == f(taken)
    ensures arrivals[..taken + 1] == Prefix(f, taken + 1)
  {
    assert arrivals[..taken + 1] == arrivals[..taken] + [arrivals[taken]];
  }

  method ConsumeEveryTime<V(==)>(a: Arith<V>, n: nat, m: nat, values: nat -> V, arrivals: seq<V>)
    returns (taken: nat, end: End<V>)
    requires 1 <= m
    ensures Judges(Checked(a, EveryTime, m, values), Operations(EveryTime, n, m),
                   Accumulated(a, EveryTime, n, m, values), arrivals, taken, end)
    ensures Judges(values, n, Sum(a, values, n), arrivals, taken, end)
  {
    var result := a.zero;
    taken := 0;
    for i := 0 to n
      invariant taken == i <= |arrivals| && arrivals[..i] == Prefix(values, i) && result == Sum(a, values, i)
    {
      var auxValue := values(i);
      if taken == |arrivals| {
        return taken, Starved;
      }
      var otherValue := arrivals[taken];
      if auxValue != otherValue {
        return taken, Alarm;
      }
      TakeOne(values, arrivals, taken);
      taken := taken + 1;
      result := a.add(result, otherValue);
    }
    end := Passed(result);
  }

  method ConsumeGrouped<V(==)>(a: Arith<V>, n: nat, m: nat, values: nat -> V, arrivals: seq<V>)
    returns (taken: nat, end: End<V>)
    requires 1 <= m
    ensures Judges(Checked(a, EachModuloTimes, m, values), Operations(EachModuloTimes, n, m),
                   Accumulated(a, EachModuloTimes, n, m, values), arrivals, taken, end)
    ensures Judges(values, (n / m) * m, Sum(a, values, (n / m) * m), arrivals, taken, end)
  {
    var groupLimit := m - 1;
    var auxValues := new V[m](_ => a.zero);
    var result := a.zero;
    ghost var g := 0;
    taken := 0;
    for i := 0 to n
      invariant 0 <= i - g * m < m
      invariant forall k :: 0 <= k < i - g * m ==> auxValues[k] == values(g * m + k)
      invariant taken == g * m <= |arrivals|
      invariant arrivals[..taken] == Prefix(values, taken) && result == Sum(a, values, taken)
    {
      QuotientIs(i, m, g, i - g * m);
      var modulo := i % m;
      auxValues[modulo] := values(i);
      if modulo == groupLimit {
        GroupsFit(g, m, i, n);
        for j := 0 to m
          invariant taken == g * m + j <= |arrivals|
          invariant arrivals[..taken] == Prefix(values, taken) && result == Sum(a, values, taken)
          invariant forall k :: 0 <= k < m ==> auxValues[k] == values(g * m + k)
        {
          if taken == |arrivals| {
            return taken, Starved;
          }
          var otherValue := arrivals[taken];
          if auxValues[j] != otherValue {
            return taken, Alarm;
          }
          TakeOne(values, arrivals, taken);
          taken := taken + 1;
          result := a.add(result, otherValue);
        }
        NextMultiple(g, m);
        g := g + 1;
      }
    }
    QuotientIs(n, m, g, n - g * m);
    end := Passed(result);
  }

  // A group that is full before index n is one of the n / m groups.
  lemma GroupsFit(g: nat, m: nat, i: nat, n: nat)
    requires 1 <= m && i < n && i == g * m + m - 1
    ensures g < n / m
    ensures g * m + m <= (n / m) * m
  {
    var h, r := n / m, n % m;
    assert n == h * m + r;
    NextMultiple(g, m);
    if h <= g {
      MultipleOrder(m, h, g + 1);
    } else {
      MultipleOrder(m, g, h);
    }
  }

  method ConsumeEncoded<V(==)>(a: Arith<V>, n: nat, m: nat, values: nat -> V, arrivals: seq<V>)
    returns (taken: nat, end: End<V>)
    requires 1 <= m
    ensures Judges(Checked(a, Encoding, m, values), Operations(Encoding, n, m), Accumulated(a, Encoding, n, m, values),
                   arrivals, taken, end)
  {
    var groupLimit := m - 1;
    var result := a.zero;
    var xorResultMine := a.zero;
    var modulo := 0;
    ghost var expected := Checked(a, Encoding, m, values);
    taken := 0;
    for i := 0 to n
      invariant 0 <= modulo < m && i == taken * m + modulo
      invariant xorResultMine == Xor(a, values, taken * m, modulo)
      invariant taken <= |arrivals| && arrivals[..taken] == Prefix(expected, taken) && result == Sum(a, values, i)
    {
      var auxValue := values(i);
      xorResultMine := a.xor(xorResultMine, auxValue);
      result := a.add(result, auxValue);
      modulo := modulo + 1;
      if modulo - 1 == groupLimit {
        GroupsFit(taken, m, i, n);
        if taken == |arrivals| {
          return taken, Starved;
        }
        var xorResultT1 := arrivals[taken];
        assert xorResultMine == expected(taken);
        if xorResultT1 != xorResultMine {
          return taken, Alarm;
        }
        TakeOne(expected, arrivals, taken);
        NextMultiple(taken, m);
        taken := taken + 1;
        xorResultMine, modulo := a.zero, 0;
      }
    }
    QuotientIs(n, m, taken, modulo);
    end := Passed(result);
  }

  // ---- What a verdict says ----

  ghost predicate SameChecks<V>(a: Arith<V>, mode: Mode, m: nat, p: nat -> V, c: nat -> V, k: nat)
  {
    forall i: nat :: i < k ==> Checked(a, mode, m, p)(i) == Checked(a, mode, m, c)(i)
  }

  /** Producer and consumer make the same number of queue operations, so with everything delivered the
      consumer is never left waiting; it passes exactly when all checked values agree, and otherwise stops
      at the first that does not. */
  lemma VerdictIsExact<V>(a: Arith<V>, mode: Mode, n: nat, m: nat, p: nat -> V, c: nat -> V, taken: nat, end: End<V>)
    requires 1 <= m
    requires Judges(Checked(a, mode, m, c), Operations(mode, n, m), Accumulated(a, mode, n, m, c),
                    Prefix(Checked(a, mode, m, p), Operations(mode, n, m)), taken, end)
    ensures !end.Starved?
    ensures SameChecks(a, mode, m, p, c, taken)
    ensures end.Passed? <==> SameChecks(a, mode, m, p, c, Operations(mode, n, m))
  {
    var sent := Prefix(Checked(a, mode, m, p), Operations(mode, n, m));
    forall i: nat | i < taken ensures Checked(a, mode, m, p)(i) == Checked(a, mode, m, c)(i) {
      assert sent[..taken][i] == Prefix(Checked(a, mode, m, c), taken)[i];
    }
  }

  /** The disciplines that send values as they are, on the values themselves: with `len` values of p delivered, a
      consumer of c passes exactly when all of them agree, and otherwise alarms at the first that does not. For
      every value len is n; group by group it is (n / m) * m. */
  lemma ElementwiseExact<V>(p: nat -> V, c: nat -> V, len: nat, result: V, taken: nat, end: End<V>)
    requires Judges(c, len, result, seq(len, (i: nat) => p(i)), taken, end)
    ensures end.Passed? <==> forall i: nat :: i < len ==> p(i) == c(i)
    ensures end.Passed? ==> end.result == result
    ensures !end.Passed? ==>
              && end.Alarm? && taken < len && p(taken) != c(taken)
              && forall i: nat :: i < taken ==> p(i) == c(i)
  {
    var sent := seq(len, (i: nat) => p(i));
    forall i: nat | i < taken ensures p(i) == c(i) {
      assert sent[..taken][i] == Prefix(c, taken)[i];
    }
  }

  // ---- The laws of the arithmetic ----

  ghost predicate Associates<V>(a: Arith<V>, x: V, y: V, z: V)
  {
    a.add(a.add(x, y), z) == a.add(x, a.add(y, z)) && a.add(x, a.zero) == x
  }

  ghost predicate Regroups<V>(a: Arith<V>, x: V, y: V, u: V, v: V)
  {
    a.xor(a.xor(x, u), a.xor(y, v)) == a.xor(a.xor(x, y), a.xor(u, v))
  }

  ghost predicate Cancels<V>(a: Arith<V>, x: V, y: V)
  {
    (a.xor(x, y) == a.zero <==> x == y) && a.xor(x, a.zero) == x && a.xor(a.zero, x) == x
  }

  ghost predicate Lawful<V(!new)>(a: Arith<V>)
  {
    && (forall x, y, z :: Associates(a, x, y, z))
    && (forall x, y, u, v :: Regroups(a, x, y, u, v))
    && (forall x, y :: Cancels(a, x, y))
  }

  /** Wrapping addition is associative, and XOR is an addition in which every value is its own inverse. */
  lemma LongIsLawful()
    ensures Lawful(LONG)
  {
    forall x, y, z ensures Associates(LONG, x, y, z) {
      AddAssociates(x, y, z);
    }
    forall x, y, u, v ensures Regroups(LONG, x, y, u, v) {
      XorRegroups(x, y, u, v);
    }
    forall x, y ensures Cancels(LONG, x, y) {
      XorCancels(x, y);
    }
  }

  /** What the loops of `long` add up is the sum of the values modulo 2^64. */
  lemma {:induction false} LongSumIsModular(values: nat -> Word, n: nat)
    ensures Sum(LONG, values, n) == Partition.Sum((i: nat) => values(i), 0, n) % LIMIT
  {
    if n > 0 {
      LongSumIsModular(values, n - 1);
      var total := Partition.Sum((i: nat) => values(i), 0, n - 1);
      AddIsModulo(total % LIMIT, values(n - 1));
      ModuloOfSum(total, values(n - 1));
    }
  }

  lemma ModuloOfSum(total: int, value: Word)
    ensures (total % LIMIT + value) % LIMIT == (total + value) % LIMIT
  {
  }

  // ---- Grouped mode ----

  // The sum of the values from index `from` up to n.
  function TailSum<V>(a: Arith<V>, values: nat -> V, from: nat, n: nat): V
    requires from <= n
  {
    if n == from then a.zero else a.add(TailSum(a, values, from, n - 1), values(n - 1))
  }

  lemma {:induction false} SumSplits<V(!new)>(a: Arith<V>, values: nat -> V, from: nat, n: nat)
    requires Lawful(a) && from <= n
    ensures Sum(a, values, n) == a.add(Sum(a, values, from), TailSum(a, values, from, n))
  {
    if n > from {
      SumSplits(a, values, from, n - 1);
      assert Associates(a, Sum(a, values, from), TailSum(a, values, from, n - 1), values(n - 1));
    } else {
      assert Associates(a, Sum(a, values, from), a.zero, a.zero);
    }
  }

  lemma {:induction false} SumSame<V>(a: Arith<V>, p: nat -> V, c: nat -> V, n: nat)
    requires forall i: nat :: i < n ==> p(i) == c(i)
    ensures Sum(a, p, n) == Sum(a, c, n)
  {
    if n > 0 {
      SumSame(a, p, c, n - 1);
    }
  }

  /** In grouped mode an accepted run still leaves the two results apart by exactly the sum of the trailing
      n % m values, which the producer adds and the consumer never reads. */
  lemma GroupedResultsDiffer<V(!new)>(a: Arith<V>, n: nat, m: nat, p: nat -> V, c: nat -> V)
    requires Lawful(a)
    requires 1 <= m && SameChecks(a, EachModuloTimes, m, p, c, Operations(EachModuloTimes, n, m))
    ensures (n / m) * m <= n && n - (n / m) * m == n % m
    ensures Sum(a, p, n) == a.add(Accumulated(a, EachModuloTimes, n, m, c), TailSum(a, p, (n / m) * m, n))
  {
    var full := (n / m) * m;
    SumSplits(a, p, full, n);
    forall i: nat | i < full ensures p(i) == c(i) {
      assert Checked(a, EachModuloTimes, m, p)(i) == Checked(a, EachModuloTimes, m, c)(i);
    }
    SumSame(a, p, c, full);
  }

  // ---- The XOR code ----

  // Where and how the two streams differ.
  function Difference<V>(a: Arith<V>, p: nat -> V, c: nat -> V): nat -> V
  {
    (k: nat) => a.xor(p(k), c(k))
  }

  lemma {:induction false} XorOfDifferences<V(!new)>(a: Arith<V>, p: nat -> V, c: nat -> V, from: nat, len: nat)
    requires Lawful(a)
    ensures a.xor(Xor(a, p, from, len), Xor(a, c, from, len)) == Xor(a, Difference(a, p, c), from, len)
  {
    if len > 0 {
      var k := from + (len - 1);
      XorOfDifferences(a, p, c, from, len - 1);
      assert Regroups(a, Xor(a, p, from, len - 1), Xor(a, c, from, len - 1), p(k), c(k));
    } else {
      assert Cancels(a, a.zero, a.zero);
    }
  }

  /** A group is accepted exactly when the differences in it cancel under XOR. */
  lemma GroupAcceptedIff<V(!new)>(a: Arith<V>, m: nat, p: nat -> V, c: nat -> V, g: nat)
    requires Lawful(a)
    ensures Checked(a, Encoding, m, p)(g) == Checked(a, Encoding, m, c)(g)
            <==> Xor(a, Difference(a, p, c), g * m, m) == a.zero
  {
    XorOfDifferences(a, p, c, g * m, m);
    assert Cancels(a, Xor(a, p, g * m, m), Xor(a, c, g * m, m));
  }

  lemma {:induction false} SingleDifference<V(!new)>(a: Arith<V>, d: nat -> V, from: nat, len: nat, k: nat)
    requires Lawful(a)
    requires forall i: nat :: from <= i < from + len && i != k ==> d(i) == a.zero
    ensures Xor(a, d, from, len) == if from <= k < from + len then d(k) else a.zero
  {
    if len > 0 {
      var last := from + (len - 1);
      SingleDifference(a, d, from, len - 1, k);
      assert Cancels(a, d(last), a.zero);
      assert Cancels(a, Xor(a, d, from, len - 1), a.zero);
    }
  }

  /** A single corrupted value in a full group is always caught. */
  lemma SingleErrorCaught<V(!new)>(a: Arith<V>, m: nat, p: nat -> V, c: nat -> V, g: nat, k: nat)
    requires Lawful(a)
    requires g * m <= k < g * m + m && p(k) != c(k)
    requires forall i: nat :: g * m <= i < g * m + m && i != k ==> p(i) == c(i)
    ensures Checked(a, Encoding, m, p)(g) != Checked(a, Encoding, m, c)(g)
  {
    var d := Difference(a, p, c);
    forall i: nat | g * m <= i < g * m + m && i != k ensures d(i) == a.zero {
      assert Cancels(a, p(i), c(i));
    }
    assert Cancels(a, p(k), c(k));
    SingleDifference(a, d, g * m, m, k);
    GroupAcceptedIff(a, m, p, c, g);
  }

  // The differences in every full group cancel.
  ghost predicate AllCancel<V>(a: Arith<V>, n: nat, m: nat, p: nat -> V, c: nat -> V)
    requires 1 <= m
  {
    forall g: nat :: g < n / m ==> Xor(a, Difference(a, p, c), g * m, m) == a.zero
  }

  /** A run is accepted exactly when in every full group the differences cancel: the trailing n % m values
      are never looked at. */
  lemma EncodedRunAcceptedIff<V(!new)>(a: Arith<V>, n: nat, m: nat, p: nat -> V, c: nat -> V, taken: nat, end: End<V>)
    requires Lawful(a) && 1 <= m
    requires Judges(Checked(a, Encoding, m, c), Operations(Encoding, n, m), Accumulated(a, Encoding, n, m, c),
                    Prefix(Checked(a, Encoding, m, p), Operations(Encoding, n, m)), taken, end)
    ensures end.Passed? <==> AllCancel(a, n, m, p, c)
  {
    VerdictIsExact(a, Encoding, n, m, p, c, taken, end);
    forall g: nat | g < n / m
      ensures Checked(a, Encoding, m, p)(g) == Checked(a, Encoding, m, c)(g)
              <==> Xor(a, Difference(a, p, c), g * m, m) == a.zero
    {
      GroupAcceptedIff(a, m, p, c, g);
    }
    if AllCancel(a, n, m, p, c) {
      forall g: nat | g < n / m ensures Checked(a, Encoding, m, p)(g) == Checked(a, Encoding, m, c)(g) {
        assert Xor(a, Difference(a, p, c), g * m, m) == a.zero;
      }
    }
    if SameChecks(a, Encoding, m, p, c, n / m) {
      forall g: nat | g < n / m ensures Xor(a, Difference(a, p, c), g * m, m) == a.zero {
        assert Checked(a, Encoding, m, p)(g) == Checked(a, Encoding, m, c)(g);
      }
    }
  }

  // ---- The disciplines over the queues ----

  /** Over a SimpleQueue, every fair run of a producer and a consumer in any mode delivers all checked
      values, so a fault-free pair of threads always finishes. */
  lemma OverSimpleQueue(mode: Mode, n: nat, m: nat, p: nat -> Word, c: nat -> Word, q: nat,
                        schedule: nat -> Simple.Thread, run: nat -> Simple.State, taken: nat, end: End<Word>)
    returns (stop: nat)
    requires 1 <= m && Fair(schedule)
    requires Simple.Behavior(q, Checked(LONG, mode, m, p), Operations(mode, n, m), schedule, run)
    ensures Simple.Finished(run(stop))
    ensures Judges(Checked(LONG, mode, m, c), Operations(mode, n, m), Accumulated(LONG, mode, n, m, c),
                   run(stop).received, taken, end)
            && (forall i: nat :: i < n ==> p(i) == c(i))
            ==> end == Passed(Accumulated(LONG, mode, n, m, c))
  {
    stop := Simple.FairRunsDeliver(q, Checked(LONG, mode, m, p), Operations(mode, n, m), schedule, run);
    var received := run(stop).received;
    assert received == Prefix(Checked(LONG, mode, m, p), Operations(mode, n, m));
    if Judges(Checked(LONG, mode, m, c), Operations(mode, n, m), Accumulated(LONG, mode, n, m, c), received, taken, end)
       && (forall i: nat :: i < n ==> p(i) == c(i)) {
      VerdictIsExact(LONG, mode, n, m, p, c, taken, end);
      AgreeingStreamsCheckSame(LONG, mode, n, m, p, c);
    }
  }

  lemma AgreeingStreamsCheckSame<V>(a: Arith<V>, mode: Mode, n: nat, m: nat, p: nat -> V, c: nat -> V)
    requires 1 <= m && forall i: nat :: i < n ==> p(i) == c(i)
    ensures SameChecks(a, mode, m, p, c, Operations(mode, n, m))
  {
    assert (n / m) * m <= n;
    if mode.Encoding? {
      forall g: nat | g < n / m ensures Checked(a, mode, m, p)(g) == Checked(a, mode, m, c)(g) {
        MultipleOrder(m, g, n / m);
        XorSame(a, p, c, g * m, m);
      }
    }
  }

  lemma {:induction false} XorSame<V>(a: Arith<V>, p: nat -> V, c: nat -> V, from: nat, len: nat)
    requires forall i: nat :: from <= i < from + len ==> p(i) == c(i)
    ensures Xor(a, p, from, len) == Xor(a, c, from, len)
  {
    if len > 0 {
      XorSame(a, p, c, from, len - 1);
    }
  }

  // A consumer that is given a correct prefix of what it expects passes, or waits for the rest.
  lemma CorrectPrefix<V>(expected: nat -> V, n: nat, result: V, len: nat, taken: nat, end: End<V>)
    requires len <= n && Judges(expected, n, result, Prefix(expected, len), taken, end)
    ensures end == (if len == n then Passed(result) else Starved) && taken == len
  {
  }

  /** Over a SectionQueue, every fair run of a fault-free pair comes to rest; the consumer loop passes if and
      only if the number of operations of the mode is a multiple of the section size, and otherwise waits for
      ever with what the full sections hold. */
  lemma OverSectionQueue(mode: Mode, n: nat, m: nat, p: nat -> Word, c: nat -> Word, size: Section.Size,
                         schedule: nat -> Section.Thread, run: nat -> Section.State, taken: nat, end: End<Word>)
    returns (stop: nat)
    requires 1 <= m && Fair(schedule)
    requires Section.Behavior(size, Checked(LONG, mode, m, p), Operations(mode, n, m), schedule, run)
    ensures forall k: nat :: stop <= k ==> run(k) == run(stop)
    ensures run(stop).ppc.EDone?
    ensures run(stop).cpc.DDone? <==> Operations(mode, n, m) % size.cells == 0
    ensures Judges(Checked(LONG, mode, m, c), Operations(mode, n, m), Accumulated(LONG, mode, n, m, c),
                   run(stop).received, taken, end)
            && (forall i: nat :: i < n ==> p(i) == c(i))
            ==> && taken == (Operations(mode, n, m) / size.cells) * size.cells
                && end == if Operations(mode, n, m) % size.cells == 0
                          then Passed(Accumulated(LONG, mode, n, m, c)) else Starved
  {
    var operations := Operations(mode, n, m);
    stop := Section.FairRunsCompleteIff(size, Checked(LONG, mode, m, p), operations, schedule, run);
    var len := (operations / size.cells) * size.cells;
    assert operations == len + operations % size.cells;
    if forall i: nat :: i < n ==> p(i) == c(i) {
      AgreeingStreamsCheckSame(LONG, mode, n, m, p, c);
      assert run(stop).received == Prefix(Checked(LONG, mode, m, c), len);
      var expected, result := Checked(LONG, mode, m, c), Accumulated(LONG, mode, n, m, c);
      if Judges(expected, operations, result, run(stop).received, taken, end) {
        CorrectPrefix(expected, operations, result, len, taken, end);
      }
    }
  }
}
