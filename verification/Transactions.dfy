/** Recovery from soft errors by transactional retry (TestTSX.c). `_xbegin` is an oracle: the hardware
    either lets a transaction run or aborts it with a status, rolling its effects back. */
module Transactions {
  import opened Partition

  // The bits of an abort status the program looks at. By the definition of the RTM abort status
  // (section 16.3.5 of volume 1 of the Intel SDM) the retry bit is clear when the explicit bit is set.
  datatype Status = Explicit(code: nat) | Hardware(retry: bool)

  const TSX_EXPLICIT_ABORT_CODE: nat := 0xff

  predicate WasExplicitAbort(status: Status)
  {
    status.Explicit? && status.code == TSX_EXPLICIT_ABORT_CODE
  }

  predicate IsRetryPossible(status: Status)
  {
    status.Hardware? && status.retry
  }

  // What the hardware does to one attempt.
  datatype Attempt = Runs | Aborts(retry: bool)

  // Transactions_CalculateValue: 1, or 2 where an error has been injected.
  function CalculateValue(error: bool): nat
  {
    if error then 2 else 1
  }

  // How one index was settled: the value added, whether a transaction committed it, how often it was
  // retried through the explicit-abort branch before, and in which attempt of the thread.
  datatype Entry = Entry(value: nat, committed: bool, explicitRetries: nat, attempt: nat)

  ghost predicate EntryOk(e: Entry)
  {
    && (e.value == 1 || e.value == 2)
    && (e.committed ==> e.value == 1)
    && e.explicitRetries <= 5
  }

  // What a thread adds up.
  function Total(log: seq<Entry>): nat
  {
    if log == [] then 0 else Total(log[..|log| - 1]) + log[|log| - 1].value
  }

  // The indices the non-transactional fallback settled with the faulty value.
  function FaultyFallbacks(log: seq<Entry>): nat
  {
    if log == [] then 0
    else FaultyFallbacks(log[..|log| - 1]) + var e := log[|log| - 1]; if !e.committed && e.value == 2 then 1 else 0
  }

  lemma {:induction false} TotalIs(log: seq<Entry>)
    requires forall e :: e in log ==> EntryOk(e)
    ensures Total(log) == |log| + FaultyFallbacks(log)
  {
    if log != [] {
      var e := log[|log| - 1];
      assert EntryOk(e);
      TotalIs(log[..|log| - 1]);
    }
  }

  lemma TotalPush(log: seq<Entry>, e: Entry)
    ensures Total(log + [e]) == Total(log) + e.value
  {
    assert (log + [e])[..|log|] == log;
  }

  // ---- The retry loop ----

  // The loop of a thread over its own part of `errors`: the indices below `i` are settled.
  datatype Loop = Loop(i: nat, retriedTimes: nat, attempts: nat, result: nat, errors: seq<bool>, log: seq<Entry>)

  /** One attempt. `oracle(k)` is the fate of the k-th transaction, `rand(k)` the k-th error drawn. */
  function Iteration(oracle: nat -> Attempt, rand: nat -> bool, s: Loop): Loop
  {
    if s.i >= |s.errors| then s
    else
      var attempt, k := oracle(s.attempts), s.attempts + 1;
      var redrawn := s.errors[s.i := rand(k)];
      if attempt.Runs? && !s.errors[s.i] then
        Loop(s.i + 1, 0, k, s.result + 1, s.errors, s.log + [Entry(1, true, s.retriedTimes, s.attempts)])
      else if attempt.Runs? && s.retriedTimes < 5 then
        Loop(s.i, s.retriedTimes + 1, k, s.result, redrawn, s.log)
      else if attempt == Aborts(true) then
        Loop(s.i, s.retriedTimes, k, s.result, redrawn, s.log)
      else
        var value := CalculateValue(rand(k));
        Loop(s.i + 1, 0, k, s.result + value, redrawn, s.log + [Entry(value, false, s.retriedTimes, s.attempts)])
  }

  // After n attempts, from the errors injected at the start.
  function LoopAt(oracle: nat -> Attempt, rand: nat -> bool, injected: seq<bool>, n: nat): Loop
  {
    if n == 0 then Loop(0, 0, 0, 0, injected, []) else Iteration(oracle, rand, LoopAt(oracle, rand, injected, n - 1))
  }

  // The entry of an index is that of its last attempt, made with this error.
  ghost predicate SettledBy(e: Entry, error: bool)
  {
    EntryOk(e) && e.value == CalculateValue(error)
  }

  // Each settled index was settled once, by its last attempt.
  ghost predicate LoopOk(injected: seq<bool>, s: Loop)
  {
    && |s.log| == s.i <= |s.errors| == |injected|
    && s.retriedTimes <= 5
    && s.result == Total(s.log)
    && (forall j: nat :: j < s.i ==> SettledBy(s.log[j], s.errors[j]))
    && (forall j: nat :: s.i < j < |injected| ==> s.errors[j] == injected[j])
  }

  lemma SettlingIsSound(injected: seq<bool>, s: Loop, attempts: nat, error: bool, e: Entry)
    requires LoopOk(injected, s) && s.i < |s.errors| && SettledBy(e, error)
    ensures LoopOk(injected, Loop(s.i + 1, 0, attempts, s.result + e.value, s.errors[s.i := error], s.log + [e]))
  {
    TotalPush(s.log, e);
  }

  lemma RetryingIsSound(injected: seq<bool>, s: Loop, retriedTimes: nat, attempts: nat, error: bool)
    requires LoopOk(injected, s) && s.i < |s.errors| && retriedTimes <= 5
    ensures LoopOk(injected, Loop(s.i, retriedTimes, attempts, s.result, s.errors[s.i := error], s.log))
  {
  }

  lemma IterationIsSound(oracle: nat -> Attempt, rand: nat -> bool, injected: seq<bool>, s: Loop)
    requires LoopOk(injected, s)
    ensures LoopOk(injected, Iteration(oracle, rand, s))
  {
    if s.i < |s.errors| {
      var attempt, k := oracle(s.attempts), s.attempts + 1;
      if attempt.Runs? && !s.errors[s.i] {
        SettlingIsSound(injected, s, k, false, Entry(1, true, s.retriedTimes, s.attempts));
        assert s.errors[s.i := false] == s.errors;
      } else if attempt.Runs? && s.retriedTimes < 5 {
        RetryingIsSound(injected, s, s.retriedTimes + 1, k, rand(k));
      } else if attempt == Aborts(true) {
        RetryingIsSound(injected, s, s.retriedTimes, k, rand(k));
      } else {
        SettlingIsSound(injected, s, k, rand(k), Entry(CalculateValue(rand(k)), false, s.retriedTimes, s.attempts));
      }
    }
  }

  /** For any abort schedule, after any number of attempts: every index passed has contributed exactly once,
      the value of its last attempt; no committed transaction added the faulty value; at most five retries
      of an index went through the explicit-abort branch; and the indices ahead are untouched. */
  lemma {:induction false} LoopIsSound(oracle: nat -> Attempt, rand: nat -> bool, injected: seq<bool>, n: nat)
    ensures LoopOk(injected, LoopAt(oracle, rand, injected, n))
  {
    if n > 0 {
      LoopIsSound(oracle, rand, injected, n - 1);
      IterationIsSound(oracle, rand, injected, LoopAt(oracle, rand, injected, n - 1));
    }
  }

  ghost predicate Reaches(oracle: nat -> Attempt, rand: nat -> bool, injected: seq<bool>, s: Loop)
  {
    exists n: nat :: LoopAt(oracle, rand, injected, n) == s
  }

  lemma ReachesStart(oracle: nat -> Attempt, rand: nat -> bool, injected: seq<bool>)
    ensures Reaches(oracle, rand, injected, Loop(0, 0, 0, 0, injected, []))
  {
    assert LoopAt(oracle, rand, injected, 0) == Loop(0, 0, 0, 0, injected, []);
  }

  lemma ReachesNext(oracle: nat -> Attempt, rand: nat -> bool, injected: seq<bool>, s: Loop)
    requires Reaches(oracle, rand, injected, s)
    ensures Reaches(oracle, rand, injected, Iteration(oracle, rand, s))
  {
    var n: nat :| LoopAt(oracle, rand, injected, n) == s;
    assert LoopAt(oracle, rand, injected, n + 1) == Iteration(oracle, rand, s);
  }

  // The loop is over.
  ghost predicate EndsWith(oracle: nat -> Attempt, rand: nat -> bool, injected: seq<bool>, end: Loop)
  {
    end.i == |injected| && Reaches(oracle, rand, injected, end)
  }

  lemma {:induction false} StaysEnded(oracle: nat -> Attempt, rand: nat -> bool, injected: seq<bool>, n: nat, m: nat)
    requires n <= m && LoopAt(oracle, rand, injected, n).i == |injected|
    ensures LoopAt(oracle, rand, injected, m) == LoopAt(oracle, rand, injected, n)
    decreases m
  {
    LoopIsSound(oracle, rand, injected, n);
    if n < m {
      StaysEnded(oracle, rand, injected, n, m - 1);
    }
  }

  /** A thread's end is determined by the aborts, the draws and the errors injected into its own part. */
  lemma EndIsUnique(oracle: nat -> Attempt, rand: nat -> bool, injected: seq<bool>, end: Loop, end': Loop)
    requires EndsWith(oracle, rand, injected, end) && EndsWith(oracle, rand, injected, end')
    ensures end' == end
  {
    var n: nat :| LoopAt(oracle, rand, injected, n) == end;
    var m: nat :| LoopAt(oracle, rand, injected, m) == end';
    if n <= m {
      StaysEnded(oracle, rand, injected, n, m);
    } else {
      StaysEnded(oracle, rand, injected, m, n);
    }
  }

  // ---- In memory ----

  // Nothing outside [startIndex, endIndex) has changed.
  ghost predicate OthersKept(before: seq<bool>, after: seq<bool>, startIndex: nat, endIndex: nat)
  {
    && startIndex <= endIndex <= |before| == |after|
    && after[..startIndex] == before[..startIndex] && after[endIndex..] == before[endIndex..]
  }

  lemma SliceAt(errors: seq<bool>, startIndex: nat, endIndex: nat, i: nat)
    requires startIndex <= i < endIndex <= |errors|
    ensures errors[startIndex..endIndex][i - startIndex] == errors[i]
  {
  }

  lemma DrawIsLocal(before: seq<bool>, now: seq<bool>, startIndex: nat, endIndex: nat, i: nat, error: bool)
    requires OthersKept(before, now, startIndex, endIndex) && startIndex <= i < endIndex
    ensures OthersKept(before, now[i := error], startIndex, endIndex)
    ensures now[i := error][startIndex..endIndex] == now[startIndex..endIndex][i - startIndex := error]
  {
  }

  // errors[i] = rand() ..., in the fallback path of index i.
  method Redraw(errors: array<bool>, ghost startIndex: nat, ghost endIndex: nat, i: nat, error: bool,
                ghost before: seq<bool>)
    requires startIndex <= i < endIndex <= errors.Length
    requires OthersKept(before, errors[..], startIndex, endIndex)
    modifies errors
    ensures errors[..][startIndex..endIndex] == old(errors[..])[startIndex..endIndex][i - startIndex := error]
    ensures errors[i] == error
    ensures OthersKept(before, errors[..], startIndex, endIndex)
  {
    ghost var now := errors[..];
    errors[i] := error;
    assert errors[..] == now[i := error];
    DrawIsLocal(before, now, startIndex, endIndex, i, error);
  }

  /** Thread_FuncWithTM on [startIndex, endIndex). The loop ends because from attempt `quiet` on the hardware
      sets the retry bit no more; it ends as the retry loop does, and touches the errors of no other thread. */
  method FuncWithTM(startIndex: nat, endIndex: nat, errors: array<bool>,
                    oracle: nat -> Attempt, rand: nat -> bool, ghost quiet: nat)
    returns (result: nat, ghost end: Loop)
    requires startIndex <= endIndex <= errors.Length
    requires forall k: nat :: quiet <= k ==> oracle(k) != Aborts(true)
    modifies errors
    ensures EndsWith(oracle, rand, old(errors[..])[startIndex..endIndex], end)
    ensures result == end.result
    ensures errors[..][startIndex..endIndex] == end.errors
    ensures OthersKept(old(errors[..]), errors[..], startIndex, endIndex)
  {
    var i, retriedTimes, k := startIndex, 0, 0;
    result := 0;
    ghost var before, injected := errors[..], errors[..][startIndex..endIndex];
    end := Loop(0, 0, 0, 0, injected, []);
    ReachesStart(oracle, rand, injected);
    while i < endIndex
      invariant Reaches(oracle, rand, injected, end)
      invariant i == startIndex + end.i <= endIndex
      invariant retriedTimes == end.retriedTimes <= 5 && k == end.attempts
      invariant errors[..][startIndex..endIndex] == end.errors
      invariant OthersKept(before, errors[..], startIndex, endIndex)
      invariant result == end.result
      decreases endIndex - i, if k < quiet then quiet - k else 0, 5 - retriedTimes
    {
      ghost var s := end;
      ReachesNext(oracle, rand, injected, s);
      end := Iteration(oracle, rand, s);
      SliceAt(errors[..], startIndex, endIndex, i);
      var attempt := oracle(k);
      k := k + 1;
      var status;
      if attempt.Runs? {
        var v1, v2 := CalculateValue(errors[i]), CalculateValue(errors[i]);
        if v1 == 2 || v2 == 2 {
          status := Explicit(0xff);  // _xabort(0xff)
        } else {
          result := result + v1;
          retriedTimes := 0;
          i := i + 1;
          continue;
        }
      } else {
        status := Hardware(attempt.retry);
      }
      // non-transactional fallback path; each of its three ways on begins with a new draw
      Redraw(errors, startIndex, endIndex, i, rand(k), before);
      if WasExplicitAbort(status) {
        retriedTimes := retriedTimes + 1;
        if retriedTimes - 1 < 5 {
          continue;
        }
      }
      if IsRetryPossible(status) {
        continue;
      }
      var v1 := CalculateValue(errors[i]);
      assert v1 == CalculateValue(rand(k)) && !(attempt.Runs? && s.retriedTimes < 5) && attempt != Aborts(true);
      result := result + v1;
      retriedTimes := 0;
      i := i + 1;
    }
  }

  // Injected errors among indices [from, end).
  function ErrorsIn(errors: seq<bool>, from: nat, end: nat): nat
    requires from <= end <= |errors|
    decreases end - from
  {
    if from == end then 0 else ErrorsIn(errors, from, end - 1) + if errors[end - 1] then 1 else 0
  }

  lemma {:induction false} ErrorsSplit(errors: seq<bool>, from: nat, mid: nat, end: nat)
    requires from <= mid <= end <= |errors|
    ensures ErrorsIn(errors, from, end) == ErrorsIn(errors, from, mid) + ErrorsIn(errors, mid, end)
    decreases end
  {
    if mid < end {
      ErrorsSplit(errors, from, mid, end - 1);
    }
  }

  lemma {:induction false} NoErrorsIff(errors: seq<bool>, from: nat, end: nat)
    requires from <= end <= |errors|
    ensures ErrorsIn(errors, from, end) == 0 <==> forall i :: from <= i < end ==> !errors[i]
    decreases end
  {
    if from < end {
      NoErrorsIff(errors, from, end - 1);
    }
  }

  /** Transactions_InitValues: draws the errors and counts them. */
  method InitValues(numValues: nat, rand: nat -> bool) returns (errors: array<bool>, errorsInjected: nat)
    ensures fresh(errors) && errors.Length == numValues
    ensures errorsInjected == ErrorsIn(errors[..], 0, numValues)
    ensures forall i: nat :: i < numValues ==> errors[i] == rand(i)
  {
    errors := new bool[numValues](_ => false);
    errorsInjected := 0;
    for i := 0 to numValues
      invariant forall j: nat :: j < i ==> errors[j] == rand(j)
      invariant errorsInjected == ErrorsIn(errors[..], 0, i)
    {
      ghost var before := errors[..];
      errors[i] := rand(i);
      SamePrefix(before, errors[..], i);
      if errors[i] {
        errorsInjected := errorsInjected + 1;
      }
    }
  }

  lemma {:induction false} SamePrefix(a: seq<bool>, b: seq<bool>, end: nat)
    requires end <= |a| == |b| && a[..end] == b[..end]
    ensures ErrorsIn(a, 0, end) == ErrorsIn(b, 0, end)
  {
    if end > 0 {
      assert a[..end - 1] == a[..end][..end - 1] && b[..end - 1] == b[..end][..end - 1];
      assert a[..end][end - 1] == b[..end][end - 1];
      SamePrefix(a, b, end - 1);
    }
  }

  /** Thread_Func: no transactions, every injected error is added. */
  method Func(startIndex: nat, endIndex: nat, errors: array<bool>) returns (result: nat)
    requires startIndex <= endIndex <= errors.Length
    ensures result == (endIndex - startIndex) + ErrorsIn(errors[..], startIndex, endIndex)
  {
    result := 0;
    for i := startIndex to endIndex
      invariant result == (i - startIndex) + ErrorsIn(errors[..], startIndex, i)
    {
      result := result + CalculateValue(errors[i]);
    }
  }

  /** Transactions_Test without transactional memory: the total is numValues + errorsInjected, so the test
      passes only if nothing was injected. */
  method TestWithoutTM(numThreads: nat, numValues: nat, rand: nat -> bool)
    returns (finalResult: nat, passed: bool, ghost errorsInjected: nat)
    requires 1 <= numThreads
    ensures finalResult == numValues + errorsInjected
    ensures passed <==> forall i: nat :: i < numValues ==> !rand(i)
  {
    var errors, injected := InitValues(numValues, rand);
    errorsInjected := injected;
    finalResult := 0;
    ghost var drawn := errors[..];
    for t := 0 to numThreads
      invariant errors[..] == drawn
      invariant DoneBy(t, numValues, numThreads) <= numValues
      invariant finalResult == DoneBy(t, numValues, numThreads) + ErrorsIn(drawn, 0, DoneBy(t, numValues, numThreads))
    {
      DoneByStep(t, numValues, numThreads);
      var (startIndex, endIndex) := Range(t, numValues, numThreads);
      var result := Func(startIndex, endIndex, errors);
      ErrorsSplit(drawn, 0, startIndex, endIndex);
      finalResult := finalResult + result;
    }
    DoneByStep(numThreads - 1, numValues, numThreads);
    NoErrorsIff(errors[..], 0, numValues);
    passed := finalResult == numValues;
  }

  // The errors injected into the range of thread t.
  function Injected(rand: nat -> bool, t: nat, numValues: nat, numThreads: nat): seq<bool>
    requires t < numThreads
  {
    RangesTile(t, numValues, numThreads);
    var range := Range(t, numValues, numThreads);
    seq(range.1 - range.0, (j: nat) => rand(range.0 + j))
  }

  // How the first threads end, each on its own range with its own aborts and draws.
  ghost predicate ThreadsEnd(oracle: (nat, nat) -> Attempt, redraw: (nat, nat) -> bool, rand: nat -> bool,
                             ends: seq<Loop>, numValues: nat, numThreads: nat)
  {
    && |ends| <= numThreads
    && forall t: nat :: t < |ends| ==>
         EndsWith((k: nat) => oracle(t, k), (k: nat) => redraw(t, k), Injected(rand, t, numValues, numThreads), ends[t])
  }

  // No fallback of the thread took the faulty value.
  ghost predicate Faultless(log: seq<Entry>)
  {
    forall e :: e in log ==> e.committed || e.value == 1
  }

  /** Transactions_Test with transactional memory, for any abort schedule of every thread: the total exceeds
      numValues by the number of indices whose fallback took the faulty value, and the test passes if and
      only if there is none. */
  method TestWithTM(numThreads: nat, numValues: nat, rand: nat -> bool,
                    oracle: (nat, nat) -> Attempt, redraw: (nat, nat) -> bool, ghost quiet: nat)
    returns (finalResult: nat, passed: bool, ghost ends: seq<Loop>)
    requires 1 <= numThreads
    requires forall t: nat, k: nat :: quiet <= k ==> oracle(t, k) != Aborts(true)
    ensures |ends| == numThreads && ThreadsEnd(oracle, redraw, rand, ends, numValues, numThreads)
    ensures finalResult == numValues + AllFaultyFallbacks(ends)
    ensures passed <==> finalResult == numValues
    ensures passed <==> forall t: nat :: t < numThreads ==> Faultless(ends[t].log)
  {
    var errors, _ := InitValues(numValues, rand);
    finalResult, ends := 0, [];
    for t := 0 to numThreads
      invariant |ends| == t && ThreadsEnd(oracle, redraw, rand, ends, numValues, numThreads)
      invariant EntriesSound(ends)
      invariant errors.Length == numValues && AsDrawn(rand, errors[..], DoneBy(t, numValues, numThreads))
      invariant finalResult == DoneBy(t, numValues, numThreads) + AllFaultyFallbacks(ends)
    {
      DoneByStep(t, numValues, numThreads);
      var (startIndex, endIndex) := Range(t, numValues, numThreads);
      ghost var before := errors[..];
      DrawnSlice(rand, before, t, numValues, numThreads);
      var result;
      ghost var end;
      result, end :=
        FuncWithTM(startIndex, endIndex, errors, (k: nat) => oracle(t, k), (k: nat) => redraw(t, k), quiet);
      KeptAhead(rand, before, errors[..], startIndex, endIndex);
      EndsPush(oracle, redraw, rand, ends, end, numValues, numThreads);
      ends := ends + [end];
      finalResult := finalResult + result;
    }
    DoneByStep(numThreads - 1, numValues, numThreads);
    NoFaultyIff(ends);
    passed := finalResult == numValues;
  }

  // From index `from` on, the errors are those drawn at the start.
  ghost predicate AsDrawn(rand: nat -> bool, errors: seq<bool>, from: nat)
  {
    forall i: nat :: from <= i < |errors| ==> errors[i] == rand(i)
  }

  lemma DrawnSlice(rand: nat -> bool, errors: seq<bool>, t: nat, numValues: nat, numThreads: nat)
    requires t < numThreads && |errors| == numValues
    requires AsDrawn(rand, errors, Range(t, numValues, numThreads).0)
    ensures var range := Range(t, numValues, numThreads);
            range.0 <= range.1 <= numValues && errors[range.0..range.1] == Injected(rand, t, numValues, numThreads)
  {
    RangesTile(t, numValues, numThreads);
  }

  lemma KeptAhead(rand: nat -> bool, before: seq<bool>, after: seq<bool>, startIndex: nat, endIndex: nat)
    requires OthersKept(before, after, startIndex, endIndex) && AsDrawn(rand, before, startIndex)
    ensures AsDrawn(rand, after, endIndex)
  {
    forall i: nat | endIndex <= i < |before| ensures after[i] == rand(i) {
      assert after[endIndex..][i - endIndex] == before[endIndex..][i - endIndex];
    }
  }

  ghost predicate EntriesSound(ends: seq<Loop>)
  {
    forall t: nat, e :: t < |ends| && e in ends[t].log ==> EntryOk(e)
  }

  lemma EndsPush(oracle: (nat, nat) -> Attempt, redraw: (nat, nat) -> bool, rand: nat -> bool,
                 ends: seq<Loop>, end: Loop, numValues: nat, numThreads: nat)
    requires ThreadsEnd(oracle, redraw, rand, ends, numValues, numThreads) && EntriesSound(ends)
    requires |ends| < numThreads
    requires EndsWith((k: nat) => oracle(|ends|, k), (k: nat) => redraw(|ends|, k),
                      Injected(rand, |ends|, numValues, numThreads), end)
    ensures ThreadsEnd(oracle, redraw, rand, ends + [end], numValues, numThreads) && EntriesSound(ends + [end])
    ensures AllFaultyFallbacks(ends + [end]) == AllFaultyFallbacks(ends) + FaultyFallbacks(end.log)
    ensures end.result == |Injected(rand, |ends|, numValues, numThreads)| + FaultyFallbacks(end.log)
  {
    assert (ends + [end])[..|ends|] == ends;
    EndIsSound((k: nat) => oracle(|ends|, k), (k: nat) => redraw(|ends|, k),
               Injected(rand, |ends|, numValues, numThreads), end);
    TotalIs(end.log);
  }

  lemma EndIsSound(oracle: nat -> Attempt, rand: nat -> bool, injected: seq<bool>, end: Loop)
    requires EndsWith(oracle, rand, injected, end)
    ensures LoopOk(injected, end) && |end.log| == |injected|
    ensures forall e :: e in end.log ==> EntryOk(e)
  {
    var n: nat :| LoopAt(oracle, rand, injected, n) == end;
    LoopIsSound(oracle, rand, injected, n);
  }

  // Where the ranges of the first `t` threads end.
  function DoneBy(t: nat, numValues: nat, numThreads: nat): nat
    requires t <= numThreads
  {
    if t == 0 then 0 else Range(t - 1, numValues, numThreads).1
  }

  lemma DoneByStep(t: nat, numValues: nat, numThreads: nat)
    requires t < numThreads
    ensures DoneBy(t, numValues, numThreads) == Range(t, numValues, numThreads).0
    ensures Range(t, numValues, numThreads).0 <= Range(t, numValues, numThreads).1 <= numValues
    ensures DoneBy(numThreads, numValues, numThreads) == numValues
  {
    RangesTile(t, numValues, numThreads);
    if t > 0 {
      RangesTile(t - 1, numValues, numThreads);
    }
    RangesTile(numThreads - 1, numValues, numThreads);
  }

  function AllFaultyFallbacks(ends: seq<Loop>): nat
  {
    if ends == [] then 0 else AllFaultyFallbacks(ends[..|ends| - 1]) + FaultyFallbacks(ends[|ends| - 1].log)
  }

  lemma {:induction false} NoFaultyInLogIff(log: seq<Entry>)
    requires forall e :: e in log ==> EntryOk(e)
    ensures FaultyFallbacks(log) == 0 <==> Faultless(log)
  {
    if log != [] {
      var rest, last := log[..|log| - 1], log[|log| - 1];
      NoFaultyInLogIff(rest);
      assert log == rest + [last];
      assert EntryOk(last);
    }
  }

  lemma {:induction false} NoFaultyIff(ends: seq<Loop>)
    requires EntriesSound(ends)
    ensures AllFaultyFallbacks(ends) == 0 <==> forall t: nat :: t < |ends| ==> Faultless(ends[t].log)
  {
    if ends != [] {
      var rest, last := ends[..|ends| - 1], ends[|ends| - 1];
      forall t: nat | t < |rest| ensures rest[t] == ends[t] {
      }
      NoFaultyIff(rest);
      NoFaultyInLogIff(last.log);
    }
  }
}
