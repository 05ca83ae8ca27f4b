/** Which attempt settles an index, and how (Thread_FuncWithTM, TestTSX.c): stated over the attempts
    themselves, one by one, without the loop that makes them. */
module Retries {
  import opened Transactions

  // The first attempt for index j is the one after the attempt that settled the index before.
  function FirstAttempt(log: seq<Entry>, j: nat): nat
    requires j <= |log|
  {
    if j == 0 then 0 else log[j - 1].attempt + 1
  }

  // Whether attempt x, for an index first tried in attempt `first`, finds an error.
  function FindsError(rand: nat -> bool, injected: bool, first: nat, x: nat): bool
  {
    if x == first then injected else rand(x)
  }

  // How many of the attempts first, ..., end - 1 the hardware lets run.
  function Runs(oracle: nat -> Attempt, first: nat, end: nat): nat
    requires first <= end
    decreases end
  {
    if first == end then 0 else Runs(oracle, first, end - 1) + if oracle(end - 1).Runs? then 1 else 0
  }

  // Attempt x is followed by another for the same index.
  ghost predicate Retried(oracle: nat -> Attempt, rand: nat -> bool, injected: bool, first: nat, x: nat)
    requires first <= x
  {
    || oracle(x) == Aborts(true)
    || (oracle(x).Runs? && FindsError(rand, injected, first, x) && Runs(oracle, first, x) < 5)
  }

  ghost predicate AllRetried(oracle: nat -> Attempt, rand: nat -> bool, injected: bool, first: nat, end: nat)
  {
    first <= end && forall x: nat :: first <= x < end ==> Retried(oracle, rand, injected, first, x)
  }

  // The index is settled in attempt e.attempt, and in no earlier one.
  ghost predicate Explained(oracle: nat -> Attempt, rand: nat -> bool, injected: bool, first: nat, e: Entry)
  {
    && AllRetried(oracle, rand, injected, first, e.attempt)
    && e.explicitRetries == Runs(oracle, first, e.attempt)
    && if e.committed then
         oracle(e.attempt).Runs? && !FindsError(rand, injected, first, e.attempt) && e.value == 1
       else
         && e.value == (if rand(e.attempt + 1) then 2 else 1)
         && (|| oracle(e.attempt) == Aborts(false)
             || (oracle(e.attempt).Runs? && FindsError(rand, injected, first, e.attempt) && e.explicitRetries == 5))
  }

  ghost predicate EntryExplained(oracle: nat -> Attempt, rand: nat -> bool, injected: seq<bool>,
                                 log: seq<Entry>, j: nat)
    requires j < |log| <= |injected|
  {
    Explained(oracle, rand, injected[j], FirstAttempt(log, j), log[j])
  }

  ghost predicate LogExplained(oracle: nat -> Attempt, rand: nat -> bool, injected: seq<bool>, log: seq<Entry>)
  {
    |log| <= |injected| && forall j: nat :: j < |log| ==> EntryExplained(oracle, rand, injected, log, j)
  }

  // The index at hand, after some retries.
  ghost predicate Pending(oracle: nat -> Attempt, rand: nat -> bool, injected: bool, first: nat,
                          attempts: nat, retriedTimes: nat, error: bool)
  {
    && AllRetried(oracle, rand, injected, first, attempts)
    && retriedTimes == Runs(oracle, first, attempts) <= 5
    && error == FindsError(rand, injected, first, attempts)
  }

  ghost predicate Traced(oracle: nat -> Attempt, rand: nat -> bool, injected: seq<bool>, s: Loop)
  {
    && |s.log| == s.i <= |s.errors| == |injected|
    && LogExplained(oracle, rand, injected, s.log)
    && (s.i < |injected| ==>
          Pending(oracle, rand, injected[s.i], FirstAttempt(s.log, s.i), s.attempts, s.retriedTimes, s.errors[s.i]))
    && (forall j: nat :: s.i < j < |injected| ==> s.errors[j] == injected[j])
  }

  lemma LogGrows(oracle: nat -> Attempt, rand: nat -> bool, injected: seq<bool>, log: seq<Entry>, e: Entry)
    requires LogExplained(oracle, rand, injected, log) && |log| < |injected|
    requires Explained(oracle, rand, injected[|log|], FirstAttempt(log, |log|), e)
    ensures LogExplained(oracle, rand, injected, log + [e])
    ensures FirstAttempt(log + [e], |log| + 1) == e.attempt + 1
  {
    forall j: nat | j < |log| + 1 ensures EntryExplained(oracle, rand, injected, log + [e], j) {
      assert FirstAttempt(log + [e], j) == FirstAttempt(log, j);
      if j < |log| {
        assert EntryExplained(oracle, rand, injected, log, j);
      }
    }
  }

  // A retry: another attempt for the same index, with a new draw.
  lemma RetryIsPending(oracle: nat -> Attempt, rand: nat -> bool, injected: bool, first: nat,
                       attempts: nat, retriedTimes: nat, error: bool)
    requires Pending(oracle, rand, injected, first, attempts, retriedTimes, error)
    requires oracle(attempts) == Aborts(true) || (oracle(attempts).Runs? && error && retriedTimes < 5)
    ensures Pending(oracle, rand, injected, first, attempts + 1,
                    retriedTimes + (if oracle(attempts).Runs? then 1 else 0), rand(attempts + 1))
  {
    assert Retried(oracle, rand, injected, first, attempts);
  }

  // No retry: the entry is explained.
  lemma SettlingIsExplained(oracle: nat -> Attempt, rand: nat -> bool, injected: bool, first: nat,
                            attempts: nat, retriedTimes: nat, error: bool, e: Entry)
    requires Pending(oracle, rand, injected, first, attempts, retriedTimes, error)
    requires e == if oracle(attempts).Runs? && !error then Entry(1, true, retriedTimes, attempts)
                  else Entry(if rand(attempts + 1) then 2 else 1, false, retriedTimes, attempts)
    requires oracle(attempts) != Aborts(true)
    requires oracle(attempts).Runs? && error ==> retriedTimes == 5
    ensures Explained(oracle, rand, injected, first, e)
  {
  }

  lemma IterationIsTraced(oracle: nat -> Attempt, rand: nat -> bool, injected: seq<bool>, s: Loop)
    requires Traced(oracle, rand, injected, s)
    ensures Traced(oracle, rand, injected, Iteration(oracle, rand, s))
  {
    var s' := Iteration(oracle, rand, s);
    if s.i < |s.errors| {
      var hit, first := injected[s.i], FirstAttempt(s.log, s.i);
      if s'.i > s.i {
        SettlingIsExplained(oracle, rand, hit, first, s.attempts, s.retriedTimes, s.errors[s.i], s'.log[s.i]);
        LogGrows(oracle, rand, injected, s.log, s'.log[s.i]);
      } else {
        RetryIsPending(oracle, rand, hit, first, s.attempts, s.retriedTimes, s.errors[s.i]);
      }
    }
  }

  lemma {:induction false} AlwaysTraced(oracle: nat -> Attempt, rand: nat -> bool, injected: seq<bool>, n: nat)
    ensures Traced(oracle, rand, injected, LoopAt(oracle, rand, injected, n))
  {
    if n > 0 {
      AlwaysTraced(oracle, rand, injected, n - 1);
      IterationIsTraced(oracle, rand, injected, LoopAt(oracle, rand, injected, n - 1));
    }
  }

  /** How an index is settled, for any abort schedule: by the first of its attempts that is not retried. One that
      runs and finds no error commits. One that the hardware aborts for good falls back, and so does one that
      finds an error after exactly five others did. */
  lemma EntriesExplained(oracle: nat -> Attempt, rand: nat -> bool, injected: seq<bool>, end: Loop)
    requires EndsWith(oracle, rand, injected, end)
    ensures |end.log| == |injected|
    ensures forall j: nat :: j < |injected| ==> EntryExplained(oracle, rand, injected, end.log, j)
  {
    var n: nat :| LoopAt(oracle, rand, injected, n) == end;
    AlwaysTraced(oracle, rand, injected, n);
  }

  /** A fallback was preceded by exactly five retries through the explicit-abort branch, or its attempt was
      aborted by the hardware without the retry bit. */
  lemma FallbackIsLastResort(oracle: nat -> Attempt, rand: nat -> bool, injected: seq<bool>, end: Loop, j: nat)
    requires EndsWith(oracle, rand, injected, end) && j < |injected|
    ensures |end.log| == |injected|
    ensures !end.log[j].committed ==> end.log[j].explicitRetries == 5 || oracle(end.log[j].attempt) == Aborts(false)
  {
    EntriesExplained(oracle, rand, injected, end);
    assert EntryExplained(oracle, rand, injected, end.log, j);
  }

  lemma {:induction false} AllRun(oracle: nat -> Attempt, first: nat, end: nat)
    requires first <= end && forall x: nat :: first <= x < end ==> oracle(x).Runs?
    ensures Runs(oracle, first, end) == end - first
    decreases end
  {
    if first < end {
      AllRun(oracle, first, end - 1);
    }
  }

  // One of the first six attempts finds no error.
  ghost predicate CleanInSix(rand: nat -> bool, injected: bool, first: nat)
  {
    exists x: nat :: first <= x < first + 6 && !FindsError(rand, injected, first, x)
  }

  lemma SixthIsLast(oracle: nat -> Attempt, rand: nat -> bool, injected: bool, first: nat)
    requires forall x: nat :: first <= x < first + 6 ==> oracle(x).Runs?
    ensures !Retried(oracle, rand, injected, first, first + 5)
  {
    AllRun(oracle, first, first + 5);
  }

  lemma CommittedWithinSix(oracle: nat -> Attempt, rand: nat -> bool, injected: bool, first: nat, e: Entry)
    requires Explained(oracle, rand, injected, first, e)
    requires forall x: nat :: first <= x < first + 6 ==> oracle(x).Runs?
    ensures e.attempt <= first + 5
    ensures e.committed <==> CleanInSix(rand, injected, first)
  {
    SixthIsLast(oracle, rand, injected, first);
    AllRun(oracle, first, e.attempt);
    forall x: nat | first <= x < e.attempt ensures FindsError(rand, injected, first, x) {
      assert Retried(oracle, rand, injected, first, x);
    }
  }

  /** Where the hardware lets the attempts of an index run, the index is committed if and only if one of its first
      six attempts finds no error; the first of these attempts works with the injected error, the others with
      what is drawn. */
  lemma CommittedIff(oracle: nat -> Attempt, rand: nat -> bool, injected: seq<bool>, end: Loop, j: nat)
    requires EndsWith(oracle, rand, injected, end) && j < |injected|
    requires |end.log| == |injected|
    requires forall x: nat :: FirstAttempt(end.log, j) <= x < FirstAttempt(end.log, j) + 6 ==> oracle(x).Runs?
    ensures end.log[j].committed <==>
              var first := FirstAttempt(end.log, j); !injected[j] || exists x: nat :: first < x <= first + 5 && !rand(x)
  {
    var first := FirstAttempt(end.log, j);
    EntriesExplained(oracle, rand, injected, end);
    assert EntryExplained(oracle, rand, injected, end.log, j);
    CommittedWithinSix(oracle, rand, injected[j], first, end.log[j]);
    CleanInSixIs(rand, injected[j], first);
  }

  lemma CleanInSixIs(rand: nat -> bool, injected: bool, first: nat)
    ensures CleanInSix(rand, injected, first) <==> !injected || exists x: nat :: first < x <= first + 5 && !rand(x)
  {
    if !injected {
      assert !FindsError(rand, injected, first, first);
    } else if x: nat :| first < x <= first + 5 && !rand(x) {
      assert !FindsError(rand, injected, first, x);
    }
  }
}
