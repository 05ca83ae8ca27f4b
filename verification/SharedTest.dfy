/** Transactions_Test (TestTSX.c) with its threads at the same time, all drawing from one source of random
    values. Their ranges are disjoint, and their transactions do not touch what the others read. */
module SharedTest {
  import opened Transactions
  import opened Fairness

  // Every thread's loop, and how many values have been drawn from rand() by all of them together.
  datatype Shared = Shared(loops: seq<Loop>, draws: nat)

  // The test: N errors are drawn, and each thread starts on its range.
  function SharedInit(rand: nat -> bool, numValues: nat, numThreads: nat): Shared
  {
    Shared(seq(numThreads, t requires 0 <= t < numThreads =>
             Loop(0, 0, 0, 0, Injected(rand, t, numValues, numThreads), [])), numValues)
  }

  predicate Draws(oracle: (nat, nat) -> Attempt, s: Shared, t: nat)
    requires t < |s.loops|
  {
    var l := s.loops[t];
    l.i < |l.errors| && !(oracle(t, l.attempts).Runs? && !l.errors[l.i])
  }

  // One attempt of thread t; `rand` is the one source all threads draw from.
  function SharedStep(oracle: (nat, nat) -> Attempt, rand: nat -> bool, s: Shared, t: nat): Shared
  {
    if t >= |s.loops| then s
    else
      var l := Iteration((k: nat) => oracle(t, k), (k: nat) => rand(s.draws), s.loops[t]);
      Shared(s.loops[t := l], s.draws + if Draws(oracle, s, t) then 1 else 0)
  }

  ghost predicate SharedFollows(oracle: (nat, nat) -> Attempt, rand: nat -> bool, schedule: nat -> nat,
                                run: nat -> Shared, n: nat)
  {
    run(n + 1) == SharedStep(oracle, rand, run(n), schedule(n))
  }

  ghost predicate SharedBehavior(oracle: (nat, nat) -> Attempt, rand: nat -> bool, numValues: nat, numThreads: nat,
                                 schedule: nat -> nat, run: nat -> Shared)
  {
    && run(0) == SharedInit(rand, numValues, numThreads)
    && forall n: nat :: SharedFollows(oracle, rand, schedule, run, n)
  }

  ghost predicate LoopsOk(rand: nat -> bool, numValues: nat, numThreads: nat, loops: seq<Loop>)
  {
    && |loops| <= numThreads
    && forall t: nat :: t < |loops| ==> LoopOk(Injected(rand, t, numValues, numThreads), loops[t])
  }

  lemma StepKeepsLoops(oracle: (nat, nat) -> Attempt, rand: nat -> bool, numValues: nat, numThreads: nat,
                       s: Shared, t: nat)
    requires LoopsOk(rand, numValues, numThreads, s.loops)
    ensures LoopsOk(rand, numValues, numThreads, SharedStep(oracle, rand, s, t).loops)
    ensures |SharedStep(oracle, rand, s, t).loops| == |s.loops|
  {
    if t < |s.loops| {
      IterationIsSound((k: nat) => oracle(t, k), (k: nat) => rand(s.draws),
                       Injected(rand, t, numValues, numThreads), s.loops[t]);
    }
  }

  lemma {:induction false} AlwaysLoops(oracle: (nat, nat) -> Attempt, rand: nat -> bool, numValues: nat,
                                       numThreads: nat, schedule: nat -> nat, run: nat -> Shared, n: nat)
    requires SharedBehavior(oracle, rand, numValues, numThreads, schedule, run)
    ensures LoopsOk(rand, numValues, numThreads, run(n).loops) && |run(n).loops| == numThreads
  {
    if n > 0 {
      AlwaysLoops(oracle, rand, numValues, numThreads, schedule, run, n - 1);
      assert SharedFollows(oracle, rand, schedule, run, n - 1);
      StepKeepsLoops(oracle, rand, numValues, numThreads, run(n - 1), schedule(n - 1));
    }
  }

  // How many attempts of a thread did not commit; each of them drew a value.
  function Failed(l: Loop): int
  {
    l.attempts - Commits(l.log)
  }

  function Commits(log: seq<Entry>): nat
  {
    if log == [] then 0 else Commits(log[..|log| - 1]) + if log[|log| - 1].committed then 1 else 0
  }

  function AllFailed(loops: seq<Loop>): int
  {
    if loops == [] then 0 else AllFailed(loops[..|loops| - 1]) + Failed(loops[|loops| - 1])
  }

  lemma {:induction false} FailedOfUpdate(loops: seq<Loop>, t: nat, l: Loop)
    requires t < |loops|
    ensures AllFailed(loops[t := l]) == AllFailed(loops) - Failed(loops[t]) + Failed(l)
  {
    var last := |loops| - 1;
    if t < last {
      assert loops[t := l][..last] == loops[..last][t := l];
      FailedOfUpdate(loops[..last], t, l);
    } else {
      assert loops[t := l][..last] == loops[..last];
    }
  }

  lemma FailedIteration(oracle: (nat, nat) -> Attempt, rand: nat -> bool, s: Shared, t: nat)
    requires t < |s.loops|
    ensures var l := Iteration((k: nat) => oracle(t, k), (k: nat) => rand(s.draws), s.loops[t]);
            Failed(l) == Failed(s.loops[t]) + if Draws(oracle, s, t) then 1 else 0
  {
    var l := Iteration((k: nat) => oracle(t, k), (k: nat) => rand(s.draws), s.loops[t]);
    if |l.log| > |s.loops[t].log| {
      assert l.log[..|s.loops[t].log|] == s.loops[t].log;
    }
  }

  lemma {:induction false} NothingFailedYet(loops: seq<Loop>)
    requires forall t :: 0 <= t < |loops| ==> loops[t].attempts == 0 && loops[t].log == []
    ensures AllFailed(loops) == 0
  {
    if loops != [] {
      NothingFailedYet(loops[..|loops| - 1]);
    }
  }

  /** Nothing is drawn twice: beyond the N errors drawn at the start, one value is drawn for every attempt of any
      thread that did not commit. */
  lemma {:induction false} DrawsCounted(oracle: (nat, nat) -> Attempt, rand: nat -> bool, numValues: nat,
                                        numThreads: nat, schedule: nat -> nat, run: nat -> Shared, n: nat)
    requires SharedBehavior(oracle, rand, numValues, numThreads, schedule, run)
    ensures run(n).draws == numValues + AllFailed(run(n).loops)
  {
    if n == 0 {
      NothingFailedYet(run(0).loops);
    } else {
      DrawsCounted(oracle, rand, numValues, numThreads, schedule, run, n - 1);
      assert SharedFollows(oracle, rand, schedule, run, n - 1);
      var s, t := run(n - 1), schedule(n - 1);
      if t < |s.loops| {
        FailedIteration(oracle, rand, s, t);
        FailedOfUpdate(s.loops, t, Iteration((k: nat) => oracle(t, k), (k: nat) => rand(s.draws), s.loops[t]));
      }
    }
  }

  predicate AllEnded(s: Shared)
  {
    forall t :: 0 <= t < |s.loops| ==> s.loops[t].i == |s.loops[t].errors|
  }

  // results[0] + ... + results[numThreads - 1]
  function FinalResult(loops: seq<Loop>): nat
  {
    if loops == [] then 0 else FinalResult(loops[..|loops| - 1]) + loops[|loops| - 1].result
  }

  lemma {:induction false} ResultsAre(rand: nat -> bool, numValues: nat, numThreads: nat, loops: seq<Loop>)
    requires LoopsOk(rand, numValues, numThreads, loops)
    requires forall t :: 0 <= t < |loops| ==> loops[t].i == |loops[t].errors|
    ensures FinalResult(loops) == DoneBy(|loops|, numValues, numThreads) + AllFaultyFallbacks(loops)
  {
    if loops != [] {
      var t := |loops| - 1;
      var rest, last := loops[..t], loops[t];
      forall u: nat | u < t ensures LoopOk(Injected(rand, u, numValues, numThreads), rest[u]) {
        assert rest[u] == loops[u];
      }
      ResultsAre(rand, numValues, numThreads, rest);
      DoneByStep(t, numValues, numThreads);
      assert LoopOk(Injected(rand, t, numValues, numThreads), last);
      LoopEntriesOk(Injected(rand, t, numValues, numThreads), last);
      TotalIs(last.log);
    }
  }

  lemma LoopEntriesOk(injected: seq<bool>, s: Loop)
    requires LoopOk(injected, s)
    ensures forall e :: e in s.log ==> EntryOk(e)
  {
  }

  /** Transactions_Test with its threads at the same time: in whatever order they make their attempts, and
      however the draws from the shared source fall, once all have ended the total exceeds numValues by the
      number of faulty fallbacks, and the test passes if and only if there is none. */
  lemma SharedTestIsExact(oracle: (nat, nat) -> Attempt, rand: nat -> bool, numValues: nat, numThreads: nat,
                          schedule: nat -> nat, run: nat -> Shared, n: nat)
    requires 1 <= numThreads && SharedBehavior(oracle, rand, numValues, numThreads, schedule, run)
    requires AllEnded(run(n))
    ensures FinalResult(run(n).loops) == numValues + AllFaultyFallbacks(run(n).loops)
    ensures FinalResult(run(n).loops) == numValues
            <==> forall t: nat :: t < |run(n).loops| ==> Faultless(run(n).loops[t].log)
  {
    var loops := run(n).loops;
    AlwaysLoops(oracle, rand, numValues, numThreads, schedule, run, n);
    ResultsAre(rand, numValues, numThreads, loops);
    DoneByStep(numThreads - 1, numValues, numThreads);
    forall t: nat, e | t < |loops| && e in loops[t].log ensures EntryOk(e) {
      LoopEntriesOk(Injected(rand, t, numValues, numThreads), loops[t]);
    }
    NoFaultyIff(loops);
  }

  // ---- And it ends ----

  function LoopWork(quiet: nat, l: Loop): int
  {
    6 * (|l.errors| - l.i) + (5 - l.retriedTimes) + if l.attempts < quiet then quiet - l.attempts else 0
  }

  lemma IterationUsesWork(oracle: nat -> Attempt, rand: nat -> bool, injected: seq<bool>, quiet: nat, l: Loop)
    requires LoopOk(injected, l) && forall k: nat :: quiet <= k ==> oracle(k) != Aborts(true)
    ensures LoopWork(quiet, l) >= 0
    ensures if l.i == |l.errors| then Iteration(oracle, rand, l) == l
            else LoopWork(quiet, Iteration(oracle, rand, l)) < LoopWork(quiet, l)
  {
  }

  function SharedWork(quiet: nat, loops: seq<Loop>): int
  {
    if loops == [] then 0 else SharedWork(quiet, loops[..|loops| - 1]) + LoopWork(quiet, loops[|loops| - 1])
  }

  lemma {:induction false} WorkOfUpdate(quiet: nat, loops: seq<Loop>, t: nat, l: Loop)
    requires t < |loops|
    ensures SharedWork(quiet, loops[t := l]) ==
              SharedWork(quiet, loops) - LoopWork(quiet, loops[t]) + LoopWork(quiet, l)
  {
    var last := |loops| - 1;
    if t < last {
      assert loops[t := l][..last] == loops[..last][t := l];
      WorkOfUpdate(quiet, loops[..last], t, l);
    } else {
      assert loops[t := l][..last] == loops[..last];
    }
  }

  lemma {:induction false} SharedWorkNonNegative(rand: nat -> bool, numValues: nat, numThreads: nat, quiet: nat,
                                                 loops: seq<Loop>)
    requires LoopsOk(rand, numValues, numThreads, loops)
    ensures SharedWork(quiet, loops) >= 0
  {
    if loops != [] {
      var last := |loops| - 1;
      forall u: nat | u < last ensures LoopOk(Injected(rand, u, numValues, numThreads), loops[..last][u]) {
        assert loops[..last][u] == loops[u];
      }
      SharedWorkNonNegative(rand, numValues, numThreads, quiet, loops[..last]);
      assert LoopOk(Injected(rand, last, numValues, numThreads), loops[last]);
    }
  }

  lemma SharedProgress(oracle: (nat, nat) -> Attempt, rand: nat -> bool, numValues: nat, numThreads: nat, quiet: nat,
                       s: Shared, t: nat)
    requires LoopsOk(rand, numValues, numThreads, s.loops)
    requires forall u: nat, k: nat :: quiet <= k ==> oracle(u, k) != Aborts(true)
    ensures var s' := SharedStep(oracle, rand, s, t);
            if t < |s.loops| && s.loops[t].i < |s.loops[t].errors|
            then SharedWork(quiet, s'.loops) < SharedWork(quiet, s.loops) else s' == s
  {
    if t < |s.loops| {
      var l := Iteration((k: nat) => oracle(t, k), (k: nat) => rand(s.draws), s.loops[t]);
      assert LoopOk(Injected(rand, t, numValues, numThreads), s.loops[t]);
      IterationUsesWork((k: nat) => oracle(t, k), (k: nat) => rand(s.draws),
                        Injected(rand, t, numValues, numThreads), quiet, s.loops[t]);
      WorkOfUpdate(quiet, s.loops, t, l);
    }
  }

  /** If from its attempt `quiet` on no thread's transaction is aborted with the retry bit, all threads end. */
  lemma SharedRunsEnd(oracle: (nat, nat) -> Attempt, rand: nat -> bool, numValues: nat, numThreads: nat, quiet: nat,
                      schedule: nat -> nat, run: nat -> Shared) returns (stop: nat)
    requires SharedBehavior(oracle, rand, numValues, numThreads, schedule, run) && Fair(schedule)
    requires forall t: nat, k: nat :: quiet <= k ==> oracle(t, k) != Aborts(true)
    ensures AllEnded(run(stop))
  {
    var next, work := (s, t) => SharedStep(oracle, rand, s, t), (s: Shared) => SharedWork(quiet, s.loops);
    forall n: nat ensures Progresses(run, schedule, next, work, AllEnded, n) {
      var s := run(n);
      AlwaysLoops(oracle, rand, numValues, numThreads, schedule, run, n);
      assert SharedFollows(oracle, rand, schedule, run, n);
      SharedWorkNonNegative(rand, numValues, numThreads, quiet, s.loops);
      SharedProgress(oracle, rand, numValues, numThreads, quiet, s, schedule(n));
      if !AllEnded(s) {
        var t: nat :| t < |s.loops| && s.loops[t].i != |s.loops[t].errors|;
        assert LoopOk(Injected(rand, t, numValues, numThreads), s.loops[t]);
        SharedProgress(oracle, rand, numValues, numThreads, quiet, s, t);
        assert next(s, t) != s;
      }
    }
    stop := FairRunStops(run, schedule, next, work, AllEnded);
  }
}
