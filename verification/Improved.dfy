/** Runs of the RHT_VolatilesImproved mode in which the consumer never reads a cell too early. */
module Improved {
  import opened Ring
  import opened Channel
  import opened Invariant
  import opened Runs
  import opened Fairness
  import opened ImprovedRing

  // Two indices less than a ring apart share a cell only if they are equal.
  lemma PositionInjective(q: nat, base: nat, from: nat, to: nat)
    requires 0 < q && from <= to < from + q
    ensures Position(q, base + from) == Position(q, base + to) <==> from == to
  {
    SlotIsPosition(q, base + from, to - from);
    assert base + from + (to - from) == base + to;
  }

  // ---- The invariant ----

  // The index of `localDeqPtr` in the producer's row.
  function Sampled(cfg: Config, s: State): int
  {
    s.p.newLimit - (cfg.q - 1)
  }

  ghost predicate SampleOk(cfg: Config, s: State)
    requires ImprovedConfig(cfg)
  {
    var p := s.p;
    && (!p.pc.PDone? && !Released(s) ==>
          0 <= Sampled(cfg, s) && p.localDeqPtr == Position(cfg.q, Index(cfg, p.i, Sampled(cfg, s))))
    && (p.pc.PSample? ==> Sampled(cfg, s) < Passed(s))
  }

  // The consumer is not ahead of the producer, and has compared what it has passed.
  ghost predicate OnTime(cfg: Config, s: State)
  {
    && ConsumerOk(cfg, s.c)
    && Emptied(s) <= Filled(s)
    && (s.c.pc.CReread? || s.c.pc.CMismatch? ==> Emptied(s) < Filled(s))
  }

  ghost predicate Safe(cfg: Config, s: State)
    requires ImprovedConfig(cfg)
  {
    && Always(cfg, s)
    && OnTime(cfg, s)
    && SampleOk(cfg, s)
    && (s.c.pc.CSpin? ==> Consumed(cfg, s) < cfg.q)  // it waits only for a cell never used before
    && ResultsOk(cfg, s)
  }

  /** The one read that goes wrong: the queue is empty, but the cell was used before. */
  predicate Premature(cfg: Config, s: State)
  {
    s.c.pc.CRead? && Consumed(cfg, s) == Written(cfg, s) && cfg.q <= Consumed(cfg, s)
  }

  lemma SafeInBounds(cfg: Config, s: State)
    requires ImprovedConfig(cfg) && Safe(cfg, s)
    ensures InBounds(cfg, s)
  {
    AlwaysInRange(cfg, s);
  }

  // With the consumer on time, the cell holds its element or, on the first lap, the mark.
  lemma CellOnTime(cfg: Config, s: State)
    requires ImprovedConfig(cfg) && Always(cfg, s) && InBounds(cfg, s) && Reads(s.c.pc)
    requires Emptied(s) <= Filled(s)
    ensures if Emptied(s) < Filled(s) then s.content[s.deqPtr] == ProducerSum(cfg, s.c.i, s.c.j + 1)
            else Consumed(cfg, s) == Written(cfg, s)
    ensures Emptied(s) == Filled(s) && Consumed(cfg, s) < cfg.q ==> s.content[s.deqPtr] == ALREADY_CONSUMED
  {
    CellRead(cfg, s);
    FlatDistance(cfg, s);
  }

  lemma InitSafe(cfg: Config)
    requires ImprovedConfig(cfg) && ValidConfig(cfg)
    ensures Safe(cfg, Init(cfg))
  {
    InitAlways(cfg);
  }

  // ---- Every step keeps it ----

  /** The test for progress is exact: the sampled pointer equals `deqPtr` only if the consumer has not
      moved since the sample, whatever the wrap-around. */
  lemma ProgressTest(cfg: Config, s: State)
    requires ImprovedConfig(cfg) && InStep(cfg, s) && CreditBound(cfg, s) && SampleOk(cfg, s) && s.p.pc.PAwaitNext?
    requires Emptied(s) <= Filled(s)
    requires s.deqPtr == Position(cfg.q, Consumed(cfg, s))
    ensures s.p.localDeqPtr == s.deqPtr <==> Sampled(cfg, s) == Passed(s)
  {
    FlatDistance(cfg, s);
    PositionInjective(cfg.q, Index(cfg, s.p.i, 0), Sampled(cfg, s), Passed(s));
  }

  /** Every round grants at least one cell, and exactly the free cells but one. */
  lemma ImprovedCredit(cfg: Config, s: State)
    requires ImprovedConfig(cfg) && InStep(cfg, s) && FlatOk(cfg, s) && CreditBound(cfg, s) && InBounds(cfg, s)
    requires Emptied(s) <= Filled(s) && SampleOk(cfg, s) && s.p.pc.PSample?
    ensures Credit(cfg, s.enqPtr, s.deqPtr) == cfg.q - 1 - (Written(cfg, s) - Consumed(cfg, s))
    ensures Credit(cfg, s.enqPtr, s.deqPtr) >= 1
  {
    FlatDistance(cfg, s);
    SampleIsBounded(cfg, s);
  }

  lemma ProducerKeepsSample(cfg: Config, s: State)
    requires ImprovedConfig(cfg) && Safe(cfg, s) && InBounds(cfg, s)
    ensures SampleOk(cfg, ProducerStep(cfg, s))
  {
    match s.p.pc
    case PSample => SampleKeepsSample(cfg, s);
    case PAwaitNext => ProgressTest(cfg, s);
    case PStore => StoreKeepsSample(cfg, s);
    case _ =>
  }

  lemma SampleKeepsSample(cfg: Config, s: State)
    requires ImprovedConfig(cfg) && Safe(cfg, s) && InBounds(cfg, s) && s.p.pc.PSample?
    ensures SampleOk(cfg, ProducerStep(cfg, s))
  {
    ImprovedCredit(cfg, s);
    FlatDistance(cfg, s);
  }

  // The row reset `localDeqPtr = enqPtr` stands for a sample at the start of the next row.
  lemma StoreKeepsSample(cfg: Config, s: State)
    requires ImprovedConfig(cfg) && Safe(cfg, s) && InBounds(cfg, s) && s.p.pc.PStore?
    ensures SampleOk(cfg, ProducerStep(cfg, s))
  {
    NextRow(s.p.i, cfg.cols);
  }

  lemma ConsumerKeepsSample(cfg: Config, s: State)
    requires ImprovedConfig(cfg) && InStep(cfg, s) && SampleOk(cfg, s) && InBounds(cfg, s)
    ensures SampleOk(cfg, ConsumerStep(cfg, s))
  {
  }

  lemma ProducerKeepsOnTime(cfg: Config, s: State)
    requires ImprovedConfig(cfg) && InStep(cfg, s) && OnTime(cfg, s) && InBounds(cfg, s)
    ensures OnTime(cfg, ProducerStep(cfg, s))
  {
  }

  lemma ReadKeepsOnTime(cfg: Config, s: State)
    requires ImprovedConfig(cfg) && InStep(cfg, s) && OnTime(cfg, s) && InBounds(cfg, s) && Reads(s.c.pc)
    requires if Emptied(s) < Filled(s) then s.content[s.deqPtr] == ProducerSum(cfg, s.c.i, s.c.j + 1)
             else s.content[s.deqPtr] == ALREADY_CONSUMED
    requires s.c.pc.CRead? ==> ConsumerSum(cfg, s.c.i, s.c.j + 1) != ALREADY_CONSUMED
    requires Emptied(s) < Filled(s) ==> ProducerSum(cfg, s.c.i, s.c.j + 1) != ALREADY_CONSUMED
    ensures OnTime(cfg, ConsumerStep(cfg, s))
    ensures ConsumerStep(cfg, s).c.pc.CSpin? ==> Emptied(s) == Filled(s)
  {
  }

  lemma MoveKeepsOnTime(cfg: Config, s: State)
    requires ImprovedConfig(cfg) && InStep(cfg, s) && OnTime(cfg, s) && InBounds(cfg, s) && !Reads(s.c.pc)
    ensures OnTime(cfg, ConsumerStep(cfg, s)) && !ConsumerStep(cfg, s).c.pc.CSpin?
  {
  }

  // Neither the element next in flight nor the consumer's own value is the mark.
  ghost predicate NextUnmarked(cfg: Config, s: State)
  {
    && (s.c.pc.CRead? ==> ConsumerSum(cfg, s.c.i, s.c.j + 1) != ALREADY_CONSUMED)
    && (Emptied(s) < Filled(s) ==> ProducerSum(cfg, s.c.i, s.c.j + 1) != ALREADY_CONSUMED)
  }

  lemma ConsumerKeepsOnTime(cfg: Config, s: State)
    requires ImprovedConfig(cfg) && Safe(cfg, s) && InBounds(cfg, s) && !Premature(cfg, s)
    requires Reads(s.c.pc) ==> NextUnmarked(cfg, s)
    ensures var s' := ConsumerStep(cfg, s);
            OnTime(cfg, s') && (s'.c.pc.CSpin? ==> Consumed(cfg, s') < cfg.q)
  {
    if Reads(s.c.pc) {
      CellOnTime(cfg, s);
      ReadKeepsOnTime(cfg, s);
    } else {
      MoveKeepsOnTime(cfg, s);
    }
  }

  lemma StepKeepsSafe(cfg: Config, s: State, t: Thread)
    requires ImprovedConfig(cfg) && Safe(cfg, s)
    requires t.ConsumerThread? ==> !Premature(cfg, s) && (Reads(s.c.pc) ==> NextUnmarked(cfg, s))
    ensures InBounds(cfg, s) && Safe(cfg, Step(cfg, s, t))
  {
    SafeInBounds(cfg, s);
    StepKeepsResults(cfg, s, t);
    TurnKeepsAlways(cfg, s, t);
    if !Alarmed(s) {
      match t
      case ProducerThread =>
        ProducerKeepsOnTime(cfg, s);
        ProducerKeepsSample(cfg, s);
      case ConsumerThread =>
        ConsumerKeepsOnTime(cfg, s);
        ConsumerKeepsSample(cfg, s);
    }
  }

  lemma TurnKeepsSafe(cfg: Config, s: State, t: Thread)
    requires ImprovedConfig(cfg) && NoSentinel(cfg) && Safe(cfg, s)
    requires t.ConsumerThread? ==> !Premature(cfg, s)
    ensures Safe(cfg, Turn(cfg, s, t))
  {
    NeverMarked(cfg, s);
    StepKeepsSafe(cfg, s, t);
  }

  lemma NeverMarked(cfg: Config, s: State)
    requires ImprovedConfig(cfg) && NoSentinel(cfg) && ConsumerAt(cfg, s.c)
    ensures Reads(s.c.pc) ==> NextUnmarked(cfg, s)
  {
  }

  // ---- Runs ----

  // In the first n turns the consumer never read an emptied queue from a cell used before.
  ghost predicate NeverPremature(cfg: Config, schedule: nat -> Thread, run: nat -> State, n: nat)
  {
    forall k: nat :: k < n && schedule(k).ConsumerThread? ==> !Premature(cfg, run(k))
  }

  lemma {:induction false} AlwaysSafe(cfg: Config, schedule: nat -> Thread, run: nat -> State, n: nat)
    requires Behavior(cfg, schedule, run)
    requires ImprovedConfig(cfg) && ValidConfig(cfg) && NoSentinel(cfg)
    requires NeverPremature(cfg, schedule, run, n)
    ensures Safe(cfg, run(n))
  {
    if n == 0 {
      InitSafe(cfg);
    } else {
      AlwaysSafe(cfg, schedule, run, n - 1);
      assert Follows(cfg, schedule, run, n - 1);
      TurnKeepsSafe(cfg, run(n - 1), schedule(n - 1));
    }
  }

  /** Exact verdicts: on such runs the alarm is raised only at the first difference of the streams, and
      the result vectors then hold exactly the rows before it. */
  lemma ImprovedAlarmIsFirstDifference(cfg: Config, schedule: nat -> Thread, run: nat -> State, n: nat)
    requires Behavior(cfg, schedule, run)
    requires ImprovedConfig(cfg) && ValidConfig(cfg) && NoSentinel(cfg)
    requires NeverPremature(cfg, schedule, run, n) && Alarmed(run(n))
    ensures var s := run(n);
            var fault := if s.c.pc.CMismatch? then ElementFault(s.c.i, s.c.j) else VolatileFault(s.c.i);
            && FirstDifference(cfg, 0, fault)
            && ProducerStored(cfg, s.producerResult, s.c.i)
            && ConsumerStored(cfg, s.consumerResult, s.c.i)
  {
    AlwaysSafe(cfg, schedule, run, n);
    ScanFindsFirst(cfg, 0, 0);
  }

  lemma ImprovedStoredRowsAgree(cfg: Config, schedule: nat -> Thread, run: nat -> State, n: nat)
    requires Behavior(cfg, schedule, run)
    requires ImprovedConfig(cfg) && ValidConfig(cfg) && NoSentinel(cfg)
    requires NeverPremature(cfg, schedule, run, n)
    ensures var s := run(n);
            && RowsAgree(cfg, 0, s.p.i) && RowsAgree(cfg, 0, s.c.i)
            && ProducerStored(cfg, s.producerResult, s.p.i)
            && ConsumerStored(cfg, s.consumerResult, s.c.i)
  {
    AlwaysSafe(cfg, schedule, run, n);
    PastAgrees(cfg, run(n));
  }

  lemma RowFits(cfg: Config, i: nat, j: nat)
    requires i < cfg.rows && j < cfg.cols
    ensures i * cfg.cols + j < cfg.rows * cfg.cols
  {
    assert (i + 1) * cfg.cols <= cfg.rows * cfg.cols;
    NextRow(i, cfg.cols);
  }

  /** The producer waits for a cell exactly while Q - 1 elements are in flight. */
  lemma WaitsForCellIff(cfg: Config, schedule: nat -> Thread, run: nat -> State, n: nat)
    requires Behavior(cfg, schedule, run)
    requires ImprovedConfig(cfg) && ValidConfig(cfg) && NoSentinel(cfg)
    requires NeverPremature(cfg, schedule, run, n)
    requires run(n).p.pc.PAwaitNext? && schedule(n).ProducerThread? && !Alarmed(run(n))
    ensures run(n + 1) == run(n) <==> Written(cfg, run(n)) - Consumed(cfg, run(n)) == cfg.q - 1
  {
    AlwaysSafe(cfg, schedule, run, n);
    SafeInBounds(cfg, run(n));
    ProgressTest(cfg, run(n));
    FlatDistance(cfg, run(n));
    assert Follows(cfg, schedule, run, n);
  }

  // ---- How a run ends ----

  /** Without a premature read, every step that is not a failed spin uses up work, and until the end one of
      the threads can make such a step: a producer out of credit faces at least one element in flight. */
  lemma ImprovedProgress(cfg: Config, s: State, t: Thread)
    requires ImprovedConfig(cfg) && Safe(cfg, s) && InBounds(cfg, s)
    requires s.c.pc.CSpin? ==> NextUnmarked(cfg, s)
    ensures Work(cfg, s) >= 0
    ensures Turn(cfg, s, t) == s || Work(cfg, Turn(cfg, s, t)) < Work(cfg, s)
    ensures Stopped(s) || exists u :: Turn(cfg, s, u) != s
    ensures Stopped(s) ==> Turn(cfg, s, t) == s
  {
    LeftNonNegative(cfg, s.p.i, s.p.j, ProducerRank(s.p.pc));
    LeftNonNegative(cfg, s.c.i, s.c.j, ConsumerRank(s.c.pc));
    if s.p.pc.PSample? {
      ImprovedCredit(cfg, s);
    }
    ProducerUsesWork(cfg, s);
    ConsumerUsesWork(cfg, s);
    if !Stopped(s) {
      ImprovedMoves(cfg, s);
    }
  }

  lemma ImprovedMoves(cfg: Config, s: State)
    requires ImprovedConfig(cfg) && Safe(cfg, s) && InBounds(cfg, s) && !Stopped(s)
    requires s.c.pc.CSpin? ==> NextUnmarked(cfg, s)
    ensures Turn(cfg, s, ProducerThread) != s || Turn(cfg, s, ConsumerThread) != s
  {
    if s.c.pc.CSpin? {
      CellOnTime(cfg, s);
    }
    if s.p.pc.PAwaitNext? {
      ProgressTest(cfg, s);
    }
  }

  lemma ImprovedStopped(cfg: Config, s: State)
    requires ImprovedConfig(cfg) && Safe(cfg, s) && Stopped(s)
    ensures Outcome(cfg, s)
  {
    assert Finished(s) ==> Scan(cfg, 0, 0) == Agree;
  }

  lemma ImprovedProgresses(cfg: Config, schedule: nat -> Thread, run: nat -> State, n: nat)
    requires Behavior(cfg, schedule, run)
    requires ImprovedConfig(cfg) && ValidConfig(cfg) && NoSentinel(cfg)
    requires NeverPremature(cfg, schedule, run, n)
    ensures Progresses(run, schedule, (s, t) => Turn(cfg, s, t), s => Work(cfg, s), Stopped, n)
  {
    var s, next := run(n), (s, t) => Turn(cfg, s, t);
    assert Follows(cfg, schedule, run, n);
    AlwaysSafe(cfg, schedule, run, n);
    SafeInBounds(cfg, s);
    NeverMarked(cfg, s);
    ImprovedProgress(cfg, s, schedule(n));
    if !Stopped(s) {
      var u :| Turn(cfg, s, u) != s;
      assert next(s, u) != s;
    }
  }

  // The n-th turn is a premature read.
  predicate PrematureTurn(cfg: Config, schedule: nat -> Thread, run: nat -> State, n: nat)
  {
    schedule(n).ConsumerThread? && Premature(cfg, run(n))
  }

  /** The premature read is all that is wrong with the improved mode: every fair run makes one, or it ends
      where the checked modes end, with the verdict and the rows the two streams call for. */
  lemma ImprovedDecidesUnlessPremature(cfg: Config, schedule: nat -> Thread, run: nat -> State) returns (stop: nat)
    requires Behavior(cfg, schedule, run)
    requires ImprovedConfig(cfg) && ValidConfig(cfg) && NoSentinel(cfg) && Fair(schedule)
    ensures PrematureTurn(cfg, schedule, run, stop)
            || (Outcome(cfg, run(stop)) && forall m: nat :: stop <= m ==> run(m) == run(stop))
  {
    if n: nat :| PrematureTurn(cfg, schedule, run, n) {
      return n;
    }
    var next, work := (s, t) => Turn(cfg, s, t), s => Work(cfg, s);
    forall k: nat ensures Progresses(run, schedule, next, work, Stopped, k) {
      forall i: nat | i < k && schedule(i).ConsumerThread? ensures !Premature(cfg, run(i)) {
        assert !PrematureTurn(cfg, schedule, run, i);
      }
      ImprovedProgresses(cfg, schedule, run, k);
    }
    stop := FairRunStops(run, schedule, next, work, Stopped);
    forall i: nat | i < stop && schedule(i).ConsumerThread? ensures !Premature(cfg, run(i)) {
      assert !PrematureTurn(cfg, schedule, run, i);
    }
    AlwaysSafe(cfg, schedule, run, stop);
    ImprovedStopped(cfg, run(stop));
  }
}
