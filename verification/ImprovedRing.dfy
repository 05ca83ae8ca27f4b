/** The ring of the RHT_VolatilesImproved mode, in every run. The consumer no longer marks the cells it has
    read, so a cell keeps the last value written to it, and the consumer may run ahead of the producer; the
    producer works from the two pointers alone. */
module ImprovedRing {
  import opened Ring
  import opened Channel
  import opened Invariant
  import opened Runs

  // The k-th element of the producer's stream.
  function StreamAt(cfg: Config, k: nat): int
    requires 0 < cfg.cols
  {
    ProducerSum(cfg, k / cfg.cols, k % cfg.cols + 1)
  }

  lemma StreamIndex(cfg: Config, i: nat, j: nat)
    requires j < cfg.cols
    ensures StreamAt(cfg, Index(cfg, i, j)) == ProducerSum(cfg, i, j + 1)
  {
    IndexUnique(cfg, i, j);
  }

  // What is in a cell `e` places after the producer's when `w` elements have been written.
  function LastWritten(cfg: Config, w: nat, e: nat): int
    requires 0 < cfg.cols
  {
    if w + e < cfg.q then ALREADY_CONSUMED else StreamAt(cfg, w + e - cfg.q)
  }

  // Every cell holds the last value written to it, or the initial mark.
  ghost predicate History(cfg: Config, content: seq<int>, w: nat)
    requires 0 < cfg.q && 0 < cfg.cols
  {
    && |content| == cfg.q
    && forall x :: 0 <= x < cfg.q ==> content[x] == LastWritten(cfg, w, Offset(cfg.q, Position(cfg.q, w), x))
  }

  lemma WriteKeepsHistory(cfg: Config, content: seq<int>, w: nat)
    requires 0 < cfg.q && 0 < cfg.cols && History(cfg, content, w)
    ensures History(cfg, content[Position(cfg.q, w) := StreamAt(cfg, w)], w + 1)
  {
    var head, head' := Position(cfg.q, w), Position(cfg.q, w + 1);
    var content' := content[head := StreamAt(cfg, w)];
    forall x | 0 <= x < cfg.q
      ensures content'[x] == LastWritten(cfg, w + 1, Offset(cfg.q, head', x))
    {
      var e, e' := Offset(cfg.q, head, x), Offset(cfg.q, head', x);
      if x == head {
        assert e' == cfg.q - 1;
      } else {
        assert e' == e - 1;
      }
    }
  }

  // The value at index `k` of the stream's ring when `w` elements have been written: the element, or the one
  // a number of laps older, or the mark if the cell was never used.
  function Seen(cfg: Config, k: nat, w: nat): int
    requires 0 < cfg.q && 0 < cfg.cols
  {
    if k < w then StreamAt(cfg, k) else if k < cfg.q then ALREADY_CONSUMED else Seen(cfg, k - cfg.q, w)
  }

  // What the cell of element `k` holds when all elements before it have been written, and it has not.
  function Leftover(cfg: Config, k: nat): int
    requires 0 < cfg.q && 0 < cfg.cols
  {
    if k < cfg.q then ALREADY_CONSUMED else StreamAt(cfg, k - cfg.q)
  }

  // The consumer's value for element k.
  function OwnAt(cfg: Config, k: nat): int
    requires 0 < cfg.cols
  {
    ConsumerSum(cfg, k / cfg.cols, k % cfg.cols + 1)
  }

  lemma OwnIndex(cfg: Config, i: nat, j: nat)
    requires j < cfg.cols
    ensures OwnAt(cfg, Index(cfg, i, j)) == ConsumerSum(cfg, i, j + 1)
  {
    IndexUnique(cfg, i, j);
  }

  /** What is in the cell of index `k` when `w` elements have been written, wherever `k` is. */
  lemma {:induction false} ReadsHistory(cfg: Config, content: seq<int>, k: nat, w: nat)
    requires 0 < cfg.q && 0 < cfg.cols && History(cfg, content, w)
    requires w <= k + cfg.q
    ensures content[Position(cfg.q, k)] == Seen(cfg, k, w)
  {
    var head, cell := Position(cfg.q, w), Position(cfg.q, k);
    if k < w {
      SlotIsPosition(cfg.q, k, w - k);
      assert Offset(cfg.q, head, cell) == cfg.q - (w - k);
    } else if k < cfg.q {
      SlotIsPosition(cfg.q, w, k - w);
      assert w + (k - w) == k;
      assert Offset(cfg.q, head, cell) == k - w;
    } else {
      SlotIsPosition(cfg.q, k - cfg.q, cfg.q);
      assert k - cfg.q + cfg.q == k;
      ReadsHistory(cfg, content, k - cfg.q, w);
    }
  }

  // ---- The invariant of every run ----

  ghost predicate ImprovedConfig(cfg: Config)
  {
    2 <= cfg.q <= cfg.cols && cfg.mode.RhtVolatilesImproved?
  }

  ghost predicate FlatOk(cfg: Config, s: State)
    requires ImprovedConfig(cfg)
  {
    && History(cfg, s.content, Written(cfg, s))
    && s.enqPtr == Position(cfg.q, Produced(cfg, s))
    && s.deqPtr == Position(cfg.q, Consumed(cfg, s))
  }

  // The credit never reaches a full ring beyond the consumer, although the consumer may be ahead.
  ghost predicate CreditBound(cfg: Config, s: State)
    requires ImprovedConfig(cfg)
  {
    var p := s.p;
    && !p.pc.PAwaitSlot?
    && (!p.pc.PDone? && !Released(s) ==>
          && Sent(s) <= p.newLimit <= Passed(s) + cfg.q - 1
          && (if p.leftover then cfg.cols <= p.newLimit else p.newLimit <= cfg.cols))
    && (p.pc.PWrite? || p.pc.PAdvance? ==> p.j < p.newLimit)
    && (p.pc.PAwaitNext? || p.pc.PSample? ==> !p.leftover && p.j == p.newLimit)
  }

  ghost predicate InStep(cfg: Config, s: State)
  {
    && ProducerOk(cfg, s.p)
    && ConsumerAt(cfg, s.c)
    && HandshakeOk(cfg, s)
    && !s.c.pc.CReset?
  }

  ghost predicate Always(cfg: Config, s: State)
    requires ImprovedConfig(cfg)
  {
    InStep(cfg, s) && FlatOk(cfg, s) && CreditBound(cfg, s)
  }

  // No more than Q - 1 elements are in flight.
  lemma AtMostAlmostFull(cfg: Config, s: State)
    requires ImprovedConfig(cfg) && InStep(cfg, s) && CreditBound(cfg, s)
    ensures Written(cfg, s) - Consumed(cfg, s) <= cfg.q - 1
    ensures s.p.pc.PWrite? ==> Written(cfg, s) - Consumed(cfg, s) < cfg.q - 1
  {
    FlatDistance(cfg, s);
  }

  lemma AlwaysInRange(cfg: Config, s: State)
    requires ImprovedConfig(cfg) && Always(cfg, s)
    requires |s.producerResult| == |s.consumerResult| == cfg.rows
    ensures InBounds(cfg, s)
  {
  }

  lemma InitAlways(cfg: Config)
    requires ImprovedConfig(cfg) && ValidConfig(cfg)
    ensures Always(cfg, Init(cfg))
  {
    var s := Init(cfg);
    assert Written(cfg, s) == Produced(cfg, s) == Consumed(cfg, s) == 0;
    assert History(cfg, s.content, 0);
  }

  lemma WriteKeepsFlat(cfg: Config, s: State)
    requires ImprovedConfig(cfg) && ProducerOk(cfg, s.p) && FlatOk(cfg, s) && InBounds(cfg, s) && s.p.pc.PWrite?
    ensures FlatOk(cfg, ProducerStep(cfg, s))
  {
    StreamIndex(cfg, s.p.i, s.p.j);
    WriteKeepsHistory(cfg, s.content, Written(cfg, s));
    assert Written(cfg, ProducerStep(cfg, s)) == Written(cfg, s) + 1;
  }

  lemma ProducerKeepsFlat(cfg: Config, s: State)
    requires ImprovedConfig(cfg) && ProducerOk(cfg, s.p) && FlatOk(cfg, s) && InBounds(cfg, s)
    ensures FlatOk(cfg, ProducerStep(cfg, s))
  {
    if s.p.pc.PWrite? {
      WriteKeepsFlat(cfg, s);
    } else {
      var s' := ProducerStep(cfg, s);
      NextRow(s.p.i, cfg.cols);
      assert Written(cfg, s') == Written(cfg, s) && s'.content == s.content;
      assert Produced(cfg, s') == Produced(cfg, s) + if s.p.pc.PAdvance? then 1 else 0;
    }
  }

  lemma ConsumerKeepsFlat(cfg: Config, s: State)
    requires ImprovedConfig(cfg) && ConsumerAt(cfg, s.c) && FlatOk(cfg, s) && InBounds(cfg, s) && !s.c.pc.CReset?
    ensures FlatOk(cfg, ConsumerStep(cfg, s))
  {
    var s' := ConsumerStep(cfg, s);
    NextRow(s.c.i, cfg.cols);
    assert Consumed(cfg, s') == Consumed(cfg, s) + if s.c.pc.CBump? then 1 else 0;
    assert s'.content == s.content && Written(cfg, s') == Written(cfg, s);
  }

  /** A sample never grants too much: behind the consumer the distance is the number of free cells, and
      ahead of the producer the consumer has room for any distance. */
  lemma SampleIsBounded(cfg: Config, s: State)
    requires ImprovedConfig(cfg) && InStep(cfg, s) && FlatOk(cfg, s) && CreditBound(cfg, s) && InBounds(cfg, s)
    requires s.p.pc.PSample?
    ensures 0 <= Credit(cfg, s.enqPtr, s.deqPtr)
    ensures s.p.j + Credit(cfg, s.enqPtr, s.deqPtr) <= Passed(s) + cfg.q - 1
    ensures Passed(s) <= s.p.j ==> Credit(cfg, s.enqPtr, s.deqPtr) == cfg.q - 1 - (s.p.j - Passed(s))
  {
    FlatDistance(cfg, s);
    if Passed(s) <= s.p.j {
      var inFlight := s.p.j - Passed(s);
      SlotIsPosition(cfg.q, Consumed(cfg, s), inFlight);
      DistanceIsFreeCells(cfg.q, s.deqPtr, inFlight);
    }
  }

  lemma ProducerKeepsInStep(cfg: Config, s: State)
    requires ImprovedConfig(cfg) && InStep(cfg, s) && CreditBound(cfg, s) && InBounds(cfg, s)
    ensures InStep(cfg, ProducerStep(cfg, s))
  {
  }

  lemma ConsumerKeepsInStep(cfg: Config, s: State)
    requires ImprovedConfig(cfg) && InStep(cfg, s) && InBounds(cfg, s)
    ensures InStep(cfg, ConsumerStep(cfg, s))
  {
  }

  lemma ProducerKeepsBound(cfg: Config, s: State)
    requires ImprovedConfig(cfg) && InStep(cfg, s) && FlatOk(cfg, s) && CreditBound(cfg, s) && InBounds(cfg, s)
    ensures CreditBound(cfg, ProducerStep(cfg, s))
  {
    if s.p.pc.PSample? {
      SampleIsBounded(cfg, s);
    }
  }

  lemma ConsumerKeepsBound(cfg: Config, s: State)
    requires ImprovedConfig(cfg) && InStep(cfg, s) && CreditBound(cfg, s) && InBounds(cfg, s)
    ensures CreditBound(cfg, ConsumerStep(cfg, s))
  {
  }

  lemma TurnKeepsAlways(cfg: Config, s: State, t: Thread)
    requires ImprovedConfig(cfg) && Always(cfg, s)
    ensures Always(cfg, Turn(cfg, s, t))
  {
    if InBounds(cfg, s) && !Alarmed(s) {
      match t
      case ProducerThread =>
        ProducerKeepsInStep(cfg, s);
        ProducerKeepsFlat(cfg, s);
        ProducerKeepsBound(cfg, s);
      case ConsumerThread =>
        ConsumerKeepsInStep(cfg, s);
        ConsumerKeepsFlat(cfg, s);
        ConsumerKeepsBound(cfg, s);
    }
  }

  lemma {:induction false} EveryRun(cfg: Config, schedule: nat -> Thread, run: nat -> State, n: nat)
    requires Behavior(cfg, schedule, run)
    requires ImprovedConfig(cfg) && ValidConfig(cfg)
    ensures Always(cfg, run(n)) && InBounds(cfg, run(n))
  {
    AlwaysInBounds(cfg, schedule, run, n);
    if n == 0 {
      InitAlways(cfg);
    } else {
      EveryRun(cfg, schedule, run, n - 1);
      assert Follows(cfg, schedule, run, n - 1);
      TurnKeepsAlways(cfg, run(n - 1), schedule(n - 1));
    }
  }

  // ---- What holds in every run ----

  /** Producer safety, in every interleaving and for all streams: at most Q - 1 elements are ever in flight,
      so no element is overwritten before the consumer has passed its cell. */
  lemma ProducerNeverOverruns(cfg: Config, schedule: nat -> Thread, run: nat -> State, n: nat)
    requires Behavior(cfg, schedule, run)
    requires ImprovedConfig(cfg) && ValidConfig(cfg)
    ensures var s := run(n);
            && Written(cfg, s) - Consumed(cfg, s) <= cfg.q - 1
            && (s.p.pc.PWrite? ==> Written(cfg, s) - Consumed(cfg, s) < cfg.q - 1)
  {
    EveryRun(cfg, schedule, run, n);
    AtMostAlmostFull(cfg, run(n));
  }

  /** What a sample is worth, in every run with the consumer not ahead at the time: every free cell but one. */
  lemma SampleGrantsAllButOne(cfg: Config, schedule: nat -> Thread, run: nat -> State, n: nat)
    requires Behavior(cfg, schedule, run)
    requires ImprovedConfig(cfg) && ValidConfig(cfg)
    requires run(n).p.pc.PSample? && schedule(n).ProducerThread? && !Alarmed(run(n))
    requires Consumed(cfg, run(n)) <= Produced(cfg, run(n))
    ensures var s, s' := run(n), run(n + 1);
            && s'.p.j == s.p.j && Consumed(cfg, s') == Consumed(cfg, s)
            && Produced(cfg, s') + (s'.p.newLimit - s'.p.j) == Consumed(cfg, s') + cfg.q - 1
            && (s'.p.leftover <==> cfg.cols <= s'.p.newLimit)
  {
    var s := run(n);
    EveryRun(cfg, schedule, run, n);
    FlatDistance(cfg, s);
    SampleIsBounded(cfg, s);
    assert Follows(cfg, schedule, run, n);
  }

  // The first Q - 1 elements of a row are written on the credit the row starts with.
  ghost predicate AlmostWholeRingFirst(cfg: Config, s: State)
  {
    Sending(s.p.pc) ==>
      cfg.q - 1 <= s.p.newLimit && (s.p.j < cfg.q - 1 ==> s.p.newLimit == cfg.q - 1 && !s.p.leftover)
  }

  lemma TurnKeepsAlmostWholeRing(cfg: Config, s: State, t: Thread)
    requires ImprovedConfig(cfg) && Always(cfg, s) && InBounds(cfg, s) && AlmostWholeRingFirst(cfg, s)
    ensures AlmostWholeRingFirst(cfg, Turn(cfg, s, t))
  {
    if s.p.pc.PSample? {
      SampleIsBounded(cfg, s);
    }
  }

  /** At the start of a row the credit is the ring but for one cell, and it lasts until it is used up. */
  lemma {:induction false} RowStartsWithAlmostWholeRing(cfg: Config, schedule: nat -> Thread, run: nat -> State, n: nat)
    requires Behavior(cfg, schedule, run)
    requires ImprovedConfig(cfg) && ValidConfig(cfg)
    ensures AlmostWholeRingFirst(cfg, run(n))
  {
    if n > 0 {
      RowStartsWithAlmostWholeRing(cfg, schedule, run, n - 1);
      EveryRun(cfg, schedule, run, n - 1);
      assert Follows(cfg, schedule, run, n - 1);
      TurnKeepsAlmostWholeRing(cfg, run(n - 1), schedule(n - 1));
    }
  }

  predicate Reads(pc: ConsumerPc)
  {
    pc.CRead? || pc.CSpin? || pc.CReread?
  }

  // What the consumer finds where it is about to look.
  lemma CellRead(cfg: Config, s: State)
    requires ImprovedConfig(cfg) && Always(cfg, s) && InBounds(cfg, s) && Reads(s.c.pc)
    ensures s.content[s.deqPtr] == Seen(cfg, Consumed(cfg, s), Written(cfg, s))
    ensures Consumed(cfg, s) < Written(cfg, s) ==> s.content[s.deqPtr] == ProducerSum(cfg, s.c.i, s.c.j + 1)
  {
    AtMostAlmostFull(cfg, s);
    ReadsHistory(cfg, s.content, Consumed(cfg, s), Written(cfg, s));
    StreamIndex(cfg, s.c.i, s.c.j);
  }

  // The verdict on the consumer's own value, given the value in the cell.
  function Judged(pc: ConsumerPc, own: int, seen: int): ConsumerPc
    requires Reads(pc)
  {
    if pc.CSpin? then if seen == ALREADY_CONSUMED then CSpin else CReread
    else if own == seen then CBump
    else if pc.CRead? && seen == ALREADY_CONSUMED then CSpin
    else CMismatch
  }

  lemma ReadVerdictAt(cfg: Config, s: State)
    requires ImprovedConfig(cfg) && Always(cfg, s) && InBounds(cfg, s) && Reads(s.c.pc)
    ensures ConsumerStep(cfg, s).c.pc ==
              Judged(s.c.pc, ConsumerSum(cfg, s.c.i, s.c.j + 1), Seen(cfg, Consumed(cfg, s), Written(cfg, s)))
    ensures Consumed(cfg, s) < Written(cfg, s) ==>
              Seen(cfg, Consumed(cfg, s), Written(cfg, s)) == ProducerSum(cfg, s.c.i, s.c.j + 1)
  {
    CellRead(cfg, s);
  }

  /** Verdicts, in every run: a read judges the consumer's value by the producer's for the same index
      whenever the element is in flight; else by the mark on the first lap, and later by the last element
      written to the cell. */
  lemma ReadVerdict(cfg: Config, schedule: nat -> Thread, run: nat -> State, n: nat)
    requires Behavior(cfg, schedule, run)
    requires ImprovedConfig(cfg) && ValidConfig(cfg)
    requires Reads(run(n).c.pc) && schedule(n).ConsumerThread?
    ensures var s := run(n);
            var own, seen := ConsumerSum(cfg, s.c.i, s.c.j + 1), Seen(cfg, Consumed(cfg, s), Written(cfg, s));
            && run(n + 1).c.pc == Judged(s.c.pc, own, seen)
            && (Consumed(cfg, s) < Written(cfg, s) ==> seen == ProducerSum(cfg, s.c.i, s.c.j + 1))
  {
    EveryRun(cfg, schedule, run, n);
    ReadVerdictAt(cfg, run(n));
    assert Follows(cfg, schedule, run, n);
  }

  /** False alarms, in every run: where the streams agree, a comparison fails if and only if the consumer is
      not behind the producer and the cell holds another value (or, at the first look, the mark). */
  lemma FalseAlarmIff(cfg: Config, schedule: nat -> Thread, run: nat -> State, n: nat)
    requires Behavior(cfg, schedule, run)
    requires ImprovedConfig(cfg) && ValidConfig(cfg)
    requires (run(n).c.pc.CRead? || run(n).c.pc.CReread?) && schedule(n).ConsumerThread?
    requires ProducerSum(cfg, run(n).c.i, run(n).c.j + 1) == ConsumerSum(cfg, run(n).c.i, run(n).c.j + 1)
    ensures var s := run(n);
            var seen := Seen(cfg, Consumed(cfg, s), Written(cfg, s));
            Alarmed(run(n + 1)) <==>
              && Written(cfg, s) <= Consumed(cfg, s)
              && seen != ConsumerSum(cfg, s.c.i, s.c.j + 1)
              && !(s.c.pc.CRead? && seen == ALREADY_CONSUMED)
  {
    ReadVerdict(cfg, schedule, run, n);
  }

  /** Missed detections, in every run: where the streams differ, the consumer's value is accepted if and only
      if the consumer is not behind the producer and an older element (or the mark) equals it. */
  lemma MissedDetectionIff(cfg: Config, schedule: nat -> Thread, run: nat -> State, n: nat)
    requires Behavior(cfg, schedule, run)
    requires ImprovedConfig(cfg) && ValidConfig(cfg)
    requires (run(n).c.pc.CRead? || run(n).c.pc.CReread?) && schedule(n).ConsumerThread?
    requires ProducerSum(cfg, run(n).c.i, run(n).c.j + 1) != ConsumerSum(cfg, run(n).c.i, run(n).c.j + 1)
    ensures var s := run(n);
            run(n + 1).c.pc.CBump? <==>
              && Written(cfg, s) <= Consumed(cfg, s)
              && Seen(cfg, Consumed(cfg, s), Written(cfg, s)) == ConsumerSum(cfg, s.c.i, s.c.j + 1)
  {
    ReadVerdict(cfg, schedule, run, n);
  }
}
