/** Properties of whole runs in the Volatile and RHT_Volatiles modes: for every schedule of the two
    threads and every pattern of soft errors. */
module Runs {
  import opened Ring
  import opened Channel
  import opened Invariant
  import opened Fairness

  // One turn; the run gets stuck at an access out of bounds, which AlwaysInBounds shows never to come.
  function Turn(cfg: Config, s: State, t: Thread): State
  {
    if InBounds(cfg, s) then Step(cfg, s, t) else s
  }

  // The state after `n` turns, the k-th of which `schedule(k)` gives to a thread.
  function At(cfg: Config, schedule: nat -> Thread, n: nat): State
  {
    if n == 0 then Init(cfg) else Turn(cfg, At(cfg, schedule, n - 1), schedule(n - 1))
  }

  // `run` is the sequence of states of a run from the start of the program under `schedule`.
  ghost predicate Behavior(cfg: Config, schedule: nat -> Thread, run: nat -> State)
  {
    && run(0) == Init(cfg)
    && forall n: nat :: Follows(cfg, schedule, run, n)
  }

  ghost predicate Follows(cfg: Config, schedule: nat -> Thread, run: nat -> State, n: nat)
  {
    run(n + 1) == Turn(cfg, run(n), schedule(n))
  }

  // Every schedule has its run.
  lemma EveryScheduleRuns(cfg: Config, schedule: nat -> Thread) returns (run: nat -> State)
    ensures Behavior(cfg, schedule, run)
  {
    run := (n: nat) => At(cfg, schedule, n);
    forall n: nat ensures Follows(cfg, schedule, run, n) {
      assert At(cfg, schedule, n + 1) == Turn(cfg, At(cfg, schedule, n), schedule(n));
    }
  }

  /** In no interleaving of any mode is an array accessed out of bounds. */
  lemma {:induction false} AlwaysInBounds(cfg: Config, schedule: nat -> Thread, run: nat -> State, n: nat)
    requires Behavior(cfg, schedule, run)
    requires ValidConfig(cfg)
    ensures BoundsOk(cfg, run(n))
  {
    if n > 0 {
      AlwaysInBounds(cfg, schedule, run, n - 1);
      assert Follows(cfg, schedule, run, n - 1);
      StepKeepsBounds(cfg, run(n - 1), schedule(n - 1));
    }
  }

  /** The invariant holds in every state of every interleaving of the two checked modes. */
  lemma {:induction false} AlwaysInv(cfg: Config, schedule: nat -> Thread, run: nat -> State, n: nat)
    requires Behavior(cfg, schedule, run)
    requires Checked(cfg)
    ensures Inv(cfg, run(n)) && InBounds(cfg, run(n))
  {
    if n == 0 {
      InitInv(cfg);
    } else {
      AlwaysInv(cfg, schedule, run, n - 1);
      assert Follows(cfg, schedule, run, n - 1);
      StepKeepsInv(cfg, run(n - 1), schedule(n - 1));
    }
    InvInBounds(cfg, run(n));
  }

  // ---- The counters behind the ring indices ----

  // The position of column j of row i in the stream.
  function Index(cfg: Config, i: nat, j: nat): nat
  {
    i * cfg.cols + j
  }

  function Produced(cfg: Config, s: State): nat
  {
    Index(cfg, s.p.i, s.p.j)
  }

  function Consumed(cfg: Config, s: State): nat
  {
    Index(cfg, s.c.i, s.c.j)
  }

  // Elements written to the ring since the start.
  function Written(cfg: Config, s: State): nat
  {
    Index(cfg, s.p.i, Sent(s))
  }

  lemma NextRow(i: nat, cols: nat)
    ensures (i + 1) * cols == i * cols + cols
  {
  }

  lemma IndexUnique(cfg: Config, i: nat, j: nat)
    requires j < cfg.cols
    ensures Index(cfg, i, j) / cfg.cols == i && Index(cfg, i, j) % cfg.cols == j
  {
    var k := i * cfg.cols + j;
    ModuloUnique(cfg.cols, k, i, j);
    assert (k / cfg.cols) * cfg.cols == i * cfg.cols;
    assert (k / cfg.cols - i) * cfg.cols == 0;
    MultipleIsSmall(cfg.cols, k / cfg.cols - i, 0);
  }

  // The flat counters and the positions in the row tell the same.
  lemma FlatDistance(cfg: Config, s: State)
    requires 1 <= cfg.cols && ProducerOk(cfg, s.p) && ConsumerAt(cfg, s.c) && HandshakeOk(cfg, s)
    ensures Written(cfg, s) - Consumed(cfg, s) == Filled(s) - Passed(s)
    ensures !s.p.pc.PDone? && !Released(s) ==> Consumed(cfg, s) == Index(cfg, s.p.i, Passed(s))
    ensures Sending(s.p.pc) ==> Produced(cfg, s) - Consumed(cfg, s) == s.p.j - Passed(s)
  {
    NextRow(s.c.i, cfg.cols);
    NextRow(s.p.i, cfg.cols);
  }

  ghost predicate PointersOk(cfg: Config, s: State)
    requires 0 < cfg.q
  {
    s.enqPtr == Position(cfg.q, Produced(cfg, s)) && s.deqPtr == Position(cfg.q, Consumed(cfg, s))
  }

  lemma ProducerKeepsPointers(cfg: Config, s: State)
    requires Sized(cfg) && ProducerOk(cfg, s.p) && InBounds(cfg, s) && PointersOk(cfg, s)
    ensures PointersOk(cfg, ProducerStep(cfg, s))
  {
    if s.p.pc.PStore? {
      NextRow(s.p.i, cfg.cols);
    }
    assert Produced(cfg, ProducerStep(cfg, s)) == Produced(cfg, s) + if s.p.pc.PAdvance? then 1 else 0;
  }

  lemma ConsumerKeepsPointers(cfg: Config, s: State)
    requires Sized(cfg) && ConsumerOk(cfg, s.c) && InBounds(cfg, s) && PointersOk(cfg, s)
    ensures PointersOk(cfg, ConsumerStep(cfg, s))
  {
    if s.c.pc.CStore? {
      NextRow(s.c.i, cfg.cols);
    }
    assert Consumed(cfg, ConsumerStep(cfg, s)) == Consumed(cfg, s) + if s.c.pc.CBump? then 1 else 0;
  }

  lemma InitPointers(cfg: Config)
    requires Sized(cfg)
    ensures PointersOk(cfg, Init(cfg))
  {
  }

  lemma TurnKeepsPointers(cfg: Config, s: State, t: Thread)
    requires Sized(cfg) && ProducerOk(cfg, s.p) && ConsumerOk(cfg, s.c) && PointersOk(cfg, s)
    ensures PointersOk(cfg, Turn(cfg, s, t))
  {
    if InBounds(cfg, s) && !Alarmed(s) {
      match t
      case ProducerThread => ProducerKeepsPointers(cfg, s);
      case ConsumerThread => ConsumerKeepsPointers(cfg, s);
    }
  }

  lemma {:induction false} AlwaysPointers(cfg: Config, schedule: nat -> Thread, run: nat -> State, n: nat)
    requires Behavior(cfg, schedule, run)
    requires Checked(cfg)
    ensures PointersOk(cfg, run(n))
  {
    if n == 0 {
      InitPointers(cfg);
    } else {
      AlwaysPointers(cfg, schedule, run, n - 1);
      AlwaysInv(cfg, schedule, run, n - 1);
      assert Follows(cfg, schedule, run, n - 1);
      TurnKeepsPointers(cfg, run(n - 1), schedule(n - 1));
    }
  }

  /** `enqPtr` and `deqPtr` are the two counters modulo the ring size, in every reachable state. */
  lemma PointersAreCounters(cfg: Config, schedule: nat -> Thread, run: nat -> State, n: nat)
    requires Behavior(cfg, schedule, run)
    requires Checked(cfg)
    ensures var s := run(n);
            s.enqPtr == Produced(cfg, s) % cfg.q && s.deqPtr == Consumed(cfg, s) % cfg.q
  {
    var s := run(n);
    AlwaysPointers(cfg, schedule, run, n);
    PositionIsModulo(cfg.q, Produced(cfg, s));
    PositionIsModulo(cfg.q, Consumed(cfg, s));
  }

  /** The credit invariant of RHT_Volatiles. The elements the producer may still write without
      looking never exceed the cells the consumer has passed, so an unchecked write, in a batch or in
      the leftover loop, always lands on a released cell; the test it ran is on stale information only
      in the safe direction. */
  lemma CreditInvariant(cfg: Config, schedule: nat -> Thread, run: nat -> State, n: nat)
    requires Behavior(cfg, schedule, run)
    requires Checked(cfg) && cfg.mode.RhtVolatiles?
    ensures var s := run(n);
            && (Sending(s.p.pc) ==>
                  Produced(cfg, s) + (s.p.newLimit - s.p.j) <= Consumed(cfg, s) + cfg.q)
            && (s.p.pc.PWrite? ==>
                  && s.p.j < s.p.newLimit
                  && s.enqPtr < |s.content|
                  && s.content[s.enqPtr] == ALREADY_CONSUMED)
  {
    var s := run(n);
    AlwaysInv(cfg, schedule, run, n);
    FlatDistance(cfg, s);
    if s.p.pc.PWrite? {
      PushKeepsHolds(cfg.q, s.content, Tail(cfg.q, s), Queue(cfg, s), 0);
    }
  }

  /** Once the wait on the next cell has passed, the two-branch formula gives the number of free cells
      whatever the consumer does before the sample, also between its reset and its bump; equal pointers
      then mean empty. */
  lemma SampleTellsFullFromEmpty(cfg: Config, schedule: nat -> Thread, run: nat -> State, n: nat)
    requires Behavior(cfg, schedule, run)
    requires Checked(cfg) && run(n).p.pc.PSample?
    ensures var s := run(n);
            var inFlight := Produced(cfg, s) - Consumed(cfg, s);
            && 0 <= inFlight < cfg.q
            && s.enqPtr < cfg.q && s.deqPtr < cfg.q
            && Distance(cfg.q, s.enqPtr, s.deqPtr) == cfg.q - inFlight
            && 1 <= Distance(cfg.q, s.enqPtr, s.deqPtr) <= cfg.q
            && (s.enqPtr == s.deqPtr <==> inFlight == 0)
  {
    var s := run(n);
    AlwaysInv(cfg, schedule, run, n);
    FlatDistance(cfg, s);
    SampleFacts(cfg, s);
  }

  /** What a sample is worth in RHT_Volatiles: every cell the consumer has passed by then. The producer goes on
      in batches as long as that does not reach the end of the row, and otherwise never waits for a cell in this
      row again; either way it writes next, unless the row is complete. */
  lemma SampleGrantsAllReleased(cfg: Config, schedule: nat -> Thread, run: nat -> State, n: nat)
    requires Behavior(cfg, schedule, run)
    requires Checked(cfg) && run(n).p.pc.PSample? && schedule(n).ProducerThread? && !Alarmed(run(n))
    ensures var s, s' := run(n), run(n + 1);
            && s'.p.j == s.p.j && Consumed(cfg, s') == Consumed(cfg, s)
            && Produced(cfg, s') + (s'.p.newLimit - s'.p.j) == Consumed(cfg, s') + cfg.q
            && (s'.p.leftover <==> cfg.cols <= s'.p.newLimit)
            && s'.p.pc == if s'.p.j < cfg.cols then PWrite else PPublish
  {
    var s := run(n);
    AlwaysInv(cfg, schedule, run, n);
    FlatDistance(cfg, s);
    SampleFacts(cfg, s);
    assert Follows(cfg, schedule, run, n);
  }

  // The first Q elements of a row are written on the credit the row starts with.
  ghost predicate WholeRingFirst(cfg: Config, s: State)
  {
    Sending(s.p.pc) ==> cfg.q <= s.p.newLimit && (s.p.j < cfg.q ==> s.p.newLimit == cfg.q && !s.p.leftover)
  }

  lemma ProducerKeepsWholeRing(cfg: Config, s: State)
    requires Sized(cfg) && cfg.mode.RhtVolatiles? && InBounds(cfg, s) && WholeRingFirst(cfg, s)
    requires RingOk(cfg, s) && CreditOk(cfg, s)
    ensures WholeRingFirst(cfg, ProducerStep(cfg, s))
  {
    if s.p.pc.PSample? {
      SampleFacts(cfg, s);
    }
  }

  lemma TurnKeepsWholeRing(cfg: Config, s: State, t: Thread)
    requires Sized(cfg) && cfg.mode.RhtVolatiles? && WholeRingFirst(cfg, s)
    requires RingOk(cfg, s) && CreditOk(cfg, s)
    ensures WholeRingFirst(cfg, Turn(cfg, s, t))
  {
    if InBounds(cfg, s) && t.ProducerThread? {
      ProducerKeepsWholeRing(cfg, s);
    }
  }

  // AlwaysInv, of the ring and the credit alone.
  lemma AlwaysCredit(cfg: Config, schedule: nat -> Thread, run: nat -> State, n: nat)
    requires Behavior(cfg, schedule, run)
    requires Checked(cfg)
    ensures Sized(cfg) && RingOk(cfg, run(n)) && CreditOk(cfg, run(n))
  {
    AlwaysInv(cfg, schedule, run, n);
  }

  /** At the start of a row the credit is the whole ring, and it lasts until it is used up: the first Q elements
      of every row are written without a look at the ring. */
  lemma {:induction false} RowStartsWithWholeRing(cfg: Config, schedule: nat -> Thread, run: nat -> State, n: nat)
    requires Behavior(cfg, schedule, run)
    requires Checked(cfg) && cfg.mode.RhtVolatiles?
    ensures WholeRingFirst(cfg, run(n))
  {
    if n > 0 {
      RowStartsWithWholeRing(cfg, schedule, run, n - 1);
      AlwaysCredit(cfg, schedule, run, n - 1);
      assert Follows(cfg, schedule, run, n - 1);
      TurnKeepsWholeRing(cfg, run(n - 1), schedule(n - 1));
    }
  }

  // Elements written and not yet marked as consumed.
  function InFlight(cfg: Config, s: State): int
  {
    Written(cfg, s) - Consumed(cfg, s) - if s.c.pc.CBump? then 1 else 0
  }

  // Why a thread waits, in terms of what the other has done.
  ghost predicate Waits(cfg: Config, s: State, t: Thread)
  {
    match t
    case ProducerThread =>
      || s.p.pc.PDone?
      || ((s.p.pc.PAwaitSlot? || s.p.pc.PAwaitNext?) && cfg.q < InFlight(cfg, s) + 2)  // fewer than two cells free
      || (s.p.pc.PAwaitFlag? && Row(s) == s.p.i)                                       // the row is not accepted
    case ConsumerThread =>
      || s.c.pc.CDone?
      || (s.c.pc.CSpin? && InFlight(cfg, s) == 0)
      || (s.c.pc.CAwaitFlag? && !(s.p.pc.PAwaitFlag? && s.p.i == s.c.i))               // nothing is published
  }

  lemma InFlightIs(cfg: Config, s: State)
    requires Sized(cfg) && Inv(cfg, s)
    ensures InFlight(cfg, s) == Filled(s) - Emptied(s)
  {
    FlatDistance(cfg, s);
  }

  lemma WaitsIff(cfg: Config, s: State, t: Thread)
    requires Sized(cfg) && Unmarked(cfg, s) && Inv(cfg, s) && InBounds(cfg, s) && !Alarmed(s)
    ensures Step(cfg, s, t) == s <==> Waits(cfg, s, t)
  {
    InFlightIs(cfg, s);
    match t
    case ProducerThread =>
      if s.p.pc.PAwaitSlot? || s.p.pc.PAwaitNext? {
        NextCell(cfg, s);
      }
    case ConsumerThread =>
      if s.c.pc.CSpin? {
        HeadCellHolds(cfg, s);
      }
  }

  /** A thread is held up only when it must be: a turn changes nothing exactly if the thread has ended, or the
      ring has fewer than two free cells, or is empty, or the other has not done its part of the handshake. */
  lemma BlockedIff(cfg: Config, schedule: nat -> Thread, run: nat -> State, n: nat)
    requires Behavior(cfg, schedule, run)
    requires Checked(cfg) && !Alarmed(run(n))
    ensures run(n + 1) == run(n) <==> Waits(cfg, run(n), schedule(n))
  {
    AlwaysInv(cfg, schedule, run, n);
    StreamsUnmarked(cfg, run(n));
    WaitsIff(cfg, run(n), schedule(n));
    assert Follows(cfg, schedule, run, n);
  }

  /** Without the wait the formula is useless: a full ring and an empty one give the same distance. */
  lemma FullLooksEmpty(q: nat, tail: nat)
    requires tail < q
    ensures Slot(q, tail, q) == Slot(q, tail, 0)
    ensures Distance(q, Slot(q, tail, q), tail) == Distance(q, Slot(q, tail, 0), tail) == q
  {
  }

  lemma TailIsCounter(cfg: Config, s: State)
    requires Checked(cfg) && Inv(cfg, s) && PointersOk(cfg, s)
    ensures Tail(cfg.q, s) == Position(cfg.q, Index(cfg, Row(s), Emptied(s)))
  {
    NextRow(s.c.i, cfg.cols);
    assert Index(cfg, Row(s), Emptied(s)) == Consumed(cfg, s) + if s.c.pc.CBump? then 1 else 0;
  }

  // The cell `d` places after the oldest element in flight, the `first`-th of the stream.
  ghost predicate CellContent(cfg: Config, s: State, first: nat, d: nat)
    requires 0 < cfg.q
  {
    var cell := Position(cfg.q, first + d);
    && cell < |s.content|
    && s.content[cell] ==
         if Emptied(s) + d < Filled(s) then ProducerSum(cfg, Row(s), Emptied(s) + d + 1) else ALREADY_CONSUMED
  }

  lemma RingCell(cfg: Config, s: State, first: nat, d: nat)
    requires 0 < cfg.q && RingOk(cfg, s) && d < cfg.q
    requires Tail(cfg.q, s) == Position(cfg.q, first)
    ensures CellContent(cfg, s, first, d)
  {
    CellHolds(cfg.q, s.content, Queue(cfg, s), first, d);
  }

  /** The ring is a FIFO: the cells of the elements in flight hold exactly the producer's values, all
      others (and the cell between its reset and its bump) are marked as consumed. Both modes. */
  lemma CellsHoldStream(cfg: Config, schedule: nat -> Thread, run: nat -> State, n: nat, d: nat)
    requires Behavior(cfg, schedule, run)
    requires Checked(cfg) && d < cfg.q
    ensures var s := run(n);
            CellContent(cfg, s, Index(cfg, Row(s), Emptied(s)), d)
  {
    var s := run(n);
    AlwaysInv(cfg, schedule, run, n);
    AlwaysPointers(cfg, schedule, run, n);
    TailIsCounter(cfg, s);
    RingCell(cfg, s, Index(cfg, Row(s), Emptied(s)), d);
  }

  // ---- Detection ----

  ghost predicate SameTo(cfg: Config, i: nat, j: nat)
  {
    forall k: nat :: 1 <= k <= j ==> ProducerSum(cfg, i, k) == ConsumerSum(cfg, i, k)
  }

  ghost predicate RowAgrees(cfg: Config, i: nat)
  {
    SameTo(cfg, i, cfg.cols) && PublishedValue(cfg, i) == ConsumerSum(cfg, i, cfg.cols)
  }

  ghost predicate RowsAgree(cfg: Config, from: nat, to: nat)
  {
    forall r: nat :: from <= r < to ==> RowAgrees(cfg, r)
  }

  // `v` names the first difference at or after row i, given that row i agrees on its first j values.
  ghost predicate FirstDifference(cfg: Config, i: nat, v: Verdict)
  {
    match v
    case Agree => RowsAgree(cfg, i, cfg.rows)
    case ElementFault(r, c) =>
      && i <= r < cfg.rows && c < cfg.cols && RowsAgree(cfg, i, r)
      && SameTo(cfg, r, c) && ProducerSum(cfg, r, c + 1) != ConsumerSum(cfg, r, c + 1)
    case VolatileFault(r) =>
      && i <= r < cfg.rows && RowsAgree(cfg, i, r)
      && SameTo(cfg, r, cfg.cols) && PublishedValue(cfg, r) != ConsumerSum(cfg, r, cfg.cols)
  }

  /** The sequential scan finds the first difference of the two streams. */
  lemma {:induction false} ScanFindsFirst(cfg: Config, i: nat, j: nat)
    requires i <= cfg.rows && j <= cfg.cols && SameTo(cfg, i, j)
    ensures FirstDifference(cfg, i, Scan(cfg, i, j))
    decreases cfg.rows - i, cfg.cols - j
  {
    if i < cfg.rows {
      if j < cfg.cols {
        if ProducerSum(cfg, i, j + 1) == ConsumerSum(cfg, i, j + 1) {
          ScanFindsFirst(cfg, i, j + 1);
        }
      } else if PublishedValue(cfg, i) == ConsumerSum(cfg, i, cfg.cols) {
        assert RowAgrees(cfg, i);
        ScanFindsFirst(cfg, i + 1, 0);
      }
    }
  }

  // Whether a difference lies before position (i, j).
  predicate Before(v: Verdict, i: nat, j: nat)
  {
    match v
    case Agree => false
    case ElementFault(r, c) => r < i || (r == i && c < j)
    case VolatileFault(r) => r < i
  }

  // A scan never reports a difference before its start.
  lemma {:induction false} ScanStartsAt(cfg: Config, i: nat, j: nat)
    ensures !Before(Scan(cfg, i, j), i, j)
    decreases cfg.rows - i, cfg.cols - j
  {
    if i < cfg.rows {
      if j < cfg.cols {
        ScanStartsAt(cfg, i, j + 1);
      } else {
        ScanStartsAt(cfg, i + 1, 0);
      }
    }
  }

  // If the first difference is not before (i, j), everything before (i, j) agrees.
  lemma NothingBefore(cfg: Config, i: nat, j: nat)
    requires i <= cfg.rows && j <= cfg.cols
    requires !Before(Scan(cfg, 0, 0), i, j)
    ensures RowsAgree(cfg, 0, i)
    ensures i < cfg.rows ==> SameTo(cfg, i, j)
  {
    ScanFindsFirst(cfg, 0, 0);
    if Scan(cfg, 0, 0).Agree? && i < cfg.rows {
      assert RowAgrees(cfg, i);
    }
    if Scan(cfg, 0, 0).ElementFault? && i < Scan(cfg, 0, 0).row {
      assert RowAgrees(cfg, i);
    }
    if Scan(cfg, 0, 0).VolatileFault? && i < Scan(cfg, 0, 0).row {
      assert RowAgrees(cfg, i);
    }
  }

  // Everything before the consumer's position agrees.
  lemma PastAgrees(cfg: Config, s: State)
    requires 1 <= cfg.cols && ConsumerOk(cfg, s.c)
    ensures RowsAgree(cfg, 0, Row(s))
    ensures s.c.i < cfg.rows ==> SameTo(cfg, s.c.i, s.c.j)
  {
    ScanStartsAt(cfg, s.c.i, s.c.j);
    NothingBefore(cfg, s.c.i, s.c.j);
    if s.c.pc.CStore? {
      assert Scan(cfg, s.c.i, s.c.j) == Scan(cfg, s.c.i + 1, 0);
      ScanStartsAt(cfg, s.c.i + 1, 0);
      NothingBefore(cfg, s.c.i + 1, 0);
    }
  }

  /** No row is stored by either thread unless the two streams agreed on all of it and on the value
      published for it; what is stored is that row's value, and nothing else has been touched. */
  lemma StoredRowsAgree(cfg: Config, schedule: nat -> Thread, run: nat -> State, n: nat)
    requires Behavior(cfg, schedule, run)
    requires Checked(cfg)
    ensures var s := run(n);
            && RowsAgree(cfg, 0, s.p.i) && RowsAgree(cfg, 0, s.c.i)
            && ProducerStored(cfg, s.producerResult, s.p.i)
            && ConsumerStored(cfg, s.consumerResult, s.c.i)
  {
    AlwaysInv(cfg, schedule, run, n);
    PastAgrees(cfg, run(n));
  }

  /** An alarm is raised only at the first difference of the two streams, and both result vectors then
      hold exactly the rows before it. */
  lemma AlarmIsFirstDifference(cfg: Config, schedule: nat -> Thread, run: nat -> State, n: nat)
    requires Behavior(cfg, schedule, run)
    requires Checked(cfg) && Alarmed(run(n))
    ensures var s := run(n);
            var fault := if s.c.pc.CMismatch? then ElementFault(s.c.i, s.c.j) else VolatileFault(s.c.i);
            && FirstDifference(cfg, 0, fault)
            && Scan(cfg, 0, 0) == fault
            && ProducerStored(cfg, s.producerResult, s.c.i)
            && ConsumerStored(cfg, s.consumerResult, s.c.i)
  {
    AlwaysInv(cfg, schedule, run, n);
    ScanFindsFirst(cfg, 0, 0);
  }

  // ---- Progress ----

  function ProducerRank(pc: ProducerPc): nat
  {
    match pc
    case PAwaitNext => 7
    case PSample => 6
    case PAwaitSlot => 5
    case PWrite => 2
    case PAdvance => 1
    case PPublish => 4
    case PLowerFlag => 3
    case PAwaitFlag => 2
    case PStore => 1
    case PDone => 0
  }

  function ConsumerRank(pc: ConsumerPc): nat
  {
    match pc
    case CRead => 7
    case CSpin => 6
    case CReread => 5
    case CReset => 4
    case CBump => 3
    case CAwaitFlag => 5
    case CCheckValue => 4
    case CRaiseFlag => 3
    case CStore => 2
    case CDone => 0
    case CMismatch => 0
    case CVolatileMismatch => 0
  }

  // An upper bound on the steps a thread at row i, column j can still make.
  function Left(cfg: Config, i: nat, j: nat, rank: nat): int
  {
    (cfg.rows - i) * (8 * cfg.cols + 16) + 8 * (cfg.cols - j) + rank
  }

  function Work(cfg: Config, s: State): int
  {
    Left(cfg, s.p.i, s.p.j, ProducerRank(s.p.pc)) + Left(cfg, s.c.i, s.c.j, ConsumerRank(s.c.pc))
  }

  lemma LeftNextRow(cfg: Config, i: nat, rank: nat, rank': nat)
    requires i < cfg.rows && rank' < rank + 16
    ensures Left(cfg, i + 1, 0, rank') < Left(cfg, i, cfg.cols, rank)
  {
    var w := 8 * cfg.cols + 16;
    assert (cfg.rows - i) * w == (cfg.rows - (i + 1)) * w + w;
  }

  lemma LeftNonNegative(cfg: Config, i: nat, j: nat, rank: nat)
    requires i <= cfg.rows && j <= cfg.cols
    ensures Left(cfg, i, j, rank) >= 0
  {
  }

  /** Every step that is not a failed spin uses up work; a sampled credit is worth at least one element. */
  lemma StepUsesWork(cfg: Config, s: State, t: Thread)
    requires Sized(cfg) && Inv(cfg, s)
    ensures InBounds(cfg, s)
    ensures Step(cfg, s, t) == s || Work(cfg, Step(cfg, s, t)) < Work(cfg, s)
  {
    InvInBounds(cfg, s);
    if !Alarmed(s) {
      match t
      case ProducerThread =>
        if s.p.pc.PSample? {
          SampleFacts(cfg, s);
        }
        ProducerUsesWork(cfg, s);
      case ConsumerThread => ConsumerUsesWork(cfg, s);
    }
  }

  lemma ProducerUsesWork(cfg: Config, s: State)
    requires 1 <= cfg.cols && InBounds(cfg, s) && ProducerOk(cfg, s.p)
    requires s.p.pc.PSample? ==> s.p.j == s.p.newLimit && Credit(cfg, s.enqPtr, s.deqPtr) >= 1
    ensures ProducerStep(cfg, s) == s || Work(cfg, ProducerStep(cfg, s)) < Work(cfg, s)
  {
    if s.p.pc.PStore? {
      LeftNextRow(cfg, s.p.i, ProducerRank(PStore), ProducerRank(RowStart(cfg, s.p.i + 1)));
    }
    var p, p' := s.p, ProducerStep(cfg, s).p;
    assert p.pc.PStore? || (p'.i == p.i && 8 * (p.j - p'.j) + ProducerRank(p'.pc) < ProducerRank(p.pc)) || p' == p;
  }

  lemma ConsumerUsesWork(cfg: Config, s: State)
    requires 1 <= cfg.cols && InBounds(cfg, s) && ConsumerOk(cfg, s.c)
    ensures ConsumerStep(cfg, s) == s || Work(cfg, ConsumerStep(cfg, s)) < Work(cfg, s)
  {
    if s.c.pc.CStore? {
      LeftNextRow(cfg, s.c.i, ConsumerRank(CStore), if s.c.i + 1 < cfg.rows then ConsumerRank(CRead) else 0);
    }
    var c, c' := s.c, ConsumerStep(cfg, s).c;
    assert c.pc.CStore? || (c'.i == c.i && 8 * (c.j - c'.j) + ConsumerRank(c'.pc) < ConsumerRank(c.pc)) || c' == c;
  }

  lemma WorkNonNegative(cfg: Config, s: State)
    requires Sized(cfg) && Inv(cfg, s)
    ensures Work(cfg, s) >= 0
  {
    LeftNonNegative(cfg, s.p.i, s.p.j, ProducerRank(s.p.pc));
    LeftNonNegative(cfg, s.c.i, s.c.j, ConsumerRank(s.c.pc));
  }

  /** Deadlock freedom: until the run is finished or an alarm is raised, some thread can move. */
  lemma NoDeadlock(cfg: Config, s: State)
    requires Sized(cfg) && Unmarked(cfg, s) && Inv(cfg, s) && !Finished(s) && !Alarmed(s)
    ensures InBounds(cfg, s)
    ensures exists t :: Step(cfg, s, t) != s
  {
    InvInBounds(cfg, s);
    if Step(cfg, s, ConsumerThread) == s {
      if s.c.pc.CSpin? {
        HeadCellHolds(cfg, s);
      }
      if !s.p.pc.PAdvance? {
        NextCell(cfg, s);
      }
      assert Step(cfg, s, ProducerThread) != s;
    }
  }

  // ---- Termination under fair schedules ----

  predicate Stopped(s: State)
  {
    Finished(s) || Alarmed(s)
  }

  lemma TurnFacts(cfg: Config, s: State, t: Thread)
    requires Sized(cfg) && Unmarked(cfg, s) && Inv(cfg, s)
    ensures Work(cfg, s) >= 0
    ensures Turn(cfg, s, t) == s || Work(cfg, Turn(cfg, s, t)) < Work(cfg, s)
    ensures Stopped(s) || exists u :: Turn(cfg, s, u) != s
    ensures Stopped(s) ==> Turn(cfg, s, t) == s
  {
    WorkNonNegative(cfg, s);
    StepUsesWork(cfg, s, t);
    if !Stopped(s) {
      NoDeadlock(cfg, s);
      var u :| Step(cfg, s, u) != s;
      assert Turn(cfg, s, u) != s;
    }
  }

  lemma TurnProgresses(cfg: Config, schedule: nat -> Thread, run: nat -> State, n: nat)
    requires Behavior(cfg, schedule, run)
    requires Checked(cfg)
    ensures Progresses(run, schedule, (s, t) => Turn(cfg, s, t), s => Work(cfg, s), Stopped, n)
  {
    var s, next := run(n), (s, t) => Turn(cfg, s, t);
    assert Follows(cfg, schedule, run, n);
    AlwaysInv(cfg, schedule, run, n);
    StreamsUnmarked(cfg, s);
    TurnFacts(cfg, s, schedule(n));
    if !Stopped(s) {
      var u :| Turn(cfg, s, u) != s;
      assert next(s, u) != s;
    }
  }

  // The end of a run, as a function of the streams alone.
  ghost predicate Outcome(cfg: Config, s: State)
  {
    var upTo := match Scan(cfg, 0, 0) case Agree => cfg.rows case ElementFault(r, _) => r case VolatileFault(r) => r;
    && (Scan(cfg, 0, 0).Agree? <==> Finished(s))
    && (Scan(cfg, 0, 0).ElementFault? <==> s.c.pc.CMismatch?)
    && (Scan(cfg, 0, 0).VolatileFault? <==> s.c.pc.CVolatileMismatch?)
    && ProducerStored(cfg, s.producerResult, upTo)
    && ConsumerStored(cfg, s.consumerResult, upTo)
  }

  lemma StoppedOutcome(cfg: Config, s: State)
    requires Checked(cfg) && Inv(cfg, s) && Stopped(s)
    ensures Outcome(cfg, s)
  {
    assert Finished(s) ==> Scan(cfg, 0, 0) == Agree;
  }

  /** Every fair run of either mode ends, and where it ends depends on the two streams only, not on the
      schedule or the mode: it finishes exactly when the sequential scan finds no difference. */
  lemma FairRunsDecide(cfg: Config, schedule: nat -> Thread, run: nat -> State) returns (stop: nat)
    requires Behavior(cfg, schedule, run)
    requires Checked(cfg) && Fair(schedule)
    ensures forall m: nat :: stop <= m ==> run(m) == run(stop)
    ensures Outcome(cfg, run(stop))
  {
    var next, work := (s, t) => Turn(cfg, s, t), s => Work(cfg, s);
    forall k: nat ensures Progresses(run, schedule, next, work, Stopped, k) {
      TurnProgresses(cfg, schedule, run, k);
    }
    stop := FairRunStops(run, schedule, next, work, Stopped);
    AlwaysInv(cfg, schedule, run, stop);
    StoppedOutcome(cfg, run(stop));
  }

  // ---- The fast form against the simple one ----

  // The same computation with the same soft errors, in another mode or through a ring of another size.
  ghost predicate SameStreams(cfg: Config, cfg': Config)
  {
    cfg' == cfg.(mode := cfg'.mode, q := cfg'.q)
  }

  lemma {:induction false} SumsAgree(cfg: Config, cfg': Config, i: nat, j: nat)
    requires SameStreams(cfg, cfg')
    ensures ProducerSum(cfg', i, j) == ProducerSum(cfg, i, j)
    ensures ConsumerSum(cfg', i, j) == ConsumerSum(cfg, i, j)
  {
    if j > 0 {
      SumsAgree(cfg, cfg', i, j - 1);
    }
  }

  lemma {:induction false} ScansAgree(cfg: Config, cfg': Config, i: nat, j: nat)
    requires SameStreams(cfg, cfg')
    ensures Scan(cfg', i, j) == Scan(cfg, i, j)
    decreases cfg.rows - i, cfg.cols - j
  {
    if i < cfg.rows {
      if j < cfg.cols {
        SumsAgree(cfg, cfg', i, j + 1);
        ScansAgree(cfg, cfg', i, j + 1);
      } else {
        SumsAgree(cfg, cfg', i, cfg.cols);
        ScansAgree(cfg, cfg', i + 1, 0);
      }
    }
  }

  // Both results are the same, and so is the verdict.
  ghost predicate SameOutcome(s: State, s': State)
  {
    && s'.producerResult == s.producerResult && s'.consumerResult == s.consumerResult
    && (Finished(s') <==> Finished(s))
    && (s'.c.pc.CMismatch? <==> s.c.pc.CMismatch?)
    && (s'.c.pc.CVolatileMismatch? <==> s.c.pc.CVolatileMismatch?)
  }

  lemma OutcomesAgree(cfg: Config, cfg': Config, s: State, s': State)
    requires SameStreams(cfg, cfg') && Outcome(cfg, s) && Outcome(cfg', s')
    ensures SameOutcome(s, s')
  {
    ScansAgree(cfg, cfg', 0, 0);
    forall r: nat
      ensures ProducerSum(cfg', r, cfg.cols) == ProducerSum(cfg, r, cfg.cols)
      ensures ConsumerSum(cfg', r, cfg.cols) == ConsumerSum(cfg, r, cfg.cols)
    {
      SumsAgree(cfg, cfg', r, cfg.cols);
    }
  }

  /** The batched form refines the per-element form: whatever the soft errors, a fair run of the one and a
      fair run of the other, under unrelated schedules and through rings of any size, end with the same
      verdict and the same result vectors. */
  lemma FormsAgree(cfg: Config, schedule: nat -> Thread, run: nat -> State,
                   cfg': Config, schedule': nat -> Thread, run': nat -> State)
    returns (stop: nat, stop': nat)
    requires Behavior(cfg, schedule, run) && Checked(cfg) && Fair(schedule)
    requires Behavior(cfg', schedule', run') && Checked(cfg') && Fair(schedule')
    requires SameStreams(cfg, cfg')
    ensures forall m: nat :: stop <= m ==> run(m) == run(stop)
    ensures forall m: nat :: stop' <= m ==> run'(m) == run'(stop')
    ensures Stopped(run(stop)) && SameOutcome(run(stop), run'(stop'))
  {
    stop := FairRunsDecide(cfg, schedule, run);
    stop' := FairRunsDecide(cfg', schedule', run');
    OutcomesAgree(cfg, cfg', run(stop), run'(stop'));
  }
}
