/** When a fault-free run of the RHT_VolatilesImproved mode can stop with "SOFT ERROR DETECTED": the false
    alarms of the premature reads of Improved, for every product and every ring. */
module FalseAlarm {
  import opened Ring
  import opened Channel
  import opened Invariant
  import opened Runs
  import opened Product
  import opened Fairness
  import opened ImprovedRing
  import opened Improved
  import opened Polite

  ghost predicate FaultFree(cfg: Config)
  {
    && ImprovedConfig(cfg) && ValidConfig(cfg) && InitRanges(cfg)
    && ProducerHealthy(cfg) && ConsumerHealthy(cfg)
  }

  lemma FaultFreeSums(cfg: Config, i: nat, j: nat)
    requires FaultFree(cfg)
    ensures ProducerSum(cfg, i, j) == ConsumerSum(cfg, i, j) == Dot(cfg, i, j)
    ensures PublishedValue(cfg, i) == Dot(cfg, i, cfg.cols)
  {
    HealthyProducerSum(cfg, i, j);
    HealthyConsumerSum(cfg, i, j);
    HealthyProducerSum(cfg, i, cfg.cols);
  }

  lemma FaultFreeIsClean(cfg: Config, k: nat)
    requires FaultFree(cfg)
    ensures CleanBefore(cfg, k)
  {
    FaultFreeHasNoSentinel(cfg);
    forall i: nat, j: nat | i < cfg.rows && j < cfg.cols ensures CleanElement(cfg, i, j) {
      FaultFreeSums(cfg, i, j + 1);
    }
    forall i: nat ensures PublishedValue(cfg, i) == ConsumerSum(cfg, i, cfg.cols) {
      FaultFreeSums(cfg, i, cfg.cols);
    }
  }

  // ---- Every element from the Q-th on can be read too early ----

  ghost predicate OnTheWay(cfg: Config, k: nat, s: State)
  {
    ImprovedConfig(cfg) && Safe(cfg, s) && Underway(cfg, k, s)
  }

  // On an empty queue the producer can move.
  lemma ProducerMoves(cfg: Config, s: State)
    requires ImprovedConfig(cfg) && Safe(cfg, s) && InBounds(cfg, s) && s.c.pc.CRead?
    requires Consumed(cfg, s) == Written(cfg, s)
    ensures ProducerStep(cfg, s) != s
  {
    FlatDistance(cfg, s);
    if s.p.pc.PAwaitNext? {
      ProgressTest(cfg, s);
    }
  }

  lemma ChoiceMoves(cfg: Config, k: nat, s: State)
    requires OnTheWay(cfg, k, s) && InBounds(cfg, s) && k < cfg.rows * cfg.cols && !AtTarget(cfg, s, k)
    ensures Turn(cfg, s, Choice(cfg, k, s)) != s
  {
    NotFinished(cfg, k, s);
    if s.c.pc.CRead? && Consumed(cfg, s) == Written(cfg, s) {
      ProducerMoves(cfg, s);
    } else {
      ImprovedMoves(cfg, s);
    }
  }

  lemma ReadStaysUnderway(cfg: Config, k: nat, s: State)
    requires OnTheWay(cfg, k, s) && InBounds(cfg, s) && CleanBefore(cfg, k) && !AtTarget(cfg, s, k)
    requires Choice(cfg, k, s).ConsumerThread? && s.c.pc.CRead?
    ensures Emptied(s) < Filled(s) && NextUnmarked(cfg, s)
    ensures ConsumerStep(cfg, s).c.pc.CBump?
  {
    ReadsCleanElement(cfg, k, s);
    CellOnTime(cfg, s);
  }

  lemma ConsumerStaysUnderway(cfg: Config, k: nat, s: State)
    requires OnTheWay(cfg, k, s) && InBounds(cfg, s) && CleanBefore(cfg, k) && !AtTarget(cfg, s, k)
    requires Choice(cfg, k, s).ConsumerThread?
    ensures !Premature(cfg, s) && (Reads(s.c.pc) ==> NextUnmarked(cfg, s))
    ensures var s' := ConsumerStep(cfg, s); !s'.c.pc.CSpin? && !s'.c.pc.CReread? && !Alarmed(s')
  {
    if s.c.pc.CRead? {
      ReadStaysUnderway(cfg, k, s);
      FlatDistance(cfg, s);
    } else {
      MoveStaysUnderway(cfg, k, s);
    }
  }

  lemma StaysSafe(cfg: Config, k: nat, s: State)
    requires OnTheWay(cfg, k, s) && CleanBefore(cfg, k) && !AtTarget(cfg, s, k)
    ensures Safe(cfg, Turn(cfg, s, Choice(cfg, k, s)))
  {
    SafeInBounds(cfg, s);
    if Choice(cfg, k, s).ConsumerThread? {
      ConsumerStaysUnderway(cfg, k, s);
    }
    StepKeepsSafe(cfg, s, Choice(cfg, k, s));
  }

  lemma StaysUnderway(cfg: Config, k: nat, s: State)
    requires OnTheWay(cfg, k, s) && InBounds(cfg, s) && CleanBefore(cfg, k) && !AtTarget(cfg, s, k)
    ensures Underway(cfg, k, Turn(cfg, s, Choice(cfg, k, s)))
  {
    if Choice(cfg, k, s).ConsumerThread? {
      ConsumerStaysUnderway(cfg, k, s);
    }
    WritesStayBelow(cfg, k, s);
  }

  lemma SafeWork(cfg: Config, s: State)
    requires ImprovedConfig(cfg) && Safe(cfg, s)
    ensures Work(cfg, s) >= 0
  {
    LeftNonNegative(cfg, s.p.i, s.p.j, ProducerRank(s.p.pc));
    LeftNonNegative(cfg, s.c.i, s.c.j, ConsumerRank(s.c.pc));
  }

  lemma Progress(cfg: Config, k: nat, s: State)
    requires OnTheWay(cfg, k, s) && CleanBefore(cfg, k) && k < cfg.rows * cfg.cols && !AtTarget(cfg, s, k)
    ensures var s' := Turn(cfg, s, Choice(cfg, k, s)); OnTheWay(cfg, k, s') && 0 <= Work(cfg, s') < Work(cfg, s)
  {
    SafeInBounds(cfg, s);
    ChoiceMoves(cfg, k, s);
    ImprovedProgress(cfg, s, Choice(cfg, k, s));
    StaysSafe(cfg, k, s);
    StaysUnderway(cfg, k, s);
    SafeWork(cfg, Turn(cfg, s, Choice(cfg, k, s)));
  }

  lemma StartOnTheWay(cfg: Config, k: nat)
    requires ImprovedConfig(cfg) && ValidConfig(cfg)
    ensures OnTheWay(cfg, k, Init(cfg))
  {
    InitSafe(cfg);
  }

  /** Every element the streams agree up to can be what the consumer is about to read on an empty queue. */
  lemma ReachEmptyQueue(cfg: Config, k: nat) returns (schedule: nat -> Thread, run: nat -> State, m: nat)
    requires ImprovedConfig(cfg) && ValidConfig(cfg) && CleanBefore(cfg, k) && k < cfg.rows * cfg.cols
    ensures Behavior(cfg, schedule, run) && Fair(schedule) && AlternatesFrom(schedule, m)
    ensures AtTarget(cfg, run(m), k) && Safe(cfg, run(m))
  {
    var good := s => OnTheWay(cfg, k, s);
    forall s: State ensures Approaches(cfg, k, good, s) {
      if good(s) && !AtTarget(cfg, s, k) {
        Progress(cfg, k, s);
      }
    }
    StartOnTheWay(cfg, k);
    schedule, run, m := PoliteArrival(cfg, k, good);
  }

  // At the target the consumer judges its value by what is left in the cell.
  lemma TargetVerdict(cfg: Config, k: nat, s: State)
    requires ImprovedConfig(cfg) && Safe(cfg, s) && AtTarget(cfg, s, k)
    ensures Turn(cfg, s, ConsumerThread).c ==
              s.c.(thisValue := OwnAt(cfg, k), pc := Judged(CRead, OwnAt(cfg, k), Leftover(cfg, k)))
  {
    SafeInBounds(cfg, s);
    ReadVerdictAt(cfg, s);
    OwnIndex(cfg, s.c.i, s.c.j);
  }

  /** Any element, if the streams agree up to there, can be judged by what is left in its cell: the one Q before
      it, or the mark. The run is fair, and from turn m on the threads alternate. */
  lemma EarlyRead(cfg: Config, k: nat) returns (schedule: nat -> Thread, run: nat -> State, m: nat)
    requires ImprovedConfig(cfg) && ValidConfig(cfg) && CleanBefore(cfg, k) && k < cfg.rows * cfg.cols
    ensures Behavior(cfg, schedule, run) && Fair(schedule) && AlternatesFrom(schedule, m)
    ensures AtTarget(cfg, run(m), k)
    ensures run(m + 1).c == run(m).c.(thisValue := OwnAt(cfg, k),
                                      pc := Judged(CRead, OwnAt(cfg, k), Leftover(cfg, k)))
  {
    schedule, run, m := ReachEmptyQueue(cfg, k);
    TargetVerdict(cfg, k, run(m));
    assert schedule(m) == ConsumerThread;
    assert Follows(cfg, schedule, run, m);
  }

  /** False alarms: an element that agrees, but not with the one Q before it, has a fair run in which it
      raises the alarm. */
  lemma FalseAlarmAt(cfg: Config, k: nat) returns (schedule: nat -> Thread, run: nat -> State, n: nat)
    requires ImprovedConfig(cfg) && ValidConfig(cfg) && CleanBefore(cfg, k) && cfg.q <= k < cfg.rows * cfg.cols
    requires StreamAt(cfg, k) == OwnAt(cfg, k) != StreamAt(cfg, k - cfg.q)
    requires StreamAt(cfg, k - cfg.q) != ALREADY_CONSUMED
    ensures RaisesAlarm(cfg, schedule, run, n) && Fair(schedule)
  {
    var m;
    schedule, run, m := EarlyRead(cfg, k);
    n := m + 1;
  }

  ghost predicate RaisesAlarm(cfg: Config, schedule: nat -> Thread, run: nat -> State, n: nat)
  {
    Behavior(cfg, schedule, run) && Alarmed(run(n))
  }

  // ---- When the old values are the right ones ----

  ghost predicate RowsAlike(cfg: Config)
  {
    forall r, j :: 0 <= r < |cfg.matrix| && 0 <= j < |cfg.matrix[r]| && j < |cfg.matrix[0]| ==>
      cfg.matrix[r][j] == cfg.matrix[0][j]
  }

  lemma {:induction false} AlikeDots(cfg: Config, r: nat, j: nat)
    requires ValidConfig(cfg) && RowsAlike(cfg) && r < cfg.rows && j <= cfg.cols
    ensures Dot(cfg, r, j) == Dot(cfg, 0, j)
  {
    if j > 0 {
      AlikeDots(cfg, r, j - 1);
      assert cfg.matrix[r][j - 1] == cfg.matrix[0][j - 1];
    }
  }

  // In a ring as long as a row every column has its own cell, and a cell only ever holds its column's value.
  ghost predicate CellsAlike(cfg: Config, content: seq<int>)
  {
    forall x: nat :: x < |content| ==> content[x] == ALREADY_CONSUMED || content[x] == Dot(cfg, 0, x + 1)
  }

  ghost predicate ProducerColumns(cfg: Config, s: State)
  {
    && ProducerOk(cfg, s.p)
    && s.enqPtr == (if s.p.j == cfg.cols then 0 else s.p.j)
    && (s.checkState == 0 || s.p.pc.PLowerFlag? ==> s.volatileValue == Dot(cfg, 0, cfg.cols))
    && (s.checkState == 0 || s.checkState == 1)
  }

  ghost predicate ConsumerColumns(cfg: Config, s: State)
  {
    var c := s.c;
    && s.deqPtr == (if c.j == cfg.cols then 0 else c.j)
    && (!c.pc.CDone? ==> c.thisValue == Dot(cfg, 0, c.j + if HoldsElement(c.pc) then 1 else 0))
    && (c.pc.CRead? || HoldsElement(c.pc) ==> c.j < cfg.cols)
    && (c.pc.CAwaitFlag? || c.pc.CCheckValue? || c.pc.CRaiseFlag? || c.pc.CStore? ==> c.j == cfg.cols)
    && (c.pc.CDone? ==> c.j == 0)
    && (c.pc.CReread? ==> c.j < |s.content| && s.content[c.j] != ALREADY_CONSUMED)
    && (c.pc.CCheckValue? ==> s.volatileValue == Dot(cfg, 0, cfg.cols))
    && !c.pc.CReset? && !Alarmed(s)
  }

  ghost predicate Columns(cfg: Config, s: State)
  {
    BoundsOk(cfg, s) && CellsAlike(cfg, s.content) && ProducerColumns(cfg, s) && ConsumerColumns(cfg, s)
  }

  lemma ProducerKeepsColumns(cfg: Config, s: State)
    requires FaultFree(cfg) && RowsAlike(cfg) && cfg.q == cfg.cols && Columns(cfg, s)
    ensures Columns(cfg, ProducerStep(cfg, s))
  {
    StepKeepsBounds(cfg, s, ProducerThread);
    if s.p.pc.PWrite? {
      FaultFreeSums(cfg, s.p.i, s.p.j + 1);
      AlikeDots(cfg, s.p.i, s.p.j + 1);
      DotRange(cfg, 0, s.p.j + 1);
    } else if s.p.pc.PPublish? {
      FaultFreeSums(cfg, s.p.i, cfg.cols);
      AlikeDots(cfg, s.p.i, cfg.cols);
    }
    ProducerPart(cfg, s);
    CellsPart(cfg, s);
    UnderConsumer(cfg, s);
  }

  lemma UnderConsumer(cfg: Config, s: State)
    requires ImprovedConfig(cfg) && InBounds(cfg, s) && ProducerOk(cfg, s.p) && ConsumerColumns(cfg, s)
    requires s.p.pc.PWrite? ==> ProducerSum(cfg, s.p.i, s.p.j + 1) != ALREADY_CONSUMED
    requires s.p.pc.PPublish? ==> PublishedValue(cfg, s.p.i) == Dot(cfg, 0, cfg.cols)
    ensures ConsumerColumns(cfg, ProducerStep(cfg, s))
  {
  }

  lemma ProducerPart(cfg: Config, s: State)
    requires ImprovedConfig(cfg) && cfg.q == cfg.cols && BoundsOk(cfg, s) && ProducerColumns(cfg, s)
    requires s.p.pc.PPublish? ==> PublishedValue(cfg, s.p.i) == Dot(cfg, 0, cfg.cols)
    ensures ProducerColumns(cfg, ProducerStep(cfg, s))
  {
  }

  lemma CellsPart(cfg: Config, s: State)
    requires ImprovedConfig(cfg) && cfg.q == cfg.cols && BoundsOk(cfg, s) && ProducerColumns(cfg, s)
    requires CellsAlike(cfg, s.content)
    requires s.p.pc.PWrite? ==> ProducerSum(cfg, s.p.i, s.p.j + 1) == Dot(cfg, 0, s.p.j + 1)
    ensures CellsAlike(cfg, ProducerStep(cfg, s).content)
  {
  }

  lemma ConsumerKeepsColumns(cfg: Config, s: State)
    requires FaultFree(cfg) && RowsAlike(cfg) && cfg.q == cfg.cols && Columns(cfg, s)
    ensures Columns(cfg, ConsumerStep(cfg, s))
  {
    StepKeepsBounds(cfg, s, ConsumerThread);
    if s.c.pc.CRead? {
      AlikeDots(cfg, s.c.i, s.c.j);
      AlikeDots(cfg, s.c.i, s.c.j + 1);
      DotRange(cfg, 0, s.c.j + 1);
    }
    ConsumerPart(cfg, s);
  }

  lemma ConsumerPart(cfg: Config, s: State)
    requires ImprovedConfig(cfg) && cfg.q == cfg.cols && ConsumerHealthy(cfg) && InBounds(cfg, s)
    requires CellsAlike(cfg, s.content) && ConsumerColumns(cfg, s)
    requires s.checkState == 0 ==> s.volatileValue == Dot(cfg, 0, cfg.cols)
    requires s.checkState == 0 || s.checkState == 1
    requires s.c.pc.CRead? ==> Dot(cfg, 0, s.c.j) + Term(cfg, s.c.i, s.c.j) == Dot(cfg, 0, s.c.j + 1)
    ensures ConsumerColumns(cfg, ConsumerStep(cfg, s))
  {
  }

  lemma {:induction false} AlwaysColumns(cfg: Config, schedule: nat -> Thread, run: nat -> State, n: nat)
    requires FaultFree(cfg) && RowsAlike(cfg) && cfg.q == cfg.cols && Behavior(cfg, schedule, run)
    ensures Columns(cfg, run(n))
  {
    if n > 0 {
      AlwaysColumns(cfg, schedule, run, n - 1);
      assert Follows(cfg, schedule, run, n - 1);
      ProducerKeepsColumns(cfg, run(n - 1));
      ConsumerKeepsColumns(cfg, run(n - 1));
    }
  }

  // ---- The exact condition ----

  // The first place where a row differs from the one before it.
  lemma RowDifference(cfg: Config) returns (r: nat, j: nat)
    requires FaultFree(cfg) && !RowsAlike(cfg)
    ensures 1 <= r < cfg.rows && j < cfg.cols
    ensures Dot(cfg, r, j + 1) != Dot(cfg, r - 1, j + 1)
  {
    r := 1;
    while r < cfg.rows && cfg.matrix[r] == cfg.matrix[0]
      invariant 1 <= r && forall i :: 0 <= i < r && i < cfg.rows ==> cfg.matrix[i] == cfg.matrix[0]
    {
      r := r + 1;
    }
    j := 0;
    while j < cfg.cols && cfg.matrix[r][j] == cfg.matrix[0][j]
      invariant j <= cfg.cols && forall i :: 0 <= i < j ==> cfg.matrix[r][i] == cfg.matrix[0][i]
      invariant Dot(cfg, r, j) == Dot(cfg, r - 1, j)
    {
      j := j + 1;
    }
    TermsDiffer(cfg.vector[j], cfg.matrix[r][j], cfg.matrix[0][j]);
  }

  lemma TermsDiffer(v: int, x: int, y: int)
    requires v >= 1 && x != y
    ensures v * x != v * y
  {
    assert v * (x - y) != 0;
  }

  /** The improved mode is free of false alarms, in all interleavings, if and only if the product has no rows,
      or the ring is exactly one row long and all rows of the matrix are equal. With a ring shorter than a
      row, as the program assumes, some interleaving of every product stops with a false alarm. */
  lemma NoFalseAlarmIff(cfg: Config)
    requires FaultFree(cfg)
    ensures (forall schedule, run, n :: !RaisesAlarm(cfg, schedule, run, n))
            <==> cfg.rows == 0 || (cfg.q == cfg.cols && RowsAlike(cfg))
  {
    if cfg.rows == 0 || (cfg.q == cfg.cols && RowsAlike(cfg)) {
      forall schedule, run, n: nat ensures !RaisesAlarm(cfg, schedule, run, n) {
        if Behavior(cfg, schedule, run) {
          if cfg.rows == 0 {
            NoRows(cfg, schedule, run, n);
          } else {
            AlwaysColumns(cfg, schedule, run, n);
          }
        }
      }
    } else {
      var schedule, run, n := FalseAlarmExists(cfg);
      assert RaisesAlarm(cfg, schedule, run, n);
    }
  }

  /** Outside that condition a false alarm needs no unfair schedule. */
  lemma FalseAlarmExists(cfg: Config) returns (schedule: nat -> Thread, run: nat -> State, n: nat)
    requires FaultFree(cfg) && cfg.rows > 0 && (cfg.q < cfg.cols || !RowsAlike(cfg))
    ensures RaisesAlarm(cfg, schedule, run, n) && Fair(schedule)
  {
    var k := AlarmingElement(cfg);
    FaultFreeIsClean(cfg, k);
    FaultFreeStream(cfg, k);
    FaultFreeStream(cfg, k - cfg.q);
    schedule, run, n := FalseAlarmAt(cfg, k);
  }

  lemma FaultFreeStream(cfg: Config, k: nat)
    requires FaultFree(cfg) && k < cfg.rows * cfg.cols
    ensures StreamAt(cfg, k) == OwnAt(cfg, k) != ALREADY_CONSUMED
  {
    var i, j := k / cfg.cols, k % cfg.cols;
    assert k == i * cfg.cols + j;
    assert i >= cfg.rows ==> i * cfg.cols >= cfg.rows * cfg.cols;
    FaultFreeSums(cfg, i, j + 1);
    DotRange(cfg, i, j + 1);
  }

  lemma AlarmingElement(cfg: Config) returns (k: nat)
    requires FaultFree(cfg) && cfg.rows > 0 && (cfg.q < cfg.cols || !RowsAlike(cfg))
    ensures cfg.q <= k < cfg.rows * cfg.cols && StreamAt(cfg, k) != StreamAt(cfg, k - cfg.q)
  {
    if cfg.q < cfg.cols {
      k := cfg.q;
      AlarmInFirstRow(cfg);
    } else {
      var r, j := RowDifference(cfg);
      k := r * cfg.cols + j;
      AlarmInRow(cfg, r, j);
    }
  }

  lemma AlarmInFirstRow(cfg: Config)
    requires FaultFree(cfg) && cfg.rows > 0 && cfg.q < cfg.cols
    ensures cfg.q < cfg.rows * cfg.cols && StreamAt(cfg, cfg.q) != StreamAt(cfg, 0)
  {
    RowFits(cfg, 0, cfg.q);
    StreamIndex(cfg, 0, cfg.q);
    StreamIndex(cfg, 0, 0);
    FaultFreeSums(cfg, 0, cfg.q + 1);
    FaultFreeSums(cfg, 0, 1);
    DotGrows(cfg, 0, 1, cfg.q + 1);
  }

  lemma AlarmInRow(cfg: Config, r: nat, j: nat)
    requires FaultFree(cfg) && cfg.q == cfg.cols && 1 <= r < cfg.rows && j < cfg.cols
    requires Dot(cfg, r, j + 1) != Dot(cfg, r - 1, j + 1)
    ensures var k := r * cfg.cols + j;
            cfg.q <= k < cfg.rows * cfg.cols && StreamAt(cfg, k) != StreamAt(cfg, k - cfg.q)
  {
    NextRow(r - 1, cfg.cols);
    RowFits(cfg, r, j);
    StreamIndex(cfg, r, j);
    StreamIndex(cfg, r - 1, j);
    FaultFreeSums(cfg, r, j + 1);
    FaultFreeSums(cfg, r - 1, j + 1);
  }

  lemma {:induction false} DotGrows(cfg: Config, i: nat, a: nat, b: nat)
    requires ValidConfig(cfg) && InitRanges(cfg) && i < cfg.rows && 1 <= a < b <= cfg.cols
    ensures Dot(cfg, i, a) < Dot(cfg, i, b)
    decreases b
  {
    DotRange(cfg, i, b);
    if a < b - 1 {
      DotGrows(cfg, i, a, b - 1);
    }
  }

  lemma {:induction false} NoRows(cfg: Config, schedule: nat -> Thread, run: nat -> State, n: nat)
    requires ValidConfig(cfg) && cfg.rows == 0 && Behavior(cfg, schedule, run)
    ensures Finished(run(n))
  {
    if n > 0 {
      NoRows(cfg, schedule, run, n - 1);
      assert Follows(cfg, schedule, run, n - 1);
    }
  }

  // ---- The smallest false alarm ----

  // One row of three ones through a ring of two cells, no soft error anywhere.
  function LapConfig(): Config
  {
    Config(RhtVolatilesImproved, 2, 1, 3, [1, 1, 1], [[1, 1, 1]], [0], [0], (i, j) => 0, (i, j) => 0, i => 0)
  }

  // The producer fills its first batch, the consumer takes it and waits; the producer sends one more
  // element, which the consumer takes before looking once more.
  function LapSchedule(n: nat): Thread
  {
    if n < 3 then ProducerThread       // write, advance, (wait)
    else if n < 6 then ConsumerThread  // read, bump, read the free cell
    else if n < 10 then ProducerThread // wait over, sample, write, advance
    else ConsumerThread                // spin, read again, bump, read
  }

  /** The false alarm: without any soft error, and with every value in the range of Vector_Matrix_Init, the
      improved mode stops with "SOFT ERROR DETECTED". */
  lemma FalseAlarmReachable(run: nat -> State)
    requires Behavior(LapConfig(), LapSchedule, run)
    ensures FaultFree(LapConfig()) && NoSentinel(LapConfig()) && RowsAgree(LapConfig(), 0, 1)
    ensures run(14).c.pc.CMismatch?
  {
    LapSums();
    LapFirstBatch(run);
    LapSecondBatch(run);
    LapTurn(run, 10);
    LapTurn(run, 11);
    LapTurn(run, 12);
    LapTurn(run, 13);
  }

  lemma LapTurn(run: nat -> State, n: nat)
    requires Behavior(LapConfig(), LapSchedule, run)
    ensures run(n + 1) == Turn(LapConfig(), run(n), LapSchedule(n))
  {
    assert Follows(LapConfig(), LapSchedule, run, n);
  }

  lemma LapFirstBatch(run: nat -> State)
    requires Behavior(LapConfig(), LapSchedule, run)
    ensures run(6) == LapState(1, 1, [1, -1], Producer(PAwaitNext, 0, 1, 1, 1, false, 0), Consumer(CSpin, 0, 1, 2))
  {
    assert run(0) == LapState(0, 0, [-1, -1], Producer(PWrite, 0, 0, 0, 1, false, 0), Consumer(CRead, 0, 0, 0));
    LapTurn(run, 0);
    LapTurn(run, 1);
    LapTurn(run, 2);
    assert run(3) == LapState(1, 0, [1, -1], Producer(PAwaitNext, 0, 1, 1, 1, false, 0), Consumer(CRead, 0, 0, 0));
    LapTurn(run, 3);
    LapTurn(run, 4);
    LapTurn(run, 5);
  }

  lemma LapSecondBatch(run: nat -> State)
    requires Behavior(LapConfig(), LapSchedule, run)
    ensures run(10) == LapState(0, 1, [1, 2], Producer(PAwaitNext, 0, 2, 2, 2, false, 1), Consumer(CSpin, 0, 1, 2))
  {
    LapFirstBatch(run);
    LapTurn(run, 6);
    LapTurn(run, 7);
    LapTurn(run, 8);
    LapTurn(run, 9);
  }

  function LapState(enqPtr: nat, deqPtr: nat, content: seq<int>, p: Producer, c: Consumer): State
  {
    State(content, enqPtr, deqPtr, 1, ALREADY_CONSUMED, [0], [0], p, c)
  }

  lemma LapSums()
    ensures NoSentinel(LapConfig()) && RowsAgree(LapConfig(), 0, 1)
  {
    var cfg := LapConfig();
    forall j: nat | j <= 3 ensures ProducerSum(cfg, 0, j) == ConsumerSum(cfg, 0, j) == j {
      assert ProducerSum(cfg, 0, 0) == ConsumerSum(cfg, 0, 0) == 0;
      assert ProducerSum(cfg, 0, 1) == ConsumerSum(cfg, 0, 1) == 1;
      assert ProducerSum(cfg, 0, 2) == ConsumerSum(cfg, 0, 2) == 2;
      assert ProducerSum(cfg, 0, 3) == ConsumerSum(cfg, 0, 3) == 3;
    }
  }
}
