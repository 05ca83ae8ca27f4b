/** The replicated matrix-vector product of VectorMatrixMult.c as a machine of two threads.

    Each step makes at most one access to shared memory; accesses are sequentially consistent.
    A spin loop is a step that changes nothing while its guard fails, and `exit(1)` stops both
    threads. A soft error is an arbitrary amount added to an accumulation, or to the value
    published at the end of a row. */
module Channel {
  import opened Ring

  // The three modes of the producer's `switch`.
  datatype Mode = Volatile | RhtVolatiles | RhtVolatilesImproved

  datatype Config = Config(
    mode: Mode,
    q: nat,                             // SIMPLE_SYNC_QUEUE_SIZE
    rows: nat,                          // MATRIX_ROWS
    cols: nat,                          // MATRIX_COLS
    vector: seq<int>,
    matrix: seq<seq<int>>,
    oldProducerResult: seq<int>,        // the global result arrays before the run
    oldConsumerResult: seq<int>,
    producerFault: (nat, nat) -> int,   // soft error in the producer's accumulation (row, column)
    consumerFault: (nat, nat) -> int,
    publishFault: nat -> int)           // soft error in the value published for a row

  datatype ProducerPc =
    | PAwaitSlot   // while (content[nextEnqPtr] != ALREADY_CONSUMED), per element
    | PWrite       // thisValue += ...; content[enqPtr] = thisValue
    | PAdvance     // enqPtr = (enqPtr + 1) % Q
    | PAwaitNext   // the wait that ends a batch
    | PSample      // localDeqPtr = deqPtr; newLimit += ...
    | PPublish     // volatileValue = thisValue
    | PLowerFlag   // checkState = 0
    | PAwaitFlag   // while (checkState == 0)
    | PStore       // producerVectorResult[i] = thisValue
    | PDone

  datatype ConsumerPc =
    | CRead        // thisValue += ...; otherValue = content[deqPtr]
    | CSpin        // while (content[deqPtr] == ALREADY_CONSUMED)
    | CReread      // otherValue = content[deqPtr], after the spin
    | CReset       // content[deqPtr] = ALREADY_CONSUMED
    | CBump        // deqPtr = (deqPtr + 1) % Q
    | CAwaitFlag   // while (checkState == 1)
    | CCheckValue  // thisValue != volatileValue ?
    | CRaiseFlag   // checkState = 1
    | CStore       // consumerVectorResult[i] = thisValue
    | CDone
    | CMismatch         // exit(1) in ConsumerCheckAndMove
    | CVolatileMismatch // exit(1) at the volatile store

  datatype Producer = Producer(pc: ProducerPc, i: nat, j: nat, thisValue: int, newLimit: int,
                               leftover: bool, // in the loop "iterations left"
                               localDeqPtr: nat)

  datatype Consumer = Consumer(pc: ConsumerPc, i: nat, j: nat, thisValue: int)

  datatype State = State(
    content: seq<int>, enqPtr: nat, deqPtr: nat, checkState: int, volatileValue: int,
    producerResult: seq<int>, consumerResult: seq<int>,
    p: Producer, c: Consumer)

  datatype Thread = ProducerThread | ConsumerThread

  // ---- The streams the two threads compute ----

  function Term(cfg: Config, i: nat, j: nat): int
  {
    if i < |cfg.matrix| && j < |cfg.vector| && j < |cfg.matrix[i]| then cfg.vector[j] * cfg.matrix[i][j] else 0
  }

  // The producer's `thisValue` after `j` columns of row `i`.
  function ProducerSum(cfg: Config, i: nat, j: nat): int
  {
    if j == 0 then 0 else ProducerSum(cfg, i, j - 1) + Term(cfg, i, j - 1) + cfg.producerFault(i, j - 1)
  }

  function ConsumerSum(cfg: Config, i: nat, j: nat): int
  {
    if j == 0 then 0 else ConsumerSum(cfg, i, j - 1) + Term(cfg, i, j - 1) + cfg.consumerFault(i, j - 1)
  }

  function PublishedValue(cfg: Config, i: nat): int
  {
    ProducerSum(cfg, i, cfg.cols) + cfg.publishFault(i)
  }

  // ---- What the program assumes of its sizes and values ----

  ghost predicate ValidConfig(cfg: Config)
  {
    && 2 <= cfg.q
    && 1 <= cfg.cols
    && (cfg.mode != Volatile ==> cfg.q <= cfg.cols)  // "one BIG assumption"
    && |cfg.vector| == cfg.cols
    && |cfg.matrix| == cfg.rows
    && (forall i :: 0 <= i < cfg.rows ==> |cfg.matrix[i]| == cfg.cols)
    && |cfg.oldProducerResult| == cfg.rows
    && |cfg.oldConsumerResult| == cfg.rows
  }

  // No value either thread computes is the mark for a free cell.
  ghost predicate NoSentinel(cfg: Config)
  {
    forall i: nat, j: nat :: i < cfg.rows && 1 <= j <= cfg.cols ==>
      ProducerSum(cfg, i, j) != ALREADY_CONSUMED && ConsumerSum(cfg, i, j) != ALREADY_CONSUMED
  }

  // ---- The steps ----

  function FirstLimit(cfg: Config): int
  {
    if cfg.mode.RhtVolatilesImproved? then cfg.q - 1 else cfg.q
  }

  function RowStart(cfg: Config, i: nat): ProducerPc
  {
    if i >= cfg.rows then PDone else if cfg.mode.Volatile? then PAwaitSlot else PWrite
  }

  function Init(cfg: Config): State
  {
    State(seq(cfg.q, _ => ALREADY_CONSUMED), 0, 0, 1, ALREADY_CONSUMED,
          cfg.oldProducerResult, cfg.oldConsumerResult,
          Producer(RowStart(cfg, 0), 0, 0, 0, FirstLimit(cfg), false, 0),
          Consumer(if cfg.rows == 0 then CDone else CRead, 0, 0, 0))
  }

  // Every array access of the next step of either thread is in bounds.
  predicate InBounds(cfg: Config, s: State)
  {
    && |s.content| == cfg.q && s.enqPtr < cfg.q && s.deqPtr < cfg.q
    && |s.producerResult| == |s.consumerResult| == cfg.rows
    && (s.p.pc == PWrite ==> s.p.i < cfg.rows && s.p.j < cfg.cols)
    && (s.p.pc == PStore ==> s.p.i < cfg.rows)
    && (s.c.pc == CRead ==> s.c.i < cfg.rows && s.c.j < cfg.cols)
    && (s.c.pc == CStore ==> s.c.i < cfg.rows)
  }

  // Where the producer goes once element `j - 1` is enqueued.
  function AfterAdvance(cfg: Config, p: Producer, j: nat): ProducerPc
  {
    if cfg.mode.Volatile? then (if j < cfg.cols then PAwaitSlot else PPublish)
    else if p.leftover then (if j < cfg.cols then PWrite else PPublish)
    else if j < p.newLimit then PWrite else PAwaitNext
  }

  // The credit a batched producer takes from a sample of `deqPtr`.
  function Credit(cfg: Config, enqPtr: nat, deqPtr: nat): int
    requires enqPtr < cfg.q && deqPtr < cfg.q
  {
    Distance(cfg.q, enqPtr, deqPtr) - if cfg.mode.RhtVolatilesImproved? then 1 else 0
  }

  function AfterSample(cfg: Config, p: Producer, newLimit: int): Producer
  {
    var leftover := newLimit >= cfg.cols;
    var pc := if leftover then (if p.j < cfg.cols then PWrite else PPublish)
              else if p.j < newLimit then PWrite else PAwaitNext;
    p.(newLimit := newLimit, leftover := leftover, pc := pc)
  }

  function ProducerStep(cfg: Config, s: State): State
    requires InBounds(cfg, s)
  {
    var p := s.p;
    match p.pc
    case PAwaitSlot =>
      if s.content[Next(cfg.q, s.enqPtr)] != ALREADY_CONSUMED then s else s.(p := p.(pc := PWrite))
    case PWrite =>
      var value := p.thisValue + Term(cfg, p.i, p.j) + cfg.producerFault(p.i, p.j);
      s.(content := s.content[s.enqPtr := value], p := p.(thisValue := value, pc := PAdvance))
    case PAdvance =>
      s.(enqPtr := Next(cfg.q, s.enqPtr), p := p.(j := p.j + 1, pc := AfterAdvance(cfg, p, p.j + 1)))
    case PAwaitNext =>
      var blocked := if cfg.mode.RhtVolatilesImproved? then p.localDeqPtr == s.deqPtr
                     else s.content[Next(cfg.q, s.enqPtr)] != ALREADY_CONSUMED;
      if blocked then s else s.(p := p.(pc := PSample))
    case PSample =>
      s.(p := AfterSample(cfg, p.(localDeqPtr := s.deqPtr), p.newLimit + Credit(cfg, s.enqPtr, s.deqPtr)))
    case PPublish =>
      s.(volatileValue := p.thisValue + cfg.publishFault(p.i), p := p.(pc := PLowerFlag))
    case PLowerFlag =>
      s.(checkState := 0, p := p.(pc := PAwaitFlag))
    case PAwaitFlag =>
      if s.checkState == 0 then s else s.(p := p.(pc := PStore))
    case PStore =>
      s.(producerResult := s.producerResult[p.i := p.thisValue],
         p := Producer(RowStart(cfg, p.i + 1), p.i + 1, 0, 0, FirstLimit(cfg), false,
                       if cfg.mode.RhtVolatilesImproved? then s.enqPtr else p.localDeqPtr))
    case PDone => s
  }

  // The consumer leaves a released cell marked, except in the improved mode.
  function AfterMatch(cfg: Config): ConsumerPc
  {
    if cfg.mode.RhtVolatilesImproved? then CBump else CReset
  }

  function ConsumerStep(cfg: Config, s: State): State
    requires InBounds(cfg, s)
  {
    var c := s.c;
    match c.pc
    case CRead =>
      var value := c.thisValue + Term(cfg, c.i, c.j) + cfg.consumerFault(c.i, c.j);
      var otherValue := s.content[s.deqPtr];
      var pc := if value == otherValue then AfterMatch(cfg)
                else if otherValue == ALREADY_CONSUMED then CSpin
                else CMismatch;
      s.(c := c.(thisValue := value, pc := pc))
    case CSpin =>
      if s.content[s.deqPtr] == ALREADY_CONSUMED then s else s.(c := c.(pc := CReread))
    case CReread =>
      s.(c := c.(pc := if s.content[s.deqPtr] == c.thisValue then AfterMatch(cfg) else CMismatch))
    case CReset =>
      s.(content := s.content[s.deqPtr := ALREADY_CONSUMED], c := c.(pc := CBump))
    case CBump =>
      s.(deqPtr := Next(cfg.q, s.deqPtr),
         c := c.(j := c.j + 1, pc := if c.j + 1 < cfg.cols then CRead else CAwaitFlag))
    case CAwaitFlag =>
      if s.checkState == 1 then s else s.(c := c.(pc := CCheckValue))
    case CCheckValue =>
      s.(c := c.(pc := if c.thisValue != s.volatileValue then CVolatileMismatch else CRaiseFlag))
    case CRaiseFlag =>
      s.(checkState := 1, c := c.(pc := CStore))
    case CStore =>
      s.(consumerResult := s.consumerResult[c.i := c.thisValue],
         c := Consumer(if c.i + 1 < cfg.rows then CRead else CDone, c.i + 1, 0, 0))
    case _ => s
  }

  predicate Alarmed(s: State)
  {
    s.c.pc.CMismatch? || s.c.pc.CVolatileMismatch?
  }

  predicate Finished(s: State)
  {
    s.p.pc.PDone? && s.c.pc.CDone?
  }

  function Step(cfg: Config, s: State, t: Thread): State
    requires InBounds(cfg, s)
  {
    if Alarmed(s) then s
    else match t
      case ProducerThread => ProducerStep(cfg, s)
      case ConsumerThread => ConsumerStep(cfg, s)
  }

  // ---- Memory safety, in all three modes ----

  // What keeps the indices of both threads in range.
  predicate BoundsOk(cfg: Config, s: State)
  {
    var p, c := s.p, s.c;
    && InBounds(cfg, s)
    && (!p.pc.PDone? ==> p.i < cfg.rows)
    && (p.pc.PAwaitSlot? ==> cfg.mode.Volatile?)
    && (p.pc.PAwaitSlot? || p.pc.PWrite? || p.pc.PAdvance? ==> p.j < cfg.cols)
    && (!cfg.mode.Volatile? && (p.pc.PAdvance? || p.pc.PWrite?) && !p.leftover ==> p.j < p.newLimit)
    && (!p.leftover ==> p.newLimit <= cfg.cols || cfg.mode.Volatile?)
    && (!c.pc.CDone? ==> c.i < cfg.rows)
    && (c.pc.CRead? || c.pc.CSpin? || c.pc.CReread? || c.pc.CReset? || c.pc.CBump? ==> c.j < cfg.cols)
  }

  lemma StepKeepsBounds(cfg: Config, s: State, t: Thread)
    requires ValidConfig(cfg) && BoundsOk(cfg, s)
    ensures BoundsOk(cfg, Step(cfg, s, t))
  {
  }
}
