/** What every state reachable in the Volatile and RHT_Volatiles modes satisfies, in every
    interleaving and for every pattern of soft errors. */
module Invariant {
  import opened Ring
  import opened Channel

  // ---- The reference: one thread comparing the two streams in row-major order ----

  datatype Verdict = Agree | ElementFault(row: nat, col: nat) | VolatileFault(row: nat)

  function Scan(cfg: Config, i: nat, j: nat): Verdict
    decreases cfg.rows - i, cfg.cols - j
  {
    if i >= cfg.rows then Agree
    else if j < cfg.cols then
      if ProducerSum(cfg, i, j + 1) != ConsumerSum(cfg, i, j + 1) then ElementFault(i, j)
      else Scan(cfg, i, j + 1)
    else if PublishedValue(cfg, i) != ConsumerSum(cfg, i, cfg.cols) then VolatileFault(i)
    else Scan(cfg, i + 1, 0)
  }

  // ---- Positions ----

  // Elements of row `p.i` that are in the ring or have passed through it.
  function Sent(s: State): nat
  {
    s.p.j + if s.p.pc.PAdvance? then 1 else 0
  }

  // Elements of row `c.i` whose cells the consumer has released.
  function Taken(s: State): nat
  {
    s.c.j + if s.c.pc.CBump? then 1 else 0
  }

  // The producer's row has been accepted; only its result is still to be stored.
  predicate Released(s: State)
  {
    s.p.pc.PStore? || (s.p.pc.PAwaitFlag? && s.checkState == 1)
  }

  // Rows the consumer has accepted: the row being transferred.
  function Row(s: State): nat
  {
    s.c.i + if s.c.pc.CStore? then 1 else 0
  }

  // How far the producer and the consumer are in that row.
  function Filled(s: State): nat
  {
    if Released(s) then 0 else Sent(s)
  }

  function Emptied(s: State): nat
  {
    if s.c.pc.CStore? then 0 else Taken(s)
  }

  // Like Emptied, but a cell counts only once `deqPtr` has moved past it.
  function Passed(s: State): nat
  {
    if s.c.pc.CStore? then 0 else s.c.j
  }

  // Values `from + 1 .. to` of a row of the producer's stream.
  function Window(cfg: Config, i: nat, from: nat, to: nat): seq<int>
  {
    if from <= to then seq(to - from, (d: nat) => ProducerSum(cfg, i, from + d + 1)) else []
  }

  // The elements in the channel: sent and not yet taken.
  function Queue(cfg: Config, s: State): seq<int>
  {
    Window(cfg, Row(s), Emptied(s), Filled(s))
  }

  function Tail(q: nat, s: State): nat
  {
    if s.c.pc.CBump? then Next(q, s.deqPtr) else s.deqPtr
  }

  function Head(q: nat, s: State): nat
  {
    if s.p.pc.PAdvance? then Next(q, s.enqPtr) else s.enqPtr
  }

  // ---- The invariant ----

  predicate Sending(pc: ProducerPc)
  {
    pc.PAwaitSlot? || pc.PWrite? || pc.PAdvance? || pc.PAwaitNext? || pc.PSample?
  }

  ghost predicate ProducerOk(cfg: Config, p: Producer)
  {
    && (p.pc.PDone? ==> p.i == cfg.rows && p.j == 0)
    && (!p.pc.PDone? ==> p.i < cfg.rows && p.j <= cfg.cols)
    && (p.pc.PAwaitSlot? || p.pc.PWrite? || p.pc.PAdvance? ==> p.j < cfg.cols)
    && (!p.pc.PDone? && !Sending(p.pc) ==> p.j == cfg.cols)
    && p.thisValue == ProducerSum(cfg, p.i, if p.pc.PAdvance? then p.j + 1 else p.j)
  }

  // c.thisValue already includes column c.j.
  predicate HoldsElement(pc: ConsumerPc)
  {
    pc.CSpin? || pc.CReread? || pc.CReset? || pc.CBump? || pc.CMismatch?
  }

  // Where the consumer is in its loops, and what it has computed.
  ghost predicate ConsumerAt(cfg: Config, c: Consumer)
  {
    && (c.pc.CDone? ==> c.i == cfg.rows && c.j == 0)
    && (!c.pc.CDone? ==> c.i < cfg.rows)
    && (c.pc.CRead? || HoldsElement(c.pc) ==> c.j < cfg.cols)
    && (!c.pc.CDone? && !c.pc.CRead? && !HoldsElement(c.pc) ==> c.j == cfg.cols)
    && c.thisValue == ConsumerSum(cfg, c.i, c.j + if HoldsElement(c.pc) then 1 else 0)
  }

  // Everything it has passed agreed.
  ghost predicate ConsumerOk(cfg: Config, c: Consumer)
  {
    && ConsumerAt(cfg, c)
    && (c.pc.CReset? || c.pc.CBump? ==> ProducerSum(cfg, c.i, c.j + 1) == ConsumerSum(cfg, c.i, c.j + 1))
    && (c.pc.CMismatch? ==> ProducerSum(cfg, c.i, c.j + 1) != ConsumerSum(cfg, c.i, c.j + 1))
    && (c.pc.CRaiseFlag? || c.pc.CStore? ==> PublishedValue(cfg, c.i) == ConsumerSum(cfg, c.i, cfg.cols))
    && (c.pc.CVolatileMismatch? ==> PublishedValue(cfg, c.i) != ConsumerSum(cfg, c.i, cfg.cols))
    && Scan(cfg, 0, 0) == Scan(cfg, c.i, c.j)
  }

  // The flag handshake keeps both threads in one row.
  ghost predicate HandshakeOk(cfg: Config, s: State)
  {
    && (s.checkState == 0 || s.checkState == 1)
    && (s.checkState == 0 ==> s.p.pc.PAwaitFlag?)
    && (s.checkState == 0 || s.p.pc.PLowerFlag? ==> s.volatileValue == PublishedValue(cfg, s.p.i))
    && (s.c.pc.CCheckValue? || s.c.pc.CRaiseFlag? || s.c.pc.CVolatileMismatch? ==> s.checkState == 0)
    && Row(s) == s.p.i + (if Released(s) then 1 else 0)
  }

  ghost predicate BarrierOk(cfg: Config, s: State)
  {
    && HandshakeOk(cfg, s)
    && (s.c.pc.CReread? || s.c.pc.CReset? || s.c.pc.CMismatch? ==> Emptied(s) < Filled(s))
  }

  ghost predicate RingOk(cfg: Config, s: State)
  {
    && s.enqPtr < cfg.q && s.deqPtr < cfg.q
    && Emptied(s) <= Filled(s) <= Emptied(s) + cfg.q
    && Holds(cfg.q, s.content, Tail(cfg.q, s), Queue(cfg, s))
    && Head(cfg.q, s) == Slot(cfg.q, Tail(cfg.q, s), Filled(s) - Emptied(s))
  }

  // The simple form asks for every slot; the batched form lives on its credit.
  ghost predicate CreditOk(cfg: Config, s: State)
  {
    var p, live := s.p, Filled(s) - Emptied(s);
    match cfg.mode
    case Volatile =>
      && !p.pc.PAwaitNext? && !p.pc.PSample?
      && live < cfg.q
      && (p.pc.PWrite? ==> live + 1 < cfg.q)
    case RhtVolatiles =>
      && !p.pc.PAwaitSlot?
      && (Sending(p.pc) ==>
            && p.newLimit <= Passed(s) + cfg.q
            && (if p.leftover then cfg.cols <= p.newLimit else p.j <= p.newLimit <= cfg.cols))
      && (p.pc.PWrite? || p.pc.PAdvance? ==> p.j < p.newLimit)
      && (p.pc.PAwaitNext? || p.pc.PSample? ==> !p.leftover && p.j == p.newLimit)
      && (p.pc.PSample? ==> p.j < Passed(s) + cfg.q)
    case RhtVolatilesImproved => true
  }

  // Exactly the rows before `upTo` have been stored.
  ghost predicate ProducerStored(cfg: Config, result: seq<int>, upTo: nat)
  {
    && |result| == |cfg.oldProducerResult| == cfg.rows
    && forall r: nat :: r < cfg.rows ==>
         result[r] == if r < upTo then ProducerSum(cfg, r, cfg.cols) else cfg.oldProducerResult[r]
  }

  ghost predicate ConsumerStored(cfg: Config, result: seq<int>, upTo: nat)
  {
    && |result| == |cfg.oldConsumerResult| == cfg.rows
    && forall r: nat :: r < cfg.rows ==>
         result[r] == if r < upTo then ConsumerSum(cfg, r, cfg.cols) else cfg.oldConsumerResult[r]
  }

  ghost predicate ResultsOk(cfg: Config, s: State)
  {
    && ProducerStored(cfg, s.producerResult, s.p.i)
    && ConsumerStored(cfg, s.consumerResult, s.c.i)
  }

  ghost predicate Core(cfg: Config, s: State)
  {
    && ProducerOk(cfg, s.p)
    && ConsumerOk(cfg, s.c)
    && BarrierOk(cfg, s)
    && RingOk(cfg, s)
    && CreditOk(cfg, s)
  }

  ghost predicate Inv(cfg: Config, s: State)
  {
    Core(cfg, s) && ResultsOk(cfg, s)
  }

  // The runs this invariant is about.
  ghost predicate Sized(cfg: Config)
  {
    2 <= cfg.q && 1 <= cfg.cols && (cfg.mode.Volatile? || (cfg.mode.RhtVolatiles? && cfg.q <= cfg.cols))
  }

  ghost predicate Checked(cfg: Config)
  {
    ValidConfig(cfg) && NoSentinel(cfg) && !cfg.mode.RhtVolatilesImproved?
  }

  lemma InvInBounds(cfg: Config, s: State)
    requires Sized(cfg) && Inv(cfg, s)
    ensures InBounds(cfg, s)
  {
  }

  lemma WindowFree(cfg: Config, i: nat, from: nat, to: nat)
    requires NoSentinel(cfg) && (from < to ==> i < cfg.rows && to <= cfg.cols)
    ensures ALREADY_CONSUMED !in Window(cfg, i, from, to)
  {
  }

  lemma WindowPush(cfg: Config, i: nat, from: nat, to: nat)
    requires from <= to
    ensures Window(cfg, i, from, to + 1) == Window(cfg, i, from, to) + [ProducerSum(cfg, i, to + 1)]
  {
  }

  lemma WindowPop(cfg: Config, i: nat, from: nat, to: nat)
    requires from < to
    ensures Window(cfg, i, from, to)[0] == ProducerSum(cfg, i, from + 1)
    ensures Window(cfg, i, from, to)[1..] == Window(cfg, i, from + 1, to)
  {
  }

  lemma InitInv(cfg: Config)
    requires ValidConfig(cfg) && Sized(cfg)
    ensures Inv(cfg, Init(cfg))
  {
  }

  // What the consumer sees in the cell at `deqPtr`.
  ghost predicate HeadCell(cfg: Config, s: State)
    requires InBounds(cfg, s)
  {
    && (s.content[s.deqPtr] == ALREADY_CONSUMED <==> Emptied(s) == Filled(s))
    && (Emptied(s) < Filled(s) ==> s.content[s.deqPtr] == ProducerSum(cfg, s.c.i, s.c.j + 1))
  }

  // Neither the elements in flight nor the value the consumer is about to compare is the mark.
  ghost predicate Unmarked(cfg: Config, s: State)
  {
    && ALREADY_CONSUMED !in Queue(cfg, s)
    && (s.c.pc.CRead? ==> ConsumerSum(cfg, s.c.i, s.c.j + 1) != ALREADY_CONSUMED)
  }

  lemma StreamsUnmarked(cfg: Config, s: State)
    requires Sized(cfg) && NoSentinel(cfg) && Core(cfg, s)
    ensures Unmarked(cfg, s)
  {
    WindowFree(cfg, Row(s), Emptied(s), Filled(s));
  }

  lemma HeadCellHolds(cfg: Config, s: State)
    requires Sized(cfg) && Unmarked(cfg, s) && Core(cfg, s) && InBounds(cfg, s)
    requires !s.c.pc.CBump? && !s.c.pc.CStore?
    ensures HeadCell(cfg, s)
  {
    TailCell(cfg.q, s.content, Tail(cfg.q, s), Queue(cfg, s));
  }

  // Neither wait on the cell after `enqPtr` passes unless two cells are free.
  lemma NextCell(cfg: Config, s: State)
    requires Sized(cfg) && Unmarked(cfg, s) && Core(cfg, s) && InBounds(cfg, s) && !s.p.pc.PAdvance?
    ensures s.content[Next(cfg.q, s.enqPtr)] == ALREADY_CONSUMED <==> Filled(s) - Emptied(s) + 2 <= cfg.q
  {
    NextCellFreeIff(cfg.q, s.content, Tail(cfg.q, s), Queue(cfg, s));
  }

  // The distance formula, on a sample taken at PSample.
  lemma SampleFacts(cfg: Config, s: State)
    requires Sized(cfg) && InBounds(cfg, s) && s.p.pc.PSample?
    requires RingOk(cfg, s) && CreditOk(cfg, s)
    ensures Distance(cfg.q, s.enqPtr, s.deqPtr) == cfg.q - (s.p.j - Passed(s))
    ensures 1 <= Distance(cfg.q, s.enqPtr, s.deqPtr) <= cfg.q
    ensures s.enqPtr == s.deqPtr <==> s.p.j == Passed(s)
  {
    assert s.enqPtr == Slot(cfg.q, s.deqPtr, s.p.j - Passed(s));
    DistanceIsFreeCells(cfg.q, s.deqPtr, s.p.j - Passed(s));
  }

  // A step that moves neither end of the queue.
  lemma SameQueue(cfg: Config, s: State, s': State)
    requires RingOk(cfg, s)
    requires s'.content == s.content && s'.enqPtr < cfg.q && s'.deqPtr < cfg.q
    requires Head(cfg.q, s') == Head(cfg.q, s) && Tail(cfg.q, s') == Tail(cfg.q, s)
    requires Row(s') == Row(s) && Emptied(s') == Emptied(s) && Filled(s') == Filled(s)
    ensures RingOk(cfg, s')
  {
  }

  lemma WriteKeepsRing(cfg: Config, s: State)
    requires ProducerOk(cfg, s.p) && BarrierOk(cfg, s) && RingOk(cfg, s) && InBounds(cfg, s) && s.p.pc.PWrite?
    requires Filled(s) - Emptied(s) < cfg.q
    ensures RingOk(cfg, ProducerStep(cfg, s))
  {
    var value, queue := ProducerSum(cfg, s.p.i, s.p.j + 1), Queue(cfg, s);
    var s' := ProducerStep(cfg, s);
    WindowPush(cfg, Row(s), Emptied(s), Filled(s));
    PushKeepsHolds(cfg.q, s.content, Tail(cfg.q, s), queue, value);
    assert Queue(cfg, s') == queue + [value];
    assert s'.content == s.content[Slot(cfg.q, Tail(cfg.q, s), |queue|) := value];
  }

  lemma WriteKeepsCore(cfg: Config, s: State)
    requires Sized(cfg) && Core(cfg, s) && InBounds(cfg, s) && s.p.pc.PWrite?
    ensures Core(cfg, ProducerStep(cfg, s))
  {
    WriteKeepsRing(cfg, s);
  }

  lemma PublishKeepsCore(cfg: Config, s: State)
    requires Sized(cfg) && Core(cfg, s) && InBounds(cfg, s)
    requires s.p.pc.PPublish? || s.p.pc.PLowerFlag? || s.p.pc.PAwaitFlag?
    ensures Core(cfg, ProducerStep(cfg, s))
  {
    SameQueue(cfg, s, ProducerStep(cfg, s));
  }

  lemma StoreKeepsCore(cfg: Config, s: State)
    requires Sized(cfg) && Core(cfg, s) && InBounds(cfg, s) && s.p.pc.PStore?
    ensures Core(cfg, ProducerStep(cfg, s))
  {
  }

  lemma AwaitKeepsCore(cfg: Config, s: State)
    requires Sized(cfg) && Unmarked(cfg, s) && Core(cfg, s) && InBounds(cfg, s)
    requires s.p.pc.PAwaitSlot? || s.p.pc.PAwaitNext?
    ensures Core(cfg, ProducerStep(cfg, s))
  {
    NextCell(cfg, s);
    SameQueue(cfg, s, ProducerStep(cfg, s));
  }

  lemma AdvanceKeepsCore(cfg: Config, s: State)
    requires Sized(cfg) && Core(cfg, s) && InBounds(cfg, s) && s.p.pc.PAdvance?
    ensures Core(cfg, ProducerStep(cfg, s))
  {
    SameQueue(cfg, s, ProducerStep(cfg, s));
  }

  lemma SampleKeepsCore(cfg: Config, s: State)
    requires Sized(cfg) && Core(cfg, s) && InBounds(cfg, s) && s.p.pc.PSample?
    ensures Core(cfg, ProducerStep(cfg, s))
  {
    SampleFacts(cfg, s);
    SameQueue(cfg, s, ProducerStep(cfg, s));
  }

  lemma ReadKeepsCore(cfg: Config, s: State)
    requires Sized(cfg) && Core(cfg, s) && InBounds(cfg, s) && s.c.pc.CRead?
    requires HeadCell(cfg, s) && ConsumerSum(cfg, s.c.i, s.c.j + 1) != ALREADY_CONSUMED
    ensures Core(cfg, ConsumerStep(cfg, s))
  {
    SameQueue(cfg, s, ConsumerStep(cfg, s));
  }

  lemma SpinKeepsCore(cfg: Config, s: State)
    requires Sized(cfg) && Core(cfg, s) && InBounds(cfg, s)
    requires (s.c.pc.CSpin? || s.c.pc.CReread?) && HeadCell(cfg, s)
    ensures Core(cfg, ConsumerStep(cfg, s))
  {
    SameQueue(cfg, s, ConsumerStep(cfg, s));
  }

  lemma ResetKeepsRing(cfg: Config, s: State)
    requires Sized(cfg) && Core(cfg, s) && InBounds(cfg, s) && s.c.pc.CReset?
    ensures RingOk(cfg, ConsumerStep(cfg, s))
  {
    PopKeepsHolds(cfg.q, s.content, Tail(cfg.q, s), Queue(cfg, s));
    WindowPop(cfg, Row(s), Emptied(s), Filled(s));
    assert Queue(cfg, ConsumerStep(cfg, s)) == Queue(cfg, s)[1..];
  }

  lemma ResetKeepsCore(cfg: Config, s: State)
    requires Sized(cfg) && Core(cfg, s) && InBounds(cfg, s) && s.c.pc.CReset?
    ensures Core(cfg, ConsumerStep(cfg, s))
  {
    ResetKeepsRing(cfg, s);
  }

  lemma BumpKeepsCore(cfg: Config, s: State)
    requires Sized(cfg) && Core(cfg, s) && InBounds(cfg, s) && s.c.pc.CBump?
    ensures Core(cfg, ConsumerStep(cfg, s))
  {
    SameQueue(cfg, s, ConsumerStep(cfg, s));
  }

  // Accepting a row empties the window of the old row and opens that of the next.
  lemma AcceptKeepsRing(cfg: Config, s: State)
    requires Sized(cfg) && Core(cfg, s) && InBounds(cfg, s) && s.c.pc.CRaiseFlag?
    ensures RingOk(cfg, ConsumerStep(cfg, s))
  {
    assert Queue(cfg, s) == [] == Queue(cfg, ConsumerStep(cfg, s));
  }

  lemma AcceptKeepsCore(cfg: Config, s: State)
    requires Sized(cfg) && Core(cfg, s) && InBounds(cfg, s) && s.c.pc.CRaiseFlag?
    ensures Core(cfg, ConsumerStep(cfg, s))
  {
    AcceptKeepsRing(cfg, s);
  }

  lemma HandshakeKeepsCore(cfg: Config, s: State)
    requires Sized(cfg) && Core(cfg, s) && InBounds(cfg, s)
    requires s.c.pc.CAwaitFlag? || s.c.pc.CCheckValue?
    ensures Core(cfg, ConsumerStep(cfg, s))
  {
    SameQueue(cfg, s, ConsumerStep(cfg, s));
  }

  lemma ResultKeepsCore(cfg: Config, s: State)
    requires Sized(cfg) && Core(cfg, s) && InBounds(cfg, s) && s.c.pc.CStore?
    ensures Core(cfg, ConsumerStep(cfg, s))
  {
    SameQueue(cfg, s, ConsumerStep(cfg, s));
  }

  lemma ProducerKeepsCore(cfg: Config, s: State)
    requires Sized(cfg) && Unmarked(cfg, s) && Core(cfg, s) && InBounds(cfg, s)
    ensures Core(cfg, ProducerStep(cfg, s))
  {
    match s.p.pc
    case PWrite => WriteKeepsCore(cfg, s);
    case PAwaitSlot | PAwaitNext => AwaitKeepsCore(cfg, s);
    case PAdvance => AdvanceKeepsCore(cfg, s);
    case PSample => SampleKeepsCore(cfg, s);
    case PPublish | PLowerFlag | PAwaitFlag => PublishKeepsCore(cfg, s);
    case PStore => StoreKeepsCore(cfg, s);
    case PDone =>
  }

  lemma ConsumerKeepsCore(cfg: Config, s: State)
    requires Sized(cfg) && Unmarked(cfg, s) && Core(cfg, s) && InBounds(cfg, s)
    ensures Core(cfg, ConsumerStep(cfg, s))
  {
    match s.c.pc
    case CRead =>
      HeadCellHolds(cfg, s);
      ReadKeepsCore(cfg, s);
    case CSpin | CReread =>
      HeadCellHolds(cfg, s);
      SpinKeepsCore(cfg, s);
    case CReset => ResetKeepsCore(cfg, s);
    case CBump => BumpKeepsCore(cfg, s);
    case CRaiseFlag => AcceptKeepsCore(cfg, s);
    case CAwaitFlag | CCheckValue => HandshakeKeepsCore(cfg, s);
    case CStore => ResultKeepsCore(cfg, s);
    case CDone | CMismatch | CVolatileMismatch =>
  }

  lemma StepKeepsResults(cfg: Config, s: State, t: Thread)
    requires ProducerOk(cfg, s.p) && ConsumerOk(cfg, s.c) && ResultsOk(cfg, s) && InBounds(cfg, s)
    ensures ResultsOk(cfg, Step(cfg, s, t))
  {
  }

  lemma StepKeepsUnmarkedInv(cfg: Config, s: State, t: Thread)
    requires Sized(cfg) && Unmarked(cfg, s) && Inv(cfg, s)
    ensures InBounds(cfg, s) && Inv(cfg, Step(cfg, s, t))
  {
    InvInBounds(cfg, s);
    StepKeepsResults(cfg, s, t);
    if !Alarmed(s) {
      match t
      case ProducerThread => ProducerKeepsCore(cfg, s);
      case ConsumerThread => ConsumerKeepsCore(cfg, s);
    }
  }

  lemma StepKeepsInv(cfg: Config, s: State, t: Thread)
    requires Checked(cfg) && Inv(cfg, s)
    ensures InBounds(cfg, s) && Inv(cfg, Step(cfg, s, t))
  {
    StreamsUnmarked(cfg, s);
    StepKeepsUnmarkedInv(cfg, s, t);
  }
}
