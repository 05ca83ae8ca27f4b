/** The specification both checked modes implement: an unbounded FIFO between two threads that agree
    on every row before either stores it. It knows no ring, no pointers, no batches and no flag. */
module Fifo {
  import opened Ring
  import opened Channel
  import opened Invariant
  import opened Runs

  datatype Offer = NoOffer | Offered(value: int) | Acknowledged

  datatype Spec = Spec(
    queue: seq<int>,
    pRow: nat, sent: nat, offer: Offer,
    cRow: nat, taken: nat, accepted: bool,
    producerResult: seq<int>, consumerResult: seq<int>,
    alarm: bool)

  ghost function SpecInit(cfg: Config): Spec
  {
    Spec([], 0, 0, NoOffer, 0, 0, false, cfg.oldProducerResult, cfg.oldConsumerResult, false)
  }

  ghost predicate Send(cfg: Config, a: Spec, a': Spec)
  {
    && !a.alarm && a.offer.NoOffer? && a.pRow < cfg.rows && a.sent < cfg.cols
    && a' == a.(queue := a.queue + [ProducerSum(cfg, a.pRow, a.sent + 1)], sent := a.sent + 1)
  }

  ghost predicate Publish(cfg: Config, a: Spec, a': Spec)
  {
    && !a.alarm && a.offer.NoOffer? && a.pRow < cfg.rows && a.sent == cfg.cols
    && a' == a.(offer := Offered(PublishedValue(cfg, a.pRow)))
  }

  ghost predicate ProducerStore(cfg: Config, a: Spec, a': Spec)
  {
    && !a.alarm && a.offer.Acknowledged? && a.pRow < |a.producerResult|
    && a' == a.(producerResult := a.producerResult[a.pRow := ProducerSum(cfg, a.pRow, cfg.cols)],
                pRow := a.pRow + 1, sent := 0, offer := NoOffer)
  }

  ghost predicate Receive(cfg: Config, a: Spec, a': Spec)
  {
    && !a.alarm && !a.accepted && a.cRow < cfg.rows && a.taken < cfg.cols
    && |a.queue| > 0 && a.queue[0] == ConsumerSum(cfg, a.cRow, a.taken + 1)
    && a' == a.(queue := a.queue[1..], taken := a.taken + 1)
  }

  ghost predicate Reject(cfg: Config, a: Spec, a': Spec)
  {
    && !a.alarm && !a.accepted && a.cRow < cfg.rows && a.taken < cfg.cols
    && |a.queue| > 0 && a.queue[0] != ConsumerSum(cfg, a.cRow, a.taken + 1)
    && a' == a.(alarm := true)
  }

  ghost predicate Accept(cfg: Config, a: Spec, a': Spec)
  {
    && !a.alarm && !a.accepted && a.cRow < cfg.rows && a.taken == cfg.cols
    && a.pRow == a.cRow && a.offer == Offered(ConsumerSum(cfg, a.cRow, cfg.cols))
    && a' == a.(offer := Acknowledged, accepted := true)
  }

  ghost predicate RejectRow(cfg: Config, a: Spec, a': Spec)
  {
    && !a.alarm && !a.accepted && a.cRow < cfg.rows && a.taken == cfg.cols
    && a.pRow == a.cRow && a.offer.Offered? && a.offer.value != ConsumerSum(cfg, a.cRow, cfg.cols)
    && a' == a.(alarm := true)
  }

  ghost predicate ConsumerStore(cfg: Config, a: Spec, a': Spec)
  {
    && !a.alarm && a.accepted && a.cRow < |a.consumerResult|
    && a' == a.(consumerResult := a.consumerResult[a.cRow := ConsumerSum(cfg, a.cRow, cfg.cols)],
                cRow := a.cRow + 1, taken := 0, accepted := false)
  }

  ghost predicate SpecNext(cfg: Config, a: Spec, a': Spec)
  {
    || Send(cfg, a, a') || Publish(cfg, a, a') || ProducerStore(cfg, a, a')
    || Receive(cfg, a, a') || Reject(cfg, a, a') || Accept(cfg, a, a') || RejectRow(cfg, a, a')
    || ConsumerStore(cfg, a, a')
  }

  // What a state of the implementation stands for.
  ghost function Abstract(cfg: Config, s: State): Spec
  {
    Spec(Queue(cfg, s),
         s.p.i, Sent(s),
         if Released(s) then Acknowledged else if s.p.pc.PAwaitFlag? then Offered(s.volatileValue) else NoOffer,
         s.c.i, Taken(s), s.c.pc.CStore?,
         s.producerResult, s.consumerResult, Alarmed(s))
  }

  // Every value in the specification's queue is one the producer sent and the consumer has not taken.
  lemma InitRefines(cfg: Config)
    requires Checked(cfg)
    ensures Abstract(cfg, Init(cfg)) == SpecInit(cfg)
  {
  }

  lemma SendRefines(cfg: Config, s: State)
    requires Sized(cfg) && Core(cfg, s) && InBounds(cfg, s) && !Alarmed(s) && s.p.pc.PWrite?
    ensures Send(cfg, Abstract(cfg, s), Abstract(cfg, ProducerStep(cfg, s)))
  {
    WindowPush(cfg, Row(s), Emptied(s), Filled(s));
  }

  lemma ReceiveRefines(cfg: Config, s: State)
    requires Sized(cfg) && Core(cfg, s) && InBounds(cfg, s) && !Alarmed(s) && s.c.pc.CReset?
    ensures Receive(cfg, Abstract(cfg, s), Abstract(cfg, ConsumerStep(cfg, s)))
  {
    WindowPop(cfg, Row(s), Emptied(s), Filled(s));
  }

  lemma PublishRefines(cfg: Config, s: State)
    requires Sized(cfg) && ProducerOk(cfg, s.p) && BarrierOk(cfg, s) && InBounds(cfg, s) && !Alarmed(s)
    requires s.p.pc.PLowerFlag?
    ensures Publish(cfg, Abstract(cfg, s), Abstract(cfg, ProducerStep(cfg, s)))
  {
    assert Queue(cfg, ProducerStep(cfg, s)) == Queue(cfg, s);
  }

  lemma StoreRefines(cfg: Config, s: State)
    requires Sized(cfg) && ProducerOk(cfg, s.p) && BarrierOk(cfg, s) && InBounds(cfg, s) && !Alarmed(s)
    requires s.p.pc.PStore?
    ensures ProducerStore(cfg, Abstract(cfg, s), Abstract(cfg, ProducerStep(cfg, s)))
  {
    assert Queue(cfg, ProducerStep(cfg, s)) == Queue(cfg, s);
  }

  lemma ProducerSilent(cfg: Config, s: State)
    requires Sized(cfg) && ProducerOk(cfg, s.p) && BarrierOk(cfg, s) && InBounds(cfg, s) && !Alarmed(s)
    requires !s.p.pc.PWrite? && !s.p.pc.PLowerFlag? && !s.p.pc.PStore?
    ensures Abstract(cfg, ProducerStep(cfg, s)) == Abstract(cfg, s)
  {
    assert Queue(cfg, ProducerStep(cfg, s)) == Queue(cfg, s);
  }

  lemma HandshakeRefines(cfg: Config, s: State)
    requires Sized(cfg) && Core(cfg, s) && InBounds(cfg, s) && !Alarmed(s)
    requires s.c.pc.CCheckValue? || s.c.pc.CRaiseFlag? || s.c.pc.CStore?
    ensures var a, a' := Abstract(cfg, s), Abstract(cfg, ConsumerStep(cfg, s));
            match s.c.pc
            case CCheckValue => a' == a || RejectRow(cfg, a, a')
            case CRaiseFlag => Accept(cfg, a, a')
            case CStore => ConsumerStore(cfg, a, a')
  {
    assert Queue(cfg, ConsumerStep(cfg, s)) == Queue(cfg, s);
  }

  lemma ReadRefines(cfg: Config, s: State)
    requires Sized(cfg) && ConsumerOk(cfg, s.c) && BarrierOk(cfg, s) && InBounds(cfg, s) && !Alarmed(s)
    requires s.c.pc.CRead? || s.c.pc.CReread?
    requires Emptied(s) <= Filled(s) && HeadCell(cfg, s) && ConsumerSum(cfg, s.c.i, s.c.j + 1) != ALREADY_CONSUMED
    ensures var a, a' := Abstract(cfg, s), Abstract(cfg, ConsumerStep(cfg, s)); a' == a || Reject(cfg, a, a')
  {
    assert Queue(cfg, ConsumerStep(cfg, s)) == Queue(cfg, s);
    if Emptied(s) < Filled(s) {
      WindowPop(cfg, Row(s), Emptied(s), Filled(s));
    }
  }

  lemma ConsumerSilent(cfg: Config, s: State)
    requires Sized(cfg) && ProducerOk(cfg, s.p) && BarrierOk(cfg, s) && InBounds(cfg, s) && !Alarmed(s)
    requires s.c.pc.CSpin? || s.c.pc.CBump? || s.c.pc.CAwaitFlag? || s.c.pc.CDone?
    ensures Abstract(cfg, ConsumerStep(cfg, s)) == Abstract(cfg, s)
  {
    assert Queue(cfg, ConsumerStep(cfg, s)) == Queue(cfg, s);
  }

  /** Refinement: in either mode, every step of either thread is a step of the FIFO or invisible to it. */
  lemma StepRefines(cfg: Config, s: State, t: Thread)
    requires Checked(cfg) && Inv(cfg, s)
    ensures InBounds(cfg, s)
    ensures var a, a' := Abstract(cfg, s), Abstract(cfg, Step(cfg, s, t));
            a' == a || SpecNext(cfg, a, a')
  {
    InvInBounds(cfg, s);
    if !Alarmed(s) {
      match t
      case ProducerThread =>
        match s.p.pc {
          case PWrite => SendRefines(cfg, s);
          case PLowerFlag => PublishRefines(cfg, s);
          case PStore => StoreRefines(cfg, s);
          case _ => ProducerSilent(cfg, s);
        }
      case ConsumerThread =>
        match s.c.pc {
          case CReset => ReceiveRefines(cfg, s);
          case CCheckValue | CRaiseFlag | CStore => HandshakeRefines(cfg, s);
          case CRead | CReread =>
            StreamsUnmarked(cfg, s);
            HeadCellHolds(cfg, s);
            ReadRefines(cfg, s);
          case _ => ConsumerSilent(cfg, s);
        }
    }
  }

  // A step of the specification, or no visible change.
  ghost predicate SpecStep(cfg: Config, a: Spec, a': Spec)
  {
    a' == a || SpecNext(cfg, a, a')
  }

  /** Whole runs: seen through Abstract, every run of either mode is a run of the FIFO with its row
      agreement. */
  lemma RunRefines(cfg: Config, schedule: nat -> Thread, run: nat -> State)
    requires Behavior(cfg, schedule, run)
    requires Checked(cfg)
    ensures Abstract(cfg, run(0)) == SpecInit(cfg)
    ensures forall n: nat :: SpecStep(cfg, Abstract(cfg, run(n)), Abstract(cfg, run(n + 1)))
  {
    InitRefines(cfg);
    forall n: nat ensures SpecStep(cfg, Abstract(cfg, run(n)), Abstract(cfg, run(n + 1))) {
      AlwaysInv(cfg, schedule, run, n);
      StepRefines(cfg, run(n), schedule(n));
      assert Follows(cfg, schedule, run, n);
    }
  }

  /** The simple form never fills the ring; the batched form may, and not more. */
  lemma Occupancy(cfg: Config, schedule: nat -> Thread, run: nat -> State, n: nat)
    requires Behavior(cfg, schedule, run)
    requires Checked(cfg)
    ensures |Abstract(cfg, run(n)).queue| <= if cfg.mode.Volatile? then cfg.q - 1 else cfg.q
  {
    AlwaysInv(cfg, schedule, run, n);
  }
}
