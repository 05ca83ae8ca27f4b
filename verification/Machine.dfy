/** The program itself: the globals of VectorMatrixMult.c and the locals of its two threads, updated in
    place, one shared access a turn, as the steps of Channel specify. */
module Machine {
  import opened Ring
  import opened Channel
  import opened Runs

  class ReplicatedProduct {
    const cfg: Config
    // the global simpleSyncQueue and result vectors
    const content: array<int>
    var enqPtr: nat
    var deqPtr: nat
    var checkState: int
    var volatileValue: int
    const producerResult: array<int>
    const consumerResult: array<int>
    // locals of the producer
    var pPc: ProducerPc
    var pI: nat
    var pJ: nat
    var pThisValue: int
    var pNewLimit: int
    var pLeftover: bool
    var pLocalDeqPtr: nat
    // locals of the consumer
    var cPc: ConsumerPc
    var cI: nat
    var cJ: nat
    var cThisValue: int

    ghost predicate Valid()
    {
      && ValidConfig(cfg)
      && content.Length == cfg.q
      && producerResult.Length == cfg.rows && consumerResult.Length == cfg.rows
      && content != producerResult && content != consumerResult && producerResult != consumerResult
    }

    function ProducerView(): Producer
      reads this
    {
      Producer(pPc, pI, pJ, pThisValue, pNewLimit, pLeftover, pLocalDeqPtr)
    }

    function ConsumerView(): Consumer
      reads this
    {
      Consumer(cPc, cI, cJ, cThisValue)
    }

    function View(): State
      reads this, content, producerResult, consumerResult
    {
      State(content[..], enqPtr, deqPtr, checkState, volatileValue, producerResult[..], consumerResult[..],
            ProducerView(), ConsumerView())
    }

    // SimpleSyncQueue_Init and the start of the two threads.
    constructor (cfg: Config)
      requires ValidConfig(cfg)
      ensures Valid() && this.cfg == cfg
      ensures fresh(content) && fresh(producerResult) && fresh(consumerResult)
      ensures View() == Init(cfg)
    {
      this.cfg := cfg;
      content := new int[cfg.q](_ => ALREADY_CONSUMED);
      enqPtr, deqPtr, checkState, volatileValue := 0, 0, 1, ALREADY_CONSUMED;
      producerResult := new int[cfg.rows](i requires 0 <= i < |cfg.oldProducerResult| => cfg.oldProducerResult[i]);
      consumerResult := new int[cfg.rows](i requires 0 <= i < |cfg.oldConsumerResult| => cfg.oldConsumerResult[i]);
      pPc, pI, pJ, pThisValue := RowStart(cfg, 0), 0, 0, 0;
      pNewLimit, pLeftover, pLocalDeqPtr := FirstLimit(cfg), false, 0;
      cPc, cI, cJ, cThisValue := if cfg.rows == 0 then CDone else CRead, 0, 0, 0;
      new;
      assert content[..] == seq(cfg.q, _ => ALREADY_CONSUMED);
      assert producerResult[..] == cfg.oldProducerResult;
      assert consumerResult[..] == cfg.oldConsumerResult;
    }

    // thisValue += vector[j] * matrix[i][j]; content[enqPtr] = thisValue
    method WriteElement()
      requires Valid() && InBounds(cfg, View()) && pPc.PWrite?
      modifies this, content
      ensures View() == ProducerStep(cfg, old(View()))
    {
      pThisValue := pThisValue + cfg.vector[pJ] * cfg.matrix[pI][pJ] + cfg.producerFault(pI, pJ);
      content[enqPtr] := pThisValue;
      pPc := PAdvance;
    }

    // The end of a batch: turn the distance to `deqPtr` into new credit.
    method TakeCredit()
      requires Valid() && InBounds(cfg, View()) && pPc.PSample?
      modifies this
      ensures View() == ProducerStep(cfg, old(View()))
    {
      pLocalDeqPtr := deqPtr;
      var distance := if enqPtr >= pLocalDeqPtr then (cfg.q - enqPtr) + pLocalDeqPtr else pLocalDeqPtr - enqPtr;
      if cfg.mode.RhtVolatilesImproved? {
        distance := distance - 1;
      }
      pNewLimit := pNewLimit + distance;
      pLeftover := !(pNewLimit < cfg.cols);
      if pLeftover {
        pPc := if pJ < cfg.cols then PWrite else PPublish;
      } else {
        pPc := if pJ < pNewLimit then PWrite else PAwaitNext;
      }
    }

    // newLimit = Q; the improved mode also samples again. Then the head of the loop over the rows.
    method StartNextRow()
      requires ValidConfig(cfg)
      modifies this
      ensures ProducerView() == Producer(RowStart(cfg, old(pI) + 1), old(pI) + 1, 0, 0, FirstLimit(cfg), false,
                                         if cfg.mode.RhtVolatilesImproved? then old(enqPtr) else old(pLocalDeqPtr))
      ensures ConsumerView() == old(ConsumerView())
      ensures unchanged(`enqPtr) && unchanged(`deqPtr) && unchanged(`checkState) && unchanged(`volatileValue)
    {
      pNewLimit := FirstLimit(cfg);
      if cfg.mode.RhtVolatilesImproved? {
        pLocalDeqPtr := enqPtr;
      }
      pI := pI + 1;
      pJ, pThisValue, pLeftover := 0, 0, false;
      pPc := RowStart(cfg, pI);
    }

    method StoreProducerResult()
      requires Valid() && InBounds(cfg, View()) && pPc.PStore?
      modifies this, producerResult
      ensures View() == ProducerStep(cfg, old(View()))
    {
      producerResult[pI] := pThisValue;
      StartNextRow();
      assert producerResult[..] == old(producerResult[..])[old(pI) := old(pThisValue)];
      assert content[..] == old(content[..]) && consumerResult[..] == old(consumerResult[..]);
    }

    // A turn of the producer.
    method ProducerTurn()
      requires Valid() && InBounds(cfg, View())
      modifies this, content, producerResult
      ensures View() == ProducerStep(cfg, old(View()))
    {
      NextIsModulo(cfg.q, enqPtr);
      match pPc
      case PAwaitSlot =>
        if content[(enqPtr + 1) % cfg.q] == ALREADY_CONSUMED {
          pPc := PWrite;
        }
      case PWrite =>
        WriteElement();
      case PAdvance =>
        enqPtr := (enqPtr + 1) % cfg.q;
        pPc := AfterAdvance(cfg, ProducerView(), pJ + 1);
        pJ := pJ + 1;
      case PAwaitNext =>
        var blocked;
        if cfg.mode.RhtVolatilesImproved? {
          blocked := pLocalDeqPtr == deqPtr;
        } else {
          blocked := content[(enqPtr + 1) % cfg.q] != ALREADY_CONSUMED;
        }
        if !blocked {
          pPc := PSample;
        }
      case PSample =>
        TakeCredit();
      case PPublish =>
        volatileValue := pThisValue + cfg.publishFault(pI);
        pPc := PLowerFlag;
      case PLowerFlag =>
        checkState := 0;
        pPc := PAwaitFlag;
      case PAwaitFlag =>
        if checkState != 0 {
          pPc := PStore;
        }
      case PStore =>
        StoreProducerResult();
      case PDone =>
    }

    // The first read of ConsumerCheckAndMove and its comparison.
    method ReadElement()
      requires Valid() && InBounds(cfg, View()) && cPc.CRead?
      modifies this
      ensures View() == ConsumerStep(cfg, old(View()))
    {
      cThisValue := cThisValue + cfg.vector[cJ] * cfg.matrix[cI][cJ] + cfg.consumerFault(cI, cJ);
      var otherValue := content[deqPtr];
      if cThisValue != otherValue {
        cPc := if otherValue == ALREADY_CONSUMED then CSpin else CMismatch;
      } else {
        cPc := AfterMatch(cfg);
      }
    }

    method StoreConsumerResult()
      requires Valid() && InBounds(cfg, View()) && cPc.CStore?
      modifies this, consumerResult
      ensures View() == ConsumerStep(cfg, old(View()))
    {
      consumerResult[cI] := cThisValue;
      cI := cI + 1;
      cJ, cThisValue := 0, 0;
      cPc := if cI < cfg.rows then CRead else CDone;
    }

    // A turn of the consumer.
    method ConsumerTurn()
      requires Valid() && InBounds(cfg, View())
      modifies this, content, consumerResult
      ensures View() == ConsumerStep(cfg, old(View()))
    {
      NextIsModulo(cfg.q, deqPtr);
      match cPc
      case CRead =>
        ReadElement();
      case CSpin =>
        if content[deqPtr] != ALREADY_CONSUMED {
          cPc := CReread;
        }
      case CReread =>
        cPc := if cThisValue == content[deqPtr] then AfterMatch(cfg) else CMismatch;
      case CReset =>
        content[deqPtr] := ALREADY_CONSUMED;
        cPc := CBump;
      case CBump =>
        deqPtr := (deqPtr + 1) % cfg.q;
        cJ := cJ + 1;
        cPc := if cJ < cfg.cols then CRead else CAwaitFlag;
      case CAwaitFlag =>
        if checkState != 1 {
          cPc := CCheckValue;
        }
      case CCheckValue =>
        cPc := if cThisValue != volatileValue then CVolatileMismatch else CRaiseFlag;
      case CRaiseFlag =>
        checkState := 1;
        cPc := CStore;
      case CStore =>
        StoreConsumerResult();
      case _ =>
    }

    /** Any number of turns of the two threads, in any order, from the start of the program: the state is
        the one the theorems about behaviors speak of. */
    method Run(schedule: nat -> Thread, turns: nat, ghost run: nat -> State)
      requires Valid() && View() == Init(cfg) && Behavior(cfg, schedule, run)
      modifies this, content, producerResult, consumerResult
      ensures Valid() && View() == run(turns)
    {
      for n := 0 to turns
        invariant View() == run(n)
      {
        AlwaysInBounds(cfg, schedule, run, n);
        assert Follows(cfg, schedule, run, n);
        if !(cPc.CMismatch? || cPc.CVolatileMismatch?) {
          match schedule(n)
          case ProducerThread => ProducerTurn();
          case ConsumerThread => ConsumerTurn();
        }
      }
    }
  }
}
