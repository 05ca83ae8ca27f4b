/** SimpleQueue (Queues.c): a ring whose two pointers are the only synchronisation. A producer that
    enqueues `total` values runs against a consumer that dequeues as many. */
module SimpleQueue {
  import opened Ring
  import opened Fairness
  import opened Words

  datatype ProducerPc =
    | EWait     // while (nextEnqPtr == deqPtr)
    | EWrite    // content[enqPtr] = value
    | EAdvance  // enqPtr = nextEnqPtr
    | EDone

  datatype ConsumerPc =
    | DWait     // while (deqPtr == enqPtr)
    | DRead     // value = content[deqPtr]
    | DAdvance  // deqPtr = (deqPtr + 1) % MAX
    | DDone

  datatype Thread = Producer | Consumer

  datatype State = State(content: seq<Word>, enqPtr: nat, deqPtr: nat,
                         ppc: ProducerPc, sent: nat, cpc: ConsumerPc, received: seq<Word>)

  function Init(q: nat, total: nat): State
  {
    State(seq(q, _ => 0), 0, 0, if total == 0 then EDone else EWait, 0, if total == 0 then DDone else DWait, [])
  }

  predicate Shaped(q: nat, s: State)
  {
    |s.content| == q && s.enqPtr < q && s.deqPtr < q
  }

  function Step(q: nat, input: nat -> Word, total: nat, s: State, t: Thread): State
    requires Shaped(q, s)
  {
    match t
    case Producer => (
      match s.ppc
      case EWait => if Next(q, s.enqPtr) == s.deqPtr then s else s.(ppc := EWrite)
      case EWrite => s.(content := s.content[s.enqPtr := input(s.sent)], ppc := EAdvance)
      case EAdvance =>
        s.(enqPtr := Next(q, s.enqPtr), sent := s.sent + 1, ppc := if s.sent + 1 == total then EDone else EWait)
      case EDone => s)
    case Consumer =>
      match s.cpc
      case DWait => if s.deqPtr == s.enqPtr then s else s.(cpc := DRead)
      case DRead => s.(received := s.received + [s.content[s.deqPtr]], cpc := DAdvance)
      case DAdvance =>
        s.(deqPtr := Next(q, s.deqPtr), cpc := if |s.received| == total then DDone else DWait)
      case DDone => s
  }

  // Elements whose cell the consumer has given back.
  function Released(s: State): int
  {
    |s.received| - if s.cpc.DAdvance? then 1 else 0
  }

  function Live(s: State): int
  {
    s.sent - Released(s)
  }

  ghost predicate CountersOk(q: nat, total: nat, s: State)
    requires Shaped(q, s)
  {
    && 0 <= Released(s) <= s.sent <= total
    && Live(s) < q
    && s.enqPtr == Slot(q, s.deqPtr, Live(s))
    && (s.ppc.EWrite? || s.ppc.EAdvance? ==> Live(s) + 1 < q)
    && (s.cpc.DRead? || s.cpc.DAdvance? ==> 0 < Live(s))
    && (if s.ppc.EDone? then s.sent == total else s.sent < total)
    && (s.cpc.DDone? ==> |s.received| == total)
    && (s.cpc.DWait? || s.cpc.DRead? ==> |s.received| < total)
  }

  // The live cells hold the values sent and not yet released, oldest first.
  ghost predicate LiveOk(q: nat, input: nat -> Word, s: State)
    requires Shaped(q, s) && 0 <= Released(s) <= s.sent && Live(s) < q
  {
    && (forall o: nat :: o < Live(s) ==> s.content[Slot(q, s.deqPtr, o)] == input(Released(s) + o))
    && (s.ppc.EAdvance? ==> s.content[s.enqPtr] == input(s.sent))
  }

  // What has come out is a prefix of what has gone in.
  ghost predicate ReceivedOk(input: nat -> Word, s: State)
  {
    forall k: nat :: k < |s.received| ==> s.received[k] == input(k)
  }

  ghost predicate Inv(q: nat, input: nat -> Word, total: nat, s: State)
  {
    && 2 <= q
    && Shaped(q, s)
    && CountersOk(q, total, s)
    && LiveOk(q, input, s)
    && ReceivedOk(input, s)
  }

  lemma StepKeepsCounters(q: nat, input: nat -> Word, total: nat, s: State, t: Thread)
    requires 2 <= q && Shaped(q, s) && CountersOk(q, total, s)
    ensures Shaped(q, Step(q, input, total, s, t))
    ensures CountersOk(q, total, Step(q, input, total, s, t))
  {
  }

  lemma WriteKeepsLive(q: nat, input: nat -> Word, total: nat, s: State)
    requires Shaped(q, s) && CountersOk(q, total, s) && LiveOk(q, input, s) && s.ppc.EWrite?
    ensures LiveOk(q, input, Step(q, input, total, s, Producer))
  {
    forall o: nat | o < Live(s) ensures Slot(q, s.deqPtr, o) != s.enqPtr {
    }
  }

  lemma AdvanceKeepsLive(q: nat, input: nat -> Word, total: nat, s: State)
    requires Shaped(q, s) && CountersOk(q, total, s) && LiveOk(q, input, s) && s.ppc.EAdvance?
    ensures LiveOk(q, input, Step(q, input, total, s, Producer))
  {
    var s' := Step(q, input, total, s, Producer);
    forall o: nat | o < Live(s') ensures s'.content[Slot(q, s'.deqPtr, o)] == input(Released(s') + o) {
      if o < Live(s) {
        assert s.content[Slot(q, s.deqPtr, o)] == input(Released(s) + o);
      }
    }
  }

  lemma ReleaseKeepsLive(q: nat, input: nat -> Word, total: nat, s: State)
    requires Shaped(q, s) && CountersOk(q, total, s) && LiveOk(q, input, s) && s.cpc.DAdvance?
    requires Shaped(q, Step(q, input, total, s, Consumer)) && CountersOk(q, total, Step(q, input, total, s, Consumer))
    ensures LiveOk(q, input, Step(q, input, total, s, Consumer))
  {
    var s' := Step(q, input, total, s, Consumer);
    forall o: nat | o < Live(s') ensures s'.content[Slot(q, s'.deqPtr, o)] == input(Released(s') + o) {
      assert Slot(q, s'.deqPtr, o) == Slot(q, s.deqPtr, o + 1);
      assert s.content[Slot(q, s.deqPtr, o + 1)] == input(Released(s) + (o + 1));
    }
  }

  lemma ReadKeepsReceived(q: nat, input: nat -> Word, total: nat, s: State)
    requires Shaped(q, s) && CountersOk(q, total, s) && LiveOk(q, input, s) && ReceivedOk(input, s) && s.cpc.DRead?
    ensures ReceivedOk(input, Step(q, input, total, s, Consumer))
  {
    assert s.content[Slot(q, s.deqPtr, 0)] == input(Released(s) + 0);
  }

  lemma StepKeepsInv(q: nat, input: nat -> Word, total: nat, s: State, t: Thread)
    requires Inv(q, input, total, s)
    ensures Inv(q, input, total, Step(q, input, total, s, t))
  {
    StepKeepsCounters(q, input, total, s, t);
    if t.Producer? && s.ppc.EWrite? {
      WriteKeepsLive(q, input, total, s);
    } else if t.Producer? && s.ppc.EAdvance? {
      AdvanceKeepsLive(q, input, total, s);
    } else if t.Consumer? && s.cpc.DRead? {
      ReadKeepsReceived(q, input, total, s);
    } else if t.Consumer? && s.cpc.DAdvance? {
      ReleaseKeepsLive(q, input, total, s);
    }
  }

  // ---- Runs ----

  function Turn(q: nat, input: nat -> Word, total: nat, s: State, t: Thread): State
  {
    if Shaped(q, s) then Step(q, input, total, s, t) else s
  }

  ghost predicate Follows(q: nat, input: nat -> Word, total: nat, schedule: nat -> Thread, run: nat -> State, k: nat)
  {
    run(k + 1) == Turn(q, input, total, run(k), schedule(k))
  }

  ghost predicate Behavior(q: nat, input: nat -> Word, total: nat, schedule: nat -> Thread, run: nat -> State)
  {
    && 2 <= q
    && run(0) == Init(q, total)
    && forall k: nat :: Follows(q, input, total, schedule, run, k)
  }

  lemma {:induction false} AlwaysInv(q: nat, input: nat -> Word, total: nat,
                                      schedule: nat -> Thread, run: nat -> State, k: nat)
    requires Behavior(q, input, total, schedule, run)
    ensures Inv(q, input, total, run(k))
  {
    if k > 0 {
      AlwaysInv(q, input, total, schedule, run, k - 1);
      assert Follows(q, input, total, schedule, run, k - 1);
      StepKeepsInv(q, input, total, run(k - 1), schedule(k - 1));
    }
  }

  /** In every interleaving the values come out in the order they went in, at most Q - 1 are in the ring,
      and the two threads are never in the same cell. */
  lemma SimpleQueueIsFifo(q: nat, input: nat -> Word, total: nat, schedule: nat -> Thread, run: nat -> State, k: nat)
    requires Behavior(q, input, total, schedule, run)
    ensures var s := run(k);
            && s.received == seq(|s.received|, (i: nat) => input(i))
            && |s.received| <= s.sent
            && 0 <= Live(s) <= q - 1
            && (s.ppc.EWrite? && s.cpc.DRead? ==> s.enqPtr != s.deqPtr)
  {
    AlwaysInv(q, input, total, schedule, run, k);
  }

  /** A thread spins only when it must: a turn changes nothing exactly if the thread has made all its operations,
      or the producer finds Q - 1 elements in the ring, or the consumer none. */
  lemma SpinsIff(q: nat, input: nat -> Word, total: nat, schedule: nat -> Thread, run: nat -> State, k: nat)
    requires Behavior(q, input, total, schedule, run)
    ensures var s := run(k);
            run(k + 1) == s <==>
              match schedule(k)
              case Producer => s.sent == total || (s.ppc.EWait? && Live(s) == q - 1)
              case Consumer => s.cpc.DDone? || (s.cpc.DWait? && Live(s) == 0)
    ensures run(k).cpc.DDone? ==> |run(k).received| == total
  {
    AlwaysInv(q, input, total, schedule, run, k);
    assert Follows(q, input, total, schedule, run, k);
  }

  function Work(total: nat, s: State): int
  {
    3 * (total - s.sent) + (match s.ppc case EWait => 2 case EWrite => 1 case EAdvance => 0 case EDone => 0)
    + 3 * (total - |s.received|) + match s.cpc case DWait => 2 case DRead => 1 case DAdvance => 3 case DDone => 0
  }

  predicate Finished(s: State)
  {
    s.ppc.EDone? && s.cpc.DDone?
  }

  lemma StepProgresses(q: nat, input: nat -> Word, total: nat, s: State, t: Thread)
    requires Inv(q, input, total, s)
    ensures Work(total, s) >= 0
    ensures var s' := Step(q, input, total, s, t); s' == s || Work(total, s') < Work(total, s)
    ensures Finished(s) || Step(q, input, total, s, Producer) != s || Step(q, input, total, s, Consumer) != s
  {
  }

  /** Every fair run of a producer and a consumer that make equally many operations finishes, and the
      consumer then has the whole stream. */
  lemma FairRunsDeliver(q: nat, input: nat -> Word, total: nat, schedule: nat -> Thread, run: nat -> State)
    returns (stop: nat)
    requires Behavior(q, input, total, schedule, run) && Fair(schedule)
    ensures Finished(run(stop))
    ensures run(stop).received == seq(total, (i: nat) => input(i))
  {
    var next, work := (s, t) => Turn(q, input, total, s, t), s => Work(total, s);
    forall k: nat ensures Progresses(run, schedule, next, work, Finished, k) {
      AlwaysInv(q, input, total, schedule, run, k);
      assert Follows(q, input, total, schedule, run, k);
      StepProgresses(q, input, total, run(k), schedule(k));
      if !Finished(run(k)) {
        assert next(run(k), Producer) != run(k) || next(run(k), Consumer) != run(k);
      }
    }
    stop := FairRunStops(run, schedule, next, work, Finished);
    AlwaysInv(q, input, total, schedule, run, stop);
  }

  // ---- The structure in memory ----

  class SharedSimpleQueue {
    const q: nat
    const content: array<Word>
    var enqPtr: nat
    var deqPtr: nat

    predicate Valid()
      reads this
    {
      2 <= q && content.Length == q && enqPtr < q && deqPtr < q
    }

    // How many elements the pointers enclose.
    function Count(): (n: nat)
      requires Valid()
      reads this
      ensures n < q && enqPtr == Slot(q, deqPtr, n)
    {
      Offset(q, deqPtr, enqPtr)
    }

    // The elements, oldest first.
    function Elements(): seq<Word>
      requires Valid()
      reads this, content
    {
      var n, tail := Count(), deqPtr;
      seq(n, o requires 0 <= o < n reads content => content[Slot(q, tail, o)])
    }

    // SimpleQueue_Init
    constructor (q: nat)
      requires 2 <= q
      ensures Valid() && this.q == q && Elements() == [] && fresh(content)
    {
      this.q := q;
      content := new Word[q];
      enqPtr, deqPtr := 0, 0;
    }

    /** SimpleQueue_Enqueue, on its own turn; it spins when Q - 1 elements are in the ring. */
    method Enqueue(value: Word) returns (blocked: bool)
      requires Valid()
      modifies this`enqPtr, content
      ensures Valid()
      ensures blocked <==> |old(Elements())| == q - 1
      ensures Elements() == if blocked then old(Elements()) else old(Elements()) + [value]
    {
      NextIsModulo(q, enqPtr);
      var nextEnqPtr := (enqPtr + 1) % q;
      if nextEnqPtr == deqPtr {
        return true;
      }
      content[enqPtr] := value;
      enqPtr := nextEnqPtr;
      blocked := false;
    }

    /** SimpleQueue_Dequeue, on its own turn; it spins on an empty ring. */
    method Dequeue() returns (blocked: bool, value: Word)
      requires Valid()
      modifies this`deqPtr
      ensures Valid()
      ensures blocked <==> old(Elements()) == []
      ensures if blocked then Elements() == old(Elements()) else old(Elements()) == [value] + Elements()
    {
      if deqPtr == enqPtr {
        return true, 0;
      }
      value := content[deqPtr];
      NextIsModulo(q, deqPtr);
      deqPtr := (deqPtr + 1) % q;
      blocked := false;
    }
  }
}
