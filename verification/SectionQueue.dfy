/** SectionQueue (Queues.c): a ring of sections, each owned by the producer or, in read mode, by the
    consumer. A producer that enqueues `total` values runs against a consumer that dequeues as many. */
module SectionQueue {
  import opened Ring
  import opened Fairness
  import opened Words

  // ---- The structure and the accesses to it ----

  datatype Queue = Queue(
    content: seq<seq<Word>>,   // sections[x].content
    isReadMode: seq<bool>,    // sections[x].isReadMode
    enqPtr: nat, deqPtr: nat, enqueueSection: nat, dequeueSection: nat)

  // SECTION_SIZE and NUM_SECTIONS
  datatype Size = Size(cells: nat, sections: nat)

  predicate Shaped(n: Size, s: Queue)
  {
    && 1 <= n.cells && 1 <= n.sections
    && |s.content| == |s.isReadMode| == n.sections
    && (forall x :: 0 <= x < n.sections ==> |s.content[x]| == n.cells)
    && s.enqPtr < n.cells && s.deqPtr < n.cells
    && s.enqueueSection < n.sections && s.dequeueSection < n.sections
  }

  function InitQueue(n: Size): Queue
  {
    Queue(seq(n.sections, _ => seq(n.cells, _ => 0)), seq(n.sections, _ => false), 0, 0, 0, 0)
  }

  // content[enqPtr] = value; enqPtr = (enqPtr + 1) % SECTION_SIZE
  function WriteCell(n: Size, s: Queue, value: Word): Queue
    requires Shaped(n, s)
  {
    var section: seq<Word> := s.content[s.enqueueSection][s.enqPtr := value];
    s.(content := s.content[s.enqueueSection := section], enqPtr := Next(n.cells, s.enqPtr))
  }

  // isReadMode = 1; enqueueSection = (enqueueSection + 1) % NUM_SECTIONS
  function HandOver(n: Size, s: Queue): Queue
    requires Shaped(n, s)
  {
    s.(isReadMode := s.isReadMode[s.enqueueSection := true], enqueueSection := Next(n.sections, s.enqueueSection))
  }

  // value = content[deqPtr]; deqPtr = (deqPtr + 1) % SECTION_SIZE
  function ReadCell(n: Size, s: Queue): Queue
  {
    s.(deqPtr := Next(n.cells, s.deqPtr))
  }

  // isReadMode = 0; dequeueSection = (dequeueSection + 1) % NUM_SECTIONS
  function GiveBack(n: Size, s: Queue): Queue
    requires Shaped(n, s)
  {
    s.(isReadMode := s.isReadMode[s.dequeueSection := false], dequeueSection := Next(n.sections, s.dequeueSection))
  }

  // ---- The two threads ----

  datatype ProducerPc = EWait | EWrite | EHandOver | EDone
  datatype ConsumerPc = DWait | DRead | DGiveBack | DDone
  datatype Thread = Producer | Consumer

  // `handed` and `returned` count the sections passed each way; the program does not store them.
  datatype State = State(queue: Queue, ppc: ProducerPc, sent: nat, handed: nat,
                         cpc: ConsumerPc, received: seq<Word>, returned: nat)

  function Init(n: Size, total: nat): State
  {
    State(InitQueue(n), if total == 0 then EDone else EWait, 0, 0, if total == 0 then DDone else DWait, [], 0)
  }

  function Step(n: Size, input: nat -> Word, total: nat, s: State, t: Thread): State
    requires Shaped(n, s.queue)
  {
    var q := s.queue;
    match t
    case Producer => (
      match s.ppc
      case EWait => if q.isReadMode[q.enqueueSection] then s else s.(ppc := EWrite)
      case EWrite =>
        var q' := WriteCell(n, q, input(s.sent));
        s.(queue := q', sent := s.sent + 1,
           ppc := if q'.enqPtr == 0 then EHandOver else if s.sent + 1 == total then EDone else EWait)
      case EHandOver =>
        s.(queue := HandOver(n, q), handed := s.handed + 1, ppc := if s.sent == total then EDone else EWait)
      case EDone => s)
    case Consumer =>
      match s.cpc
      case DWait => if !q.isReadMode[q.dequeueSection] then s else s.(cpc := DRead)
      case DRead =>
        var q' := ReadCell(n, q);
        s.(queue := q', received := s.received + [q.content[q.dequeueSection][q.deqPtr]],
           cpc := if q'.deqPtr == 0 then DGiveBack else if |s.received| + 1 == total then DDone else DWait)
      case DGiveBack =>
        s.(queue := GiveBack(n, q), returned := s.returned + 1, cpc := if |s.received| == total then DDone else DWait)
      case DDone => s
  }

  // ---- The invariant ----

  // The index in the stream of cell k of the x-th section handed over.
  function Index(n: Size, x: nat, k: nat): nat
  {
    x * n.cells + k
  }

  lemma NextSection(n: Size, x: nat)
    ensures Index(n, x + 1, 0) == Index(n, x, n.cells)
  {
  }

  // Cells of the section being filled, or of the section being drained, that are done.
  function Filling(n: Size, s: State): nat
  {
    if s.ppc.EHandOver? then n.cells else s.queue.enqPtr
  }

  function Draining(n: Size, s: State): nat
  {
    if s.cpc.DGiveBack? then n.cells else s.queue.deqPtr
  }

  ghost predicate CountersOk(n: Size, total: nat, s: State)
  {
    && s.sent == Index(n, s.handed, Filling(n, s)) <= total
    && |s.received| == Index(n, s.returned, Draining(n, s)) <= total
    && s.returned <= s.handed <= s.returned + n.sections
    && (s.ppc.EHandOver? ==> s.queue.enqPtr == 0)
    && (s.cpc.DGiveBack? ==> s.queue.deqPtr == 0)
    && (s.ppc.EWrite? || Filling(n, s) > 0 ==> s.handed < s.returned + n.sections)
    && (s.cpc.DRead? || Draining(n, s) > 0 ==> s.returned < s.handed)
    && (s.ppc.EWait? || s.ppc.EWrite? ==> s.sent < total)
    && (s.ppc.EDone? ==> s.sent == total)
    && (s.cpc.DWait? || s.cpc.DRead? ==> |s.received| < total)
    && (s.cpc.DDone? ==> |s.received| == total)
  }

  // The sections in read mode are those handed over and not yet returned: a ring interval that starts
  // at the consumer's section.
  ghost predicate ModesOk(n: Size, s: State)
    requires Shaped(n, s.queue)
  {
    && s.returned <= s.handed <= s.returned + n.sections
    && s.queue.enqueueSection == Slot(n.sections, s.queue.dequeueSection, s.handed - s.returned)
    && forall x :: 0 <= x < n.sections ==>
         (s.queue.isReadMode[x] <==> Offset(n.sections, s.queue.dequeueSection, x) < s.handed - s.returned)
  }

  // Section x holds, up to cell `upTo`, the stream from section `number` on.
  ghost predicate SectionHolds(n: Size, input: nat -> Word, section: seq<Word>, number: nat, upTo: nat)
  {
    upTo <= |section| && forall k: nat :: k < upTo ==> section[k] == input(Index(n, number, k))
  }

  // Where the o-th section after the consumer's is.
  function Place(n: Size, s: State, o: nat): nat
    requires Shaped(n, s.queue) && o <= n.sections
  {
    Slot(n.sections, s.queue.dequeueSection, o)
  }

  ghost predicate SectionsOk(n: Size, input: nat -> Word, s: State)
    requires Shaped(n, s.queue) && s.returned <= s.handed <= s.returned + n.sections
  {
    && (forall o: nat :: o < s.handed - s.returned ==>
          SectionHolds(n, input, s.queue.content[Place(n, s, o)], s.returned + o, n.cells))
    && (Filling(n, s) > 0 ==>
          SectionHolds(n, input, s.queue.content[s.queue.enqueueSection], s.handed, Filling(n, s)))
  }

  // What has come out is a prefix of what has gone in.
  ghost predicate ReceivedOk(input: nat -> Word, s: State)
  {
    forall k: nat :: k < |s.received| ==> s.received[k] == input(k)
  }

  ghost predicate Inv(n: Size, input: nat -> Word, total: nat, s: State)
  {
    && Shaped(n, s.queue)
    && CountersOk(n, total, s)
    && ModesOk(n, s)
    && SectionsOk(n, input, s)
    && ReceivedOk(input, s)
  }

  lemma InitInv(n: Size, input: nat -> Word, total: nat)
    requires 1 <= n.cells && 1 <= n.sections
    ensures Inv(n, input, total, Init(n, total))
  {
  }

  /** Ownership is decided by one flag: the producer's section is in read mode exactly when all sections
      are the consumer's, and the consumer's section is in read mode exactly when some section is. */
  lemma FlagsTell(n: Size, s: State)
    requires Shaped(n, s.queue) && ModesOk(n, s)
    ensures s.queue.isReadMode[s.queue.enqueueSection] <==> s.handed == s.returned + n.sections
    ensures s.queue.isReadMode[s.queue.dequeueSection] <==> s.returned < s.handed
  {
  }

  lemma StepKeepsCounters(n: Size, input: nat -> Word, total: nat, s: State, t: Thread)
    requires Shaped(n, s.queue) && CountersOk(n, total, s)
    requires s.queue.isReadMode[s.queue.enqueueSection] <==> s.handed == s.returned + n.sections
    requires s.queue.isReadMode[s.queue.dequeueSection] <==> s.returned < s.handed
    ensures CountersOk(n, total, Step(n, input, total, s, t))
  {
    NextSection(n, s.handed);
    NextSection(n, s.returned);
  }

  lemma ProducerKeepsModes(n: Size, input: nat -> Word, total: nat, s: State)
    requires Shaped(n, s.queue) && CountersOk(n, total, s) && ModesOk(n, s)
    ensures Shaped(n, Step(n, input, total, s, Producer).queue)
    ensures ModesOk(n, Step(n, input, total, s, Producer))
  {
  }

  lemma ConsumerKeepsModes(n: Size, input: nat -> Word, total: nat, s: State)
    requires Shaped(n, s.queue) && CountersOk(n, total, s) && ModesOk(n, s)
    ensures Shaped(n, Step(n, input, total, s, Consumer).queue)
    ensures ModesOk(n, Step(n, input, total, s, Consumer))
  {
  }

  lemma WriteKeepsSections(n: Size, input: nat -> Word, total: nat, s: State)
    requires Shaped(n, s.queue) && CountersOk(n, total, s) && ModesOk(n, s) && SectionsOk(n, input, s) && s.ppc.EWrite?
    ensures SectionsOk(n, input, Step(n, input, total, s, Producer))
  {
    var q, s' := s.queue, Step(n, input, total, s, Producer);
    assert s.sent == Index(n, s.handed, q.enqPtr);
    assert s'.queue.content[q.enqueueSection] == q.content[q.enqueueSection][q.enqPtr := input(s.sent)];
    assert Filling(n, s') == q.enqPtr + 1;
    forall o: nat | o < s.handed - s.returned
      ensures s'.queue.content[Place(n, s', o)] == q.content[Place(n, s, o)]
    {
      assert Place(n, s, o) != q.enqueueSection;
    }
  }

  lemma HandOverKeepsSections(n: Size, input: nat -> Word, total: nat, s: State)
    requires Shaped(n, s.queue) && CountersOk(n, total, s) && ModesOk(n, s) && SectionsOk(n, input, s)
    requires s.ppc.EHandOver?
    ensures SectionsOk(n, input, Step(n, input, total, s, Producer))
  {
    var s' := Step(n, input, total, s, Producer);
    forall o: nat | o < s'.handed - s'.returned
      ensures SectionHolds(n, input, s'.queue.content[Place(n, s', o)], s'.returned + o, n.cells)
    {
      assert Place(n, s', o) == Place(n, s, o);
    }
  }

  lemma GiveBackKeepsSections(n: Size, input: nat -> Word, total: nat, s: State)
    requires Shaped(n, s.queue) && CountersOk(n, total, s) && ModesOk(n, s) && SectionsOk(n, input, s)
    requires s.cpc.DGiveBack?
    ensures SectionsOk(n, input, Step(n, input, total, s, Consumer))
  {
    var s' := Step(n, input, total, s, Consumer);
    forall o: nat | o < s'.handed - s'.returned
      ensures SectionHolds(n, input, s'.queue.content[Place(n, s', o)], s'.returned + o, n.cells)
    {
      assert Place(n, s', o) == Place(n, s, o + 1);
    }
  }

  lemma OtherKeepsSections(n: Size, input: nat -> Word, total: nat, s: State, t: Thread)
    requires Shaped(n, s.queue) && CountersOk(n, total, s) && ModesOk(n, s) && SectionsOk(n, input, s)
    requires if t.Producer? then s.ppc.EWait? || s.ppc.EDone? else !s.cpc.DGiveBack?
    ensures SectionsOk(n, input, Step(n, input, total, s, t))
  {
    var s' := Step(n, input, total, s, t);
    forall o: nat | o < s'.handed - s'.returned
      ensures SectionHolds(n, input, s'.queue.content[Place(n, s', o)], s'.returned + o, n.cells)
    {
      assert Place(n, s', o) == Place(n, s, o);
    }
  }

  // The next value out is the next value that went in.
  lemma ReadsNext(n: Size, input: nat -> Word, total: nat, s: State)
    requires Shaped(n, s.queue) && CountersOk(n, total, s) && ModesOk(n, s) && SectionsOk(n, input, s) && s.cpc.DRead?
    ensures s.queue.content[s.queue.dequeueSection][s.queue.deqPtr] == input(|s.received|)
  {
    assert Place(n, s, 0) == s.queue.dequeueSection;
    assert SectionHolds(n, input, s.queue.content[Place(n, s, 0)], s.returned + 0, n.cells);
  }

  lemma StepKeepsInv(n: Size, input: nat -> Word, total: nat, s: State, t: Thread)
    requires Inv(n, input, total, s)
    ensures Inv(n, input, total, Step(n, input, total, s, t))
  {
    FlagsTell(n, s);
    StepKeepsCounters(n, input, total, s, t);
    match t {
      case Producer => ProducerKeepsModes(n, input, total, s);
      case Consumer => ConsumerKeepsModes(n, input, total, s);
    }
    if t.Producer? && s.ppc.EWrite? {
      WriteKeepsSections(n, input, total, s);
    } else if t.Producer? && s.ppc.EHandOver? {
      HandOverKeepsSections(n, input, total, s);
    } else if t.Consumer? && s.cpc.DGiveBack? {
      GiveBackKeepsSections(n, input, total, s);
    } else {
      OtherKeepsSections(n, input, total, s, t);
    }
    if s.cpc.DRead? {
      ReadsNext(n, input, total, s);
    }
  }

  // ---- Runs ----

  function Turn(n: Size, input: nat -> Word, total: nat, s: State, t: Thread): State
  {
    if Shaped(n, s.queue) then Step(n, input, total, s, t) else s
  }

  ghost predicate Follows(n: Size, input: nat -> Word, total: nat, schedule: nat -> Thread, run: nat -> State, k: nat)
  {
    run(k + 1) == Turn(n, input, total, run(k), schedule(k))
  }

  ghost predicate Behavior(n: Size, input: nat -> Word, total: nat, schedule: nat -> Thread, run: nat -> State)
  {
    && 1 <= n.cells && 1 <= n.sections
    && run(0) == Init(n, total)
    && forall k: nat :: Follows(n, input, total, schedule, run, k)
  }

  lemma {:induction false} AlwaysInv(n: Size, input: nat -> Word, total: nat,
                                      schedule: nat -> Thread, run: nat -> State, k: nat)
    requires Behavior(n, input, total, schedule, run)
    ensures Inv(n, input, total, run(k))
  {
    if k == 0 {
      InitInv(n, input, total);
    } else {
      AlwaysInv(n, input, total, schedule, run, k - 1);
      assert Follows(n, input, total, schedule, run, k - 1);
      StepKeepsInv(n, input, total, run(k - 1), schedule(k - 1));
    }
  }

  /** In every interleaving: what the consumer has received is a prefix of the producer's stream; no cell
      is ever both threads'; the sections in read mode are the ring interval from the consumer's section;
      and never are both threads blocked. */
  lemma SectionQueueIsSafe(n: Size, input: nat -> Word, total: nat, schedule: nat -> Thread, run: nat -> State, k: nat)
    requires Behavior(n, input, total, schedule, run)
    ensures var s := run(k);
            && Shaped(n, s.queue)
            && |s.received| <= s.sent
            && s.received == seq(|s.received|, (i: nat) => input(i))
            && (s.ppc.EWrite? ==> !s.queue.isReadMode[s.queue.enqueueSection])
            && (s.cpc.DRead? ==> s.queue.isReadMode[s.queue.dequeueSection])
            && ModesOk(n, s)
            && !(s.ppc.EWait? && s.queue.isReadMode[s.queue.enqueueSection]
                 && s.cpc.DWait? && !s.queue.isReadMode[s.queue.dequeueSection])
  {
    AlwaysInv(n, input, total, schedule, run, k);
    var s := run(k);
    FlagsTell(n, s);
    NeverAhead(n, total, s);
  }

  lemma NeverAhead(n: Size, total: nat, s: State)
    requires CountersOk(n, total, s) && 1 <= n.cells && s.queue.deqPtr < n.cells
    ensures |s.received| <= Index(n, s.handed, 0) <= s.sent
  {
    if s.returned < s.handed {
      MultipleOrder(n.cells, s.returned, s.handed);
    }
  }

  /** A thread spins only when it must: a turn changes nothing exactly if the thread has made all its operations,
      or all sections are full, or none is. */
  lemma SpinsIff(n: Size, input: nat -> Word, total: nat, schedule: nat -> Thread, run: nat -> State, k: nat)
    requires Behavior(n, input, total, schedule, run)
    ensures var s := run(k);
            run(k + 1) == s <==>
              match schedule(k)
              case Producer => s.ppc.EDone? || (s.ppc.EWait? && s.handed == s.returned + n.sections)
              case Consumer => s.cpc.DDone? || (s.cpc.DWait? && s.handed == s.returned)
    ensures run(k).ppc.EDone? ==> run(k).sent == total
    ensures run(k).cpc.DDone? ==> |run(k).received| == total
  {
    AlwaysInv(n, input, total, schedule, run, k);
    FlagsTell(n, run(k));
    assert Follows(n, input, total, schedule, run, k);
  }

  // ---- How a run ends ----

  function Work(total: nat, s: State): int
  {
    4 * (total - s.sent) + (match s.ppc case EWait => 2 case EWrite => 1 case EHandOver => 3 case EDone => 0)
    + 4 * (total - |s.received|) + match s.cpc case DWait => 2 case DRead => 1 case DGiveBack => 3 case DDone => 0
  }

  // Neither thread can move: each is done or spins.
  predicate Stopped(n: Size, s: State)
  {
    && Shaped(n, s.queue)
    && (s.ppc.EDone? || (s.ppc.EWait? && s.queue.isReadMode[s.queue.enqueueSection]))
    && (s.cpc.DDone? || (s.cpc.DWait? && !s.queue.isReadMode[s.queue.dequeueSection]))
  }

  lemma StepProgresses(n: Size, input: nat -> Word, total: nat, s: State, t: Thread)
    requires Inv(n, input, total, s)
    ensures Work(total, s) >= 0
    ensures var s' := Step(n, input, total, s, t); s' == s || Work(total, s') < Work(total, s)
    ensures Stopped(n, s) || Step(n, input, total, s, Producer) != s || Step(n, input, total, s, Consumer) != s
    ensures Stopped(n, s) ==> Step(n, input, total, s, t) == s
  {
  }

  /** Where a run that cannot move any more has got to: everything is enqueued, and the consumer has what
      the full sections hold. */
  lemma StoppedAtFullSections(n: Size, input: nat -> Word, total: nat, s: State)
    requires Inv(n, input, total, s) && Stopped(n, s)
    ensures s.ppc.EDone? && s.sent == total
    ensures |s.received| == (total / n.cells) * n.cells
    ensures s.cpc.DDone? <==> total % n.cells == 0
  {
    FlagsTell(n, s);
    NeverAhead(n, total, s);
    ModuloUnique(n.cells, s.sent, s.handed, s.queue.enqPtr);
    assert s.handed * n.cells == (total / n.cells) * n.cells;
  }

  /** Completion: every fair run of a producer of `total` values and a consumer of as many comes to rest;
      both threads finish if and only if `total` is a multiple of the section size, and otherwise the
      consumer is left spinning at the last full section. */
  lemma FairRunsCompleteIff(n: Size, input: nat -> Word, total: nat, schedule: nat -> Thread, run: nat -> State)
    returns (stop: nat)
    requires Behavior(n, input, total, schedule, run) && Fair(schedule)
    ensures forall m: nat :: stop <= m ==> run(m) == run(stop)
    ensures run(stop).ppc.EDone?
    ensures run(stop).cpc.DDone? <==> total % n.cells == 0
    ensures run(stop).received == seq((total / n.cells) * n.cells, (i: nat) => input(i))
  {
    var next, work, stopped := (s, t) => Turn(n, input, total, s, t), s => Work(total, s), s => Stopped(n, s);
    forall k: nat ensures Progresses(run, schedule, next, work, stopped, k) {
      AlwaysInv(n, input, total, schedule, run, k);
      assert Follows(n, input, total, schedule, run, k);
      StepProgresses(n, input, total, run(k), schedule(k));
      if !Stopped(n, run(k)) {
        assert next(run(k), Producer) != run(k) || next(run(k), Consumer) != run(k);
      }
    }
    stop := FairRunStops(run, schedule, next, work, stopped);
    AlwaysInv(n, input, total, schedule, run, stop);
    StoppedAtFullSections(n, input, total, run(stop));
  }

  // ---- The structure in memory ----

  class SharedSectionQueue {
    const n: Size
    const content: array2<Word>
    const isReadMode: array<bool>
    var enqPtr: nat
    var deqPtr: nat
    var enqueueSection: nat
    var dequeueSection: nat

    predicate Valid()
      reads this
    {
      && content.Length0 == isReadMode.Length == n.sections && content.Length1 == n.cells
      && enqPtr < n.cells && deqPtr < n.cells && enqueueSection < n.sections && dequeueSection < n.sections
    }

    function Section(x: nat): seq<Word>
      requires x < content.Length0
      reads content
    {
      seq(content.Length1, k requires 0 <= k < content.Length1 reads content => content[x, k])
    }

    function Sections(): seq<seq<Word>>
      reads content
    {
      seq(content.Length0, x requires 0 <= x < content.Length0 reads content => Section(x))
    }

    function View(): (q: Queue)
      reads this, content, isReadMode
      ensures Valid() ==> Shaped(n, q)
    {
      Queue(Sections(), isReadMode[..], enqPtr, deqPtr, enqueueSection, dequeueSection)
    }

    // SectionQueue_Init
    constructor (n: Size)
      requires 1 <= n.cells && 1 <= n.sections
      ensures Valid() && this.n == n && View() == InitQueue(n)
      ensures fresh(content) && fresh(isReadMode)
    {
      this.n := n;
      content := new Word[n.sections, n.cells]((x, k) => 0);
      isReadMode := new bool[n.sections](x => false);
      enqPtr, deqPtr, enqueueSection, dequeueSection := 0, 0, 0, 0;
      new;
      assert isReadMode[..] == seq(n.sections, _ => false);
      forall x | 0 <= x < n.sections ensures Section(x) == seq(n.cells, _ => 0) {
      }
    }

    method PutValue(value: Word)
      requires Valid()
      modifies this`enqPtr, content
      ensures Valid() && View() == WriteCell(n, old(View()), value)
    {
      NextIsModulo(n.cells, enqPtr);
      content[enqueueSection, enqPtr] := value;
      enqPtr := (enqPtr + 1) % n.cells;
      ghost var before := old(Sections());
      ghost var section: seq<Word> := before[enqueueSection][old(enqPtr) := value];
      assert Section(enqueueSection) == section;
      forall x | 0 <= x < n.sections && x != enqueueSection ensures Section(x) == before[x] {
      }
      assert Sections() == before[enqueueSection := Section(enqueueSection)];
    }

    // isReadMode = 1; enqueueSection = (enqueueSection + 1) % NUM_SECTIONS
    method HandOverSection()
      requires Valid()
      modifies this`enqueueSection, isReadMode
      ensures Valid() && View() == HandOver(n, old(View()))
    {
      NextIsModulo(n.sections, enqueueSection);
      isReadMode[enqueueSection] := true;
      enqueueSection := (enqueueSection + 1) % n.sections;
      assert Sections() == old(Sections());
    }

    method TakeValue() returns (value: Word)
      requires Valid()
      modifies this`deqPtr
      ensures Valid() && View() == ReadCell(n, old(View()))
      ensures value == old(View().content[dequeueSection][deqPtr])
    {
      NextIsModulo(n.cells, deqPtr);
      value := content[dequeueSection, deqPtr];
      deqPtr := (deqPtr + 1) % n.cells;
      assert Sections() == old(Sections());
      assert old(Sections()[dequeueSection]) == old(Section(dequeueSection));
    }

    // isReadMode = 0; dequeueSection = (dequeueSection + 1) % NUM_SECTIONS
    method GiveBackSection()
      requires Valid()
      modifies this`dequeueSection, isReadMode
      ensures Valid() && View() == GiveBack(n, old(View()))
    {
      NextIsModulo(n.sections, dequeueSection);
      isReadMode[dequeueSection] := false;
      dequeueSection := (dequeueSection + 1) % n.sections;
      assert Sections() == old(Sections());
    }

    /** SectionQueue_Enqueue, on its own turn. `blocked` is the spin on the section's flag. */
    method Enqueue(value: Word) returns (blocked: bool)
      requires Valid()
      modifies this`enqPtr, this`enqueueSection, content, isReadMode
      ensures Valid()
      ensures blocked <==> old(isReadMode[enqueueSection])
      ensures View() ==
                if blocked then old(View())
                else var q := WriteCell(n, old(View()), value); if q.enqPtr == 0 then HandOver(n, q) else q
    {
      if isReadMode[enqueueSection] {
        return true;
      }
      PutValue(value);
      if enqPtr == 0 {
        HandOverSection();
      }
      blocked := false;
    }

    /** SectionQueue_Dequeue, on its own turn. */
    method Dequeue() returns (blocked: bool, value: Word)
      requires Valid()
      modifies this`deqPtr, this`dequeueSection, isReadMode
      ensures Valid()
      ensures blocked <==> !old(isReadMode[dequeueSection])
      ensures !blocked ==> value == old(View().content[dequeueSection][deqPtr])
      ensures View() ==
                if blocked then old(View())
                else var q := ReadCell(n, old(View())); if q.deqPtr == 0 then GiveBack(n, q) else q
    {
      if !isReadMode[dequeueSection] {
        return true, 0;
      }
      value := TakeValue();
      if deqPtr == 0 {
        GiveBackSection();
      }
      blocked := false;
    }
  }

  /** The two threads on one queue in memory, each at one access a turn. */
  class QueueThreads {
    const queue: SharedSectionQueue
    const total: nat
    var ppc: ProducerPc
    var sent: nat
    ghost var handed: nat
    var cpc: ConsumerPc
    var received: seq<Word>
    ghost var returned: nat

    ghost predicate Valid()
      reads this, queue
    {
      queue.Valid()
    }

    ghost function View(): State
      reads this, queue, queue.content, queue.isReadMode
    {
      State(queue.View(), ppc, sent, handed, cpc, received, returned)
    }

    constructor (n: Size, total: nat)
      requires 1 <= n.cells && 1 <= n.sections
      ensures Valid() && queue.n == n && this.total == total && View() == Init(n, total)
      ensures fresh(queue) && fresh(queue.content) && fresh(queue.isReadMode)
    {
      queue := new SharedSectionQueue(n);
      this.total := total;
      ppc, sent, handed := if total == 0 then EDone else EWait, 0, 0;
      cpc, received, returned := if total == 0 then DDone else DWait, [], 0;
    }

    method ProducerTurn(input: nat -> Word)
      requires Valid()
      modifies this`ppc, this`sent, this`handed, queue`enqPtr, queue`enqueueSection, queue.content, queue.isReadMode
      ensures Valid() && View() == Step(queue.n, input, total, old(View()), Producer)
    {
      match ppc
      case EWait =>
        if !queue.isReadMode[queue.enqueueSection] {
          ppc := EWrite;
        }
      case EWrite =>
        queue.PutValue(input(sent));
        sent := sent + 1;
        ppc := if queue.enqPtr == 0 then EHandOver else if sent == total then EDone else EWait;
      case EHandOver =>
        queue.HandOverSection();
        handed := handed + 1;
        ppc := if sent == total then EDone else EWait;
      case EDone =>
    }

    method ConsumerTurn(ghost input: nat -> Word)
      requires Valid()
      modifies this`cpc, this`received, this`returned, queue`deqPtr, queue`dequeueSection, queue.isReadMode
      ensures Valid() && View() == Step(queue.n, input, total, old(View()), Consumer)
    {
      match cpc
      case DWait =>
        if queue.isReadMode[queue.dequeueSection] {
          cpc := DRead;
        }
      case DRead =>
        var value := queue.TakeValue();
        received := received + [value];
        cpc := if queue.deqPtr == 0 then DGiveBack else if |received| == total then DDone else DWait;
      case DGiveBack =>
        queue.GiveBackSection();
        returned := returned + 1;
        cpc := if |received| == total then DDone else DWait;
      case DDone =>
    }

    /** Any number of turns from the start, in any order: the state is the one the theorems speak of. */
    method Run(input: nat -> Word, schedule: nat -> Thread, turns: nat, ghost run: nat -> State)
      requires Valid() && View() == Init(queue.n, total) && Behavior(queue.n, input, total, schedule, run)
      modifies this, queue, queue.content, queue.isReadMode
      ensures Valid() && View() == run(turns)
    {
      for k := 0 to turns
        invariant Valid() && View() == run(k)
      {
        assert Follows(queue.n, input, total, schedule, run, k);
        match schedule(k)
        case Producer => ProducerTurn(input);
        case Consumer => ConsumerTurn(input);
      }
    }
  }
}
