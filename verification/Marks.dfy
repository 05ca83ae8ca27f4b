/** What happens in the Volatile and RHT_Volatiles modes when the first difference of the streams is an element
    that one of the threads computes as the mark of a free cell. */
module Marks {
  import opened Ring
  import opened Channel
  import opened Invariant
  import opened Runs
  import opened Fairness
  import opened Polite

  ghost predicate UnmarkedElement(cfg: Config, i: nat, j: nat)
  {
    ProducerSum(cfg, i, j + 1) != ALREADY_CONSUMED && ConsumerSum(cfg, i, j + 1) != ALREADY_CONSUMED
  }

  // The mark occurs in the streams at most at element (i, j).
  ghost predicate MarkedOnlyAt(cfg: Config, i: nat, j: nat)
  {
    forall r: nat, c: nat :: r < cfg.rows && c < cfg.cols && (r != i || c != j) ==> UnmarkedElement(cfg, r, c)
  }

  predicate AlarmAt(s: State, i: nat, j: nat)
  {
    s.c.pc.CMismatch? && s.c.i == i && s.c.j == j
  }

  ghost predicate Alarms(run: nat -> State, i: nat, j: nat)
  {
    exists n: nat :: AlarmAt(run(n), i, j)
  }

  ghost predicate EveryFairRunAlarms(cfg: Config, i: nat, j: nat)
  {
    forall schedule: nat -> Thread, run: nat -> State ::
      Behavior(cfg, schedule, run) && Fair(schedule) ==> Alarms(run, i, j)
  }

  // The first difference of the streams is element (i, j), and no other element is the mark.
  ghost predicate DiffersFirstAt(cfg: Config, i: nat, j: nat)
  {
    && ValidConfig(cfg) && !cfg.mode.RhtVolatilesImproved?
    && Scan(cfg, 0, 0) == ElementFault(i, j)
    && MarkedOnlyAt(cfg, i, j)
  }

  lemma DifferenceFacts(cfg: Config, i: nat, j: nat)
    requires DiffersFirstAt(cfg, i, j)
    ensures Sized(cfg) && i < cfg.rows && j < cfg.cols
    ensures RowsAgree(cfg, 0, i) && SameTo(cfg, i, j)
    ensures ProducerSum(cfg, i, j + 1) != ConsumerSum(cfg, i, j + 1)
  {
    ScanFindsFirst(cfg, 0, 0);
  }

  // ---- Neither value is the mark ----

  lemma UnmarkedDifferenceAlarms(cfg: Config, i: nat, j: nat, schedule: nat -> Thread, run: nat -> State)
    requires DiffersFirstAt(cfg, i, j) && UnmarkedElement(cfg, i, j)
    requires Behavior(cfg, schedule, run) && Fair(schedule)
    ensures Alarms(run, i, j)
  {
    forall r: nat, c: nat | r < cfg.rows && 1 <= c <= cfg.cols
      ensures ProducerSum(cfg, r, c) != ALREADY_CONSUMED && ConsumerSum(cfg, r, c) != ALREADY_CONSUMED
    {
      assert UnmarkedElement(cfg, r, c - 1);
    }
    var stop := FairRunsDecide(cfg, schedule, run);
    AlarmIsFirstDifference(cfg, schedule, run, stop);
    assert AlarmAt(run(stop), i, j);
  }

  // ---- The way to the difference ----

  lemma IndexBefore(cols: nat, r: nat, c: nat, i: nat, j: nat)
    requires c < cols && j < cols && r * cols + c < i * cols + j
    ensures r < i || (r == i && c < j)
  {
    if r > i {
      MultipleOrder(cols, i, r);
    }
  }

  lemma CleanUpTo(cfg: Config, i: nat, j: nat)
    requires DiffersFirstAt(cfg, i, j)
    ensures CleanBefore(cfg, Index(cfg, i, j))
    ensures Index(cfg, i, j) < cfg.rows * cfg.cols
  {
    DifferenceFacts(cfg, i, j);
    forall r: nat, c: nat | r < cfg.rows && c < cfg.cols && Index(cfg, r, c) < Index(cfg, i, j)
      ensures CleanElement(cfg, r, c)
    {
      IndexBefore(cfg.cols, r, c, i, j);
      assert UnmarkedElement(cfg, r, c);
      if r < i {
        assert RowAgrees(cfg, r);
      }
    }
    forall r: nat | r < cfg.rows && Index(cfg, r + 1, 0) <= Index(cfg, i, j)
      ensures PublishedValue(cfg, r) == ConsumerSum(cfg, r, cfg.cols)
    {
      NextRow(r, cfg.cols);
      IndexBefore(cfg.cols, r, cfg.cols - 1, i, j);
      assert RowAgrees(cfg, r);
    }
    MultipleOrder(cfg.cols, i, cfg.rows);
  }

  ghost predicate OnRoute(cfg: Config, k: nat, s: State)
  {
    Sized(cfg) && Inv(cfg, s) && Underway(cfg, k, s)
  }

  // The elements in flight come before element k.
  lemma FlightIsClean(cfg: Config, k: nat, s: State)
    requires Sized(cfg) && Core(cfg, s) && Underway(cfg, k, s) && CleanBefore(cfg, k)
    ensures ALREADY_CONSUMED !in Queue(cfg, s)
  {
    forall d: nat | d < |Queue(cfg, s)| ensures Queue(cfg, s)[d] != ALREADY_CONSUMED {
      assert Index(cfg, s.p.i, Emptied(s) + d) < k;
      assert CleanElement(cfg, s.p.i, Emptied(s) + d);
    }
  }

  lemma RouteIsUnmarked(cfg: Config, k: nat, s: State)
    requires OnRoute(cfg, k, s) && CleanBefore(cfg, k) && !AtTarget(cfg, s, k)
    ensures Unmarked(cfg, s)
  {
    FlightIsClean(cfg, k, s);
    FlatDistance(cfg, s);
    if s.c.pc.CRead? {
      assert CleanElement(cfg, s.c.i, s.c.j);
    }
  }

  lemma ReadOnRoute(cfg: Config, k: nat, s: State)
    requires OnRoute(cfg, k, s) && InBounds(cfg, s) && CleanBefore(cfg, k) && !AtTarget(cfg, s, k)
    requires s.c.pc.CRead? && Choice(cfg, k, s).ConsumerThread?
    ensures ConsumerStep(cfg, s).c.pc.CReset?
  {
    RouteIsUnmarked(cfg, k, s);
    ReadsCleanElement(cfg, k, s);
    HeadCellHolds(cfg, s);
  }

  lemma StaysUnderway(cfg: Config, k: nat, s: State)
    requires OnRoute(cfg, k, s) && InBounds(cfg, s) && CleanBefore(cfg, k) && !AtTarget(cfg, s, k)
    ensures Underway(cfg, k, Turn(cfg, s, Choice(cfg, k, s)))
  {
    WritesStayBelow(cfg, k, s);
    if Choice(cfg, k, s).ConsumerThread? {
      if s.c.pc.CRead? {
        ReadOnRoute(cfg, k, s);
      } else {
        MoveStaysUnderway(cfg, k, s);
      }
    }
  }

  // On an empty queue the producer can move.
  lemma ProducerMoves(cfg: Config, s: State)
    requires Sized(cfg) && Inv(cfg, s) && InBounds(cfg, s) && s.c.pc.CRead? && Unmarked(cfg, s)
    requires Consumed(cfg, s) == Written(cfg, s)
    ensures ProducerStep(cfg, s) != s
  {
    FlatDistance(cfg, s);
    if !s.p.pc.PAdvance? {
      NextCell(cfg, s);
    }
  }

  lemma ChoiceMoves(cfg: Config, k: nat, s: State)
    requires OnRoute(cfg, k, s) && InBounds(cfg, s) && CleanBefore(cfg, k) && !AtTarget(cfg, s, k)
    requires k < cfg.rows * cfg.cols
    ensures Turn(cfg, s, Choice(cfg, k, s)) != s
  {
    NotFinished(cfg, k, s);
    RouteIsUnmarked(cfg, k, s);
    if s.c.pc.CRead? && Consumed(cfg, s) == Written(cfg, s) {
      ProducerMoves(cfg, s);
    } else {
      NoDeadlock(cfg, s);
      var t :| Step(cfg, s, t) != s;
    }
  }

  lemma Progress(cfg: Config, k: nat, s: State)
    requires OnRoute(cfg, k, s) && CleanBefore(cfg, k) && k < cfg.rows * cfg.cols && !AtTarget(cfg, s, k)
    ensures var s' := Turn(cfg, s, Choice(cfg, k, s)); OnRoute(cfg, k, s') && 0 <= Work(cfg, s') < Work(cfg, s)
  {
    InvInBounds(cfg, s);
    ChoiceMoves(cfg, k, s);
    StaysUnderway(cfg, k, s);
    RouteIsUnmarked(cfg, k, s);
    StepKeepsUnmarkedInv(cfg, s, Choice(cfg, k, s));
    StepUsesWork(cfg, s, Choice(cfg, k, s));
    WorkNonNegative(cfg, Turn(cfg, s, Choice(cfg, k, s)));
  }

  lemma StartOnRoute(cfg: Config, k: nat)
    requires ValidConfig(cfg) && Sized(cfg)
    ensures OnRoute(cfg, k, Init(cfg))
  {
    InitInv(cfg);
  }

  /** A fair run in which the consumer is about to read the first difference while the ring is empty. */
  lemma ReachDifference(cfg: Config, i: nat, j: nat) returns (schedule: nat -> Thread, run: nat -> State, m: nat)
    requires DiffersFirstAt(cfg, i, j)
    ensures Behavior(cfg, schedule, run) && Fair(schedule) && AlternatesFrom(schedule, m)
    ensures AtTarget(cfg, run(m), Index(cfg, i, j)) && Sized(cfg) && Inv(cfg, run(m))
  {
    var k := Index(cfg, i, j);
    CleanUpTo(cfg, i, j);
    DifferenceFacts(cfg, i, j);
    var good := s => OnRoute(cfg, k, s);
    forall s: State ensures Approaches(cfg, k, good, s) {
      if good(s) && !AtTarget(cfg, s, k) {
        Progress(cfg, k, s);
      }
    }
    StartOnRoute(cfg, k);
    schedule, run, m := PoliteArrival(cfg, k, good);
  }

  // What the consumer finds there.
  lemma AtDifference(cfg: Config, i: nat, j: nat, s: State)
    requires Sized(cfg) && Inv(cfg, s) && AtTarget(cfg, s, Index(cfg, i, j)) && j < cfg.cols
    ensures InBounds(cfg, s) && !Alarmed(s) && s.c.i == i && s.c.j == j && Filled(s) == Emptied(s)
    ensures s.content[s.deqPtr] == ALREADY_CONSUMED
  {
    InvInBounds(cfg, s);
    FlatDistance(cfg, s);
    IndexUnique(cfg, i, j);
    IndexUnique(cfg, s.c.i, s.c.j);
    TailCell(cfg.q, s.content, Tail(cfg.q, s), Queue(cfg, s));
  }

  // ---- The consumer's value is the mark ----

  // The consumer has let element (i, j) go.
  predicate LetGo(s: State, i: nat, j: nat)
  {
    s.c.i > i || (s.c.i == i && (s.c.j > j || (s.c.j == j && (s.c.pc.CReset? || s.c.pc.CBump?))))
  }

  lemma {:induction false} StaysLetGo(cfg: Config, schedule: nat -> Thread, run: nat -> State,
                                       i: nat, j: nat, m: nat, n: nat)
    requires Behavior(cfg, schedule, run) && m <= n && LetGo(run(m), i, j)
    ensures LetGo(run(n), i, j)
  {
    if m < n {
      StaysLetGo(cfg, schedule, run, i, j, m, n - 1);
      assert Follows(cfg, schedule, run, n - 1);
    }
  }

  lemma MarkIsAccepted(cfg: Config, i: nat, j: nat, s: State)
    requires Sized(cfg) && Inv(cfg, s) && AtTarget(cfg, s, Index(cfg, i, j)) && j < cfg.cols
    requires ConsumerSum(cfg, i, j + 1) == ALREADY_CONSUMED
    ensures LetGo(Turn(cfg, s, ConsumerThread), i, j)
  {
    AtDifference(cfg, i, j, s);
  }

  // ---- The producer's value is the mark ----

  // The consumer waits for an element that looks like a free cell.
  ghost predicate Frozen(cfg: Config, i: nat, j: nat, s: State)
  {
    && Sized(cfg) && InBounds(cfg, s)
    && ProducerOk(cfg, s.p) && BarrierOk(cfg, s) && RingOk(cfg, s)
    && s.c.pc.CSpin? && s.c.i == i && s.c.j == j
    && (if cfg.mode.Volatile?
        then !s.p.pc.PAwaitNext? && !s.p.pc.PSample? && (s.p.pc.PWrite? ==> Filled(s) - Emptied(s) < cfg.q)
        else CreditOk(cfg, s))
  }

  // Taken for a free cell, the element hides that one place fewer is free; but a full ring still stops the
  // producer, at the element behind it.
  lemma FullStopsProducer(cfg: Config, i: nat, j: nat, s: State)
    requires Frozen(cfg, i, j, s) && !s.p.pc.PAdvance? && i < cfg.rows && MarkedOnlyAt(cfg, i, j)
    requires Filled(s) - Emptied(s) == cfg.q
    ensures s.content[Next(cfg.q, s.enqPtr)] != ALREADY_CONSUMED
  {
    assert Offset(cfg.q, Tail(cfg.q, s), Next(cfg.q, s.enqPtr)) == 1;
    assert Queue(cfg, s)[1] == ProducerSum(cfg, i, j + 2);
    assert UnmarkedElement(cfg, i, j + 1);
  }

  lemma FrozenWrite(cfg: Config, i: nat, j: nat, s: State)
    requires Frozen(cfg, i, j, s) && s.p.pc.PWrite?
    ensures Frozen(cfg, i, j, ProducerStep(cfg, s))
  {
    WriteKeepsRing(cfg, s);
  }

  lemma FrozenAwait(cfg: Config, i: nat, j: nat, s: State)
    requires Frozen(cfg, i, j, s) && (s.p.pc.PAwaitSlot? || s.p.pc.PAwaitNext?)
    requires s.content[Next(cfg.q, s.enqPtr)] == ALREADY_CONSUMED ==> Filled(s) - Emptied(s) < cfg.q
    ensures Frozen(cfg, i, j, ProducerStep(cfg, s))
  {
    SameQueue(cfg, s, ProducerStep(cfg, s));
  }

  lemma FrozenSample(cfg: Config, i: nat, j: nat, s: State)
    requires Frozen(cfg, i, j, s) && s.p.pc.PSample?
    ensures Frozen(cfg, i, j, ProducerStep(cfg, s))
  {
    SampleFacts(cfg, s);
    SameQueue(cfg, s, ProducerStep(cfg, s));
  }

  lemma FrozenAdvance(cfg: Config, i: nat, j: nat, s: State)
    requires Frozen(cfg, i, j, s) && s.p.pc.PAdvance?
    ensures Frozen(cfg, i, j, ProducerStep(cfg, s))
  {
    SameQueue(cfg, s, ProducerStep(cfg, s));
  }

  lemma FrozenShake(cfg: Config, i: nat, j: nat, s: State)
    requires Frozen(cfg, i, j, s) && !Sending(s.p.pc)
    ensures Frozen(cfg, i, j, ProducerStep(cfg, s))
  {
    SameQueue(cfg, s, ProducerStep(cfg, s));
  }

  lemma FrozenProducer(cfg: Config, i: nat, j: nat, s: State)
    requires Frozen(cfg, i, j, s) && i < cfg.rows && MarkedOnlyAt(cfg, i, j)
    ensures Frozen(cfg, i, j, ProducerStep(cfg, s))
  {
    match s.p.pc
    case PWrite => FrozenWrite(cfg, i, j, s);
    case PAdvance => FrozenAdvance(cfg, i, j, s);
    case PSample => FrozenSample(cfg, i, j, s);
    case PAwaitSlot | PAwaitNext =>
      if Filled(s) - Emptied(s) == cfg.q {
        FullStopsProducer(cfg, i, j, s);
      }
      FrozenAwait(cfg, i, j, s);
    case _ => FrozenShake(cfg, i, j, s);
  }

  lemma FrozenConsumer(cfg: Config, i: nat, j: nat, s: State)
    requires Frozen(cfg, i, j, s) && ProducerSum(cfg, i, j + 1) == ALREADY_CONSUMED
    ensures ConsumerStep(cfg, s) == s
  {
    assert Offset(cfg.q, Tail(cfg.q, s), s.deqPtr) == 0;
  }

  lemma {:induction false} StaysFrozen(cfg: Config, schedule: nat -> Thread, run: nat -> State,
                                        i: nat, j: nat, m: nat, n: nat)
    requires Behavior(cfg, schedule, run) && m <= n && i < cfg.rows && Frozen(cfg, i, j, run(m))
    requires MarkedOnlyAt(cfg, i, j) && ProducerSum(cfg, i, j + 1) == ALREADY_CONSUMED
    ensures Frozen(cfg, i, j, run(n))
  {
    if m < n {
      StaysFrozen(cfg, schedule, run, i, j, m, n - 1);
      assert Follows(cfg, schedule, run, n - 1);
      FrozenProducer(cfg, i, j, run(n - 1));
      FrozenConsumer(cfg, i, j, run(n - 1));
    }
  }

  lemma MarkIsAwaited(cfg: Config, i: nat, j: nat, s: State)
    requires Sized(cfg) && Inv(cfg, s) && AtTarget(cfg, s, Index(cfg, i, j)) && j < cfg.cols
    requires ConsumerSum(cfg, i, j + 1) != ALREADY_CONSUMED
    ensures Frozen(cfg, i, j, Turn(cfg, s, ConsumerThread))
  {
    AtDifference(cfg, i, j, s);
    SameQueue(cfg, s, ConsumerStep(cfg, s));
  }

  // ---- The exact condition ----

  /** A difference that involves the mark escapes the comparison in some fair run: the consumer takes the free
      cell for a match, or waits for ever for an element that looks like a free cell. */
  lemma MarkedDifferenceEscapes(cfg: Config, i: nat, j: nat) returns (schedule: nat -> Thread, run: nat -> State)
    requires DiffersFirstAt(cfg, i, j) && !UnmarkedElement(cfg, i, j)
    ensures Behavior(cfg, schedule, run) && Fair(schedule) && !Alarms(run, i, j)
  {
    DifferenceFacts(cfg, i, j);
    var m;
    schedule, run, m := ReachDifference(cfg, i, j);
    AtDifference(cfg, i, j, run(m));
    assert schedule(m) == ConsumerThread;
    assert Follows(cfg, schedule, run, m);
    if ConsumerSum(cfg, i, j + 1) == ALREADY_CONSUMED {
      MarkIsAccepted(cfg, i, j, run(m));
    } else {
      MarkIsAwaited(cfg, i, j, run(m));
    }
    forall n: nat ensures !AlarmAt(run(n), i, j) {
      if n <= m {
        if AlarmAt(run(n), i, j) {
          StaysStuck(cfg, schedule, run, n, m);
        }
      } else if ConsumerSum(cfg, i, j + 1) == ALREADY_CONSUMED {
        StaysLetGo(cfg, schedule, run, i, j, m + 1, n);
      } else {
        StaysFrozen(cfg, schedule, run, i, j, m + 1, n);
      }
    }
  }

  /** When the mark is not elsewhere in the streams, every fair run of either mode stops with an alarm at the
      first differing element if and only if neither thread computes it as the mark. */
  lemma AlarmsIff(cfg: Config, i: nat, j: nat)
    requires DiffersFirstAt(cfg, i, j)
    ensures EveryFairRunAlarms(cfg, i, j)
            <==> ProducerSum(cfg, i, j + 1) != ALREADY_CONSUMED && ConsumerSum(cfg, i, j + 1) != ALREADY_CONSUMED
  {
    if UnmarkedElement(cfg, i, j) {
      forall schedule: nat -> Thread, run: nat -> State | Behavior(cfg, schedule, run) && Fair(schedule)
        ensures Alarms(run, i, j)
      {
        UnmarkedDifferenceAlarms(cfg, i, j, schedule, run);
      }
    } else {
      var schedule, run := MarkedDifferenceEscapes(cfg, i, j);
    }
  }

  // One element; a soft error turns the consumer's value into the mark.
  function MarkConfig(): Config
  {
    Config(Volatile, 2, 1, 1, [1], [[1]], [0], [0], (i, j) => 0, (i, j) => -2, i => 0)
  }

  function MarkSchedule(n: nat): Thread
  {
    if n < 3 || n >= 8 then ConsumerThread else ProducerThread
  }

  /** In the smallest case the consumer passes the differing element, and only the row's own check stops it. */
  lemma MarkPassesUnchecked(run: nat -> State)
    requires Behavior(MarkConfig(), MarkSchedule, run)
    ensures DiffersFirstAt(MarkConfig(), 0, 0)
    ensures run(3).c == Consumer(CAwaitFlag, 0, 1, ALREADY_CONSUMED)
    ensures run(10).c.pc.CVolatileMismatch?
  {
    var cfg := MarkConfig();
    assert ProducerSum(cfg, 0, 0) == ConsumerSum(cfg, 0, 0) == 0;
    assert ProducerSum(cfg, 0, 1) == 1 && ConsumerSum(cfg, 0, 1) == ALREADY_CONSUMED;
    MarkAccepted(run);
    MarkPublished(run);
    MarkTurn(run, 8);
    MarkTurn(run, 9);
  }

  lemma MarkTurn(run: nat -> State, n: nat)
    requires Behavior(MarkConfig(), MarkSchedule, run)
    ensures run(n + 1) == Turn(MarkConfig(), run(n), MarkSchedule(n))
  {
    assert Follows(MarkConfig(), MarkSchedule, run, n);
  }

  lemma MarkAccepted(run: nat -> State)
    requires Behavior(MarkConfig(), MarkSchedule, run)
    ensures run(3) == State([-1, -1], 0, 1, 1, -1, [0], [0], Producer(PAwaitSlot, 0, 0, 0, 2, false, 0),
                            Consumer(CAwaitFlag, 0, 1, -1))
  {
    MarkTurn(run, 0);
    MarkTurn(run, 1);
    MarkTurn(run, 2);
  }

  lemma MarkPublished(run: nat -> State)
    requires Behavior(MarkConfig(), MarkSchedule, run)
    ensures run(8) == State([1, -1], 1, 1, 0, 1, [0], [0], Producer(PAwaitFlag, 0, 1, 1, 2, false, 0),
                            Consumer(CAwaitFlag, 0, 1, -1))
  {
    MarkAccepted(run);
    MarkTurn(run, 3);
    MarkTurn(run, 4);
    MarkTurn(run, 5);
    MarkTurn(run, 6);
    MarkTurn(run, 7);
  }
}
