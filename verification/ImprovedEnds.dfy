/** When fault-free runs of the RHT_VolatilesImproved mode finish. A false alarm is one way not to; the other is
    that the consumer, ahead of the producer, moves `deqPtr` a whole lap, so that the producer sees it where
    it was. */
module ImprovedEnds {
  import opened Ring
  import opened Channel
  import opened Invariant
  import opened Runs
  import opened Fairness
  import opened Product
  import opened ImprovedRing
  import opened Improved
  import opened Polite
  import opened FalseAlarm

  // Finished, with the result of the unreplicated version in both vectors.
  ghost predicate HasProduct(cfg: Config, s: State)
  {
    && Finished(s)
    && s.producerResult == s.consumerResult == seq(cfg.rows, (r: nat) => Dot(cfg, r, cfg.cols))
  }

  // ---- A ring that is never used twice ----

  lemma OneLapIsNeverPremature(cfg: Config, schedule: nat -> Thread, run: nat -> State, n: nat)
    requires Behavior(cfg, schedule, run) && ImprovedConfig(cfg) && ValidConfig(cfg)
    requires cfg.rows == 0 || (cfg.rows == 1 && cfg.q == cfg.cols)
    ensures !Premature(cfg, run(n))
  {
    EveryRun(cfg, schedule, run, n);
  }

  lemma OneLapFinishes(cfg: Config, schedule: nat -> Thread, run: nat -> State) returns (stop: nat)
    requires FaultFree(cfg) && (cfg.rows == 0 || (cfg.rows == 1 && cfg.q == cfg.cols))
    requires Behavior(cfg, schedule, run) && Fair(schedule)
    ensures HasProduct(cfg, run(stop))
  {
    FaultFreeHasNoSentinel(cfg);
    stop := ImprovedDecidesUnlessPremature(cfg, schedule, run);
    OneLapIsNeverPremature(cfg, schedule, run, stop);
    FaultFreeOutcome(cfg, run(stop));
  }

  lemma FaultFreeOutcome(cfg: Config, s: State)
    requires FaultFree(cfg) && Outcome(cfg, s)
    ensures HasProduct(cfg, s)
  {
    FaultFreeAgrees(cfg);
    forall r: nat ensures ProducerSum(cfg, r, cfg.cols) == ConsumerSum(cfg, r, cfg.cols) == Dot(cfg, r, cfg.cols) {
      FaultFreeSums(cfg, r, cfg.cols);
    }
  }

  // ---- The second row of a ring as long as a row ----

  // In the second row the producer has not looked at `deqPtr` yet.
  ghost predicate NotYetSampled(cfg: Config, s: State)
  {
    s.p.i == 1 && Sending(s.p.pc) ==> s.p.newLimit == cfg.q - 1 && (s.p.pc.PWrite? || s.p.pc.PAdvance?)
  }

  ghost predicate TowardsHang(cfg: Config, k: nat, s: State)
  {
    cfg.q == cfg.cols && k == 2 * cfg.q - 1 && OnTheWay(cfg, k, s) && NotYetSampled(cfg, s)
  }

  lemma StepStaysUnsampled(cfg: Config, s: State)
    requires 2 <= cfg.q && cfg.mode.RhtVolatilesImproved? && InBounds(cfg, s) && NotYetSampled(cfg, s)
    requires s.p.i == 1 && s.p.pc.PAdvance? ==> s.p.j + 1 < cfg.q - 1 && !s.p.leftover
    ensures NotYetSampled(cfg, ProducerStep(cfg, s))
  {
  }

  // The producer does not move on after its last element on credit.
  lemma LastOnCredit(cfg: Config, k: nat, s: State)
    requires Orderly(cfg, s) && Underway(cfg, k, s) && InBounds(cfg, s) && !AtTarget(cfg, s, k)
    requires 2 <= cfg.q == cfg.cols && k == 2 * cfg.q - 1
    requires s.p.i == 1 && s.p.pc.PAdvance? && s.p.j + 1 >= cfg.q - 1
    ensures Choice(cfg, k, s).ConsumerThread?
  {
    assert Written(cfg, s) == k;
    ConsumerCanMove(cfg, s);
  }

  lemma StaysUnsampled(cfg: Config, k: nat, s: State)
    requires ImprovedConfig(cfg) && cfg.q == cfg.cols && k == 2 * cfg.q - 1
    requires Orderly(cfg, s) && Underway(cfg, k, s) && CreditBound(cfg, s) && InBounds(cfg, s)
    requires NotYetSampled(cfg, s) && !AtTarget(cfg, s, k)
    ensures NotYetSampled(cfg, Turn(cfg, s, Choice(cfg, k, s)))
  {
    if Choice(cfg, k, s).ProducerThread? {
      if s.p.i == 1 && s.p.pc.PAdvance? && s.p.j + 1 >= cfg.q - 1 {
        LastOnCredit(cfg, k, s);
      }
      StepStaysUnsampled(cfg, s);
    }
  }

  lemma StaysTowardsHang(cfg: Config, k: nat, s: State)
    requires TowardsHang(cfg, k, s) && !AtTarget(cfg, s, k)
    requires CleanBefore(cfg, k) && k < cfg.rows * cfg.cols
    ensures var s' := Turn(cfg, s, Choice(cfg, k, s));
            TowardsHang(cfg, k, s') && 0 <= Work(cfg, s') < Work(cfg, s)
  {
    SafeInBounds(cfg, s);
    Progress(cfg, k, s);
    StaysUnsampled(cfg, k, s);
  }

  lemma ReachSecondRow(cfg: Config, k: nat) returns (schedule: nat -> Thread, run: nat -> State, m: nat)
    requires ImprovedConfig(cfg) && ValidConfig(cfg) && cfg.q == cfg.cols && k == 2 * cfg.q - 1
    requires CleanBefore(cfg, k) && k < cfg.rows * cfg.cols
    ensures Behavior(cfg, schedule, run) && Fair(schedule) && AlternatesFrom(schedule, m)
    ensures AtTarget(cfg, run(m), k) && TowardsHang(cfg, k, run(m))
  {
    var good := s => TowardsHang(cfg, k, s);
    forall s: State ensures Approaches(cfg, k, good, s) {
      if good(s) && !AtTarget(cfg, s, k) {
        StaysTowardsHang(cfg, k, s);
      }
    }
    StartOnTheWay(cfg, k);
    schedule, run, m := PoliteArrival(cfg, k, good);
  }

  lemma SecondRowFits(cfg: Config)
    requires cfg.rows >= 2 && cfg.q == cfg.cols && 1 <= cfg.cols
    ensures 2 * cfg.q - 1 < cfg.rows * cfg.cols
  {
    assert (cfg.rows - 2) * cfg.cols >= 0;
    assert cfg.rows * cfg.cols == (cfg.rows - 2) * cfg.cols + 2 * cfg.cols;
  }

  // Both threads are at the last element of the second row; the producer has just written the one before.
  ghost predicate BeforeHang(cfg: Config, s: State)
  {
    && InBounds(cfg, s) && cfg.mode.RhtVolatilesImproved?
    && s.p.pc.PAdvance? && s.p.j == cfg.q - 2 && s.p.newLimit == cfg.q - 1 && !s.p.leftover && s.p.localDeqPtr == 0
    && s.c.j == cfg.q - 1 && Next(cfg.q, s.deqPtr) == 0 && s.checkState == 1
  }

  lemma TargetIsBeforeHang(cfg: Config, k: nat, s: State)
    requires TowardsHang(cfg, k, s) && AtTarget(cfg, s, k)
    ensures BeforeHang(cfg, s)
  {
    SafeInBounds(cfg, s);
    TargetPlace(cfg, k, s);
    SlotIsPosition(cfg.q, 0, cfg.q);
    SlotIsPosition(cfg.q, cfg.q, cfg.q);
    assert cfg.q + cfg.q == 2 * cfg.q;
    assert Position(cfg.q, 2 * cfg.q) == Next(cfg.q, Position(cfg.q, 2 * cfg.q - 1));
  }

  lemma TargetPlace(cfg: Config, k: nat, s: State)
    requires TowardsHang(cfg, k, s) && AtTarget(cfg, s, k)
    ensures s.c.i == 1 && s.c.j == cfg.q - 1
    ensures s.p.i == 1 && s.p.pc.PAdvance? && Index(cfg, s.p.i, Sampled(cfg, s)) == cfg.q
  {
    IndexUnique(cfg, s.c.i, s.c.j);
    IndexUnique(cfg, 1, cfg.q - 1);
    assert Index(cfg, 1, cfg.q - 1) == 2 * cfg.q - 1;
    assert Index(cfg, 0, cfg.q) == cfg.q;
  }

  // Two turns of the consumer around one of the producer, and neither can move again.
  lemma Hangs(cfg: Config, s0: State, s1: State, s2: State, s3: State)
    requires 2 <= cfg.q == cfg.cols && BeforeHang(cfg, s0) && s0.c.pc.CRead?
    requires s1 == Turn(cfg, s0, ConsumerThread) && s1.c.pc.CBump?
    requires s2 == Turn(cfg, s1, ProducerThread) && s3 == Turn(cfg, s2, ConsumerThread)
    ensures Stuck(cfg, s3) && !Finished(s3) && !Alarmed(s3)
  {
    assert s3.p.pc.PAwaitNext? && s3.p.localDeqPtr == s3.deqPtr == 0;
    assert s3.c.pc.CAwaitFlag? && s3.checkState == 1;
  }

  /** The hang: with a ring as long as a row and at least two rows, the second ending like the first, a fair
      fault-free run ends with both threads waiting for each other. */
  lemma HangExists(cfg: Config) returns (schedule: nat -> Thread, run: nat -> State, n: nat)
    requires FaultFree(cfg) && cfg.rows >= 2 && cfg.q == cfg.cols
    requires Dot(cfg, 1, cfg.cols) == Dot(cfg, 0, cfg.cols)
    ensures Behavior(cfg, schedule, run) && Fair(schedule)
    ensures Stuck(cfg, run(n)) && !Finished(run(n)) && !Alarmed(run(n))
  {
    var k, m := 2 * cfg.q - 1, 0;
    FaultFreeIsClean(cfg, k);
    SecondRowFits(cfg);
    schedule, run, m := ReachSecondRow(cfg, k);
    LastReadAccepts(cfg, k, run(m));
    n := m + 3;
    HangsAfter(cfg, schedule, run, m);
  }

  lemma LastReadAccepts(cfg: Config, k: nat, s: State)
    requires FaultFree(cfg) && cfg.q == cfg.cols && Dot(cfg, 1, cfg.cols) == Dot(cfg, 0, cfg.cols)
    requires TowardsHang(cfg, k, s) && AtTarget(cfg, s, k)
    ensures BeforeHang(cfg, s) && Turn(cfg, s, ConsumerThread).c.pc.CBump?
  {
    TargetIsBeforeHang(cfg, k, s);
    LastElementsAlike(cfg);
    TargetVerdict(cfg, k, s);
  }

  lemma HangsAfter(cfg: Config, schedule: nat -> Thread, run: nat -> State, m: nat)
    requires Behavior(cfg, schedule, run) && AlternatesFrom(schedule, m)
    requires 2 <= cfg.q == cfg.cols && BeforeHang(cfg, run(m)) && run(m).c.pc.CRead?
    requires Turn(cfg, run(m), ConsumerThread).c.pc.CBump?
    ensures Stuck(cfg, run(m + 3)) && !Finished(run(m + 3)) && !Alarmed(run(m + 3))
  {
    assert schedule(m) == ConsumerThread && schedule(m + 1) == ProducerThread && schedule(m + 2) == ConsumerThread;
    assert Follows(cfg, schedule, run, m) && Follows(cfg, schedule, run, m + 1) && Follows(cfg, schedule, run, m + 2);
    Hangs(cfg, run(m), run(m + 1), run(m + 2), run(m + 3));
  }

  lemma LastElementsAlike(cfg: Config)
    requires FaultFree(cfg) && cfg.q == cfg.cols && Dot(cfg, 1, cfg.cols) == Dot(cfg, 0, cfg.cols)
    ensures OwnAt(cfg, 2 * cfg.q - 1) == StreamAt(cfg, 2 * cfg.q - 1 - cfg.q)
  {
    assert Index(cfg, 1, cfg.q - 1) == 2 * cfg.q - 1;
    assert Index(cfg, 0, cfg.q - 1) == cfg.q - 1;
    OwnIndex(cfg, 1, cfg.q - 1);
    StreamIndex(cfg, 0, cfg.q - 1);
    FaultFreeSums(cfg, 0, cfg.q);
    FaultFreeSums(cfg, 1, cfg.q);
  }

  // ---- The exact condition ----

  ghost predicate Finishes(cfg: Config, run: nat -> State)
  {
    exists n: nat :: HasProduct(cfg, run(n))
  }

  ghost predicate EveryFairRunFinishes(cfg: Config)
  {
    forall schedule: nat -> Thread, run: nat -> State ::
      Behavior(cfg, schedule, run) && Fair(schedule) ==> Finishes(cfg, run)
  }

  /** Every fair fault-free run of the improved mode finishes with the product if and only if the product has
      no rows, or it has one and the ring is exactly as long: if and only if no cell is ever used twice. */
  lemma FinishesIff(cfg: Config)
    requires FaultFree(cfg)
    ensures EveryFairRunFinishes(cfg) <==> cfg.rows == 0 || (cfg.rows == 1 && cfg.q == cfg.cols)
  {
    if cfg.rows == 0 || (cfg.rows == 1 && cfg.q == cfg.cols) {
      forall schedule: nat -> Thread, run: nat -> State | Behavior(cfg, schedule, run) && Fair(schedule)
        ensures Finishes(cfg, run)
      {
        var stop := OneLapFinishes(cfg, schedule, run);
        assert HasProduct(cfg, run(stop));
      }
    } else {
      var schedule, run, n := StopsElsewhere(cfg);
      NeverFinishes(cfg, schedule, run, n);
    }
  }

  lemma NeverFinishes(cfg: Config, schedule: nat -> Thread, run: nat -> State, n: nat)
    requires Behavior(cfg, schedule, run) && Stuck(cfg, run(n)) && !Finished(run(n))
    ensures !Finishes(cfg, run)
  {
    forall m: nat ensures !HasProduct(cfg, run(m)) {
      if Finished(run(m)) {
        OneStuckState(cfg, schedule, run, m, n);
      }
    }
  }

  // Some fair run stops in an alarm or in the hang.
  lemma StopsElsewhere(cfg: Config) returns (schedule: nat -> Thread, run: nat -> State, n: nat)
    requires FaultFree(cfg) && cfg.rows > 0 && !(cfg.rows == 1 && cfg.q == cfg.cols)
    ensures Behavior(cfg, schedule, run) && Fair(schedule)
    ensures Stuck(cfg, run(n)) && !Finished(run(n))
  {
    if cfg.q < cfg.cols || !RowsAlike(cfg) {
      schedule, run, n := FalseAlarmExists(cfg);
    } else {
      AlikeDots(cfg, 1, cfg.cols);
      schedule, run, n := HangExists(cfg);
    }
  }
}
