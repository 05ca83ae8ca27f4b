/** Replication with a mutex and two condition variables (ThreadReplicationFunc_SignalSync, TestTSX.c).
    A wait releases the mutex and sleeps; a signal wakes a sleeper; a sleeper may also wake for no reason. */
module LockStep {
  import opened Fairness

  datatype Status = Started | ReplicationFinished | Successful | Failed

  datatype Owner = Free | By0 | By1

  // Thread 0 compares and gives the verdict.
  datatype Pc0 =
    | Compute0   // v1 = ThreadReplicationCalcFun(i), possibly hit by an error
    | Lock0
    | Test0      // while (iterationStatus != replicationFinished)
    | Wait0      // pthread_cond_wait(&t2_calculated, ...): give up the mutex and sleep
    | Asleep0
    | Woken0     // the return of the wait: take the mutex again
    | Compare0   // iterationStatus = v1 != v2 ? failed : successfull
    | Signal0    // pthread_cond_signal(&verification_done)
    | Unlock0
    | Decide0    // iterationStatus == failed ? try again : next iteration
    | Done0

  // Thread 1 replicates and follows the verdict.
  datatype Pc1 =
    | Compute1   // v2 = ThreadReplicationCalcFun(i), possibly hit by an error
    | Lock1
    | Set1       // iterationStatus = replicationFinished
    | Test1      // while (iterationStatus < 2)
    | Signal1    // pthread_cond_signal(&t2_calculated)
    | Wait1      // pthread_cond_wait(&verification_done, ...)
    | Asleep1
    | Woken1
    | Unlock1
    | Decide1
    | Done1

  // Wake0 and Wake1 are spurious wake-ups.
  datatype Turn = Thread0 | Thread1 | Wake0 | Wake1

  // `fault0(k)` and `fault1(k)` are the errors in the k-th computations of the threads; `total` is NUM_VALUES.
  datatype Config = Config(total: nat, compute: nat -> int, fault0: nat -> int, fault1: nat -> int)

  // `verdict` records the last verdict given, `computed0` and `computed1` count the threads' computations, and
  // `spurious` bounds the spurious wake-ups still to come; the program stores none of them.
  datatype State = State(status: Status, mutex: Owner, v1: int, v2: int,
                         pc0: Pc0, i0: nat, pc1: Pc1, i1: nat,
                         verdict: Status, computed0: nat, computed1: nat, spurious: nat)

  function Init(cfg: Config, spurious: nat): State
  {
    State(Started, Free, -1, -1, if cfg.total == 0 then Done0 else Compute0, 0,
          if cfg.total == 0 then Done1 else Compute1, 0, Started, 0, 0, spurious)
  }

  function Step0(cfg: Config, s: State): State
  {
    match s.pc0
    case Compute0 => s.(v1 := cfg.compute(s.i0) + cfg.fault0(s.computed0), computed0 := s.computed0 + 1, pc0 := Lock0)
    case Lock0 => if s.mutex != Free then s else s.(mutex := By0, pc0 := Test0)
    case Test0 => s.(pc0 := if s.status != ReplicationFinished then Wait0 else Compare0)
    case Wait0 => s.(mutex := Free, pc0 := Asleep0)
    case Asleep0 => s
    case Woken0 => if s.mutex != Free then s else s.(mutex := By0, pc0 := Test0)
    case Compare0 =>
      var verdict := if s.v1 != s.v2 then Failed else Successful;
      s.(status := verdict, verdict := verdict, pc0 := Signal0)
    case Signal0 => s.(pc1 := if s.pc1.Asleep1? then Woken1 else s.pc1, pc0 := Unlock0)
    case Unlock0 => s.(mutex := Free, pc0 := Decide0)
    case Decide0 =>
      var i := if s.status == Failed then s.i0 else s.i0 + 1;
      s.(i0 := i, pc0 := if i < cfg.total then Compute0 else Done0)
    case Done0 => s
  }

  function Step1(cfg: Config, s: State): State
  {
    match s.pc1
    case Compute1 => s.(v2 := cfg.compute(s.i1) + cfg.fault1(s.computed1), computed1 := s.computed1 + 1, pc1 := Lock1)
    case Lock1 => if s.mutex != Free then s else s.(mutex := By1, pc1 := Set1)
    case Set1 => s.(status := ReplicationFinished, pc1 := Test1)
    case Test1 => s.(pc1 := if s.status.Started? || s.status.ReplicationFinished? then Signal1 else Unlock1)
    case Signal1 => s.(pc0 := if s.pc0.Asleep0? then Woken0 else s.pc0, pc1 := Wait1)
    case Wait1 => s.(mutex := Free, pc1 := Asleep1)
    case Asleep1 => s
    case Woken1 => if s.mutex != Free then s else s.(mutex := By1, pc1 := Test1)
    case Unlock1 => s.(mutex := Free, pc1 := Decide1)
    case Decide1 =>
      var i := if s.status == Failed then s.i1 else s.i1 + 1;
      s.(i1 := i, pc1 := if i < cfg.total then Compute1 else Done1)
    case Done1 => s
  }

  function Step(cfg: Config, s: State, t: Turn): State
  {
    match t
    case Thread0 => Step0(cfg, s)
    case Thread1 => Step1(cfg, s)
    case Wake0 => if s.pc0.Asleep0? && s.spurious > 0 then s.(pc0 := Woken0, spurious := s.spurious - 1) else s
    case Wake1 => if s.pc1.Asleep1? && s.spurious > 0 then s.(pc1 := Woken1, spurious := s.spurious - 1) else s
  }

  // ---- Every run ----

  predicate Holds0(pc: Pc0)
  {
    pc.Test0? || pc.Wait0? || pc.Compare0? || pc.Signal0? || pc.Unlock0?
  }

  predicate Holds1(pc: Pc1)
  {
    pc.Set1? || pc.Test1? || pc.Signal1? || pc.Wait1? || pc.Unlock1?
  }

  // Thread 1 has announced its value for this iteration.
  predicate Announced(pc: Pc1)
  {
    pc.Test1? || pc.Signal1? || pc.Wait1? || pc.Asleep1? || pc.Woken1? || pc.Unlock1? || pc.Decide1?
  }

  predicate Given(status: Status)
  {
    status.Successful? || status.Failed?
  }

  ghost predicate Inv(s: State)
  {
    && (s.mutex == By0 <==> Holds0(s.pc0))
    && (s.mutex == By1 <==> Holds1(s.pc1))
    && (s.status == ReplicationFinished ==> Announced(s.pc1) && !s.pc1.Unlock1? && !s.pc1.Decide1?)
    && (Announced(s.pc1) ==> s.status == ReplicationFinished || Given(s.status))
    && (s.pc0.Compare0? ==> s.status == ReplicationFinished)
    && (s.pc0.Wait0? ==> s.status != ReplicationFinished)
    && (s.pc1.Signal1? || s.pc1.Wait1? ==> s.status == ReplicationFinished)
    && (s.pc1.Unlock1? || s.pc1.Decide1? ==> Given(s.status))
    && (Given(s.status) ==> s.status == s.verdict)
    && (s.pc0.Signal0? || s.pc0.Unlock0? || s.pc0.Decide0? ==>
          Given(s.verdict) && (s.status == s.verdict || s.status == ReplicationFinished))
    // no wake-up is lost: whoever sleeps although the other has moved is about to be signalled
    && (s.pc0.Asleep0? && s.status == ReplicationFinished ==> s.pc1.Test1? || s.pc1.Signal1?)
    && (s.pc1.Asleep1? && Given(s.status) ==> s.pc0.Signal0?)
  }

  lemma StepKeepsInv(cfg: Config, s: State, t: Turn)
    requires Inv(s)
    ensures Inv(Step(cfg, s, t))
  {
  }

  ghost predicate Follows(cfg: Config, schedule: nat -> Turn, run: nat -> State, n: nat)
  {
    run(n + 1) == Step(cfg, run(n), schedule(n))
  }

  ghost predicate Behavior(cfg: Config, spurious: nat, schedule: nat -> Turn, run: nat -> State)
  {
    run(0) == Init(cfg, spurious) && forall n: nat :: Follows(cfg, schedule, run, n)
  }

  lemma {:induction false} AlwaysInv(cfg: Config, spurious: nat, schedule: nat -> Turn, run: nat -> State, n: nat)
    requires Behavior(cfg, spurious, schedule, run)
    ensures Inv(run(n))
  {
    if n > 0 {
      AlwaysInv(cfg, spurious, schedule, run, n - 1);
      assert Follows(cfg, schedule, run, n - 1);
      StepKeepsInv(cfg, run(n - 1), schedule(n - 1));
    }
  }

  /** With any errors, interleaving and spurious wake-ups, thread 1 retries exactly when the verdict thread 0
      gave for its announcement was `failed`, although it reads the status after giving up the mutex; and
      the two threads never hold the mutex together. */
  lemma FollowsVerdict(cfg: Config, spurious: nat, schedule: nat -> Turn, run: nat -> State, n: nat)
    requires Behavior(cfg, spurious, schedule, run)
    ensures var s := run(n);
            && !(Holds0(s.pc0) && Holds1(s.pc1))
            && (s.pc1.Decide1? ==>
                  && Given(s.verdict)
                  && (Step1(cfg, s).i1 == s.i1 <==> s.verdict == Failed))
  {
    AlwaysInv(cfg, spurious, schedule, run, n);
  }

  /** Thread 0 reads the status again after giving up the mutex, and there it may be too late: it follows
      its own verdict exactly when that was not `failed` or thread 1 has not announced a new value yet. */
  lemma Thread0FollowsItsVerdictIff(cfg: Config, spurious: nat, schedule: nat -> Turn, run: nat -> State, n: nat)
    requires Behavior(cfg, spurious, schedule, run) && run(n).pc0.Decide0?
    ensures var s := run(n);
            (Step0(cfg, s).i0 == s.i0 <==> s.verdict == Failed)
            <==> (s.verdict != Failed || s.status != ReplicationFinished)
  {
    AlwaysInv(cfg, spurious, schedule, run, n);
  }

  // A state that neither thread can leave.
  lemma OnlyOneAsleep(cfg: Config, s: State)
    requires Inv(s) && Step0(cfg, s) == s && Step1(cfg, s) == s
    ensures s.pc0.Done0? || s.pc1.Done1?
    ensures s.pc0.Done0? || s.pc0.Asleep0?
    ensures s.pc1.Done1? || s.pc1.Asleep1?
  {
  }

  /** No wake-up is lost, with any errors, interleaving and spurious wake-ups: as long as neither thread has
      ended one of them can move by itself, and a state that neither can leave is one in which both have ended,
      or one has and the other sleeps. */
  lemma NoLostWakeUp(cfg: Config, spurious: nat, schedule: nat -> Turn, run: nat -> State, n: nat)
    requires Behavior(cfg, spurious, schedule, run)
    ensures var s := run(n);
            && (!s.pc0.Done0? && !s.pc1.Done1? ==> Step0(cfg, s) != s || Step1(cfg, s) != s)
            && (Step0(cfg, s) == s && Step1(cfg, s) == s ==>
                  || (s.pc0.Done0? && s.pc1.Done1?)
                  || (s.pc0.Done0? && s.pc1.Asleep1?)
                  || (s.pc0.Asleep0? && s.pc1.Done1?))
  {
    AlwaysInv(cfg, spurious, schedule, run, n);
    if Step0(cfg, run(n)) == run(n) && Step1(cfg, run(n)) == run(n) {
      OnlyOneAsleep(cfg, run(n));
    }
  }

  // ---- Runs whose computations agree ----

  // Verdicts given, and announcements made, up to now.
  function Verdicts(s: State): nat
  {
    s.i0 + if s.pc0.Signal0? || s.pc0.Unlock0? || s.pc0.Decide0? then 1 else 0
  }

  function Announcements(s: State): nat
  {
    s.i1 + if Announced(s.pc1) then 1 else 0
  }

  // The first `total` computations of the two threads are hit alike, as when none is hit. The threads then make
  // no others.
  ghost predicate HitAlike(cfg: Config)
  {
    forall k: nat :: k < cfg.total ==> cfg.fault0(k) == cfg.fault1(k)
  }

  ghost predicate LockStepInv(cfg: Config, s: State)
  {
    && Inv(s)
    && s.status != Failed && s.verdict != Failed
    && Announcements(s) == Verdicts(s) + (if s.status == ReplicationFinished then 1 else 0)
    && (if s.pc0.Done0? then s.i0 == cfg.total else s.i0 < cfg.total)
    && (if s.pc1.Done1? then s.i1 == cfg.total else s.i1 < cfg.total)
    && s.computed0 == s.i0 + (if s.pc0.Compute0? || s.pc0.Done0? then 0 else 1)
    && (!s.pc0.Compute0? && !s.pc0.Done0? ==> s.v1 == cfg.compute(s.i0) + cfg.fault0(s.i0))
    && s.computed1 == s.i1 + (if s.pc1.Compute1? || s.pc1.Done1? then 0 else 1)
    && (!s.pc1.Compute1? && !s.pc1.Done1? ==> s.v2 == cfg.compute(s.i1) + cfg.fault1(s.i1))
  }

  lemma Step0KeepsLockStep(cfg: Config, s: State)
    requires HitAlike(cfg) && LockStepInv(cfg, s) && Inv(Step0(cfg, s))
    ensures LockStepInv(cfg, Step0(cfg, s))
  {
  }

  lemma Step1KeepsLockStep(cfg: Config, s: State)
    requires HitAlike(cfg) && LockStepInv(cfg, s) && Inv(Step1(cfg, s))
    ensures LockStepInv(cfg, Step1(cfg, s))
  {
  }

  lemma StepKeepsLockStep(cfg: Config, s: State, t: Turn)
    requires HitAlike(cfg) && LockStepInv(cfg, s)
    ensures LockStepInv(cfg, Step(cfg, s, t))
  {
    StepKeepsInv(cfg, s, t);
    match t
    case Thread0 => Step0KeepsLockStep(cfg, s);
    case Thread1 => Step1KeepsLockStep(cfg, s);
    case _ =>
  }

  lemma {:induction false} AlwaysLockStep(cfg: Config, spurious: nat, schedule: nat -> Turn, run: nat -> State, n: nat)
    requires Behavior(cfg, spurious, schedule, run) && HitAlike(cfg)
    ensures LockStepInv(cfg, run(n))
  {
    if n > 0 {
      AlwaysLockStep(cfg, spurious, schedule, run, n - 1);
      assert Follows(cfg, schedule, run, n - 1);
      StepKeepsLockStep(cfg, run(n - 1), schedule(n - 1));
    }
  }

  /** In runs whose computations agree, fault-free ones among them, every comparison is between the two values
      of one iteration. */
  lemma ComparesSameIteration(cfg: Config, spurious: nat, schedule: nat -> Turn, run: nat -> State, n: nat)
    requires Behavior(cfg, spurious, schedule, run) && HitAlike(cfg)
    ensures var s := run(n);
            s.pc0.Compare0? ==> s.i0 == s.i1 && s.v1 == s.v2 == cfg.compute(s.i0) + cfg.fault0(s.i0)
  {
    AlwaysLockStep(cfg, spurious, schedule, run, n);
  }

  predicate Finished(s: State)
  {
    s.pc0.Done0? && s.pc1.Done1?
  }

  function Rank0(pc: Pc0): nat
  {
    match pc
    case Compute0 => 40
    case Lock0 => 39
    case Woken0 => 39
    case Test0 => 38
    case Wait0 => 37
    case Asleep0 => 36
    case Compare0 => 35
    case Signal0 => 34
    case Unlock0 => 2
    case Decide0 => 1
    case Done0 => 0
  }

  function Rank1(pc: Pc1): nat
  {
    match pc
    case Compute1 => 40
    case Lock1 => 39
    case Set1 => 38
    case Woken1 => 36
    case Test1 => 35
    case Signal1 => 34
    case Wait1 => 15
    case Asleep1 => 14
    case Unlock1 => 2
    case Decide1 => 1
    case Done1 => 0
  }

  function Work(cfg: Config, s: State): int
  {
    50 * (cfg.total - s.i0) + Rank0(s.pc0) + 50 * (cfg.total - s.i1) + Rank1(s.pc1) + 40 * s.spurious
  }

  lemma LockStepMoves(cfg: Config, s: State)
    requires HitAlike(cfg) && LockStepInv(cfg, s) && !Finished(s)
    ensures Step0(cfg, s) != s || Step1(cfg, s) != s
  {
    if Step0(cfg, s) == s && Step1(cfg, s) == s {
      OnlyOneAsleep(cfg, s);
    }
  }

  lemma StepUsesWork(cfg: Config, s: State, t: Turn)
    requires HitAlike(cfg) && LockStepInv(cfg, s)
    ensures Work(cfg, s) >= 0
    ensures Step(cfg, s, t) == s || Work(cfg, Step(cfg, s, t)) < Work(cfg, s)
  {
  }

  /** If the computations agree, every fair run with finitely many spurious wake-ups ends with both threads
      through all iterations. */
  lemma FairRunsFinish(cfg: Config, spurious: nat, schedule: nat -> Turn, run: nat -> State) returns (stop: nat)
    requires Behavior(cfg, spurious, schedule, run) && HitAlike(cfg) && Fair(schedule)
    ensures Finished(run(stop)) && run(stop).i0 == run(stop).i1 == cfg.total
  {
    var next, work := (s, t) => Step(cfg, s, t), s => Work(cfg, s);
    forall k: nat ensures Progresses(run, schedule, next, work, Finished, k) {
      AlwaysLockStep(cfg, spurious, schedule, run, k);
      assert Follows(cfg, schedule, run, k);
      StepUsesWork(cfg, run(k), schedule(k));
      if !Finished(run(k)) {
        LockStepMoves(cfg, run(k));
        assert next(run(k), Thread0) != run(k) || next(run(k), Thread1) != run(k);
      }
    }
    stop := FairRunStops(run, schedule, next, work, Finished);
    AlwaysLockStep(cfg, spurious, schedule, run, stop);
  }

  // ---- A fault ----

  function Steps0(cfg: Config, s: State, n: nat): State
  {
    if n == 0 then s else Step0(cfg, Steps0(cfg, s, n - 1))
  }

  function Steps1(cfg: Config, s: State, n: nat): State
  {
    if n == 0 then s else Step1(cfg, Steps1(cfg, s, n - 1))
  }

  // The k-th computations are the first that are not hit alike.
  ghost predicate FirstFault(cfg: Config, k: nat)
  {
    k < cfg.total && cfg.fault0(k) != cfg.fault1(k) && forall i: nat :: i < k ==> cfg.fault0(i) == cfg.fault1(i)
  }

  lemma FindFirstFault(cfg: Config) returns (k: nat)
    requires !HitAlike(cfg)
    ensures FirstFault(cfg, k)
  {
    k := 0;
    while cfg.fault0(k) == cfg.fault1(k)
      invariant k < cfg.total && forall i: nat :: i < k ==> cfg.fault0(i) == cfg.fault1(i)
      decreases cfg.total - k
    {
      assert exists i: nat :: k < i < cfg.total && cfg.fault0(i) != cfg.fault1(i);
      k := k + 1;
    }
  }

  // Before round r thread 1 sleeps on an announcement. It is in thread 0's iteration until the fault, and
  // behind it from then on.
  ghost predicate RoundStart(cfg: Config, k: nat, r: nat, s: State)
  {
    && r <= cfg.total && s.i0 == r && s.pc0 == (if r < cfg.total then Compute0 else Done0)
    && s.pc1 == Asleep1 && s.i1 < cfg.total
    && s.status == ReplicationFinished && s.mutex == Free && s.computed0 == r
    && (r <= k ==> s.i1 == r && s.v2 == cfg.compute(r) + cfg.fault1(r) && s.computed1 == r + 1)
    && (r > k ==> s.i1 < r)
  }

  // Thread 1 announces its first value and sleeps.
  lemma FirstAnnouncement(cfg: Config, k: nat, spurious: nat)
    requires 0 < cfg.total
    ensures RoundStart(cfg, k, 0, Steps1(cfg, Init(cfg, spurious), 6))
  {
    var s := Init(cfg, spurious);
    assert Steps1(cfg, s, 1).pc1 == Lock1;
    assert Steps1(cfg, s, 2).pc1 == Set1;
    assert Steps1(cfg, s, 3).pc1 == Test1;
    assert Steps1(cfg, s, 4).pc1 == Signal1;
    assert Steps1(cfg, s, 5).pc1 == Wait1;
  }

  function Verdict(cfg: Config, s: State): Status
  {
    if cfg.compute(s.i0) + cfg.fault0(s.computed0) != s.v2 then Failed else Successful
  }

  // Thread 0 computes, compares and gives its verdict; it has yet to look at the status.
  lemma GivesVerdict(cfg: Config, k: nat, r: nat, s: State)
    requires RoundStart(cfg, k, r, s) && r < cfg.total
    ensures Steps0(cfg, s, 6) == s.(v1 := cfg.compute(r) + cfg.fault0(r), computed0 := r + 1, pc0 := Decide0,
                                    pc1 := Woken1, status := Verdict(cfg, s), verdict := Verdict(cfg, s))
  {
    var v1 := cfg.compute(r) + cfg.fault0(r);
    assert Steps0(cfg, s, 1) == s.(v1 := v1, computed0 := r + 1, pc0 := Lock0);
    assert Steps0(cfg, s, 2) == s.(v1 := v1, computed0 := r + 1, mutex := By0, pc0 := Test0);
    assert Steps0(cfg, s, 3) == s.(v1 := v1, computed0 := r + 1, mutex := By0, pc0 := Compare0);
    assert Steps0(cfg, s, 4).pc0 == Signal0;
    assert Steps0(cfg, s, 5).pc0 == Unlock0;
  }

  // Thread 1 acts on the verdict, computes again and announces.
  lemma ActsOnVerdict(cfg: Config, s: State)
    requires s.pc1 == Woken1 && s.mutex == Free && Given(s.status) && s.pc0 == Decide0
    requires (if s.status == Failed then s.i1 else s.i1 + 1) < cfg.total
    ensures var i := if s.status == Failed then s.i1 else s.i1 + 1;
            Steps1(cfg, s, 10) == s.(pc1 := Asleep1, i1 := i, v2 := cfg.compute(i) + cfg.fault1(s.computed1),
                                     computed1 := s.computed1 + 1, status := ReplicationFinished)
  {
    var i := if s.status == Failed then s.i1 else s.i1 + 1;
    var v2 := cfg.compute(i) + cfg.fault1(s.computed1);
    assert Steps1(cfg, s, 1) == s.(mutex := By1, pc1 := Test1);
    assert Steps1(cfg, s, 2) == s.(mutex := By1, pc1 := Unlock1);
    assert Steps1(cfg, s, 3) == s.(pc1 := Decide1);
    assert Steps1(cfg, s, 4) == s.(pc1 := Compute1, i1 := i);
    assert Steps1(cfg, s, 5) == s.(pc1 := Lock1, i1 := i, v2 := v2, computed1 := s.computed1 + 1);
    assert Steps1(cfg, s, 6).pc1 == Set1;
    assert Steps1(cfg, s, 7).pc1 == Test1;
    assert Steps1(cfg, s, 8).pc1 == Signal1;
    assert Steps1(cfg, s, 9).pc1 == Wait1;
  }

  // The end of round r, before thread 0 looks at the status: too late to see a verdict.
  ghost predicate TooLate(cfg: Config, k: nat, r: nat, s: State)
  {
    && s.pc0 == Decide0 && s.i0 == r && s.status == ReplicationFinished && s.computed0 == r + 1
    && (r == k ==> s.verdict == Failed)
    && RoundStart(cfg, k, r + 1, Step0(cfg, s))
  }

  lemma LateRound(cfg: Config, k: nat, r: nat, s: State)
    requires FirstFault(cfg, k) && RoundStart(cfg, k, r, s) && r < cfg.total
    ensures TooLate(cfg, k, r, Steps1(cfg, Steps0(cfg, s, 6), 10))
  {
    GivesVerdict(cfg, k, r, s);
    ActsOnVerdict(cfg, Steps0(cfg, s, 6));
  }

  /** After its first six turns, thread 1 sleeps on an announcement. Then come rounds of seventeen turns: thread
      0 gives its verdict, thread 1 acts on it and announces again, and only then thread 0 looks. */
  function LateSchedule(total: nat): nat -> Turn
  {
    (n: nat) =>
      if n < 6 then Thread1
      else if n < 6 + 17 * total then if (n - 6) % 17 < 6 || (n - 6) % 17 == 16 then Thread0 else Thread1
      else RoundRobin(n % 4)
  }

  function RoundRobin(r: nat): Turn
  {
    match r case 0 => Thread0 case 1 => Thread1 case 2 => Wake0 case _ => Wake1
  }

  lemma LateIsFair(total: nat)
    ensures Fair(LateSchedule(total))
  {
    forall t: Turn, n: nat ensures HasTurn(LateSchedule(total), t, n) {
      var r := match t case Thread0 => 0 case Thread1 => 1 case Wake0 => 2 case Wake1 => 3;
      var later := 4 * (n + 6 + 17 * total) + r;
      assert later % 4 == r;
      assert LateSchedule(total)(later) == t;
    }
  }

  lemma ScheduledRound(total: nat, r: nat, d: nat)
    requires r < total && d < 17
    ensures LateSchedule(total)(6 + 17 * r + d) == if d < 6 || d == 16 then Thread0 else Thread1
  {
    assert (17 * r + d) % 17 == d;
  }

  lemma {:induction false} RunSteps0(cfg: Config, spurious: nat, schedule: nat -> Turn, run: nat -> State,
                                      n: nat, d: nat)
    requires Behavior(cfg, spurious, schedule, run) && forall i: nat :: n <= i < n + d ==> schedule(i) == Thread0
    ensures run(n + d) == Steps0(cfg, run(n), d)
    decreases d
  {
    if d > 0 {
      RunSteps0(cfg, spurious, schedule, run, n, d - 1);
      assert Follows(cfg, schedule, run, n + (d - 1));
    }
  }

  lemma {:induction false} RunSteps1(cfg: Config, spurious: nat, schedule: nat -> Turn, run: nat -> State,
                                      n: nat, d: nat)
    requires Behavior(cfg, spurious, schedule, run) && forall i: nat :: n <= i < n + d ==> schedule(i) == Thread1
    ensures run(n + d) == Steps1(cfg, run(n), d)
    decreases d
  {
    if d > 0 {
      RunSteps1(cfg, spurious, schedule, run, n, d - 1);
      assert Follows(cfg, schedule, run, n + (d - 1));
    }
  }

  // The seventeen turns of round r.
  lemma RunTurns(cfg: Config, spurious: nat, run: nat -> State, r: nat)
    requires Behavior(cfg, spurious, LateSchedule(cfg.total), run) && r < cfg.total
    ensures run(22 + 17 * r) == Steps1(cfg, Steps0(cfg, run(6 + 17 * r), 6), 10)
    ensures run(23 + 17 * r) == Step0(cfg, run(22 + 17 * r))
  {
    var schedule, n := LateSchedule(cfg.total), 6 + 17 * r;
    forall i: nat | n <= i < n + 17 ensures schedule(i) == if i < n + 6 || i == n + 16 then Thread0 else Thread1 {
      ScheduledRound(cfg.total, r, i - n);
    }
    RunSteps0(cfg, spurious, schedule, run, n, 6);
    RunSteps1(cfg, spurious, schedule, run, n + 6, 10);
    assert Follows(cfg, schedule, run, n + 16);
  }

  lemma RunRound(cfg: Config, spurious: nat, run: nat -> State, k: nat, r: nat)
    requires FirstFault(cfg, k) && Behavior(cfg, spurious, LateSchedule(cfg.total), run)
    requires r < cfg.total && RoundStart(cfg, k, r, run(6 + 17 * r))
    ensures TooLate(cfg, k, r, run(22 + 17 * r))
    ensures RoundStart(cfg, k, r + 1, run(6 + 17 * (r + 1)))
  {
    RunTurns(cfg, spurious, run, r);
    LateRound(cfg, k, r, run(6 + 17 * r));
    assert 6 + 17 * (r + 1) == 23 + 17 * r;
  }

  lemma {:induction false} RunRounds(cfg: Config, spurious: nat, run: nat -> State, k: nat, r: nat)
    requires FirstFault(cfg, k) && Behavior(cfg, spurious, LateSchedule(cfg.total), run) && r <= cfg.total
    ensures RoundStart(cfg, k, r, run(6 + 17 * r))
  {
    if r == 0 {
      RunSteps1(cfg, spurious, LateSchedule(cfg.total), run, 0, 6);
      FirstAnnouncement(cfg, k, spurious);
    } else {
      RunRounds(cfg, spurious, run, k, r - 1);
      RunRound(cfg, spurious, run, k, r - 1);
    }
  }

  // Thread 0 has ended; thread 1 waits for a verdict that will not come.
  ghost predicate Hung(cfg: Config, s: State)
  {
    && s.pc0.Done0? && s.status == ReplicationFinished && s.i1 < cfg.total
    && (s.pc1.Asleep1? || s.pc1.Woken1? || s.pc1.Test1? || s.pc1.Signal1? || s.pc1.Wait1?)
  }

  lemma {:induction false} StaysHung(cfg: Config, schedule: nat -> Turn, run: nat -> State, m: nat, n: nat)
    requires forall i: nat :: Follows(cfg, schedule, run, i)
    requires m <= n && Hung(cfg, run(m))
    ensures Hung(cfg, run(n))
  {
    if m < n {
      StaysHung(cfg, schedule, run, m, n - 1);
      assert Follows(cfg, schedule, run, n - 1);
    }
  }

  lemma {:induction false} StaysDone(cfg: Config, schedule: nat -> Turn, run: nat -> State, m: nat, n: nat)
    requires forall i: nat :: Follows(cfg, schedule, run, i)
    requires m <= n && run(m).pc1.Done1?
    ensures run(n).pc1.Done1?
  {
    if m < n {
      StaysDone(cfg, schedule, run, m, n - 1);
      assert Follows(cfg, schedule, run, n - 1);
    }
  }

  lemma EveryScheduleRuns(cfg: Config, spurious: nat, schedule: nat -> Turn) returns (run: nat -> State)
    ensures Behavior(cfg, spurious, schedule, run)
  {
    run := (n: nat) => At(cfg, spurious, schedule, n);
    forall n: nat ensures Follows(cfg, schedule, run, n) {
      assert At(cfg, spurious, schedule, n + 1) == Step(cfg, At(cfg, spurious, schedule, n), schedule(n));
    }
  }

  function At(cfg: Config, spurious: nat, schedule: nat -> Turn, n: nat): State
  {
    if n == 0 then Init(cfg, spurious) else Step(cfg, At(cfg, spurious, schedule, n - 1), schedule(n - 1))
  }

  ghost predicate Finishes(run: nat -> State)
  {
    exists n: nat :: Finished(run(n))
  }

  /** The hang: whichever computations are the first to differ, in a fair run thread 0 asks for a retry and does
      not see it, gets ahead, ends first, and leaves thread 1 waiting for ever. */
  lemma FaultCanHang(cfg: Config, spurious: nat, k: nat) returns (schedule: nat -> Turn, run: nat -> State, n: nat)
    requires FirstFault(cfg, k)
    ensures Behavior(cfg, spurious, schedule, run) && Fair(schedule)
    ensures run(n).pc0.Decide0? && run(n).i0 == k && run(n).verdict == Failed && Step0(cfg, run(n)).i0 == k + 1
    ensures !Finishes(run)
  {
    schedule := LateSchedule(cfg.total);
    run := EveryScheduleRuns(cfg, spurious, schedule);
    LateIsFair(cfg.total);
    RunRounds(cfg, spurious, run, k, k);
    RunRound(cfg, spurious, run, k, k);
    n := 22 + 17 * k;
    RunRounds(cfg, spurious, run, k, cfg.total);
    NeverFinishes(cfg, schedule, run, 6 + 17 * cfg.total);
  }

  lemma NeverFinishes(cfg: Config, schedule: nat -> Turn, run: nat -> State, end: nat)
    requires forall i: nat :: Follows(cfg, schedule, run, i)
    requires Hung(cfg, run(end))
    ensures !Finishes(run)
  {
    forall m: nat ensures !Finished(run(m)) {
      if m < end {
        if Finished(run(m)) {
          StaysDone(cfg, schedule, run, m, end);
        }
      } else {
        StaysHung(cfg, schedule, run, end, m);
      }
    }
  }

  // ---- The exact conditions ----

  ghost predicate EveryFairRunFinishes(cfg: Config, spurious: nat)
  {
    forall schedule: nat -> Turn, run: nat -> State ::
      Behavior(cfg, spurious, schedule, run) && Fair(schedule) ==> Finishes(run)
  }

  /** Every fair run with a bounded number of spurious wake-ups finishes if and only if the first `total`
      computations of the two threads are hit alike: if and only if no error can be seen. */
  lemma FinishesIff(cfg: Config, spurious: nat)
    ensures EveryFairRunFinishes(cfg, spurious) <==> forall k: nat :: k < cfg.total ==> cfg.fault0(k) == cfg.fault1(k)
  {
    if HitAlike(cfg) {
      forall schedule: nat -> Turn, run: nat -> State | Behavior(cfg, spurious, schedule, run) && Fair(schedule)
        ensures Finishes(run)
      {
        var stop := FairRunsFinish(cfg, spurious, schedule, run);
      }
    } else {
      var k := FindFirstFault(cfg);
      var schedule, run, n := FaultCanHang(cfg, spurious, k);
    }
  }

  // At turn n thread 0 is about to look at the status, and does what its own verdict asks for.
  ghost predicate Obeys(cfg: Config, run: nat -> State, n: nat)
  {
    run(n).pc0.Decide0? ==> (Step0(cfg, run(n)).i0 == run(n).i0 <==> run(n).verdict == Failed)
  }

  ghost predicate Thread0Obeys(cfg: Config, spurious: nat)
  {
    forall schedule: nat -> Turn, run: nat -> State, n: nat ::
      Behavior(cfg, spurious, schedule, run) ==> Obeys(cfg, run, n)
  }

  /** Thread 0 follows its own verdict in every interleaving under the same condition: whenever a retry is called
      for, it can be missed. */
  lemma Thread0ObeysIff(cfg: Config, spurious: nat)
    ensures Thread0Obeys(cfg, spurious) <==> forall k: nat :: k < cfg.total ==> cfg.fault0(k) == cfg.fault1(k)
  {
    if HitAlike(cfg) {
      forall schedule: nat -> Turn, run: nat -> State, n: nat | Behavior(cfg, spurious, schedule, run)
        ensures Obeys(cfg, run, n)
      {
        AlwaysLockStep(cfg, spurious, schedule, run, n);
      }
    } else {
      var k := FindFirstFault(cfg);
      var schedule, run, n := FaultCanHang(cfg, spurious, k);
      assert !Obeys(cfg, run, n);
    }
  }

  // The program hits thread 1's computation for index 8, once.
  lemma InjectedFaultCanHang(cfg: Config, spurious: nat)
    requires cfg.total > 8 && forall k: nat :: cfg.fault0(k) == 0 && (cfg.fault1(k) != 0 <==> k == 8)
    ensures !EveryFairRunFinishes(cfg, spurious) && !Thread0Obeys(cfg, spurious)
  {
    assert cfg.fault0(8) != cfg.fault1(8);
    FinishesIff(cfg, spurious);
    Thread0ObeysIff(cfg, spurious);
  }

  // ---- The threads in memory ----

  class SignalSync {
    const cfg: Config
    var iterationStatus: Status
    var syncMutex: Owner
    var v1: int
    var v2: int
    var pc0: Pc0
    var i0: nat
    var pc1: Pc1
    var i1: nat
    ghost var verdict: Status
    var computed0: nat
    var computed1: nat
    var spurious: nat

    ghost function View(): State
      reads this
    {
      State(iterationStatus, syncMutex, v1, v2, pc0, i0, pc1, i1, verdict, computed0, computed1, spurious)
    }

    constructor (cfg: Config, spurious: nat)
      ensures this.cfg == cfg && View() == Init(cfg, spurious)
    {
      this.cfg := cfg;
      iterationStatus, syncMutex, v1, v2 := Started, Free, -1, -1;
      pc0, i0 := if cfg.total == 0 then Done0 else Compute0, 0;
      pc1, i1 := if cfg.total == 0 then Done1 else Compute1, 0;
      verdict, computed0, computed1, this.spurious := Started, 0, 0, spurious;
    }

    // pthread_mutex_lock, also at the end of a wait; a thread that finds the mutex taken tries again.
    method TryLock(owner: Owner) returns (locked: bool)
      modifies this`syncMutex
      ensures locked <==> old(syncMutex) == Free
      ensures syncMutex == if locked then owner else old(syncMutex)
    {
      locked := syncMutex == Free;
      if locked {
        syncMutex := owner;
      }
    }

    method Turn0()
      modifies this
      ensures View() == Step0(cfg, old(View()))
    {
      match pc0
      case Compute0 =>
        v1 := cfg.compute(i0) + cfg.fault0(computed0);
        computed0 := computed0 + 1;
        pc0 := Lock0;
      case Lock0 | Woken0 =>
        var locked := TryLock(By0);
        if locked {
          pc0 := Test0;
        }
      case Test0 =>
        pc0 := if iterationStatus != ReplicationFinished then Wait0 else Compare0;
      case Wait0 =>
        syncMutex := Free;
        pc0 := Asleep0;
      case Compare0 =>
        iterationStatus := if v1 != v2 then Failed else Successful;
        verdict := iterationStatus;
        pc0 := Signal0;
      case Signal0 =>
        if pc1.Asleep1? {
          pc1 := Woken1;
        }
        pc0 := Unlock0;
      case Unlock0 =>
        syncMutex := Free;
        pc0 := Decide0;
      case Decide0 =>
        if iterationStatus != Failed {
          i0 := i0 + 1;
        }
        pc0 := if i0 < cfg.total then Compute0 else Done0;
      case Asleep0 =>
      case Done0 =>
    }

    method Turn1()
      modifies this
      ensures View() == Step1(cfg, old(View()))
    {
      match pc1
      case Compute1 =>
        v2 := cfg.compute(i1) + cfg.fault1(computed1);
        computed1 := computed1 + 1;
        pc1 := Lock1;
      case Lock1 =>
        var locked := TryLock(By1);
        if locked {
          pc1 := Set1;
        }
      case Woken1 =>
        var locked := TryLock(By1);
        if locked {
          pc1 := Test1;
        }
      case Set1 =>
        iterationStatus := ReplicationFinished;
        pc1 := Test1;
      case Test1 =>
        pc1 := if iterationStatus.Started? || iterationStatus.ReplicationFinished? then Signal1 else Unlock1;
      case Signal1 =>
        if pc0.Asleep0? {
          pc0 := Woken0;
        }
        pc1 := Wait1;
      case Wait1 =>
        syncMutex := Free;
        pc1 := Asleep1;
      case Unlock1 =>
        syncMutex := Free;
        pc1 := Decide1;
      case Decide1 =>
        if iterationStatus != Failed {
          i1 := i1 + 1;
        }
        pc1 := if i1 < cfg.total then Compute1 else Done1;
      case Asleep1 =>
      case Done1 =>
    }

    // A wake-up for no reason.
    method WakeTurn(t: Turn)
      requires t.Wake0? || t.Wake1?
      modifies this
      ensures View() == Step(cfg, old(View()), t)
    {
      if t.Wake0? && pc0.Asleep0? && spurious > 0 {
        pc0, spurious := Woken0, spurious - 1;
      } else if t.Wake1? && pc1.Asleep1? && spurious > 0 {
        pc1, spurious := Woken1, spurious - 1;
      }
    }

    /** Any number of turns from the start, in any order: the state is the one the theorems speak of. */
    method Run(schedule: nat -> Turn, turns: nat, ghost budget: nat, ghost run: nat -> State)
      requires View() == Init(cfg, budget) && Behavior(cfg, budget, schedule, run)
      modifies this
      ensures View() == run(turns)
    {
      for n := 0 to turns
        invariant View() == run(n)
      {
        assert Follows(cfg, schedule, run, n);
        match schedule(n)
        case Thread0 => Turn0();
        case Thread1 => Turn1();
        case Wake0 => WakeTurn(Wake0);
        case Wake1 => WakeTurn(Wake1);
      }
    }
  }
}
