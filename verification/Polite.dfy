/** Schedules that bring the two threads of Channel to a chosen place: the consumer goes first, but leaves an
    emptied queue to the producer until it is about to read element `k`. */
module Polite {
  import opened Ring
  import opened Channel
  import opened Invariant
  import opened Runs
  import opened Fairness

  // The consumer is about to read element k, and it has not been written.
  predicate AtTarget(cfg: Config, s: State, k: nat)
  {
    s.c.pc.CRead? && Consumed(cfg, s) == Written(cfg, s) == k
  }

  // Who moves on the way.
  function Choice(cfg: Config, k: nat, s: State): Thread
  {
    if s.c.pc.CRead? && Consumed(cfg, s) == Written(cfg, s) then
      if Consumed(cfg, s) == k then ConsumerThread else ProducerThread
    else if Turn(cfg, s, ConsumerThread) != s then ConsumerThread
    else ProducerThread
  }

  function PoliteAt(cfg: Config, k: nat, n: nat): State
  {
    if n == 0 then Init(cfg) else var s := PoliteAt(cfg, k, n - 1); Turn(cfg, s, Choice(cfg, k, s))
  }

  // A turn on the way keeps `good` and uses up work.
  ghost predicate Approaches(cfg: Config, k: nat, good: State -> bool, s: State)
  {
    var s' := Turn(cfg, s, Choice(cfg, k, s));
    good(s) && !AtTarget(cfg, s, k) ==> good(s') && 0 <= Work(cfg, s') < Work(cfg, s)
  }

  /** If every turn on the way keeps `good` and uses up work, the target is reached. */
  lemma {:induction false} ReachTarget(cfg: Config, k: nat, good: State -> bool, n: nat) returns (m: nat)
    requires forall s: State :: Approaches(cfg, k, good, s)
    requires good(PoliteAt(cfg, k, n)) && Work(cfg, PoliteAt(cfg, k, n)) >= 0
    ensures AtTarget(cfg, PoliteAt(cfg, k, m), k) && good(PoliteAt(cfg, k, m))
    decreases Work(cfg, PoliteAt(cfg, k, n))
  {
    var s := PoliteAt(cfg, k, n);
    if AtTarget(cfg, s, k) {
      return n;
    }
    assert Approaches(cfg, k, good, s);
    assert PoliteAt(cfg, k, n + 1) == Turn(cfg, s, Choice(cfg, k, s));
    m := ReachTarget(cfg, k, good, n + 1);
  }

  lemma InitWork(cfg: Config)
    ensures Work(cfg, Init(cfg)) >= 0
  {
    LeftNonNegative(cfg, 0, 0, ProducerRank(Init(cfg).p.pc));
    LeftNonNegative(cfg, 0, 0, ConsumerRank(Init(cfg).c.pc));
  }

  // Politely up to turn m; from there the two threads alternate, the consumer first.
  function PoliteSchedule(cfg: Config, k: nat, m: nat): nat -> Thread
  {
    (n: nat) => if n < m then Choice(cfg, k, PoliteAt(cfg, k, n))
                else if (n - m) % 2 == 0 then ConsumerThread else ProducerThread
  }

  // From turn m on the threads alternate.
  ghost predicate AlternatesFrom(schedule: nat -> Thread, m: nat)
  {
    forall n: nat :: m <= n ==> schedule(n) == if (n - m) % 2 == 0 then ConsumerThread else ProducerThread
  }

  lemma AlternationIsFair(schedule: nat -> Thread, m: nat)
    requires AlternatesFrom(schedule, m)
    ensures Fair(schedule)
  {
    forall t: Thread, n: nat ensures HasTurn(schedule, t, n) {
      var later := m + 2 * n + if t.ConsumerThread? then 0 else 1;
      assert schedule(later) == t;
    }
  }

  lemma PoliteAlternates(cfg: Config, k: nat, m: nat)
    ensures AlternatesFrom(PoliteSchedule(cfg, k, m), m)
  {
  }

  ghost predicate Picked<S(!new), T(!new)>(next: (S, T) -> S, pick: S -> T, chosen: nat -> S, i: nat)
  {
    chosen(i + 1) == next(chosen(i), pick(chosen(i)))
  }

  ghost predicate Scheduled<S(!new), T(!new)>(next: (S, T) -> S, schedule: nat -> T, run: nat -> S, i: nat)
  {
    run(i + 1) == next(run(i), schedule(i))
  }

  // A schedule that makes the choices up to turn m leads through the chosen states.
  lemma {:induction false} SamePrefix<S(!new), T(!new)>(next: (S, T) -> S, pick: S -> T, schedule: nat -> T,
                                                        chosen: nat -> S, run: nat -> S, m: nat, n: nat)
    requires chosen(0) == run(0)
    requires forall i: nat :: Picked(next, pick, chosen, i) && Scheduled(next, schedule, run, i)
    requires forall i: nat :: i < m ==> schedule(i) == pick(chosen(i))
    requires n <= m
    ensures chosen(n) == run(n)
  {
    if n > 0 {
      SamePrefix(next, pick, schedule, chosen, run, m, n - 1);
      assert Picked(next, pick, chosen, n - 1) && Scheduled(next, schedule, run, n - 1);
    }
  }

  lemma PoliteNext(cfg: Config, k: nat, n: nat)
    ensures PoliteAt(cfg, k, n + 1) == Turn(cfg, PoliteAt(cfg, k, n), Choice(cfg, k, PoliteAt(cfg, k, n)))
  {
  }

  /** A run that is polite up to turn m, and fair. */
  lemma PoliteRun(cfg: Config, k: nat, m: nat) returns (schedule: nat -> Thread, run: nat -> State)
    ensures Fair(schedule) && AlternatesFrom(schedule, m)
    ensures Behavior(cfg, schedule, run)
    ensures run(m) == PoliteAt(cfg, k, m)
  {
    schedule := PoliteSchedule(cfg, k, m);
    PoliteAlternates(cfg, k, m);
    AlternationIsFair(schedule, m);
    run := EveryScheduleRuns(cfg, schedule);
    var next, pick, chosen := (s, t) => Turn(cfg, s, t), s => Choice(cfg, k, s), (n: nat) => PoliteAt(cfg, k, n);
    forall i: nat ensures Picked(next, pick, chosen, i) && Scheduled(next, schedule, run, i) {
      PoliteNext(cfg, k, i);
      assert Follows(cfg, schedule, run, i);
    }
    SamePrefix(next, pick, schedule, chosen, run, m, m);
  }

  /** If every turn on the way keeps `good` and uses up work, a fair run reaches the target, and from there the
      threads alternate, the consumer first. */
  lemma PoliteArrival(cfg: Config, k: nat, good: State -> bool)
    returns (schedule: nat -> Thread, run: nat -> State, m: nat)
    requires good(Init(cfg)) && forall s: State :: Approaches(cfg, k, good, s)
    ensures Behavior(cfg, schedule, run) && Fair(schedule) && AlternatesFrom(schedule, m)
    ensures AtTarget(cfg, run(m), k) && good(run(m))
  {
    InitWork(cfg);
    m := ReachTarget(cfg, k, good, 0);
    schedule, run := PoliteRun(cfg, k, m);
  }

  // ---- States in which nothing happens any more ----

  ghost predicate Stuck(cfg: Config, s: State)
  {
    Turn(cfg, s, ProducerThread) == s && Turn(cfg, s, ConsumerThread) == s
  }

  lemma {:induction false} StaysStuck(cfg: Config, schedule: nat -> Thread, run: nat -> State, m: nat, n: nat)
    requires Behavior(cfg, schedule, run) && m <= n && Stuck(cfg, run(m))
    ensures run(n) == run(m)
  {
    if m < n {
      StaysStuck(cfg, schedule, run, m, n - 1);
      assert Follows(cfg, schedule, run, n - 1);
    }
  }

  // A run that is stuck anywhere has been, and will be, at no other stuck state.
  lemma OneStuckState(cfg: Config, schedule: nat -> Thread, run: nat -> State, m: nat, n: nat)
    requires Behavior(cfg, schedule, run) && Stuck(cfg, run(m)) && Stuck(cfg, run(n))
    ensures run(n) == run(m)
  {
    if m <= n {
      StaysStuck(cfg, schedule, run, m, n);
    } else {
      StaysStuck(cfg, schedule, run, n, m);
    }
  }

  // ---- On the way ----

  // Both threads compute the same for an element, and not the mark.
  ghost predicate CleanElement(cfg: Config, i: nat, j: nat)
  {
    ProducerSum(cfg, i, j + 1) == ConsumerSum(cfg, i, j + 1) != ALREADY_CONSUMED
  }

  // The streams agree before element k, without the mark.
  ghost predicate CleanBefore(cfg: Config, k: nat)
  {
    && (forall i: nat, j: nat :: i < cfg.rows && j < cfg.cols && Index(cfg, i, j) < k ==> CleanElement(cfg, i, j))
    && (forall i: nat :: i < cfg.rows && Index(cfg, i + 1, 0) <= k ==>
          PublishedValue(cfg, i) == ConsumerSum(cfg, i, cfg.cols))
  }

  // Nothing is written beyond element k, and the consumer has found everything in place.
  ghost predicate Underway(cfg: Config, k: nat, s: State)
  {
    Written(cfg, s) <= k && !s.c.pc.CSpin? && !s.c.pc.CReread? && !Alarmed(s)
  }

  ghost predicate Orderly(cfg: Config, s: State)
  {
    && 1 <= cfg.cols
    && ProducerOk(cfg, s.p) && ConsumerAt(cfg, s.c) && HandshakeOk(cfg, s)
    && Emptied(s) <= Filled(s)
  }

  lemma NotFinished(cfg: Config, k: nat, s: State)
    requires Orderly(cfg, s) && Underway(cfg, k, s) && k < cfg.rows * cfg.cols
    ensures !Stopped(s)
  {
  }

  // The producer writes on an emptied queue only, and never beyond element k.
  lemma WritesStayBelow(cfg: Config, k: nat, s: State)
    requires Orderly(cfg, s) && Underway(cfg, k, s) && InBounds(cfg, s) && !AtTarget(cfg, s, k)
    ensures Written(cfg, Turn(cfg, s, Choice(cfg, k, s))) <= k
  {
    NextRow(s.p.i, cfg.cols);
    if Choice(cfg, k, s).ProducerThread? && s.p.pc.PWrite? {
      assert s.c.pc.CRead? && Consumed(cfg, s) == Written(cfg, s) by {
        ConsumerCanMove(cfg, s);
      }
    }
  }

  // While the producer is within a row.
  lemma ConsumerCanMove(cfg: Config, s: State)
    requires Orderly(cfg, s) && InBounds(cfg, s) && !Alarmed(s) && (s.p.pc.PWrite? || s.p.pc.PAdvance?)
    requires !s.c.pc.CSpin? && Sent(s) < cfg.cols
    ensures Turn(cfg, s, ConsumerThread) != s
  {
  }

  // A consumer that reads on the way finds the element in the queue, and it is its own.
  lemma ReadsCleanElement(cfg: Config, k: nat, s: State)
    requires Orderly(cfg, s) && CleanBefore(cfg, k) && Underway(cfg, k, s) && s.c.pc.CRead?
    requires Choice(cfg, k, s).ConsumerThread? && !AtTarget(cfg, s, k)
    ensures Emptied(s) < Filled(s) && CleanElement(cfg, s.c.i, s.c.j)
  {
    FlatDistance(cfg, s);
  }

  // The value published for a row that has been taken is the consumer's.
  lemma PublishedClean(cfg: Config, k: nat, s: State)
    requires Orderly(cfg, s) && CleanBefore(cfg, k) && Underway(cfg, k, s) && s.c.pc.CCheckValue?
    ensures s.volatileValue == s.c.thisValue
  {
    FlatDistance(cfg, s);
    NextRow(s.c.i, cfg.cols);
  }

  lemma MoveStaysUnderway(cfg: Config, k: nat, s: State)
    requires Orderly(cfg, s) && Underway(cfg, k, s) && InBounds(cfg, s) && CleanBefore(cfg, k)
    requires !s.c.pc.CRead?
    ensures var s' := ConsumerStep(cfg, s); !s'.c.pc.CSpin? && !s'.c.pc.CReread? && !Alarmed(s')
  {
    if s.c.pc.CCheckValue? {
      PublishedClean(cfg, k, s);
    }
  }
}
