/** Why a run under a fair schedule ends: every turn that changes the state uses up work, and until
    the end some thread can always change it. */
module Fairness {

  ghost predicate HasTurn<T(!new)>(schedule: nat -> T, t: T, n: nat)
  {
    exists m: nat :: n <= m && schedule(m) == t
  }

  // Each thread is given a turn again and again; nothing is assumed of the order.
  ghost predicate Fair<T(!new)>(schedule: nat -> T)
  {
    forall t: T, n: nat :: HasTurn(schedule, t, n)
  }

  // What is known of the n-th state of a run.
  ghost predicate Progresses<S(!new), T(!new)>(run: nat -> S, schedule: nat -> T, next: (S, T) -> S,
                                               work: S -> int, stopped: S -> bool, n: nat)
  {
    && run(n + 1) == next(run(n), schedule(n))
    && work(run(n)) >= 0
    && (run(n + 1) == run(n) || work(run(n + 1)) < work(run(n)))
    && (stopped(run(n)) || exists t: T :: next(run(n), t) != run(n))
    && (stopped(run(n)) ==> run(n + 1) == run(n))
  }

  // Either nothing moved between n and m, or work was used up.
  lemma {:induction false} WorkOver<S(!new), T(!new)>(run: nat -> S, schedule: nat -> T, next: (S, T) -> S,
                                                      work: S -> int, stopped: S -> bool, n: nat, m: nat)
    requires n <= m
    requires forall k: nat :: Progresses(run, schedule, next, work, stopped, k)
    ensures run(m) == run(n) || work(run(m)) < work(run(n))
    ensures stopped(run(n)) ==> run(m) == run(n)
    decreases m
  {
    if n < m {
      WorkOver(run, schedule, next, work, stopped, n, m - 1);
      assert Progresses(run, schedule, next, work, stopped, m - 1);
    }
  }

  lemma {:induction false} ReachesStop<S(!new), T(!new)>(run: nat -> S, schedule: nat -> T, next: (S, T) -> S,
                                                         work: S -> int, stopped: S -> bool, n: nat) returns (stop: nat)
    requires Fair(schedule)
    requires forall k: nat :: Progresses(run, schedule, next, work, stopped, k)
    ensures stopped(run(stop))
    decreases work(run(n))
  {
    assert Progresses(run, schedule, next, work, stopped, n);
    if stopped(run(n)) {
      return n;
    }
    var t :| next(run(n), t) != run(n);
    assert HasTurn(schedule, t, n);
    var m: nat :| n <= m && schedule(m) == t;
    WorkOver(run, schedule, next, work, stopped, n, m);
    assert Progresses(run, schedule, next, work, stopped, m);
    assert Progresses(run, schedule, next, work, stopped, m + 1);
    stop := ReachesStop(run, schedule, next, work, stopped, m + 1);
  }

  /** Under a fair schedule the run reaches a stopped state, and stays there. */
  lemma FairRunStops<S(!new), T(!new)>(run: nat -> S, schedule: nat -> T, next: (S, T) -> S,
                                       work: S -> int, stopped: S -> bool) returns (stop: nat)
    requires Fair(schedule)
    requires forall k: nat :: Progresses(run, schedule, next, work, stopped, k)
    ensures stopped(run(stop))
    ensures forall m: nat :: stop <= m ==> run(m) == run(stop)
  {
    stop := ReachesStop(run, schedule, next, work, stopped, 0);
    forall m: nat | stop <= m ensures run(m) == run(stop) {
      WorkOver(run, schedule, next, work, stopped, stop, m);
    }
  }
}
