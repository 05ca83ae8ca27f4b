/** A main thread and its replica on the sibling hyper-thread, kept together by a flag and a barrier
    (thread_task_hyper_replicated, TestCoreAffinity.c). */
module HyperPair {
  import opened Fairness
  import opened Partition

  datatype MainPc =
    | MStart     // barrierWait(0) before the loop
    | MStartWaits
    | MSpin      // localTempResult = ...; while (hyperThreadsFinished[id] == 0)
    | MCompare   // localTempResult == globalTempResults[id] ?
    | MClear     // hyperThreadsFinished[id] = 0
    | MArrive    // barrierWait(0)
    | MWaits
    | MDone

  datatype ReplicaPc =
    | RStart
    | RStartWaits
    | RPublish   // globalTempResults[id - 2] = ...
    | RFlag      // hyperThreadsFinished[id - 2] = 1
    | RArrive
    | RWaits
    | RDone

  datatype Thread = Main | Replica

  // What the two threads compute for an index, soft errors included.
  datatype Config = Config(startIndex: nat, endIndex: nat, mainValue: nat -> int, replicaValue: nat -> int)

  // `mismatched` records that a comparison has failed; the program does nothing about it.
  datatype State = State(flag: int, globalTempResult: int, mpc: MainPc, mi: nat, tempResult: int,
                         rpc: ReplicaPc, ri: nat, mismatched: bool)

  // The flag is a global that starts at 0; so does the result cell, which is never read before it is written.
  function Init(cfg: Config): State
  {
    State(0, 0, MStart, cfg.startIndex, 0, RStart, cfg.startIndex, false)
  }

  // Both threads leave the barrier at once.
  function LoopHead(cfg: Config, s: State, mi: nat, ri: nat): State
  {
    s.(mi := mi, mpc := if mi < cfg.endIndex then MSpin else MDone,
       ri := ri, rpc := if ri < cfg.endIndex then RPublish else RDone)
  }

  function Step(cfg: Config, s: State, t: Thread): State
  {
    match t
    case Main => (
      match s.mpc
      case MStart => if s.rpc.RStartWaits? then LoopHead(cfg, s, s.mi, s.ri) else s.(mpc := MStartWaits)
      case MSpin => if s.flag == 0 then s else s.(mpc := MCompare)
      case MCompare =>
        if cfg.mainValue(s.mi) == s.globalTempResult
        then s.(tempResult := s.tempResult + cfg.mainValue(s.mi), mpc := MClear)
        else s.(mismatched := true, mpc := MArrive)
      case MClear => s.(flag := 0, mpc := MArrive)
      case MArrive => if s.rpc.RWaits? then LoopHead(cfg, s, s.mi + 1, s.ri + 1) else s.(mpc := MWaits)
      case _ => s)
    case Replica =>
      match s.rpc
      case RStart => if s.mpc.MStartWaits? then LoopHead(cfg, s, s.mi, s.ri) else s.(rpc := RStartWaits)
      case RPublish => s.(globalTempResult := cfg.replicaValue(s.ri), rpc := RFlag)
      case RFlag => s.(flag := 1, rpc := RArrive)
      case RArrive => if s.mpc.MWaits? then LoopHead(cfg, s, s.mi + 1, s.ri + 1) else s.(rpc := RWaits)
      case _ => s
  }

  predicate MainInLoop(pc: MainPc)
  {
    pc.MSpin? || pc.MCompare? || pc.MClear? || pc.MArrive? || pc.MWaits?
  }

  predicate ReplicaInLoop(pc: ReplicaPc)
  {
    pc.RPublish? || pc.RFlag? || pc.RArrive? || pc.RWaits?
  }

  // The replica has raised the flag in this iteration.
  predicate Raised(pc: ReplicaPc)
  {
    pc.RArrive? || pc.RWaits?
  }

  ghost predicate Inv(cfg: Config, s: State)
  {
    && cfg.startIndex <= s.mi == s.ri <= cfg.endIndex
    && (MainInLoop(s.mpc) <==> ReplicaInLoop(s.rpc))
    && (s.mpc.MDone? <==> s.rpc.RDone?)
    && (MainInLoop(s.mpc) ==> s.mi < cfg.endIndex)
    && (s.mpc.MDone? ==> s.mi == cfg.endIndex)
    && (s.mpc.MStart? || s.mpc.MStartWaits? ==> s.mi == cfg.startIndex && s.flag == 0 && !s.mismatched)
    && !(s.mpc.MStartWaits? && s.rpc.RStartWaits?) && !(s.mpc.MWaits? && s.rpc.RWaits?)
    && (s.mpc.MSpin? && Raised(s.rpc) ==> s.flag == 1)
  }

  // Until a comparison fails, the flag is up exactly between the replica's raising it and the main
  // thread's clearing it, and all comparisons so far have agreed.
  ghost predicate Together(cfg: Config, s: State)
  {
    && Inv(cfg, s)
    && (s.flag == 0 || s.flag == 1)
    && (s.flag == 1 <==> Raised(s.rpc) && (s.mpc.MSpin? || s.mpc.MCompare? || s.mpc.MClear?))
    && (MainInLoop(s.mpc) && !s.mpc.MSpin? ==> Raised(s.rpc))
    && (s.rpc.RFlag? || Raised(s.rpc) ==> s.globalTempResult == cfg.replicaValue(s.ri))
    && (forall i: nat :: cfg.startIndex <= i < Compared(s) ==> cfg.mainValue(i) == cfg.replicaValue(i))
    && s.tempResult == Sum(cfg.mainValue, cfg.startIndex, Compared(s))
  }

  // The indices compared so far end here.
  function Compared(s: State): nat
  {
    s.mi + if s.mpc.MClear? || s.mpc.MArrive? || s.mpc.MWaits? then 1 else 0
  }

  ghost predicate Valid(cfg: Config, s: State)
  {
    Inv(cfg, s) && (!s.mismatched ==> Together(cfg, s))
  }

  lemma StepKeepsValid(cfg: Config, s: State, t: Thread)
    requires Valid(cfg, s)
    ensures Valid(cfg, Step(cfg, s, t))
  {
  }

  ghost predicate Follows(cfg: Config, schedule: nat -> Thread, run: nat -> State, n: nat)
  {
    run(n + 1) == Step(cfg, run(n), schedule(n))
  }

  ghost predicate Behavior(cfg: Config, schedule: nat -> Thread, run: nat -> State)
  {
    && cfg.startIndex <= cfg.endIndex
    && run(0) == Init(cfg)
    && forall n: nat :: Follows(cfg, schedule, run, n)
  }

  lemma {:induction false} AlwaysValid(cfg: Config, schedule: nat -> Thread, run: nat -> State, n: nat)
    requires Behavior(cfg, schedule, run)
    ensures Valid(cfg, run(n))
  {
    if n > 0 {
      AlwaysValid(cfg, schedule, run, n - 1);
      assert Follows(cfg, schedule, run, n - 1);
      StepKeepsValid(cfg, run(n - 1), schedule(n - 1));
    }
  }

  /** The two threads are always at the same index, and every comparison up to and including the first that
      fails is with the replica's value for that index. */
  lemma ComparesSameIndex(cfg: Config, schedule: nat -> Thread, run: nat -> State, n: nat)
    requires Behavior(cfg, schedule, run)
    ensures var s := run(n);
            && s.mi == s.ri
            && (s.mpc.MCompare? && !s.mismatched ==> s.globalTempResult == cfg.replicaValue(s.mi))
  {
    AlwaysValid(cfg, schedule, run, n);
  }

  /** The first comparison that fails is at the first index where the two threads computed differently. */
  lemma FirstMismatch(cfg: Config, schedule: nat -> Thread, run: nat -> State, n: nat)
    requires Behavior(cfg, schedule, run)
    requires !run(n).mismatched && run(n + 1).mismatched
    ensures var i := run(n).mi;
            && cfg.mainValue(i) != cfg.replicaValue(i)
            && forall k: nat :: cfg.startIndex <= k < i ==> cfg.mainValue(k) == cfg.replicaValue(k)
  {
    AlwaysValid(cfg, schedule, run, n);
    assert Follows(cfg, schedule, run, n);
  }

  // ---- After a mismatch ----

  // Which index the replica's result belongs to, whatever has happened to the flag.
  ghost predicate ResultOk(cfg: Config, s: State)
  {
    && Inv(cfg, s)
    && (s.rpc.RFlag? || Raised(s.rpc) ==> s.globalTempResult == cfg.replicaValue(s.ri))
    && (s.rpc.RPublish? && s.ri > cfg.startIndex ==> s.globalTempResult == cfg.replicaValue(s.ri - 1))
    && (s.ri == cfg.startIndex && (s.rpc.RPublish? || s.rpc.RFlag?) ==> s.mpc.MSpin? && s.flag == 0)
  }

  lemma StepKeepsResult(cfg: Config, s: State, t: Thread)
    requires ResultOk(cfg, s) && Inv(cfg, Step(cfg, s, t))
    ensures ResultOk(cfg, Step(cfg, s, t))
  {
  }

  lemma {:induction false} AlwaysResult(cfg: Config, schedule: nat -> Thread, run: nat -> State, n: nat)
    requires Behavior(cfg, schedule, run)
    ensures ResultOk(cfg, run(n))
  {
    AlwaysValid(cfg, schedule, run, n);
    if n > 0 {
      AlwaysResult(cfg, schedule, run, n - 1);
      assert Follows(cfg, schedule, run, n - 1);
      StepKeepsResult(cfg, run(n - 1), schedule(n - 1));
    }
  }

  /** In any run, also after a mismatch has left the flag up: a comparison is with the replica's value for
      the index if the replica has published it, and with the value for the index before if it has not. */
  lemma ComparedValue(cfg: Config, schedule: nat -> Thread, run: nat -> State, n: nat)
    requires Behavior(cfg, schedule, run) && run(n).mpc.MCompare?
    ensures var s := run(n);
            if s.rpc.RPublish?
            then s.mi > cfg.startIndex && s.globalTempResult == cfg.replicaValue(s.mi - 1)
            else s.globalTempResult == cfg.replicaValue(s.mi)
  {
    AlwaysResult(cfg, schedule, run, n);
  }

  // The values of the indices from startIndex that were taken, added up.
  function TakenSum(cfg: Config, taken: seq<bool>): int
  {
    if taken == [] then 0
    else
      var last := |taken| - 1;
      TakenSum(cfg, taken[..last]) + if taken[last] then cfg.mainValue(cfg.startIndex + last) else 0
  }

  // A value of the replica's that the main thread may have compared with its own for index i.
  ghost predicate MayCompare(cfg: Config, i: nat, value: int)
  {
    value == cfg.replicaValue(i) || (i > cfg.startIndex && value == cfg.replicaValue(i - 1))
  }

  // An index is taken if the main thread's value was found in the replica's cell, and left out if not.
  ghost predicate RightlyTaken(cfg: Config, i: nat, taken: bool)
  {
    exists value: int :: MayCompare(cfg, i, value) && (taken <==> cfg.mainValue(i) == value)
  }

  ghost predicate Accounts(cfg: Config, s: State, taken: seq<bool>)
  {
    && cfg.startIndex + |taken| == Compared(s)
    && s.tempResult == TakenSum(cfg, taken)
    && forall t: nat :: t < |taken| ==> RightlyTaken(cfg, cfg.startIndex + t, taken[t])
  }

  lemma TakeNext(cfg: Config, s: State, taken: seq<bool>)
    requires ResultOk(cfg, s) && s.mpc.MCompare? && Accounts(cfg, s, taken)
    ensures Accounts(cfg, Step(cfg, s, Main), taken + [cfg.mainValue(s.mi) == s.globalTempResult])
  {
    var now := taken + [cfg.mainValue(s.mi) == s.globalTempResult];
    assert now[..|taken|] == taken;
    assert MayCompare(cfg, s.mi, s.globalTempResult);
    assert RightlyTaken(cfg, cfg.startIndex + |taken|, now[|taken|]);
  }

  /** What a mismatch costs, in any run: the result is the sum of the main thread's values over the indices taken.
      An index is taken if the value found in the replica's cell, for that index or a stale one for the index
      before, was the main thread's own; an index left out adds nothing. */
  lemma {:induction false} ResultAccountedFor(cfg: Config, schedule: nat -> Thread, run: nat -> State, n: nat)
    returns (taken: seq<bool>)
    requires Behavior(cfg, schedule, run)
    ensures Accounts(cfg, run(n), taken)
  {
    if n == 0 {
      taken := [];
    } else {
      taken := ResultAccountedFor(cfg, schedule, run, n - 1);
      var s := run(n - 1);
      AlwaysResult(cfg, schedule, run, n - 1);
      assert Follows(cfg, schedule, run, n - 1);
      if schedule(n - 1).Main? && s.mpc.MCompare? {
        TakeNext(cfg, s, taken);
        taken := taken + [cfg.mainValue(s.mi) == s.globalTempResult];
      }
    }
  }

  // At turn n the main thread is about to compare with the value for the index before.
  ghost predicate ComparesStale(cfg: Config, schedule: nat -> Thread, run: nat -> State, n: nat)
  {
    Behavior(cfg, schedule, run) && run(n).mpc.MCompare? && run(n).rpc.RPublish?
  }

  // The two threads compute the same for every index but the last.
  ghost predicate AgreeBeforeLast(cfg: Config)
  {
    forall i: nat :: cfg.startIndex <= i < cfg.endIndex - 1 ==> cfg.mainValue(i) == cfg.replicaValue(i)
  }

  // A mismatch can only have been at the last index, after which nothing is compared.
  ghost predicate MismatchIsLast(cfg: Config, s: State)
  {
    s.mismatched ==> s.mi == cfg.endIndex || (s.mi + 1 == cfg.endIndex && (s.mpc.MArrive? || s.mpc.MWaits?))
  }

  lemma {:induction false} AlwaysLast(cfg: Config, schedule: nat -> Thread, run: nat -> State, n: nat)
    requires Behavior(cfg, schedule, run) && AgreeBeforeLast(cfg)
    ensures MismatchIsLast(cfg, run(n))
  {
    if n > 0 {
      AlwaysLast(cfg, schedule, run, n - 1);
      AlwaysValid(cfg, schedule, run, n - 1);
      assert Follows(cfg, schedule, run, n - 1);
      StepKeepsLast(cfg, run(n - 1), schedule(n - 1));
    }
  }

  lemma StepKeepsLast(cfg: Config, s: State, t: Thread)
    requires Valid(cfg, s) && AgreeBeforeLast(cfg) && MismatchIsLast(cfg, s)
    ensures MismatchIsLast(cfg, Step(cfg, s, t))
  {
  }

  // ---- The way to a stale value ----

  /** The barrier before the loop, and then rounds of seven turns: the replica publishes, raises the flag and
      waits; the main thread compares, clears the flag and meets it. */
  function RoundSchedule(n: nat): Thread
  {
    if n == 0 then Main
    else if n == 1 then Replica
    else if (n - 2) % 7 < 3 then Replica
    else Main
  }

  ghost predicate RoundStart(cfg: Config, i: nat, s: State)
  {
    && s.mi == s.ri == i < cfg.endIndex && !s.mismatched && s.flag == 0
    && s.mpc.MSpin? && s.rpc.RPublish?
  }

  function Steps(cfg: Config, s: State, t: Thread, n: nat): State
  {
    if n == 0 then s else Step(cfg, Steps(cfg, s, t, n - 1), t)
  }

  // The replica's half of a round.
  lemma ReplicaHalf(cfg: Config, i: nat, s: State)
    requires RoundStart(cfg, i, s)
    ensures Steps(cfg, s, Replica, 3) == s.(globalTempResult := cfg.replicaValue(i), flag := 1, rpc := RWaits)
  {
    assert Steps(cfg, s, Replica, 1) == s.(globalTempResult := cfg.replicaValue(i), rpc := RFlag);
    assert Steps(cfg, s, Replica, 2) == s.(globalTempResult := cfg.replicaValue(i), flag := 1, rpc := RArrive);
  }

  // The main thread's half: to the next round if the values agree, else to a comparison it should not make yet.
  lemma MainHalf(cfg: Config, i: nat, s: State)
    requires s.mi == s.ri == i && i + 1 < cfg.endIndex && !s.mismatched && s.mpc.MSpin?
    requires s.rpc.RWaits? && s.flag == 1 && s.globalTempResult == cfg.replicaValue(i)
    ensures var s' := Steps(cfg, s, Main, 4);
            if cfg.mainValue(i) == cfg.replicaValue(i) then RoundStart(cfg, i + 1, s')
            else s'.mpc.MCompare? && s'.rpc.RPublish?
  {
    assert Steps(cfg, s, Main, 1) == s.(mpc := MCompare);
    if cfg.mainValue(i) == cfg.replicaValue(i) {
      assert Steps(cfg, s, Main, 2).mpc == MClear;
      assert Steps(cfg, s, Main, 3).mpc == MArrive;
    } else {
      assert Steps(cfg, s, Main, 2) == s.(mpc := MArrive, mismatched := true);
      assert Steps(cfg, s, Main, 3).mpc == MSpin;
    }
  }

  lemma {:induction false} RunSteps(cfg: Config, schedule: nat -> Thread, run: nat -> State, t: Thread, n: nat, d: nat)
    requires Behavior(cfg, schedule, run) && forall i: nat :: n <= i < n + d ==> schedule(i) == t
    ensures run(n + d) == Steps(cfg, run(n), t, d)
    decreases d
  {
    if d > 0 {
      RunSteps(cfg, schedule, run, t, n, d - 1);
      assert Follows(cfg, schedule, run, n + (d - 1));
    }
  }

  lemma RunRound(cfg: Config, run: nat -> State, r: nat, i: nat)
    requires Behavior(cfg, RoundSchedule, run) && RoundStart(cfg, i, run(2 + 7 * r)) && i + 1 < cfg.endIndex
    ensures if cfg.mainValue(i) == cfg.replicaValue(i) then RoundStart(cfg, i + 1, run(9 + 7 * r))
            else run(9 + 7 * r).mpc.MCompare? && run(9 + 7 * r).rpc.RPublish?
  {
    var n := 2 + 7 * r;
    forall k: nat | n <= k < n + 7 ensures RoundSchedule(k) == if k < n + 3 then Replica else Main {
      assert (k - 2) % 7 == k - n;
    }
    RunSteps(cfg, RoundSchedule, run, Replica, n, 3);
    ReplicaHalf(cfg, i, run(n));
    RunSteps(cfg, RoundSchedule, run, Main, n + 3, 4);
    MainHalf(cfg, i, run(n + 3));
  }

  lemma {:induction false} RunRounds(cfg: Config, run: nat -> State, r: nat)
    requires Behavior(cfg, RoundSchedule, run) && cfg.startIndex + r < cfg.endIndex
    requires forall i: nat :: cfg.startIndex <= i < cfg.startIndex + r ==> cfg.mainValue(i) == cfg.replicaValue(i)
    ensures RoundStart(cfg, cfg.startIndex + r, run(2 + 7 * r))
  {
    if r == 0 {
      assert Follows(cfg, RoundSchedule, run, 0) && Follows(cfg, RoundSchedule, run, 1);
    } else {
      RunRounds(cfg, run, r - 1);
      RunRound(cfg, run, r - 1, cfg.startIndex + (r - 1));
      assert 9 + 7 * (r - 1) == 2 + 7 * r;
    }
  }

  function At(cfg: Config, schedule: nat -> Thread, n: nat): State
  {
    if n == 0 then Init(cfg) else Step(cfg, At(cfg, schedule, n - 1), schedule(n - 1))
  }

  lemma EveryScheduleRuns(cfg: Config, schedule: nat -> Thread) returns (run: nat -> State)
    requires cfg.startIndex <= cfg.endIndex
    ensures Behavior(cfg, schedule, run)
  {
    run := (n: nat) => At(cfg, schedule, n);
    forall n: nat ensures Follows(cfg, schedule, run, n) {
      assert At(cfg, schedule, n + 1) == Step(cfg, At(cfg, schedule, n), schedule(n));
    }
  }

  /** A mismatch before the last index leaves the flag up, and with it some run compares for the next index
      before the replica has computed. */
  lemma StaleAfterMismatch(cfg: Config, i: nat) returns (run: nat -> State, n: nat)
    requires cfg.startIndex <= i < cfg.endIndex - 1 && cfg.mainValue(i) != cfg.replicaValue(i)
    requires forall k: nat :: cfg.startIndex <= k < i ==> cfg.mainValue(k) == cfg.replicaValue(k)
    ensures ComparesStale(cfg, RoundSchedule, run, n)
  {
    var r := i - cfg.startIndex;
    run := EveryScheduleRuns(cfg, RoundSchedule);
    RunRounds(cfg, run, r);
    RunRound(cfg, run, r, i);
    n := 9 + 7 * r;
  }

  lemma FirstMismatchBeforeLast(cfg: Config) returns (i: nat)
    requires !AgreeBeforeLast(cfg)
    ensures cfg.startIndex <= i < cfg.endIndex - 1 && cfg.mainValue(i) != cfg.replicaValue(i)
    ensures forall k: nat :: cfg.startIndex <= k < i ==> cfg.mainValue(k) == cfg.replicaValue(k)
  {
    i := cfg.startIndex;
    while cfg.mainValue(i) == cfg.replicaValue(i)
      invariant cfg.startIndex <= i < cfg.endIndex - 1
      invariant forall k: nat :: cfg.startIndex <= k < i ==> cfg.mainValue(k) == cfg.replicaValue(k)
      decreases cfg.endIndex - i
    {
      i := i + 1;
    }
  }

  /** No interleaving compares a stale value if and only if the two threads compute the same for every index but
      the last: the flag left up at any earlier mismatch can always be taken for the next one. */
  lemma NeverStaleIff(cfg: Config)
    requires cfg.startIndex <= cfg.endIndex
    ensures (forall schedule, run, n :: !ComparesStale(cfg, schedule, run, n))
            <==> forall i: nat :: cfg.startIndex <= i < cfg.endIndex - 1 ==> cfg.mainValue(i) == cfg.replicaValue(i)
  {
    if AgreeBeforeLast(cfg) {
      forall schedule, run, n: nat ensures !ComparesStale(cfg, schedule, run, n) {
        if ComparesStale(cfg, schedule, run, n) {
          NotStale(cfg, schedule, run, n);
        }
      }
    } else {
      var i := FirstMismatchBeforeLast(cfg);
      var run, n := StaleAfterMismatch(cfg, i);
    }
  }

  lemma NotStale(cfg: Config, schedule: nat -> Thread, run: nat -> State, n: nat)
    requires Behavior(cfg, schedule, run) && AgreeBeforeLast(cfg) && run(n).mpc.MCompare?
    ensures !run(n).rpc.RPublish?
  {
    AlwaysLast(cfg, schedule, run, n);
    AlwaysValid(cfg, schedule, run, n);
  }

  // ---- How a run ends ----

  predicate Finished(s: State)
  {
    s.mpc.MDone? && s.rpc.RDone?
  }

  function Work(cfg: Config, s: State): int
  {
    10 * (cfg.endIndex - s.mi)
    + (match s.mpc case MStart => 10 case MStartWaits => 9 case MSpin => 5 case MCompare => 4 case MClear => 3
                   case MArrive => 2 case MWaits => 1 case MDone => 0)
    + 10 * (cfg.endIndex - s.ri)
    + match s.rpc case RStart => 10 case RStartWaits => 9 case RPublish => 5 case RFlag => 4 case RArrive => 3
                  case RWaits => 2 case RDone => 0
  }

  lemma StepProgresses(cfg: Config, s: State, t: Thread)
    requires Inv(cfg, s)
    ensures Work(cfg, s) >= 0
    ensures Step(cfg, s, t) == s || Work(cfg, Step(cfg, s, t)) < Work(cfg, s)
    ensures Finished(s) || Step(cfg, s, Main) != s || Step(cfg, s, Replica) != s
  {
  }

  /** Every fair run ends, with or without soft errors; if the threads computed the same for every index, no
      comparison failed and the main thread has the sum of its range. */
  lemma FairRunsFinish(cfg: Config, schedule: nat -> Thread, run: nat -> State) returns (stop: nat)
    requires Behavior(cfg, schedule, run) && Fair(schedule)
    ensures Finished(run(stop))
    ensures (forall i: nat :: cfg.startIndex <= i < cfg.endIndex ==> cfg.mainValue(i) == cfg.replicaValue(i))
            ==> !run(stop).mismatched && run(stop).tempResult == Sum(cfg.mainValue, cfg.startIndex, cfg.endIndex)
  {
    var next, work := (s, t) => Step(cfg, s, t), s => Work(cfg, s);
    forall k: nat ensures Progresses(run, schedule, next, work, Finished, k) {
      AlwaysValid(cfg, schedule, run, k);
      assert Follows(cfg, schedule, run, k);
      StepProgresses(cfg, run(k), schedule(k));
      if !Finished(run(k)) {
        assert next(run(k), Main) != run(k) || next(run(k), Replica) != run(k);
      }
    }
    stop := FairRunStops(run, schedule, next, work, Finished);
    AlwaysValid(cfg, schedule, run, stop);
    if forall i: nat :: cfg.startIndex <= i < cfg.endIndex ==> cfg.mainValue(i) == cfg.replicaValue(i) {
      NeverMismatches(cfg, schedule, run, stop);
    }
  }

  lemma {:induction false} NeverMismatches(cfg: Config, schedule: nat -> Thread, run: nat -> State, n: nat)
    requires Behavior(cfg, schedule, run)
    requires forall i: nat :: cfg.startIndex <= i < cfg.endIndex ==> cfg.mainValue(i) == cfg.replicaValue(i)
    ensures !run(n).mismatched
  {
    if n > 0 {
      NeverMismatches(cfg, schedule, run, n - 1);
      AlwaysValid(cfg, schedule, run, n - 1);
      assert Follows(cfg, schedule, run, n - 1);
    }
  }

  // ---- The threads in memory ----

  class SharedPair {
    const cfg: Config
    var hyperThreadsFinished: int
    var globalTempResult: int
    var mpc: MainPc
    var mi: nat
    var tempResult: int
    var rpc: ReplicaPc
    var ri: nat
    ghost var mismatched: bool

    ghost function View(): State
      reads this
    {
      State(hyperThreadsFinished, globalTempResult, mpc, mi, tempResult, rpc, ri, mismatched)
    }

    constructor (cfg: Config)
      ensures this.cfg == cfg && View() == Init(cfg)
    {
      this.cfg := cfg;
      hyperThreadsFinished, globalTempResult, tempResult, mismatched := 0, 0, 0, false;
      mpc, mi, rpc, ri := MStart, cfg.startIndex, RStart, cfg.startIndex;
    }

    method LeaveBarrier()
      modifies this`mpc, this`rpc
      ensures View() == LoopHead(cfg, old(View()), mi, ri)
    {
      mpc := if mi < cfg.endIndex then MSpin else MDone;
      rpc := if ri < cfg.endIndex then RPublish else RDone;
    }

    method MainTurn()
      modifies this
      ensures View() == Step(cfg, old(View()), Main)
    {
      match mpc
      case MStart =>
        if rpc.RStartWaits? {
          LeaveBarrier();
        } else {
          mpc := MStartWaits;
        }
      case MSpin =>
        if hyperThreadsFinished != 0 {
          mpc := MCompare;
        }
      case MCompare =>
        if cfg.mainValue(mi) == globalTempResult {
          tempResult := tempResult + cfg.mainValue(mi);
          mpc := MClear;
        } else {
          mismatched := true;
          mpc := MArrive;
        }
      case MClear =>
        hyperThreadsFinished := 0;
        mpc := MArrive;
      case MArrive =>
        if rpc.RWaits? {
          mi, ri := mi + 1, ri + 1;
          LeaveBarrier();
        } else {
          mpc := MWaits;
        }
      case _ =>
    }

    method ReplicaTurn()
      modifies this
      ensures View() == Step(cfg, old(View()), Replica)
    {
      match rpc
      case RStart =>
        if mpc.MStartWaits? {
          LeaveBarrier();
        } else {
          rpc := RStartWaits;
        }
      case RPublish =>
        globalTempResult := cfg.replicaValue(ri);
        rpc := RFlag;
      case RFlag =>
        hyperThreadsFinished := 1;
        rpc := RArrive;
      case RArrive =>
        if mpc.MWaits? {
          mi, ri := mi + 1, ri + 1;
          LeaveBarrier();
        } else {
          rpc := RWaits;
        }
      case _ =>
    }

    /** Any number of turns from the start, in any order: the state is the one the theorems speak of. */
    method Run(schedule: nat -> Thread, turns: nat, ghost run: nat -> State)
      requires View() == Init(cfg) && Behavior(cfg, schedule, run)
      modifies this
      ensures View() == run(turns)
    {
      for n := 0 to turns
        invariant View() == run(n)
      {
        assert Follows(cfg, schedule, run, n);
        match schedule(n)
        case Main => MainTurn();
        case Replica => ReplicaTurn();
      }
    }
  }

  // ---- All cores ----

  // What the main thread of pair t works on, its replica computing the same.
  function PairConfig(f: nat -> int, t: nat, pairs: nat, numValues: nat): Config
    requires t < pairs
  {
    var range := Range(t, numValues, pairs);
    Config(range.0, range.1, f, f)
  }

  // results[i] of the main threads, added up.
  function Total(results: seq<int>): int
  {
    if results == [] then 0 else Total(results[..|results| - 1]) + results[|results| - 1]
  }

  // Pair t has ended, with `result`.
  ghost predicate EndsWith(run: nat -> State, result: int)
  {
    exists stop: nat :: Finished(run(stop)) && run(stop).tempResult == result
  }

  lemma PairEnds(f: nat -> int, t: nat, pairs: nat, numValues: nat, schedule: nat -> Thread, run: nat -> State)
    returns (result: int)
    requires t < pairs && Fair(schedule) && Behavior(PairConfig(f, t, pairs, numValues), schedule, run)
    ensures EndsWith(run, result)
    ensures Range(t, numValues, pairs).0 <= Range(t, numValues, pairs).1
    ensures result == Sum(f, Range(t, numValues, pairs).0, Range(t, numValues, pairs).1)
  {
    var stop := FairRunsFinish(PairConfig(f, t, pairs, numValues), schedule, run);
    result := run(stop).tempResult;
    RangesTile(t, numValues, pairs);
  }

  // A fair run of pair t.
  ghost predicate PairRuns(f: nat -> int, t: nat, pairs: nat, numValues: nat,
                           schedules: nat -> nat -> Thread, runs: nat -> nat -> State)
    requires t < pairs
  {
    Fair(schedules(t)) && Behavior(PairConfig(f, t, pairs, numValues), schedules(t), runs(t))
  }

  lemma {:induction false} FirstPairsEnd(f: nat -> int, pairs: nat, numValues: nat, count: nat,
                                         schedules: nat -> nat -> Thread, runs: nat -> nat -> State)
    returns (results: seq<int>)
    requires 1 <= pairs && count <= pairs
    requires forall t: nat :: t < pairs ==> PairRuns(f, t, pairs, numValues, schedules, runs)
    ensures |results| == count && forall t: nat :: t < count ==> EndsWith(runs(t), results[t])
    ensures Total(results) == ThreadSums(f, count, numValues, pairs)
  {
    if count == 0 {
      results := [];
    } else {
      var t := count - 1;
      var rest := FirstPairsEnd(f, pairs, numValues, t, schedules, runs);
      assert PairRuns(f, t, pairs, numValues, schedules, runs);
      var result := PairEnds(f, t, pairs, numValues, schedules(t), runs(t));
      results := rest + [result];
      assert results[..t] == rest;
    }
  }

  /** All cores: whatever the schedules of the pairs, as long as each is fair, all pairs finish, and their
      results add up to what one thread computes over all values (thread_task_normal). */
  lemma TotalOverCores(f: nat -> int, pairs: nat, numValues: nat,
                       schedules: nat -> nat -> Thread, runs: nat -> nat -> State)
    returns (results: seq<int>)
    requires 1 <= pairs
    requires forall t: nat :: t < pairs ==> PairRuns(f, t, pairs, numValues, schedules, runs)
    ensures |results| == pairs && forall t: nat :: t < pairs ==> EndsWith(runs(t), results[t])
    ensures Total(results) == Sum(f, 0, numValues)
  {
    results := FirstPairsEnd(f, pairs, numValues, pairs, schedules, runs);
    SumsAddUp(f, numValues, pairs);
  }

  /** thread_task_normal: the sum over a range, computed by one thread. */
  method ThreadTaskNormal(startIndex: nat, endIndex: nat, f: nat -> int) returns (tempResult: int)
    requires startIndex <= endIndex
    ensures tempResult == Sum(f, startIndex, endIndex)
  {
    tempResult := 0;
    for i := startIndex to endIndex
      invariant tempResult == Sum(f, startIndex, i)
    {
      tempResult := tempResult + f(i);
    }
  }
}
