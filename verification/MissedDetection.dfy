/** When the RHT_VolatilesImproved mode can accept an element at which the streams differ. */
module MissedDetection {
  import opened Ring
  import opened Channel
  import opened Invariant
  import opened Runs
  import opened Fairness
  import opened ImprovedRing
  import opened Polite
  import opened FalseAlarm

  // The elements the consumer has accepted.
  function Accepted(cfg: Config, s: State): nat
  {
    Consumed(cfg, s) + if s.c.pc.CBump? then 1 else 0
  }

  // The consumer has just accepted element k.
  ghost predicate Accepts(cfg: Config, schedule: nat -> Thread, run: nat -> State, n: nat, k: nat)
  {
    Behavior(cfg, schedule, run) && run(n).c.pc.CBump? && Consumed(cfg, run(n)) == k
  }

  // ---- Every run ----

  // What was accepted too early was accepted for the value it was going to have.
  ghost predicate AheadIsRight(cfg: Config, k: nat, accepted: nat, w: nat)
    requires 0 < cfg.q && 0 < cfg.cols
  {
    forall e: nat :: w <= e < accepted && e < k ==> Seen(cfg, e, w) == StreamAt(cfg, e)
  }

  // Whether element k has been accepted for what was left in its cell.
  ghost predicate OnlyLeftover(cfg: Config, k: nat, s: State)
    requires 0 < cfg.q && 0 < cfg.cols
  {
    && AheadIsRight(cfg, k, Accepted(cfg, s), Written(cfg, s))
    && (k < Accepted(cfg, s) ==> OwnAt(cfg, k) == Leftover(cfg, k))
  }

  // The write of element w changes nothing for those accepted ahead of it.
  lemma {:induction false} WriteIsRight(cfg: Config, k: nat, accepted: nat, w: nat, e: nat)
    requires 0 < cfg.q && 0 < cfg.cols && AheadIsRight(cfg, k, accepted, w)
    requires w < e < accepted && e < k
    ensures Seen(cfg, e, w + 1) == Seen(cfg, e, w)
    decreases e
  {
    if e >= cfg.q && e - cfg.q > w {
      WriteIsRight(cfg, k, accepted, w, e - cfg.q);
    } else if e >= cfg.q && e - cfg.q == w {
      assert Seen(cfg, w, w) == StreamAt(cfg, w) == Seen(cfg, w, w + 1);
    }
  }

  lemma WriteKeepsRight(cfg: Config, k: nat, accepted: nat, w: nat)
    requires 0 < cfg.q && 0 < cfg.cols && AheadIsRight(cfg, k, accepted, w)
    ensures AheadIsRight(cfg, k, accepted, w + 1)
  {
    forall e: nat | w + 1 <= e < accepted && e < k ensures Seen(cfg, e, w + 1) == StreamAt(cfg, e) {
      WriteIsRight(cfg, k, accepted, w, e);
    }
  }

  // Until element k is written its cell holds what was left there, for a consumer that has got that far.
  lemma SeenIsLeftover(cfg: Config, k: nat, w: nat)
    requires 0 < cfg.q && 0 < cfg.cols && AheadIsRight(cfg, k, k, w) && w <= k
    ensures Seen(cfg, k, w) == Leftover(cfg, k)
  {
    if k >= cfg.q && w <= k - cfg.q {
      assert Seen(cfg, k - cfg.q, w) == StreamAt(cfg, k - cfg.q);
    }
  }

  // One read that accepts: nothing wrong below k, and k only for what was left.
  lemma AcceptingIsRight(cfg: Config, k: nat, e: nat, w: nat)
    requires 0 < cfg.q && 0 < cfg.cols && AheadIsRight(cfg, k, e, w)
    requires e < k ==> OwnAt(cfg, e) == StreamAt(cfg, e)
    requires StreamAt(cfg, k) != OwnAt(cfg, k)
    requires OwnAt(cfg, e) == Seen(cfg, e, w)
    ensures AheadIsRight(cfg, k, e + 1, w)
    ensures e == k ==> OwnAt(cfg, k) == Leftover(cfg, k)
  {
    if e == k && w <= k {
      SeenIsLeftover(cfg, k, w);
    }
  }

  // What a read makes of the counters and, if it accepts, of the values.
  lemma ReadFacts(cfg: Config, k: nat, s: State)
    requires ImprovedConfig(cfg) && Always(cfg, s) && InBounds(cfg, s) && Reads(s.c.pc) && CleanBefore(cfg, k)
    ensures var e, s' := Consumed(cfg, s), ConsumerStep(cfg, s);
            && Accepted(cfg, s) == e && Written(cfg, s') == Written(cfg, s)
            && Accepted(cfg, s') == (if s'.c.pc.CBump? then e + 1 else e)
            && (s'.c.pc.CBump? ==> OwnAt(cfg, e) == Seen(cfg, e, Written(cfg, s)))
            && (e < k ==> OwnAt(cfg, e) == StreamAt(cfg, e))
  {
    ReadVerdictAt(cfg, s);
    OwnIndex(cfg, s.c.i, s.c.j);
    StreamIndex(cfg, s.c.i, s.c.j);
    assert Index(cfg, s.c.i, s.c.j) < k ==> CleanElement(cfg, s.c.i, s.c.j);
  }

  lemma ReadKeepsLeftover(cfg: Config, k: nat, s: State)
    requires ImprovedConfig(cfg) && Always(cfg, s) && InBounds(cfg, s) && Reads(s.c.pc)
    requires CleanBefore(cfg, k) && StreamAt(cfg, k) != OwnAt(cfg, k) && OnlyLeftover(cfg, k, s)
    ensures OnlyLeftover(cfg, k, ConsumerStep(cfg, s))
  {
    ReadFacts(cfg, k, s);
    if ConsumerStep(cfg, s).c.pc.CBump? {
      AcceptingIsRight(cfg, k, Consumed(cfg, s), Written(cfg, s));
    }
  }

  lemma MoveKeepsAccepted(cfg: Config, s: State)
    requires ImprovedConfig(cfg) && ConsumerAt(cfg, s.c) && InBounds(cfg, s) && !Reads(s.c.pc) && !s.c.pc.CReset?
    ensures Accepted(cfg, ConsumerStep(cfg, s)) == Accepted(cfg, s)
  {
    NextRow(s.c.i, cfg.cols);
  }

  lemma ProducerKeepsLeftover(cfg: Config, k: nat, s: State)
    requires ImprovedConfig(cfg) && ProducerOk(cfg, s.p) && InBounds(cfg, s) && OnlyLeftover(cfg, k, s)
    ensures OnlyLeftover(cfg, k, ProducerStep(cfg, s))
  {
    NextRow(s.p.i, cfg.cols);
    assert Written(cfg, ProducerStep(cfg, s)) == Written(cfg, s) + if s.p.pc.PWrite? then 1 else 0;
    if s.p.pc.PWrite? {
      WriteKeepsRight(cfg, k, Accepted(cfg, s), Written(cfg, s));
    }
  }

  lemma TurnKeepsLeftover(cfg: Config, k: nat, s: State, t: Thread)
    requires ImprovedConfig(cfg) && Always(cfg, s)
    requires CleanBefore(cfg, k) && StreamAt(cfg, k) != OwnAt(cfg, k) && OnlyLeftover(cfg, k, s)
    ensures OnlyLeftover(cfg, k, Turn(cfg, s, t))
  {
    if InBounds(cfg, s) && !Alarmed(s) {
      if t.ProducerThread? {
        ProducerKeepsLeftover(cfg, k, s);
      } else if Reads(s.c.pc) {
        ReadKeepsLeftover(cfg, k, s);
      } else {
        MoveKeepsAccepted(cfg, s);
      }
    }
  }

  lemma {:induction false} AlwaysOnlyLeftover(cfg: Config, schedule: nat -> Thread, run: nat -> State, n: nat, k: nat)
    requires Behavior(cfg, schedule, run) && ImprovedConfig(cfg) && ValidConfig(cfg)
    requires CleanBefore(cfg, k) && StreamAt(cfg, k) != OwnAt(cfg, k)
    ensures OnlyLeftover(cfg, k, run(n))
  {
    if n > 0 {
      AlwaysOnlyLeftover(cfg, schedule, run, n - 1, k);
      EveryRun(cfg, schedule, run, n - 1);
      assert Follows(cfg, schedule, run, n - 1);
      TurnKeepsLeftover(cfg, k, run(n - 1), schedule(n - 1));
    }
  }

  // ---- The exact condition ----

  /** If the first difference of the streams is an element the consumer takes for what was left in its cell, some
      fair run accepts it, and the difference goes unnoticed. */
  lemma DetectionMissedAt(cfg: Config, k: nat) returns (schedule: nat -> Thread, run: nat -> State, n: nat)
    requires ImprovedConfig(cfg) && ValidConfig(cfg) && CleanBefore(cfg, k) && k < cfg.rows * cfg.cols
    requires StreamAt(cfg, k) != OwnAt(cfg, k) == Leftover(cfg, k)
    ensures Fair(schedule) && Accepts(cfg, schedule, run, n, k)
  {
    var m;
    schedule, run, m := EarlyRead(cfg, k);
    n := m + 1;
  }

  /** The first differing element is accepted in no interleaving if and only if the consumer's value for it is
      not the one left in its cell: the element Q before it or, on the first lap, the mark. */
  lemma NeverAcceptedIff(cfg: Config, k: nat)
    requires ImprovedConfig(cfg) && ValidConfig(cfg) && CleanBefore(cfg, k) && k < cfg.rows * cfg.cols
    requires StreamAt(cfg, k) != OwnAt(cfg, k)
    ensures (forall schedule, run, n :: !Accepts(cfg, schedule, run, n, k))
            <==> OwnAt(cfg, k) != if k < cfg.q then ALREADY_CONSUMED else StreamAt(cfg, k - cfg.q)
  {
    if OwnAt(cfg, k) == Leftover(cfg, k) {
      var schedule, run, n := DetectionMissedAt(cfg, k);
    } else {
      forall schedule, run, n: nat ensures !Accepts(cfg, schedule, run, n, k) {
        if Behavior(cfg, schedule, run) {
          AlwaysOnlyLeftover(cfg, schedule, run, n, k);
        }
      }
    }
  }

  // One row of three ones through a ring of two cells; a soft error takes two off the consumer's last value.
  function MissConfig(): Config
  {
    Config(RhtVolatilesImproved, 2, 1, 3, [1, 1, 1], [[1, 1, 1]], [0], [0],
           (i, j) => 0, (i: nat, j: nat) => if j == 2 then -2 else 0, i => 0)
  }

  lemma FirstRow(cfg: Config, j: nat)
    requires j < cfg.cols
    ensures StreamAt(cfg, j) == ProducerSum(cfg, 0, j + 1) && OwnAt(cfg, j) == ConsumerSum(cfg, 0, j + 1)
  {
    assert Index(cfg, 0, j) == j;
    OwnIndex(cfg, 0, j);
    StreamIndex(cfg, 0, j);
  }

  // Within the only row.
  lemma OneRowIsClean(cfg: Config, k: nat)
    requires cfg.rows == 1 && k < cfg.cols
    requires forall j: nat :: j < k ==> CleanElement(cfg, 0, j)
    ensures CleanBefore(cfg, k) && k < cfg.rows * cfg.cols
  {
    forall i: nat, j: nat | i < cfg.rows && j < cfg.cols && Index(cfg, i, j) < k ensures CleanElement(cfg, i, j) {
      assert Index(cfg, 0, j) == j;
    }
    forall i: nat
      ensures i < cfg.rows && Index(cfg, i + 1, 0) <= k ==> PublishedValue(cfg, i) == ConsumerSum(cfg, i, cfg.cols)
    {
      assert i == 0 ==> Index(cfg, i + 1, 0) == cfg.cols;
    }
  }

  // The third element of the first row, and what is left in its cell, on a ring of two cells.
  lemma ThirdElement(cfg: Config)
    requires 2 < cfg.cols && cfg.q == 2
    ensures StreamAt(cfg, 2) == ProducerSum(cfg, 0, 3) && OwnAt(cfg, 2) == ConsumerSum(cfg, 0, 3)
    ensures Leftover(cfg, 2) == ProducerSum(cfg, 0, 1)
  {
    FirstRow(cfg, 2);
    FirstRow(cfg, 0);
  }

  /** The smallest case: the consumer's 1, for an element that is 3, is taken for the 1 two elements before. */
  lemma SmallestMissedDetection(cfg: Config) returns (schedule: nat -> Thread, run: nat -> State, n: nat)
    requires cfg == MissConfig()
    ensures ProducerSum(cfg, 0, 3) == 3 && ConsumerSum(cfg, 0, 3) == 1
    ensures Fair(schedule) && Accepts(cfg, schedule, run, n, 2)
  {
    MissSums();
    ThirdElement(cfg);
    OneRowIsClean(cfg, 2);
    schedule, run, n := DetectionMissedAt(cfg, 2);
  }

  lemma MissSums()
    ensures ProducerSum(MissConfig(), 0, 1) == ConsumerSum(MissConfig(), 0, 1) == 1
    ensures ProducerSum(MissConfig(), 0, 2) == ConsumerSum(MissConfig(), 0, 2) == 2
    ensures ProducerSum(MissConfig(), 0, 3) == 3 && ConsumerSum(MissConfig(), 0, 3) == 1
  {
    assert ProducerSum(MissConfig(), 0, 0) == ConsumerSum(MissConfig(), 0, 0) == 0;
  }
}
