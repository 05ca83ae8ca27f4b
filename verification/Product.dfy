/** The matrix-vector product itself, and what a replicated run makes of it. */
module Product {
  import opened Ring
  import opened Channel
  import opened Invariant
  import opened Runs
  import opened Fairness

  // The sum of the first `j` terms of row `i`.
  function Dot(cfg: Config, i: nat, j: nat): int
  {
    if j == 0 then 0 else Dot(cfg, i, j - 1) + Term(cfg, i, j - 1)
  }

  /** Vector_Matrix_NotReplicated: the specification of the replicated versions. */
  method NotReplicated(cfg: Config, producerResult: array<int>)
    requires ValidConfig(cfg) && producerResult.Length == cfg.rows
    modifies producerResult
    ensures forall r: nat :: r < cfg.rows ==> producerResult[r] == Dot(cfg, r, cfg.cols)
  {
    for i := 0 to cfg.rows
      invariant forall r: nat :: r < i ==> producerResult[r] == Dot(cfg, r, cfg.cols)
    {
      producerResult[i] := 0;
      for j := 0 to cfg.cols
        invariant forall r: nat :: r < i ==> producerResult[r] == Dot(cfg, r, cfg.cols)
        invariant producerResult[i] == Dot(cfg, i, j)
      {
        producerResult[i] := producerResult[i] + cfg.vector[j] * cfg.matrix[i][j];
      }
    }
  }

  // The same product with x in place of vector[k].
  function WithEntry(cfg: Config, k: nat, x: int): Config
    requires k < |cfg.vector|
  {
    cfg.(vector := cfg.vector[k := x])
  }

  /** The product of a zero vector is zero. */
  lemma {:induction false} ZeroVector(cfg: Config, i: nat, j: nat)
    requires ValidConfig(cfg) && i < cfg.rows && j <= cfg.cols
    requires forall k :: 0 <= k < cfg.cols ==> cfg.vector[k] == 0
    ensures Dot(cfg, i, j) == 0
  {
    if j > 0 {
      ZeroVector(cfg, i, j - 1);
    }
  }

  /** Every entry of the vector counts once, with the weight of its column. With ZeroVector this determines the
      product. */
  lemma {:induction false} EntryCountsOnce(cfg: Config, i: nat, j: nat, k: nat, x: int)
    requires ValidConfig(cfg) && i < cfg.rows && j <= cfg.cols && k < cfg.cols
    ensures Dot(WithEntry(cfg, k, x), i, j) ==
              Dot(cfg, i, j) + if k < j then (x - cfg.vector[k]) * cfg.matrix[i][k] else 0
  {
    if j > 0 {
      EntryCountsOnce(cfg, i, j - 1, k, x);
      if k == j - 1 {
        assert x * cfg.matrix[i][k] - cfg.vector[k] * cfg.matrix[i][k] == (x - cfg.vector[k]) * cfg.matrix[i][k];
      }
    }
  }

  /** On the k-th unit vector row i gives the entry in its column k. */
  lemma UnitVector(cfg: Config, i: nat, k: nat)
    requires ValidConfig(cfg) && i < cfg.rows && k < cfg.cols
    requires forall j :: 0 <= j < cfg.cols ==> cfg.vector[j] == if j == k then 1 else 0
    ensures Dot(cfg, i, cfg.cols) == cfg.matrix[i][k]
  {
    var zero := WithEntry(cfg, k, 0);
    ZeroVector(zero, i, cfg.cols);
    EntryCountsOnce(zero, i, cfg.cols, k, 1);
    assert WithEntry(zero, k, 1).vector == cfg.vector;
    assert WithEntry(zero, k, 1) == cfg;
  }

  // The ranges Vector_Matrix_Init draws from.
  ghost predicate InitRanges(cfg: Config)
  {
    && (forall j :: 0 <= j < |cfg.vector| ==> 1 <= cfg.vector[j] <= 10000)
    && (forall i, j :: 0 <= i < |cfg.matrix| && 0 <= j < |cfg.matrix[i]| ==> 1 <= cfg.matrix[i][j] <= 10000)
  }

  lemma TermRange(cfg: Config, i: nat, j: nat)
    requires ValidConfig(cfg) && InitRanges(cfg) && i < cfg.rows && j < cfg.cols
    ensures 1 <= Term(cfg, i, j) <= 100_000_000
  {
    assert cfg.vector[j] * 1 <= cfg.vector[j] * cfg.matrix[i][j] <= cfg.vector[j] * 10000;
  }

  /** Prefix sums of a row start at 1, strictly increase and stay below cols * 10^8: never the mark of a
      consumed cell, and far inside a 64-bit `long`. */
  lemma {:induction false} DotRange(cfg: Config, i: nat, j: nat)
    requires ValidConfig(cfg) && InitRanges(cfg) && i < cfg.rows && 1 <= j <= cfg.cols
    ensures Dot(cfg, i, j - 1) < Dot(cfg, i, j)
    ensures 1 <= Dot(cfg, i, j) <= j * 100_000_000
    ensures Dot(cfg, i, j) != ALREADY_CONSUMED
  {
    TermRange(cfg, i, j - 1);
    if j > 1 {
      DotRange(cfg, i, j - 1);
    }
  }

  ghost predicate ConsumerHealthy(cfg: Config)
  {
    forall i: nat, j: nat :: cfg.consumerFault(i, j) == 0
  }

  ghost predicate ProducerHealthy(cfg: Config)
  {
    && (forall i: nat, j: nat :: cfg.producerFault(i, j) == 0)
    && (forall i: nat :: cfg.publishFault(i) == 0)
  }

  lemma {:induction false} HealthyConsumerSum(cfg: Config, i: nat, j: nat)
    requires ConsumerHealthy(cfg)
    ensures ConsumerSum(cfg, i, j) == Dot(cfg, i, j)
  {
    if j > 0 {
      HealthyConsumerSum(cfg, i, j - 1);
    }
  }

  lemma {:induction false} HealthyProducerSum(cfg: Config, i: nat, j: nat)
    requires ProducerHealthy(cfg)
    ensures ProducerSum(cfg, i, j) == Dot(cfg, i, j)
  {
    if j > 0 {
      HealthyProducerSum(cfg, i, j - 1);
    }
  }

  /** Values drawn by Vector_Matrix_Init meet the assumption on the sentinel in a fault-free run. */
  lemma FaultFreeHasNoSentinel(cfg: Config)
    requires ValidConfig(cfg) && InitRanges(cfg) && ProducerHealthy(cfg) && ConsumerHealthy(cfg)
    ensures NoSentinel(cfg)
  {
    forall i: nat, j: nat | i < cfg.rows && 1 <= j <= cfg.cols
      ensures ProducerSum(cfg, i, j) != ALREADY_CONSUMED && ConsumerSum(cfg, i, j) != ALREADY_CONSUMED
    {
      DotRange(cfg, i, j);
      HealthyProducerSum(cfg, i, j);
      HealthyConsumerSum(cfg, i, j);
    }
  }

  /** No silent corruption: as long as one of the two threads computes correctly, whatever soft errors hit
      the other, every row either thread has stored is the true product. */
  lemma StoredRowsAreCorrect(cfg: Config, schedule: nat -> Thread, run: nat -> State, n: nat, r: nat)
    requires Behavior(cfg, schedule, run)
    requires Checked(cfg) && (ConsumerHealthy(cfg) || ProducerHealthy(cfg)) && r < cfg.rows
    ensures var s := run(n);
            && |s.producerResult| == |s.consumerResult| == cfg.rows
            && (r < s.p.i ==> s.producerResult[r] == Dot(cfg, r, cfg.cols))
            && (r < s.c.i ==> s.consumerResult[r] == Dot(cfg, r, cfg.cols))
  {
    StoredRowsAgree(cfg, schedule, run, n);
    var s := run(n);
    if r < s.p.i || r < s.c.i {
      assert RowAgrees(cfg, r);
      assert ProducerSum(cfg, r, cfg.cols) == ConsumerSum(cfg, r, cfg.cols);
      if ConsumerHealthy(cfg) {
        HealthyConsumerSum(cfg, r, cfg.cols);
      } else {
        HealthyProducerSum(cfg, r, cfg.cols);
      }
    }
  }

  lemma FaultFreeAgrees(cfg: Config)
    requires ProducerHealthy(cfg) && ConsumerHealthy(cfg)
    ensures Scan(cfg, 0, 0) == Agree
  {
    ScanFindsFirst(cfg, 0, 0);
    forall r: nat, k: nat ensures ProducerSum(cfg, r, k) == ConsumerSum(cfg, r, k) {
      HealthyProducerSum(cfg, r, k);
      HealthyConsumerSum(cfg, r, k);
    }
  }

  /** In no interleaving of a fault-free run is an alarm reachable. */
  lemma FaultFreeNeverAlarms(cfg: Config, schedule: nat -> Thread, run: nat -> State, n: nat)
    requires Behavior(cfg, schedule, run)
    requires Checked(cfg) && ProducerHealthy(cfg) && ConsumerHealthy(cfg)
    ensures !Alarmed(run(n))
  {
    if Alarmed(run(n)) {
      AlarmIsFirstDifference(cfg, schedule, run, n);
      FaultFreeAgrees(cfg);
    }
  }

  /** End to end: every fair fault-free run of either mode finishes, and both result vectors are then the
      one the unreplicated version computes. */
  lemma FaultFreeRunComputesProduct(cfg: Config, schedule: nat -> Thread, run: nat -> State) returns (stop: nat)
    requires Behavior(cfg, schedule, run)
    requires Checked(cfg) && ProducerHealthy(cfg) && ConsumerHealthy(cfg) && Fair(schedule)
    ensures var s := run(stop);
            && Finished(s)
            && s.producerResult == s.consumerResult == seq(cfg.rows, (r: nat) => Dot(cfg, r, cfg.cols))
  {
    stop := FairRunsDecide(cfg, schedule, run);
    FaultFreeNeverAlarms(cfg, schedule, run, stop);
    forall r: nat ensures ProducerSum(cfg, r, cfg.cols) == ConsumerSum(cfg, r, cfg.cols) == Dot(cfg, r, cfg.cols) {
      HealthyProducerSum(cfg, r, cfg.cols);
      HealthyConsumerSum(cfg, r, cfg.cols);
    }
  }

  // ---- A single soft error ----

  // The only soft error is at element (i, j), in one of the threads.
  ghost predicate HitOnlyAt(cfg: Config, i: nat, j: nat)
  {
    && cfg.producerFault(i, j) != cfg.consumerFault(i, j)
    && (forall r: nat, c: nat :: r != i || c != j ==> cfg.producerFault(r, c) == cfg.consumerFault(r, c) == 0)
    && (forall r: nat :: cfg.publishFault(r) == 0)
  }

  lemma {:induction false} SumsAfterHit(cfg: Config, i: nat, j: nat, r: nat, c: nat)
    requires HitOnlyAt(cfg, i, j)
    ensures ProducerSum(cfg, r, c) - ConsumerSum(cfg, r, c) ==
              if r == i && j < c then cfg.producerFault(i, j) - cfg.consumerFault(i, j) else 0
  {
    if c > 0 {
      SumsAfterHit(cfg, i, j, r, c - 1);
    }
  }

  // The sequential comparison stops where the error struck.
  lemma ScanFindsHit(cfg: Config, i: nat, j: nat)
    requires HitOnlyAt(cfg, i, j) && i < cfg.rows && j < cfg.cols
    ensures Scan(cfg, 0, 0) == ElementFault(i, j)
  {
    ScanFindsFirst(cfg, 0, 0);
    forall r: nat, c: nat
      ensures ProducerSum(cfg, r, c) == ConsumerSum(cfg, r, c) <==> r != i || c <= j
    {
      SumsAfterHit(cfg, i, j, r, c);
    }
    assert !RowAgrees(cfg, i) by {
      assert ProducerSum(cfg, i, j + 1) != ConsumerSum(cfg, i, j + 1);
    }
    assert ProducerSum(cfg, i, j + 1) != ConsumerSum(cfg, i, j + 1);
  }

  /** A single soft error in either thread's accumulation is caught at the very element it strikes, in every fair
      run of either mode, with exactly the rows before it stored. */
  lemma SingleErrorIsCaught(cfg: Config, schedule: nat -> Thread, run: nat -> State, i: nat, j: nat)
    returns (stop: nat)
    requires Behavior(cfg, schedule, run)
    requires Checked(cfg) && Fair(schedule) && HitOnlyAt(cfg, i, j) && i < cfg.rows && j < cfg.cols
    ensures var s := run(stop);
            && s.c.pc.CMismatch? && s.c.i == i && s.c.j == j
            && ProducerStored(cfg, s.producerResult, i) && ConsumerStored(cfg, s.consumerResult, i)
  {
    ScanFindsHit(cfg, i, j);
    stop := FairRunsDecide(cfg, schedule, run);
    AlarmIsFirstDifference(cfg, schedule, run, stop);
  }

  /** A single soft error in the value published for a row is caught by the check at the end of that row. */
  lemma PublishedErrorIsCaught(cfg: Config, schedule: nat -> Thread, run: nat -> State, i: nat) returns (stop: nat)
    requires Behavior(cfg, schedule, run)
    requires Checked(cfg) && Fair(schedule) && i < cfg.rows && ConsumerHealthy(cfg)
    requires forall r: nat, c: nat :: cfg.producerFault(r, c) == 0
    requires forall r: nat :: cfg.publishFault(r) != 0 <==> r == i
    ensures var s := run(stop);
            && s.c.pc.CVolatileMismatch? && s.c.i == i
            && ProducerStored(cfg, s.producerResult, i) && ConsumerStored(cfg, s.consumerResult, i)
  {
    forall r: nat, c: nat ensures ProducerSum(cfg, r, c) == ConsumerSum(cfg, r, c) {
      SumsWithoutHit(cfg, r, c);
    }
    ScanFindsFirst(cfg, 0, 0);
    assert !RowAgrees(cfg, i);
    stop := FairRunsDecide(cfg, schedule, run);
    AlarmIsFirstDifference(cfg, schedule, run, stop);
  }

  lemma {:induction false} SumsWithoutHit(cfg: Config, r: nat, c: nat)
    requires ConsumerHealthy(cfg) && forall i: nat, j: nat :: cfg.producerFault(i, j) == 0
    ensures ProducerSum(cfg, r, c) == ConsumerSum(cfg, r, c)
  {
    if c > 0 {
      SumsWithoutHit(cfg, r, c - 1);
    }
  }
}
