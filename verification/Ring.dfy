/** Index arithmetic of a ring of `q` cells, and what it means for a ring to hold a queue.
    Everything is stated with wrap-around cases instead of `%`; NextIsModulo and PositionIsModulo
    connect the two. */
module Ring {

  // The mark the consumer leaves in a cell it has released (Queues.h).
  const ALREADY_CONSUMED: int := -1

  // The index after `x`.
  function Next(q: nat, x: nat): nat
  {
    if x + 1 == q then 0 else x + 1
  }

  // The index `d` places after `tail`, for d <= q.
  function Slot(q: nat, tail: nat, d: nat): nat
    requires tail < q && d <= q
  {
    if tail + d < q then tail + d else tail + d - q
  }

  // How many places `x` lies after `tail`.
  function Offset(q: nat, tail: nat, x: nat): nat
    requires tail < q && x < q
  {
    if tail <= x then x - tail else x + q - tail
  }

  // The two-branch distance the batched producers compute from a sample of `deqPtr`.
  function Distance(q: nat, enqPtr: nat, deqPtr: nat): nat
    requires enqPtr < q && deqPtr < q
  {
    if enqPtr >= deqPtr then (q - enqPtr) + deqPtr else deqPtr - enqPtr
  }

  // The ring holds `queue`, oldest element in cell `tail`; every other cell is free.
  ghost predicate Holds(q: nat, content: seq<int>, tail: nat, queue: seq<int>)
  {
    && |content| == q
    && tail < q
    && |queue| <= q
    && forall x :: 0 <= x < q ==>
         content[x] == var d := Offset(q, tail, x); if d < |queue| then queue[d] else ALREADY_CONSUMED
  }

  lemma NextIsModulo(q: nat, x: nat)
    requires x < q
    ensures Next(q, x) == (x + 1) % q
  {
    if x + 1 == q {
      assert q % q == 0;
    } else {
      assert (x + 1) % q == x + 1;
    }
  }

  // Advancing a counter by one advances its residue to the next index.
  lemma ModuloSuccessor(q: nat, k: nat)
    requires 0 < q
    ensures k % q < q
    ensures (k + 1) % q == Next(q, k % q)
  {
    var a, r := k / q, k % q;
    assert k == a * q + r;
    if r + 1 == q {
      assert k + 1 == (a + 1) * q by { assert (a + 1) * q == a * q + q; }
      ModuloUnique(q, k + 1, a + 1, 0);
    } else {
      ModuloUnique(q, k + 1, a, r + 1);
    }
  }

  lemma ModuloUnique(q: nat, k: nat, a: nat, r: nat)
    requires r < q
    requires k == a * q + r
    ensures k % q == r
  {
    var b, t := k / q, k % q;
    assert k == b * q + t;
    assert (a - b) * q == t - r;
    assert a - b == 0 by { MultipleIsSmall(q, a - b, t - r); }
  }

  lemma MultipleIsSmall(q: nat, m: int, d: int)
    requires d < q && -d < q
    requires m * q == d
    ensures m == 0
  {
    assert m >= 1 ==> m * q >= q;
    assert m <= -1 ==> m * q <= -1 * q;
  }

  lemma MultipleOrder(q: nat, a: nat, b: nat)
    requires a < b
    ensures a * q + q <= b * q
  {
    assert (b - a - 1) * q >= 0;
    assert b * q == a * q + q + (b - a - 1) * q;
  }

  // Where a pointer that starts at 0 is after `k` advances.
  function Position(q: nat, k: nat): (x: nat)
    requires 0 < q
    ensures x < q
  {
    if k == 0 then 0 else Next(q, Position(q, k - 1))
  }

  lemma {:induction false} PositionIsModulo(q: nat, k: nat)
    requires 0 < q
    ensures Position(q, k) == k % q
  {
    if k == 0 {
      assert 0 % q == 0;
    } else {
      PositionIsModulo(q, k - 1);
      ModuloSuccessor(q, k - 1);
    }
  }

  lemma {:induction false} SlotIsPosition(q: nat, k: nat, d: nat)
    requires 0 < q && d <= q
    ensures Slot(q, Position(q, k), d) == Position(q, k + d)
    decreases d
  {
    if d > 0 {
      SlotIsPosition(q, k, d - 1);
    }
  }

  // Writing the cell behind the youngest element appends; the cell written was free.
  lemma PushKeepsHolds(q: nat, content: seq<int>, tail: nat, queue: seq<int>, value: int)
    requires Holds(q, content, tail, queue)
    requires |queue| < q
    ensures content[Slot(q, tail, |queue|)] == ALREADY_CONSUMED
    ensures Holds(q, content[Slot(q, tail, |queue|) := value], tail, queue + [value])
  {
  }

  // Clearing the oldest cell and stepping past it removes the head.
  lemma PopKeepsHolds(q: nat, content: seq<int>, tail: nat, queue: seq<int>)
    requires Holds(q, content, tail, queue)
    requires |queue| > 0
    ensures content[tail] == queue[0]
    ensures Holds(q, content[tail := ALREADY_CONSUMED], Next(q, tail), queue[1..])
  {
    var content', tail' := content[tail := ALREADY_CONSUMED], Next(q, tail);
    forall x | 0 <= x < q
      ensures content'[x] == var d := Offset(q, tail', x); if d < |queue| - 1 then queue[1..][d] else ALREADY_CONSUMED
    {
      if x != tail {
        assert Offset(q, tail', x) == Offset(q, tail, x) - 1;
      }
    }
  }

  // The oldest cell is free exactly when the queue is empty.
  lemma TailCell(q: nat, content: seq<int>, tail: nat, queue: seq<int>)
    requires Holds(q, content, tail, queue)
    requires ALREADY_CONSUMED !in queue
    ensures content[tail] == ALREADY_CONSUMED <==> queue == []
    ensures queue != [] ==> content[tail] == queue[0]
  {
    assert Offset(q, tail, tail) == 0;
  }

  /** The test that tells full from empty: the cell after the producer's is free exactly when
      at least two cells are free. */
  lemma NextCellFreeIff(q: nat, content: seq<int>, tail: nat, queue: seq<int>)
    requires 2 <= q
    requires Holds(q, content, tail, queue)
    requires ALREADY_CONSUMED !in queue
    ensures content[Next(q, Slot(q, tail, |queue|))] == ALREADY_CONSUMED <==> |queue| + 2 <= q
  {
    var x := Next(q, Slot(q, tail, |queue|));
    var d := Offset(q, tail, x);
    if |queue| + 2 <= q {
      assert d == |queue| + 1;
    } else if |queue| + 1 == q {
      assert d == 0;
    } else {
      assert d == 1;
    }
  }

  // The cell `d` places after the tail, when the tail is counter `first`.
  lemma CellHolds(q: nat, content: seq<int>, queue: seq<int>, first: nat, d: nat)
    requires 0 < q && d < q
    requires Holds(q, content, Position(q, first), queue)
    ensures content[Position(q, first + d)] == if d < |queue| then queue[d] else ALREADY_CONSUMED
  {
    SlotIsPosition(q, first, d);
    assert Offset(q, Position(q, first), Position(q, first + d)) == d;
  }

  // Unless the ring is full, the two-branch distance is the number of free cells.
  lemma DistanceIsFreeCells(q: nat, tail: nat, live: nat)
    requires tail < q && live < q
    ensures Distance(q, Slot(q, tail, live), tail) == q - live
    ensures Slot(q, tail, live) == tail <==> live == 0
  {
  }
}
