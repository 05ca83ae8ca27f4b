/** SimpleSyncQueue (Queues.c) as one thread sees it while the other rests: a ring in which a cell that
    holds the mark is free. */
module SyncQueue {
  import opened Ring

  class SimpleSyncQueue {
    const content: array<int>
    var enqPtr: nat
    var deqPtr: nat
    ghost var elements: seq<int>  // oldest first

    predicate Shaped()
      reads this
    {
      2 <= content.Length && enqPtr < content.Length && deqPtr < content.Length
    }

    // A queue of values other than the mark.
    ghost predicate Valid()
      reads this, content
    {
      && Shaped()
      && Holds(content.Length, content[..], deqPtr, elements)
      && |elements| < content.Length
      && enqPtr == Slot(content.Length, deqPtr, |elements|)
      && ALREADY_CONSUMED !in elements
    }

    // SimpleSyncQueue_Init
    constructor (q: nat)
      requires 2 <= q
      ensures Valid() && fresh(content) && content.Length == q && elements == []
    {
      content := new int[q](_ => ALREADY_CONSUMED);
      enqPtr, deqPtr, elements := 0, 0, [];
    }

    /** SimpleSyncQueue_Enqueue: it spins while fewer than two cells are free, so one cell always stays
        free and a full ring never looks empty. Enqueuing the mark itself leaves every cell as it was and
        moves `enqPtr` on, so the queue holds nothing new and its pointers no longer enclose it. */
    method Enqueue(value: int) returns (blocked: bool)
      requires Shaped()
      modifies this`enqPtr, this`elements, content
      ensures Shaped()
      ensures blocked <==> old(content[Next(content.Length, enqPtr)]) != ALREADY_CONSUMED
      ensures content[..] == if blocked then old(content[..]) else old(content[..])[old(enqPtr) := value]
      ensures enqPtr == if blocked then old(enqPtr) else Next(content.Length, old(enqPtr))
      ensures old(Valid()) ==> (blocked <==> |old(elements)| + 1 == content.Length)
      ensures old(Valid()) && value != ALREADY_CONSUMED ==>
                Valid() && elements == if blocked then old(elements) else old(elements) + [value]
      ensures old(Valid()) && value == ALREADY_CONSUMED && !blocked ==>
                && content[..] == old(content[..]) && elements == old(elements)
                && enqPtr == Slot(content.Length, deqPtr, |elements| + 1) && !Valid()
    {
      var q := content.Length;
      NextIsModulo(q, enqPtr);
      ghost var before, valid := content[..], Valid();
      if valid {
        NextCellFreeIff(q, content[..], deqPtr, elements);
      }
      var nextEnqPtr := (enqPtr + 1) % q;
      if content[nextEnqPtr] != ALREADY_CONSUMED {
        return true;
      }
      if valid {
        PushKeepsHolds(q, content[..], deqPtr, elements, value);
      }
      content[enqPtr] := value;
      assert content[..] == before[enqPtr := value];
      enqPtr := nextEnqPtr;
      if valid && value != ALREADY_CONSUMED {
        elements := elements + [value];
      }
      blocked := false;
    }

    /** SimpleSyncQueue_Dequeue: the oldest element, or the mark when there is none. */
    method Dequeue() returns (value: int)
      requires Shaped()
      modifies this`deqPtr, this`elements, content
      ensures Shaped()
      ensures value == old(content[deqPtr])
      ensures content[..] == old(content[..])[old(deqPtr) := ALREADY_CONSUMED]
      ensures deqPtr == if value == ALREADY_CONSUMED then old(deqPtr) else Next(content.Length, old(deqPtr))
      ensures old(Valid()) ==> Valid() && (value == ALREADY_CONSUMED <==> old(elements) == [])
      ensures old(Valid()) ==> if old(elements) == [] then elements == [] else old(elements) == [value] + elements
    {
      var q := content.Length;
      ghost var before, valid := content[..], Valid();
      if valid {
        TailCell(q, content[..], deqPtr, elements);
      }
      value := content[deqPtr];
      if value != ALREADY_CONSUMED {
        if valid {
          PopKeepsHolds(q, content[..], deqPtr, elements);
          elements := elements[1..];
        }
        NextIsModulo(q, deqPtr);
        content[deqPtr] := ALREADY_CONSUMED;
        assert content[..] == before[deqPtr := ALREADY_CONSUMED];
        deqPtr := (deqPtr + 1) % q;
      }
    }
  }
}
