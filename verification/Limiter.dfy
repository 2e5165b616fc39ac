/** The stage that drops batches instead of waiting for a full queue (pkg/flow/limiter.go). */
module Limiter {
  import opened Words

  /** The number of records in the batches. */
  function Records<T>(batches: seq<seq<T>>): nat {
    if batches == [] then 0 else Records(batches[..|batches| - 1]) + |batches[|batches| - 1]|
  }

  /** `kept` is what remains of `all` when some of its elements are left out. */
  ghost predicate Subsequence<T>(kept: seq<T>, all: seq<T>) {
    if all == [] then kept == []
    else
      var front, last := all[..|all| - 1], all[|all| - 1];
      || Subsequence(kept, front)
      || (kept != [] && kept[|kept| - 1] == last && Subsequence(kept[..|kept| - 1], front))
  }

  lemma SubsequenceStep<T>(kept: seq<T>, all: seq<T>, x: T)
    requires Subsequence(kept, all)
    ensures Subsequence(kept, all + [x]) && Subsequence(kept + [x], all + [x])
  {
    assert (all + [x])[..|all|] == all && (kept + [x])[..|kept|] == kept;
  }

  lemma RecordsStep<T>(batches: seq<seq<T>>, b: seq<T>)
    ensures Records(batches + [b]) == Records(batches) + |b|
  {
    assert (batches + [b])[..|batches|] == batches;
  }

  /**
   * The limiter, the queue it writes to and the reader of that queue. `taken` is what the reader got.
   * With capacity 0 a send waits for the reader and hands the batch over directly.
   */
  class Limiter<T> {
    const capacity: nat
    var queue: seq<seq<T>>
    var taken: seq<seq<T>>
    var droppedCounter: nat
    ghost var received: seq<seq<T>>

    ghost predicate Valid()
      reads this
    {
      && |queue| <= capacity
      && Subsequence(taken + queue, received)
      && Records(received) == Records(taken + queue) + droppedCounter
    }

    constructor (capacity: nat)
      ensures Valid() && this.capacity == capacity && droppedCounter == 0
      ensures queue == [] && taken == [] && received == []
    {
      this.capacity := capacity;
      queue, taken, droppedCounter, received := [], [], 0, [];
    }

    /** The reader takes up to n batches. */
    method Read(n: nat)
      requires Valid()
      modifies this`queue, this`taken
      ensures Valid() && taken + queue == old(taken + queue) && |queue| == Max(0, |old(queue)| - n)
    {
      var k := if n < |queue| then n else |queue|;
      assert taken + queue == (taken + queue[..k]) + queue[k..];
      taken, queue := taken + queue[..k], queue[k..];
    }

    /** A send that does not have to wait: there is room, or the queue has no buffer and the reader is there. */
    method Send(b: seq<T>)
      requires Valid() && (|queue| < capacity || capacity == 0)
      modifies this`queue, this`taken
      ensures taken + queue == old(taken + queue) + [b] && |queue| <= capacity
    {
      if capacity == 0 {
        assert taken + [b] + queue == taken + queue + [b];
        taken := taken + [b];
      } else {
        assert taken + (queue + [b]) == taken + queue + [b];
        queue := queue + [b];
      }
    }

    /** One turn of the loop: the reader may take batches before the test and between the test and the send. */
    method Offer(b: seq<T>, before: nat, between: nat) returns (sent: bool)
      requires Valid()
      modifies this
      ensures Valid() && received == old(received) + [b]
      ensures taken + queue == if sent then old(taken + queue) + [b] else old(taken + queue)
      ensures droppedCounter == if sent then old(droppedCounter) else old(droppedCounter) + |b|
      ensures sent <==> capacity == 0 || Max(0, |old(queue)| - before) < capacity
    {
      Read(before);
      SubsequenceStep(taken + queue, received, b);
      RecordsStep(received, b);
      RecordsStep(taken + queue, b);
      if |queue| < capacity || capacity == 0 {
        Read(between);
        Send(b);
        sent := true;
      } else {
        droppedCounter := droppedCounter + |b|;
        sent := false;
      }
      received := received + [b];
    }

    /** Limit, with the reader's moves given for every turn. */
    method Limit(inputs: seq<seq<T>>, before: seq<nat>, between: seq<nat>)
      requires Valid() && |before| == |between| == |inputs|
      modifies this
      ensures Valid() && received == old(received) + inputs
      ensures old(taken + queue) <= taken + queue
    {
      for i := 0 to |inputs|
        invariant Valid() && received == old(received) + inputs[..i]
        invariant old(taken + queue) <= taken + queue
      {
        var sent := Offer(inputs[i], before[i], between[i]);
        assert inputs[..i + 1] == inputs[..i] + [inputs[i]];
      }
      assert inputs[..|inputs|] == inputs;
    }
  }
}
