/** The fixed-depth ring buffer of coroutine handles that both interleaved searches run on. */
module Scheduler {

  function Slot(tail: nat, i: nat, depth: nat): (s: nat)
    requires tail < depth && i <= depth
    ensures s < depth
  {
    if tail + i < depth then tail + i else tail + i - depth
  }

  lemma AdvanceWraps(i: nat, depth: nat)
    requires i < depth
    ensures (i + 1) % depth == Slot(i, 1, depth)
  {
    if i + 1 < depth {
      assert (i + 1) / depth == 0;
    } else {
      assert (i + 1) / depth == 1;
    }
  }

  /** `queue` is what the window from `tail` to `head` stands for. The indices alone cannot tell
      a full window from an empty one, and pushing onto a full window forgets it. */
  class StaticQueueScheduler<H(0)> {
    var head: nat
    var tail: nat
    const buffer: array<H>
    ghost var queue: seq<H>

    ghost predicate Valid()
      reads this, buffer
    {
      && 0 < buffer.Length
      && tail < buffer.Length
      && |queue| <= buffer.Length
      && head == Slot(tail, |queue|, buffer.Length)
      && forall i :: 0 <= i < |queue| ==> buffer[Slot(tail, i, buffer.Length)] == queue[i]
    }

    constructor (depth: nat)
      requires 0 < depth
      ensures Valid() && fresh(buffer) && buffer.Length == depth && queue == []
    {
      buffer := new H[depth];
      head, tail := 0, 0;
      queue := [];
    }

    method Schedule(handle: H)
      requires Valid()
      modifies this, buffer
      ensures Valid()
      ensures queue == (if |old(queue)| < buffer.Length then old(queue) else []) + [handle]
    {
      AdvanceWraps(head, buffer.Length);
      buffer[head] := handle;
      head := (head + 1) % buffer.Length;
      queue := (if |queue| < buffer.Length then queue else []) + [handle];
    }

    method RemoveNextTask() returns (handle: H)
      requires Valid() && queue != []
      modifies this
      ensures Valid() && handle == old(queue)[0] && queue == old(queue)[1..]
    {
      AdvanceWraps(tail, buffer.Length);
      handle := buffer[tail];
      tail := (tail + 1) % buffer.Length;
      queue := queue[1..];
    }

    /** Symmetric transfer: the suspending coroutine goes to the back of the ring and the front
        of the ring runs next. */
    method Exchange(handle: H) returns (next: H)
      requires Valid() && |queue| < buffer.Length
      modifies this, buffer
      ensures Valid()
      ensures [next] + queue == old(queue) + [handle]
    {
      Schedule(handle);
      next := RemoveNextTask();
    }

    /** The guard of `run`: it takes a full window for an empty one. */
    method HasNextTask() returns (more: bool)
      requires Valid()
      ensures more <==> 0 < |queue| < buffer.Length
    {
      more := head != tail;
    }
  }
}
