/** The in-place reversal by which a release turns the stack of awaiters into a queue. */
module AwaiterList {
  import opened Sequences

  /** A link of the stack. The awaiter that was pushed first links to LOCKED_NO_WAITERS. */
  datatype Link = Null | NoWaiters | To(awaiter: Awaiter)

  class Awaiter {
    var next: Link
  }

  function LinkAt(list: seq<Awaiter>, i: nat, end: Link): Link {
    if i < |list| then To(list[i]) else end
  }

  ghost predicate Linked(list: seq<Awaiter>, head: Link, end: Link)
    reads list
  {
    && head == LinkAt(list, 0, end)
    && forall i :: 0 <= i < |list| ==> list[i].next == LinkAt(list, i + 1, end)
  }

  ghost predicate Distinct(list: seq<Awaiter>) {
    forall i, j :: 0 <= i < j < |list| ==> list[i] != list[j]
  }

  lemma NotYetReversed(stack: seq<Awaiter>, k: nat)
    requires Distinct(stack) && k < |stack|
    ensures forall i :: 0 <= i < |Reversed(stack[..k])| ==> Reversed(stack[..k])[i] in stack && Reversed(stack[..k])[i] != stack[k]
    ensures forall i :: k < i < |stack| ==> stack[i] != stack[k]
  {
    forall i | 0 <= i < |Reversed(stack[..k])|
      ensures Reversed(stack[..k])[i] in stack && Reversed(stack[..k])[i] != stack[k]
    {
      if k != 0 {
        ReversedAt(stack[..k], 0);
        ReversedAt(stack[..k], i);
        assert Reversed(stack[..k])[i] == stack[k - 1 - i];
      }
    }
  }

  /** Awaiter `k` of the stack becomes the first of the reversed list. */
  method MoveFirst(current: Awaiter, head: Link, ghost stack: seq<Awaiter>, ghost k: nat)
    returns (next: Link, head': Link)
    requires Distinct(stack) && k < |stack| && stack[k] == current
    requires Unmoved(stack, k) && Linked(Reversed(stack[..k]), head, Null)
    modifies current
    ensures next == LinkAt(stack, k + 1, NoWaiters)
    ensures Unmoved(stack, k + 1) && Linked(Reversed(stack[..k + 1]), head', Null)
  {
    hide Reversed, Distinct;
    NotYetReversed(stack, k);
    ReversedSnoc(stack, k);
    next := current.next;
    current.next := head;
    head' := To(current);
  }

  /** From awaiter `k` on the stack is as it was. */
  ghost predicate Unmoved(stack: seq<Awaiter>, k: nat)
    reads stack
  {
    forall i :: k <= i < |stack| ==> stack[i].next == LinkAt(stack, i + 1, NoWaiters)
  }

  /** The loop leaves the awaiters linked in reverse. As written it goes on until it meets null, and so
      follows the LOCKED_NO_WAITERS that ends the stack. */
  method ReverseInPlace(asWritten: bool, top: Awaiter, ghost stack: seq<Awaiter>)
    returns (head: Link, crashed: bool)
    requires Linked(stack, To(top), NoWaiters) && Distinct(stack)
    modifies stack
    ensures Linked(Reversed(stack), head, Null)
    ensures crashed <==> asWritten
  {
    hide Reversed, Distinct, Linked, Unmoved;
    var current, more := To(top), true;
    head, crashed := Null, false;
    ghost var k := 0;
    NothingMoved(stack, To(top));
    while more
      invariant 0 <= k <= |stack| && current == LinkAt(stack, k, NoWaiters)
      invariant Unmoved(stack, k)
      invariant Linked(Reversed(stack[..k]), head, Null)
      invariant more <==> asWritten || k < |stack|
      invariant !crashed
      decreases |stack| - k, more
    {
      if !current.To? {
        assert stack[..k] == stack;
        crashed := true;
        return;
      }
      current, head := MoveFirst(current.awaiter, head, stack, k);
      k := k + 1;
      more := current != Null && (asWritten || current != NoWaiters);
    }
    assert stack[..k] == stack;
  }

  lemma NothingMoved(stack: seq<Awaiter>, top: Link)
    requires Linked(stack, top, NoWaiters)
    ensures top == LinkAt(stack, 0, NoWaiters) && Unmoved(stack, 0)
    ensures stack[..0] == [] && Linked(Reversed(stack[..0]), Null, Null)
  {
  }
}
