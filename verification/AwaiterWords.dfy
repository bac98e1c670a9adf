/** The pointer-sized words that coroutines on a primitive are linked by, and the lists they form.
    Awaiter `a` is at address `Addr(a)`; its link is kept in a map, so that steps are on values. */
module AwaiterWords {

  /** Null, the one address that a primitive sets apart, or the address of an awaiter. */
  datatype Word = Null | Mark | Addr(id: nat)

  function WordAt(ids: seq<nat>, i: nat, end: Word): Word {
    if i < |ids| then Addr(ids[i]) else end
  }

  /** From `head` the links lead through the awaiters `ids` to `end`. */
  ghost predicate Linked(next: map<nat, Word>, ids: seq<nat>, head: Word, end: Word) {
    && head == WordAt(ids, 0, end)
    && forall i :: 0 <= i < |ids| ==> ids[i] in next && next[ids[i]] == WordAt(ids, i + 1, end)
  }

  lemma LinkedElsewhere(next: map<nat, Word>, ids: seq<nat>, head: Word, end: Word, a: nat, w: Word)
    requires Linked(next, ids, head, end) && a !in ids
    ensures Linked(next[a := w], ids, head, end)
  {
  }

  lemma LinkedCons(next: map<nat, Word>, ids: seq<nat>, head: Word, end: Word, a: nat)
    requires Linked(next, ids, head, end) && a !in ids
    ensures Linked(next[a := head], [a] + ids, Addr(a), end)
  {
  }

  lemma LinkedTail(next: map<nat, Word>, ids: seq<nat>, head: Word, end: Word)
    requires Linked(next, ids, head, end) && ids != []
    ensures head == Addr(ids[0]) && ids[0] in next && Linked(next, ids[1..], next[ids[0]], end)
    ensures ids == [ids[0]] + ids[1..]
  {
    var rest := ids[1..];
    forall i | 0 <= i < |rest|
      ensures rest[i] in next && next[rest[i]] == WordAt(rest, i + 1, end)
    {
      assert rest[i] == ids[i + 1];
    }
  }

  lemma LinkedHead(next: map<nat, Word>, ids: seq<nat>, head: Word, end: Word)
    requires Linked(next, ids, head, end)
    ensures head == WordAt(ids, 0, end)
  {
  }
}
