/** Reversal of sequences. */
module Sequences {

  function Reversed<T>(list: seq<T>): (r: seq<T>) {
    if list == [] then [] else Reversed(list[1..]) + [list[0]]
  }

  lemma {:induction false} ReversedAt<T>(list: seq<T>, k: nat)
    requires k < |list|
    ensures |Reversed(list)| == |list| && Reversed(list)[k] == list[|list| - 1 - k]
  {
    if |list| > 1 {
      ReversedAt(list[1..], if k < |list| - 1 then k else 0);
    }
  }

  lemma ReversedSnoc<T>(list: seq<T>, k: nat)
    requires k < |list|
    ensures Reversed(list[..k + 1]) == [list[k]] + Reversed(list[..k])
  {
    if k == 0 {
      assert list[..1][1..] == [];
    } else {
      ReversedSnoc(list[1..], k - 1);
      assert list[..k + 1][1..] == list[1..][..k] && list[..k][1..] == list[1..][..k - 1];
    }
  }

  lemma {:induction false} ReversedMembers<T>(list: seq<T>)
    ensures multiset(Reversed(list)) == multiset(list)
  {
    if list != [] {
      ReversedMembers(list[1..]);
      assert list == [list[0]] + list[1..];
    }
  }
}
