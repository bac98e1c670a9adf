/** The plain binary search that the two interleaved searches refine. */
module BinarySearch {
  import opened Words

  predicate Sorted(data: seq<int>) {
    forall i, j :: 0 <= i < j < |data| ==> data[i] <= data[j]
  }

  /** The answer of the search on the `len` elements from `first` on, for any data. */
  function Search(data: seq<int>, first: nat, len: nat, val: int): bool
    requires first + len <= |data|
    decreases len
  {
    if len == 0 then false
    else
      var half := len / 2;
      if data[first + half] == val then true
      else if data[first + half] < val then Search(data, first + half + 1, len - half - 1, val)
      else Search(data, first, half, val)
  }

  /** The number of elements the search inspects. */
  function Probes(data: seq<int>, first: nat, len: nat, val: int): nat
    requires first + len <= |data|
    decreases len
  {
    if len == 0 then 0
    else
      var half := len / 2;
      if data[first + half] == val then 1
      else if data[first + half] < val then 1 + Probes(data, first + half + 1, len - half - 1, val)
      else 1 + Probes(data, first, half, val)
  }

  function Hits(data: seq<int>, keys: seq<int>): nat {
    if keys == [] then 0
    else Hits(data, keys[..|keys| - 1]) + if Search(data, 0, |data|, keys[|keys| - 1]) then 1 else 0
  }

  lemma {:induction false} SearchSound(data: seq<int>, first: nat, len: nat, val: int)
    requires first + len <= |data|
    ensures Search(data, first, len, val) ==> val in data[first..first + len]
    decreases len
  {
    if len != 0 {
      var half := len / 2;
      if data[first + half] == val {
        assert data[first..first + len][half] == val;
      } else if data[first + half] < val {
        SearchSound(data, first + half + 1, len - half - 1, val);
        assert data[first..first + len][half + 1..] == data[first + half + 1..first + len];
      } else {
        SearchSound(data, first, half, val);
        assert data[first..first + len][..half] == data[first..first + half];
      }
    }
  }

  lemma {:induction false} SearchComplete(data: seq<int>, first: nat, len: nat, val: int, i: nat)
    requires first + len <= |data| && Sorted(data)
    requires first <= i < first + len && data[i] == val
    ensures Search(data, first, len, val)
    decreases len
  {
    var half := len / 2;
    if data[first + half] < val {
      SearchComplete(data, first + half + 1, len - half - 1, val, i);
    } else if val < data[first + half] {
      SearchComplete(data, first, half, val, i);
    }
  }

  /** On sorted data the search decides membership. */
  lemma SearchDecidesMembership(data: seq<int>, val: int)
    requires Sorted(data)
    ensures Search(data, 0, |data|, val) <==> val in data
  {
    SearchSound(data, 0, |data|, val);
    assert data[0..|data|] == data;
    if val in data {
      var i :| 0 <= i < |data| && data[i] == val;
      SearchComplete(data, 0, |data|, val, i);
    }
  }

  /** At most floor(log2(len)) + 1 elements are inspected. */
  lemma {:induction false} ProbesLogarithmic(data: seq<int>, first: nat, len: nat, val: int)
    requires first + len <= |data|
    ensures var p := Probes(data, first, len, val); p == 0 <==> len == 0
    ensures var p := Probes(data, first, len, val); p != 0 ==> Pow2(p - 1) <= len
    decreases len
  {
    if len != 0 {
      var half := len / 2;
      if data[first + half] < val {
        ProbesLogarithmic(data, first + half + 1, len - half - 1, val);
      } else if val < data[first + half] {
        ProbesLogarithmic(data, first, half, val);
      }
    }
  }

  /** The elements inspected by one search for each key. */
  function AllProbes(data: seq<int>, keys: seq<int>): nat {
    if keys == [] then 0
    else AllProbes(data, keys[..|keys| - 1]) + Probes(data, 0, |data|, keys[|keys| - 1])
  }

  lemma ProbesWithin(data: seq<int>, key: int, k: nat)
    requires |data| < Pow2(k)
    ensures Probes(data, 0, |data|, key) <= k
  {
    ProbesLogarithmic(data, 0, |data|, key);
    if k < Probes(data, 0, |data|, key) {
      Pow2Monotone(k, Probes(data, 0, |data|, key) - 1);
    }
  }

  /** With fewer than 2^k elements, at most k probes for each key. */
  lemma {:induction false} AllProbesLogarithmic(data: seq<int>, keys: seq<int>, k: nat)
    requires |data| < Pow2(k)
    ensures AllProbes(data, keys) <= |keys| * k
  {
    hide Probes, Pow2;
    if keys != [] {
      AllProbesLogarithmic(data, keys[..|keys| - 1], k);
      ProbesWithin(data, keys[|keys| - 1], k);
      OneMore(|keys| - 1, k);
    }
  }

  lemma OneMore(n: nat, k: nat)
    ensures (n + 1) * k == n * k + k
  {
  }

  method VanillaBinarySearch(data: seq<int>, from: nat, to: nat, val: int) returns (found: bool, ghost probes: nat)
    requires from <= to <= |data|
    ensures found == Search(data, from, to - from, val)
    ensures probes == Probes(data, from, to - from, val)
  {
    var first: nat, len: nat := from, to - from;
    probes := 0;
    while 0 < len
      invariant first + len <= to
      invariant Search(data, first, len, val) == Search(data, from, to - from, val)
      invariant probes + Probes(data, first, len, val) == Probes(data, from, to - from, val)
    {
      var half := len / 2;
      var middle := first + half;
      var middleKey := data[middle];
      probes := probes + 1;
      if middleKey < val {
        first := middle + 1;
        len := len - half - 1;
      } else {
        len := half;
      }
      if middleKey == val {
        return true, probes;
      }
    }
    return false, probes;
  }
}
