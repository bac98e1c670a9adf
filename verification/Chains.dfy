/** Bucket chains: sequences of entries, and the shape a table made of them keeps. */
module Chains {
  import opened Words

  class Entry<K(==), V> {
    var next: Entry?<K, V>
    const key: K
    var value: V

    constructor (key: K, value: V)
      ensures this.key == key && this.value == value && next == null
    {
      this.key, this.value, this.next := key, value, null;
    }
  }

  type Chain<K, V> = seq<Entry<K, V>>

  function BucketIndex<K>(hasher: K -> nat, key: K, capacity: nat): nat
    requires 0 < capacity
  {
    And(hasher(key), capacity - 1)
  }

  ghost predicate PowerOfTwo(n: nat) {
    exists k: nat :: n == Pow2(k)
  }

  /** With a power of two as capacity the mask is the remainder, so the index is in range. */
  lemma BucketIndexIsRemainder<K>(hasher: K -> nat, key: K, capacity: nat)
    requires PowerOfTwo(capacity)
    ensures BucketIndex(hasher, key, capacity) == hasher(key) % capacity < capacity
    ensures BucketIndex(hasher, key, 2 * capacity) % capacity == BucketIndex(hasher, key, capacity)
    ensures BucketIndex(hasher, key, 2 * capacity) < 2 * capacity && PowerOfTwo(2 * capacity)
  {
    var k: nat :| capacity == Pow2(k);
    AndMask(hasher(key), k);
    AndMask(hasher(key), k + 1);
    DoubledMask(hasher(key), k);
  }

  lemma ShapeChain<K, V>(hasher: K -> nat, chains: seq<Chain<K, V>>, entries: set<Entry<K, V>>, i: nat)
    requires Shape(hasher, chains, entries) && i < |chains|
    ensures ChainOk(hasher, |chains|, chains[i], i, entries) && PowerOfTwo(|chains|)
    ensures forall j :: 0 <= j < |chains[i]| ==>
              chains[i][j] in entries && BucketIndex(hasher, chains[i][j].key, |chains|) == i
  {
  }

  function Keys<K, V>(c: Chain<K, V>): (ks: seq<K>)
    ensures |ks| == |c| && forall i :: 0 <= i < |c| ==> ks[i] == c[i].key
  {
    seq(|c|, i requires 0 <= i < |c| => c[i].key)
  }

  /** Chain number `i` holds entries at home in bucket `i`, no two with the same key. */
  ghost predicate ChainOk<K, V>(hasher: K -> nat, capacity: nat, c: Chain<K, V>, i: nat, entries: set<Entry<K, V>>)
    requires 0 < capacity
  {
    && (forall j :: 0 <= j < |c| ==> c[j] in entries && BucketIndex(hasher, c[j].key, capacity) == i)
    && (forall j, m :: 0 <= j < m < |c| ==> c[j].key != c[m].key)
  }

  ghost predicate Shape<K, V>(hasher: K -> nat, chains: seq<Chain<K, V>>, entries: set<Entry<K, V>>) {
    && PowerOfTwo(|chains|)
    && forall i :: 0 <= i < |chains| ==> ChainOk(hasher, |chains|, chains[i], i, entries)
  }

  function Total<K, V>(chains: seq<Chain<K, V>>): nat {
    if chains == [] then 0 else |chains[0]| + Total(chains[1..])
  }

  lemma {:induction false} TotalUpdate<K, V>(chains: seq<Chain<K, V>>, i: nat, c: Chain<K, V>)
    requires i < |chains|
    ensures Total(chains[i := c]) + |chains[i]| == Total(chains) + |c|
  {
    if i == 0 {
      assert chains[i := c][1..] == chains[1..];
    } else {
      assert chains[i := c][1..] == chains[1..][i - 1 := c];
      TotalUpdate(chains[1..], i - 1, c);
    }
  }

  function EntryAt<K, V>(c: Chain<K, V>, i: nat): Entry?<K, V> {
    if i < |c| then c[i] else null
  }

  ghost predicate Linked<K, V>(c: Chain<K, V>, first: Entry?<K, V>)
    reads c`next
  {
    && first == EntryAt(c, 0)
    && forall i :: 0 <= i < |c| ==> c[i].next == EntryAt(c, i + 1)
  }

  /** The head of a chain, kept by value in the bucket array. */
  datatype Bucket<K(==), V> = Bucket(first: Entry?<K, V>, nItems: nat)

  /** The buckets and the `next` pointers lay out the chains. */
  ghost predicate LaidOut<K, V>(chains: seq<Chain<K, V>>, entries: set<Entry<K, V>>, buckets: array<Bucket<K, V>>)
    reads buckets, entries`next
  {
    && buckets.Length == |chains|
    && forall i :: 0 <= i < |chains| ==>
         (forall e :: e in chains[i] ==> e in entries)
         && Linked(chains[i], buckets[i].first) && buckets[i].nItems == |chains[i]|
  }

  /** The values of a chain are those of the finite map. */
  ghost predicate Holds<K, V>(c: Chain<K, V>, contents: map<K, V>)
    reads c`value
  {
    forall j :: 0 <= j < |c| ==> c[j].key in contents && contents[c[j].key] == c[j].value
  }

  /** The keys of the finite map are all found in their home chains. */
  ghost predicate Covers<K, V>(hasher: K -> nat, chains: seq<Chain<K, V>>, contents: map<K, V>) {
    forall k :: k in contents ==> k in Keys(ChainOf(hasher, chains, k))
  }

  ghost predicate Represents<K, V>(
    hasher: K -> nat, chains: seq<Chain<K, V>>, entries: set<Entry<K, V>>, contents: map<K, V>)
    reads entries`value
  {
    && (forall i :: 0 <= i < |chains| ==> (forall e :: e in chains[i] ==> e in entries) && Holds(chains[i], contents))
    && Covers(hasher, chains, contents)
  }

  function ChainOf<K, V>(hasher: K -> nat, chains: seq<Chain<K, V>>, key: K): Chain<K, V> {
    if 0 < |chains| && BucketIndex(hasher, key, |chains|) < |chains|
    then chains[BucketIndex(hasher, key, |chains|)]
    else []
  }

  lemma ChainsApart<K, V>(hasher: K -> nat, chains: seq<Chain<K, V>>, entries: set<Entry<K, V>>, i: nat, j: nat)
    requires Shape(hasher, chains, entries) && i < |chains| && j < |chains|
    ensures i != j ==> forall e :: e in chains[i] ==> e !in chains[j]
    ensures forall e :: e in chains[i] ==> e in entries
    ensures forall e :: e in chains[j] ==> e in entries
  {
  }

  lemma ShapeAppend<K, V>(
    hasher: K -> nat, chains: seq<Chain<K, V>>, entries: set<Entry<K, V>>, i: nat, e: Entry<K, V>)
    requires Shape(hasher, chains, entries) && i < |chains|
    requires BucketIndex(hasher, e.key, |chains|) == i && e.key !in Keys(chains[i])
    ensures Shape(hasher, chains[i := chains[i] + [e]], entries + {e})
  {
    var chains' := chains[i := chains[i] + [e]];
    forall j | 0 <= j < |chains'|
      ensures ChainOk(hasher, |chains'|, chains'[j], j, entries + {e})
    {
      assert ChainOk(hasher, |chains|, chains[j], j, entries);
    }
  }

  lemma CoversAppend<K, V>(
    hasher: K -> nat, chains: seq<Chain<K, V>>, contents: map<K, V>, i: nat, e: Entry<K, V>, value: V)
    requires i < |chains| && BucketIndex(hasher, e.key, |chains|) == i && Covers(hasher, chains, contents)
    ensures Covers(hasher, chains[i := chains[i] + [e]], contents[e.key := value])
  {
    var chains' := chains[i := chains[i] + [e]];
    forall k | k in contents[e.key := value]
      ensures k in Keys(ChainOf(hasher, chains', k))
    {
      if k == e.key {
        assert Keys(chains'[i])[|chains[i]|] == k;
      } else if BucketIndex(hasher, k, |chains|) == i {
        assert Keys(chains'[i]) == Keys(chains[i]) + [e.key];
      } else {
        assert ChainOf(hasher, chains', k) == ChainOf(hasher, chains, k);
      }
    }
  }

  lemma HoldsAppend<K, V>(c: Chain<K, V>, contents: map<K, V>, e: Entry<K, V>)
    requires Holds(c, contents) && e.key !in contents
    ensures e.key !in Keys(c)
    ensures Holds(c, contents[e.key := e.value]) && Holds(c + [e], contents[e.key := e.value])
  {
  }

  /** Link a new entry behind the last one; an empty chain starts with it. */
  method LinkBehind<K(==), V>(first: Entry?<K, V>, last: Entry?<K, V>, e: Entry<K, V>, ghost c: Chain<K, V>)
    returns (first': Entry?<K, V>)
    requires Linked(c, first) && e !in c && e.next == null
    requires last == if c == [] then null else c[|c| - 1]
    modifies (if last == null then {} else {last})`next
    ensures Linked(c + [e], first')
  {
    if last == null {
      first' := e;
    } else {
      last.next := e;
      first' := first;
    }
  }

  /** The entries of a chain that a lookup compares from place `p` on: up to the key, or all. */
  function Compared<K(==), V>(c: Chain<K, V>, key: K, p: nat): (n: nat)
    ensures 0 < n <==> p < |c|
    decreases |c| - p
  {
    if |c| <= p then 0 else if c[p].key == key then 1 else 1 + Compared(c, key, p + 1)
  }

  lemma NoneCompared<K, V>(c: Chain<K, V>, key: K)
    ensures c == [] ==> Compared(c, key, 0) == 0
  {
  }

  lemma ComparedHere<K, V>(c: Chain<K, V>, key: K, p: nat)
    requires p < |c|
    ensures Compared(c, key, p) == if c[p].key == key then 1 else 1 + Compared(c, key, p + 1)
    ensures p + 1 == |c| ==> Compared(c, key, p + 1) == 0
    ensures c[p].key == key ==> key in Keys(c)
  {
    assert Keys(c)[p] == c[p].key;
  }

  /** The loop of all operations: walk a chain to the entry with the key, or else to its end. */
  method Walk<K(==), V>(first: Entry<K, V>, key: K, ghost c: Chain<K, V>)
    returns (entry: Entry<K, V>, hit: bool, ghost p: nat)
    requires c != [] && Linked(c, first)
    ensures p < |c| && entry == c[p]
    ensures hit <==> entry.key == key
    ensures !hit ==> p + 1 == |c| && key !in Keys(c)
    ensures Compared(c, key, 0) == p + 1
  {
    hide Keys, Compared;
    entry, p := first, 0;
    NoneBefore(c, key);
    while true
      invariant p < |c| && entry == c[p]
      invariant NotAmong(c, key, p)
      invariant Compared(c, key, 0) == p + Compared(c, key, p)
      decreases |c| - p
    {
      ComparedHere(c, key, p);
      if key == entry.key {
        return entry, true, p;
      }
      NotHere(c, key, p);
      if entry.next == null {
        break;
      }
      entry := entry.next;
      p := p + 1;
    }
    hit := false;
  }

  /** The key is not among the first `p` of the chain. */
  ghost predicate NotAmong<K, V>(c: Chain<K, V>, key: K, p: nat) {
    p <= |c| && key !in Keys(c)[..p]
  }

  lemma NoneBefore<K, V>(c: Chain<K, V>, key: K)
    ensures NotAmong(c, key, 0)
  {
  }

  lemma NotHere<K, V>(c: Chain<K, V>, key: K, p: nat)
    requires p < |c| && NotAmong(c, key, p) && c[p].key != key
    ensures NotAmong(c, key, p + 1)
    ensures p + 1 == |c| ==> key !in Keys(c)
  {
    assert Keys(c)[..p] + [c[p].key] == Keys(c)[..p + 1];
    assert Keys(c)[..|c|] == Keys(c);
  }

  /** The entries of a chain that are at home in bucket `j` of a table of the given capacity. */
  function Filter<K, V>(hasher: K -> nat, capacity: nat, c: Chain<K, V>, j: nat): Chain<K, V>
    requires 0 < capacity
  {
    if c == [] then []
    else
      var last := c[|c| - 1];
      Filter(hasher, capacity, c[..|c| - 1], j) + if BucketIndex(hasher, last.key, capacity) == j then [last] else []
  }

  /** The table after doubling, chain by chain and in order. */
  function Split<K, V>(hasher: K -> nat, chains: seq<Chain<K, V>>): (chains': seq<Chain<K, V>>)
    ensures |chains'| == 2 * |chains|
  {
    seq(2 * |chains|, j requires 0 <= j < 2 * |chains| =>
      Filter(hasher, 2 * |chains|, chains[j % |chains|], j))
  }

  lemma {:induction false} FilterMembers<K, V>(hasher: K -> nat, capacity: nat, c: Chain<K, V>, j: nat)
    requires 0 < capacity
    ensures forall e :: e in Filter(hasher, capacity, c, j) <==> e in c && BucketIndex(hasher, e.key, capacity) == j
  {
    if c != [] {
      FilterMembers(hasher, capacity, c[..|c| - 1], j);
      assert c == c[..|c| - 1] + [c[|c| - 1]];
    }
  }

  /** The table while it is being doubled: the chains before `i` are done, of chain `i` the first `p`. */
  ghost predicate PartlySplit<K, V>(hasher: K -> nat, chains: seq<Chain<K, V>>, chains': seq<Chain<K, V>>, i: nat, p: nat)
    requires i < |chains| ==> p <= |chains[i]|
  {
    && |chains'| == 2 * |chains|
    && forall j :: 0 <= j < |chains'| ==>
         var b := j % |chains|;
         chains'[j] == if b < i then Filter(hasher, |chains'|, chains[b], j)
                       else if b == i then Filter(hasher, |chains'|, chains[b][..p], j)
                       else []
  }

  lemma PartlySplitStep<K, V>(hasher: K -> nat, chains: seq<Chain<K, V>>, chains': seq<Chain<K, V>>, i: nat, p: nat, home: nat)
    requires PowerOfTwo(|chains|) && i < |chains| && p < |chains[i]| && PartlySplit(hasher, chains, chains', i, p)
    requires BucketIndex(hasher, chains[i][p].key, |chains|) == i
    requires home == BucketIndex(hasher, chains[i][p].key, 2 * |chains|)
    ensures home < |chains'| && PartlySplit(hasher, chains, chains'[home := chains'[home] + [chains[i][p]]], i, p + 1)
  {
    BucketIndexIsRemainder(hasher, chains[i][p].key, |chains|);
    assert chains[i][..p + 1][..p] == chains[i][..p];
  }

  lemma PartlySplitNext<K, V>(hasher: K -> nat, chains: seq<Chain<K, V>>, chains': seq<Chain<K, V>>, i: nat)
    requires i < |chains| && PartlySplit(hasher, chains, chains', i, |chains[i]|)
    ensures PartlySplit(hasher, chains, chains', i + 1, 0)
  {
    assert chains[i][..|chains[i]|] == chains[i];
    if i + 1 < |chains| {
      assert chains[i + 1][..0] == [];
    }
  }

  /** Append an entry to a new bucket, walking to the end of its chain first. */
  method InsertIntoBucket<K(==), V>(
    ghost hasher: K -> nat, buckets: array<Bucket<K, V>>, index: nat, e: Entry<K, V>,
    ghost chains: seq<Chain<K, V>>, ghost moved: set<Entry<K, V>>)
    requires Shape(hasher, chains, moved) && LaidOut(chains, moved, buckets) && index < |chains|
    requires e !in moved
    modifies buckets, moved`next, e`next
    ensures LaidOut(chains[index := chains[index] + [e]], moved + {e}, buckets)
  {
    hide Shape, Linked;
    e.next := null;
    forall i | 0 <= i < |chains|
      ensures Linked(chains[i], buckets[i].first) && e !in chains[i]
      ensures i != index ==> forall f :: f in chains[index] ==> f !in chains[i]
    {
      ChainsApart(hasher, chains, moved, index, i);
    }
    ghost var c := chains[index];
    var last := WalkToEnd(buckets[index].first, c);
    assert last != null ==> last in c;
    var first := LinkBehind(buckets[index].first, last, e, c);
    buckets[index] := Bucket(first, buckets[index].nItems + 1);
  }

  method WalkToEnd<K(==), V>(first: Entry?<K, V>, ghost c: Chain<K, V>) returns (last: Entry?<K, V>)
    requires Linked(c, first)
    ensures last == if c == [] then null else c[|c| - 1]
  {
    last := first;
    if last != null {
      ghost var p := 0;
      while last.next != null
        invariant p < |c| && last == c[p]
        decreases |c| - p
      {
        last := last.next;
        p := p + 1;
      }
    }
  }

  lemma {:induction false} TotalPrefix<K, V>(chains: seq<Chain<K, V>>, i: nat)
    requires i < |chains|
    ensures Total(chains[..i + 1]) == Total(chains[..i]) + |chains[i]|
  {
    if i != 0 {
      TotalPrefix(chains[1..], i - 1);
      assert chains[..i + 1][1..] == chains[1..][..i];
      assert chains[..i][1..] == chains[1..][..i - 1];
    }
  }

  /** A new table of empty buckets. */
  lemma {:induction false} EmptyTable<K, V>(hasher: K -> nat, chains: seq<Chain<K, V>>, buckets: array<Bucket<K, V>>)
    requires PowerOfTwo(|chains|) && buckets.Length == |chains|
    requires forall i :: 0 <= i < |chains| ==> chains[i] == [] && buckets[i] == Bucket(null, 0)
    ensures Shape(hasher, chains, {}) && LaidOut(chains, {}, buckets)
    ensures Represents(hasher, chains, {}, map[])
    ensures Total(chains) == 0
  {
    TotalOfEmpty(chains);
  }

  lemma {:induction false} TotalOfEmpty<K, V>(chains: seq<Chain<K, V>>)
    requires forall i :: 0 <= i < |chains| ==> chains[i] == []
    ensures Total(chains) == 0
  {
    if chains != [] {
      TotalOfEmpty(chains[1..]);
    }
  }

  lemma PartlySplitStart<K, V>(hasher: K -> nat, chains: seq<Chain<K, V>>, chains': seq<Chain<K, V>>)
    requires chains != [] && |chains'| == 2 * |chains| && forall j :: 0 <= j < |chains'| ==> chains'[j] == []
    ensures PartlySplit(hasher, chains, chains', 0, 0)
  {
    assert chains[0][..0] == [];
  }

  /** When every chain is done, the table is the split one. */
  lemma PartlySplitDone<K, V>(hasher: K -> nat, chains: seq<Chain<K, V>>, chains': seq<Chain<K, V>>)
    requires PartlySplit(hasher, chains, chains', |chains|, 0) && chains != []
    ensures chains' == Split(hasher, chains)
  {
    forall j | 0 <= j < |chains'|
      ensures chains'[j] == Split(hasher, chains)[j]
    {
      assert j % |chains| < |chains|;
    }
  }

  lemma {:induction false} FilterHolds<K, V>(
    hasher: K -> nat, capacity: nat, c: Chain<K, V>, entries: set<Entry<K, V>>, contents: map<K, V>, j: nat)
    requires 0 < capacity && Holds(c, contents) && forall e :: e in c ==> e in entries
    ensures forall e :: e in Filter(hasher, capacity, c, j) ==> e in entries
    ensures Holds(Filter(hasher, capacity, c, j), contents)
  {
    if c != [] {
      FilterHolds(hasher, capacity, c[..|c| - 1], entries, contents, j);
      assert c[|c| - 1] in c;
    }
  }

  lemma SplitCovers<K, V>(hasher: K -> nat, chains: seq<Chain<K, V>>, k: K)
    requires PowerOfTwo(|chains|) && k in Keys(ChainOf(hasher, chains, k))
    ensures k in Keys(ChainOf(hasher, Split(hasher, chains), k))
  {
    BucketIndexIsRemainder(hasher, k, |chains|);
    var c := ChainOf(hasher, chains, k);
    var m :| 0 <= m < |c| && Keys(c)[m] == k;
    var home := BucketIndex(hasher, k, 2 * |chains|);
    var c' := Filter(hasher, 2 * |chains|, c, home);
    FilterMembers(hasher, 2 * |chains|, c, home);
    assert c[m] in c';
    var m' :| 0 <= m' < |c'| && c'[m'] == c[m];
    assert Keys(c')[m'] == k;
  }

  /** Every entry of old chain `i` is in exactly one of new chains `i` and `i + |chains|`. */
  lemma SplitPartitions<K, V>(hasher: K -> nat, chains: seq<Chain<K, V>>, entries: set<Entry<K, V>>, i: nat)
    requires Shape(hasher, chains, entries) && i < |chains|
    ensures multiset(Split(hasher, chains)[i]) + multiset(Split(hasher, chains)[i + |chains|]) == multiset(chains[i])
  {
    hide Split, Filter, BucketIndex, PowerOfTwo;
    assert ChainOk(hasher, |chains|, chains[i], i, entries);
    assert i % |chains| == i && (i + |chains|) % |chains| == i by {
      Remainder(i, |chains|, 0, i);
      Remainder(i + |chains|, |chains|, 1, i);
    }
    SplitAt(hasher, chains, i);
    SplitAt(hasher, chains, i + |chains|);
    FilterPartitions(hasher, |chains|, chains[i], i);
  }

  lemma SplitAt<K, V>(hasher: K -> nat, chains: seq<Chain<K, V>>, j: nat)
    requires j < 2 * |chains|
    ensures Split(hasher, chains)[j] == Filter(hasher, 2 * |chains|, chains[j % |chains|], j)
  {
  }

  lemma {:induction false} FilterPartitions<K, V>(hasher: K -> nat, n: nat, c: Chain<K, V>, i: nat)
    requires PowerOfTwo(n) && forall m :: 0 <= m < |c| ==> BucketIndex(hasher, c[m].key, n) == i
    ensures multiset(Filter(hasher, 2 * n, c, i)) + multiset(Filter(hasher, 2 * n, c, i + n)) == multiset(c)
  {
    hide BucketIndex, PowerOfTwo, Filter;
    BucketsExist(n);
    if c != [] {
      var init, last := c[..|c| - 1], c[|c| - 1];
      FilterPartitions(hasher, n, init, i);
      HomeAfterDoubling(hasher, c[|c| - 1].key, n);
      assert c == init + [last];
      FilterLast(hasher, 2 * n, init, last, i);
      FilterLast(hasher, 2 * n, init, last, i + n);
    } else {
      FilterNothing(hasher, 2 * n, c, i);
      FilterNothing(hasher, 2 * n, c, i + n);
    }
  }

  lemma BucketsExist(n: nat)
    requires PowerOfTwo(n)
    ensures 0 < n
  {
  }

  lemma FilterNothing<K, V>(hasher: K -> nat, capacity: nat, c: Chain<K, V>, j: nat)
    requires 0 < capacity && c == []
    ensures Filter(hasher, capacity, c, j) == []
  {
  }

  lemma FilterLast<K, V>(hasher: K -> nat, capacity: nat, c: Chain<K, V>, last: Entry<K, V>, j: nat)
    requires 0 < capacity
    ensures multiset(Filter(hasher, capacity, c + [last], j))
         == if BucketIndex(hasher, last.key, capacity) == j then multiset(Filter(hasher, capacity, c, j)) + multiset{last}
            else multiset(Filter(hasher, capacity, c, j))
  {
    assert (c + [last])[..|c|] == c;
  }

  lemma HomeAfterDoubling<K>(hasher: K -> nat, key: K, n: nat)
    requires PowerOfTwo(n)
    ensures 0 < n
    ensures var i, home := BucketIndex(hasher, key, n), BucketIndex(hasher, key, 2 * n); home == i || home == i + n
  {
    BucketIndexIsRemainder(hasher, key, n);
    var i, home := BucketIndex(hasher, key, n), BucketIndex(hasher, key, 2 * n);
    if home < n {
      Remainder(home, n, 0, home);
    } else {
      Remainder(home, n, 1, home - n);
    }
  }

  lemma {:induction false} FilterFrom<K, V>(hasher: K -> nat, capacity: nat, c: Chain<K, V>, j: nat, a: nat)
    returns (a': nat)
    requires 0 < capacity && a < |Filter(hasher, capacity, c, j)|
    ensures a' < |c| && c[a'] == Filter(hasher, capacity, c, j)[a]
  {
    var init := c[..|c| - 1];
    if a < |Filter(hasher, capacity, init, j)| {
      a' := FilterFrom(hasher, capacity, init, j, a);
    } else {
      a' := |c| - 1;
    }
  }

  /** Entries of a new chain keep the order they had in the old one. */
  lemma {:induction false} FilterStable<K, V>(hasher: K -> nat, capacity: nat, c: Chain<K, V>, j: nat, a: nat, b: nat)
    returns (a': nat, b': nat)
    requires 0 < capacity && a < b < |Filter(hasher, capacity, c, j)|
    ensures a' < b' < |c|
    ensures c[a'] == Filter(hasher, capacity, c, j)[a] && c[b'] == Filter(hasher, capacity, c, j)[b]
  {
    var init := c[..|c| - 1];
    if b < |Filter(hasher, capacity, init, j)| {
      a', b' := FilterStable(hasher, capacity, init, j, a, b);
    } else {
      a' := FilterFrom(hasher, capacity, init, j, a);
      b' := |c| - 1;
    }
  }

  /** A doubled table stands for the same finite map. */
  lemma SplitRepresents<K, V>(
    hasher: K -> nat, chains: seq<Chain<K, V>>, entries: set<Entry<K, V>>, contents: map<K, V>)
    requires PowerOfTwo(|chains|) && Represents(hasher, chains, entries, contents)
    ensures Represents(hasher, Split(hasher, chains), entries, contents)
  {
    hide Filter, Holds, BucketIndex, PowerOfTwo;
    var chains' := Split(hasher, chains);
    forall j | 0 <= j < |chains'|
      ensures (forall e :: e in chains'[j] ==> e in entries) && Holds(chains'[j], contents)
    {
      FilterHolds(hasher, |chains'|, chains[j % |chains|], entries, contents, j);
    }
    forall k | k in contents
      ensures k in Keys(ChainOf(hasher, chains', k))
    {
      SplitCovers(hasher, chains, k);
    }
  }

  ghost function Members<K, V>(c: Chain<K, V>): (s: set<Entry<K, V>>)
    ensures forall e :: e in c ==> e in s
    ensures forall e :: e in s ==> e in c
  {
    set e | e in c
  }

  lemma LinkedRest<K, V>(c: Chain<K, V>, p: nat, entry: Entry?<K, V>)
    requires p <= |c| && Linked(c[p..], entry)
    ensures entry == null <==> p == |c|
    ensures p < |c| ==> entry == c[p] && Linked(c[p + 1..], c[p].next)
  {
    if p < |c| {
      assert c[p..][0] == c[p];
      var rest := c[p + 1..];
      assert forall j :: 0 <= j < |rest| ==> rest[j] == c[p..][j + 1];
    }
  }

  lemma OneMore<K, V>(hasher: K -> nat, capacity: nat, c: Chain<K, V>, i: nat, entries: set<Entry<K, V>>, p: nat)
    requires 0 < capacity && ChainOk(hasher, capacity, c, i, entries) && p < |c|
    ensures Members(c[..p + 1]) == Members(c[..p]) + {c[p]}
    ensures forall e :: e in c[p + 1..] ==> e != c[p] && e in c[p..]
    ensures c[p] in c[p..] && c[p] in c
  {
    assert c[..p + 1] == c[..p] + [c[p]];
    assert c[p..] == [c[p]] + c[p + 1..];
  }

  /** In a table being doubled the key of the next entry is not yet in its new home. */
  lemma NewHome<K, V>(
    hasher: K -> nat, chains: seq<Chain<K, V>>, entries: set<Entry<K, V>>, chains': seq<Chain<K, V>>, i: nat, p: nat)
    requires Shape(hasher, chains, entries) && i < |chains| && p < |chains[i]|
    requires PartlySplit(hasher, chains, chains', i, p)
    ensures var home := BucketIndex(hasher, chains[i][p].key, 2 * |chains|);
            home < |chains'| && chains[i][p].key !in Keys(chains'[home])
  {
    var e := chains[i][p];
    assert ChainOk(hasher, |chains|, chains[i], i, entries);
    BucketIndexIsRemainder(hasher, e.key, |chains|);
    var home := BucketIndex(hasher, e.key, 2 * |chains|);
    FilterMembers(hasher, |chains'|, chains[i][..p], home);
    assert forall f :: f in chains'[home] ==> f in chains[i][..p];
    forall m | 0 <= m < |chains'[home]|
      ensures chains'[home][m].key != e.key
    {
      assert chains'[home][m] in chains[i][..p];
    }
  }

  /** Relink the entries of one old chain to the new buckets, in order. */
  method MoveChain<K(==), V>(
    hasher: K -> nat, first: Entry?<K, V>, newBuckets: array<Bucket<K, V>>,
    ghost chains: seq<Chain<K, V>>, ghost entries: set<Entry<K, V>>, ghost i: nat,
    ghost before: seq<Chain<K, V>>, ghost movedBefore: set<Entry<K, V>>)
    returns (ghost chains': seq<Chain<K, V>>, ghost moved: set<Entry<K, V>>)
    requires Shape(hasher, chains, entries) && i < |chains| && Linked(chains[i], first)
    requires Shape(hasher, before, movedBefore) && LaidOut(before, movedBefore, newBuckets)
    requires PartlySplit(hasher, chains, before, i, 0) && newBuckets.Length == |before| == 2 * |chains|
    requires forall e :: e in chains[i] ==> e !in movedBefore
    modifies newBuckets, movedBefore`next, chains[i]`next
    ensures Shape(hasher, chains', moved) && LaidOut(chains', moved, newBuckets)
    ensures PartlySplit(hasher, chains, chains', i + 1, 0) && |chains'| == 2 * |chains|
    ensures moved == movedBefore + Members(chains[i])
    ensures Total(chains') == Total(before) + |chains[i]|
  {
    hide Shape, LaidOut, PartlySplit, Linked, Filter, Total, Members;
    chains', moved := before, movedBefore;
    ghost var c, p := chains[i], 0;
    var entry := first;
    assert c[0..] == c;
    while entry != null
      invariant p <= |c| && Linked(c[p..], entry)
      invariant Shape(hasher, chains', moved) && LaidOut(chains', moved, newBuckets)
      invariant PartlySplit(hasher, chains, chains', i, p) && |chains'| == 2 * |chains|
      invariant moved == movedBefore + Members(c[..p])
      invariant forall e :: e in c[p..] ==> e !in moved
      invariant Total(chains') == Total(before) + p
      decreases |c| - p
    {
      LinkedRest(c, p, entry);
      ShapeChain(hasher, chains, entries, i);
      OneMore(hasher, |chains|, c, i, entries, p);
      NewHome(hasher, chains, entries, chains', i, p);
      PartlySplitStep(hasher, chains, chains', i, p, BucketIndex(hasher, entry.key, 2 * |chains|));
      var newIndex := BucketIndex(hasher, entry.key, newBuckets.Length);
      ShapeAppend(hasher, chains', moved, newIndex, entry);
      TotalUpdate(chains', newIndex, chains'[newIndex] + [entry]);
      var next := entry.next;
      InsertIntoBucket(hasher, newBuckets, newIndex, entry, chains', moved);
      chains', moved := chains'[newIndex := chains'[newIndex] + [entry]], moved + {entry};
      entry := next;
      p := p + 1;
    }
    LinkedRest(c, p, entry);
    assert c[..p] == c;
    PartlySplitNext(hasher, chains, chains', i);
  }

  /** What is still to be moved once chain `i` has been moved. */
  lemma StillApart<K, V>(
    hasher: K -> nat, chains: seq<Chain<K, V>>, entries: set<Entry<K, V>>, i: nat, b: nat, moved: set<Entry<K, V>>)
    requires Shape(hasher, chains, entries) && i < b < |chains|
    requires forall e :: e in chains[b] ==> e !in moved
    ensures forall e :: e in chains[b] ==> e !in moved + Members(chains[i])
    ensures forall e :: e in chains[b] ==> e !in chains[i]
    ensures forall e :: e in chains[b] ==> e in entries
  {
    ChainsApart(hasher, chains, entries, i, b);
  }

  /** The part of a doubled table that is still to be moved. */
  ghost predicate Waiting<K, V>(
    chains: seq<Chain<K, V>>, entries: set<Entry<K, V>>, buckets: array<Bucket<K, V>>, i: nat, moved: set<Entry<K, V>>)
    reads buckets, entries`next
  {
    && buckets.Length == |chains|
    && forall b :: i <= b < |chains| ==>
         (forall e :: e in chains[b] ==> e in entries && e !in moved) && Linked(chains[b], buckets[b].first)
  }

  lemma Widen<K, V>(
    hasher: K -> nat, chains: seq<Chain<K, V>>, moved: set<Entry<K, V>>, entries: set<Entry<K, V>>,
    buckets: array<Bucket<K, V>>)
    requires Shape(hasher, chains, moved) && LaidOut(chains, moved, buckets) && moved <= entries
    ensures Shape(hasher, chains, entries) && LaidOut(chains, entries, buckets)
  {
    forall i | 0 <= i < |chains|
      ensures ChainOk(hasher, |chains|, chains[i], i, entries)
    {
      ShapeChain(hasher, chains, moved, i);
    }
  }

  lemma WaitingStart<K, V>(
    hasher: K -> nat, chains: seq<Chain<K, V>>, entries: set<Entry<K, V>>, buckets: array<Bucket<K, V>>)
    requires Shape(hasher, chains, entries) && LaidOut(chains, entries, buckets)
    ensures Waiting(chains, entries, buckets, 0, {})
    ensures PowerOfTwo(|chains|)
  {
  }

  /** Move bucket `i` of a table being doubled. */
  method MoveBucket<K(==), V>(
    hasher: K -> nat, buckets: array<Bucket<K, V>>, newBuckets: array<Bucket<K, V>>, i: nat,
    ghost chains: seq<Chain<K, V>>, ghost entries: set<Entry<K, V>>,
    ghost before: seq<Chain<K, V>>, ghost movedBefore: set<Entry<K, V>>)
    returns (ghost chains': seq<Chain<K, V>>, ghost moved: set<Entry<K, V>>)
    requires Shape(hasher, chains, entries) && i < |chains| && Waiting(chains, entries, buckets, i, movedBefore)
    requires Shape(hasher, before, movedBefore) && LaidOut(before, movedBefore, newBuckets)
    requires PartlySplit(hasher, chains, before, i, 0) && newBuckets.Length == |before| == 2 * |chains|
    requires buckets != newBuckets && movedBefore <= entries
    modifies newBuckets, entries`next
    ensures Waiting(chains, entries, buckets, i + 1, moved) && moved <= entries
    ensures Shape(hasher, chains', moved) && LaidOut(chains', moved, newBuckets)
    ensures PartlySplit(hasher, chains, chains', i + 1, 0) && |chains'| == 2 * |chains|
    ensures Total(chains') == Total(before) + |chains[i]|
  {
    hide Shape, LaidOut, PartlySplit, Linked, Total;
    chains', moved := MoveChain(hasher, buckets[i].first, newBuckets, chains, entries, i, before, movedBefore);
    forall b | i + 1 <= b < |chains|
      ensures Linked(chains[b], buckets[b].first)
      ensures forall e :: e in chains[b] ==> e in entries && e !in moved
    {
      StillApart(hasher, chains, entries, i, b, movedBefore);
      assert old(Linked(chains[b], buckets[b].first));
      assert forall e :: e in chains[b] ==> e.next == old(e.next);
    }
  }

  lemma HoldsElsewhere<K, V>(c: Chain<K, V>, contents: map<K, V>, key: K, value: V)
    requires Holds(c, contents) && key !in Keys(c)
    ensures Holds(c, contents[key := value])
  {
    assert forall j :: 0 <= j < |c| ==> Keys(c)[j] != key;
  }

  lemma CoversUpdate<K, V>(hasher: K -> nat, chains: seq<Chain<K, V>>, contents: map<K, V>, key: K, value: V)
    requires Covers(hasher, chains, contents) && key in contents
    ensures Covers(hasher, chains, contents[key := value])
  {
  }

  /** Keys of other chains, and of other places of the same chain, are different keys. */
  lemma KeyApart<K, V>(
    hasher: K -> nat, chains: seq<Chain<K, V>>, entries: set<Entry<K, V>>, i: nat, p: nat, j: nat)
    requires Shape(hasher, chains, entries) && i < |chains| && p < |chains[i]| && j < |chains|
    ensures if j != i then chains[i][p].key !in Keys(chains[j]) else
              forall m :: 0 <= m < |chains[i]| && m != p ==> chains[i][m].key != chains[i][p].key
  {
    ShapeChain(hasher, chains, entries, i);
    ShapeChain(hasher, chains, entries, j);
  }

  /** The chain without what comes before place `n`. */
  lemma ShapeDrop<K, V>(hasher: K -> nat, chains: seq<Chain<K, V>>, entries: set<Entry<K, V>>, i: nat, n: nat)
    requires Shape(hasher, chains, entries) && i < |chains| && n <= |chains[i]|
    ensures Shape(hasher, chains[i := chains[i][n..]], entries)
  {
    var chains' := chains[i := chains[i][n..]];
    forall j | 0 <= j < |chains'|
      ensures ChainOk(hasher, |chains'|, chains'[j], j, entries)
    {
      assert ChainOk(hasher, |chains|, chains[j], j, entries);
    }
  }

  lemma ShapeRemove<K, V>(hasher: K -> nat, chains: seq<Chain<K, V>>, entries: set<Entry<K, V>>, i: nat, p: nat)
    requires Shape(hasher, chains, entries) && i < |chains| && p < |chains[i]|
    ensures Shape(hasher, chains[i := chains[i][..p] + chains[i][p + 1..]], entries)
  {
    var chains' := chains[i := chains[i][..p] + chains[i][p + 1..]];
    forall j | 0 <= j < |chains'|
      ensures ChainOk(hasher, |chains'|, chains'[j], j, entries)
    {
      assert ChainOk(hasher, |chains|, chains[j], j, entries);
    }
  }

  /** Taking some of its entries out of chain `i` takes their keys out of the finite map. */
  lemma RepresentsLess<K, V>(
    hasher: K -> nat, chains: seq<Chain<K, V>>, entries: set<Entry<K, V>>, contents: map<K, V>,
    i: nat, c: Chain<K, V>, gone: set<K>)
    requires Shape(hasher, chains, entries) && Represents(hasher, chains, entries, contents) && i < |chains|
    requires forall e :: e in c ==> e in chains[i]
    requires forall k :: k in Keys(c) ==> k !in gone
    requires forall k :: k in gone ==> k in Keys(chains[i])
    requires forall k :: k in Keys(chains[i]) ==> k in gone || k in Keys(c)
    ensures Represents(hasher, chains[i := c], entries, contents - gone)
  {
    hide Shape, Holds, Keys;
    var chains' := chains[i := c];
    forall j | 0 <= j < |chains'|
      ensures (forall e :: e in chains'[j] ==> e in entries) && Holds(chains'[j], contents - gone)
    {
      forall m | 0 <= m < |chains'[j]|
        ensures chains'[j][m].key !in gone && chains'[j][m] in chains[j]
      {
        KeyStays(hasher, chains, entries, i, c, gone, j, m);
      }
      HoldsLess(chains[j], chains'[j], contents, gone);
    }
    forall k | k in contents - gone
      ensures k in Keys(ChainOf(hasher, chains', k))
    {
      assert k in Keys(ChainOf(hasher, chains, k));
    }
  }

  lemma HoldsLess<K, V>(c: Chain<K, V>, c': Chain<K, V>, contents: map<K, V>, gone: set<K>)
    requires Holds(c, contents)
    requires forall m :: 0 <= m < |c'| ==> c'[m].key !in gone && c'[m] in c
    ensures Holds(c', contents - gone)
  {
  }

  lemma KeyStays<K, V>(
    hasher: K -> nat, chains: seq<Chain<K, V>>, entries: set<Entry<K, V>>,
    i: nat, c: Chain<K, V>, gone: set<K>, j: nat, m: nat)
    requires Shape(hasher, chains, entries) && i < |chains| && j < |chains| && m < |chains[i := c][j]|
    requires forall e :: e in c ==> e in chains[i]
    requires forall k :: k in Keys(c) ==> k !in gone
    requires forall k :: k in gone ==> k in Keys(chains[i])
    ensures chains[i := c][j][m].key !in gone
    ensures chains[i := c][j][m] in chains[j]
  {
    var e := chains[i := c][j][m];
    if j == i {
      assert c[m] in c && Keys(c)[m] == e.key;
    } else {
      ShapeChain(hasher, chains, entries, i);
      ShapeChain(hasher, chains, entries, j);
      forall q | 0 <= q < |chains[i]|
        ensures Keys(chains[i])[q] != e.key
      {
      }
    }
  }

  /** Replace the value of one entry of a chain without repeated keys. */
  method SetEntry<K(==), V>(entry: Entry<K, V>, value: V, ghost c: Chain<K, V>, ghost p: nat, ghost contents: map<K, V>)
    requires Holds(c, contents) && p < |c| && c[p] == entry
    requires forall m :: 0 <= m < |c| && m != p ==> c[m].key != entry.key
    modifies entry`value
    ensures entry.value == value && Holds(c, contents[entry.key := value])
  {
    entry.value := value;
  }

  ghost function KeySet<K, V>(c: Chain<K, V>): (ks: set<K>)
    ensures forall k :: k in ks ==> k in Keys(c)
    ensures forall k :: k in Keys(c) ==> k in ks
  {
    set i | 0 <= i < |c| :: Keys(c)[i]
  }

  lemma KeysOfMembers<K, V>(c: Chain<K, V>, p: nat)
    requires p < |c|
    ensures c[p].key in KeySet(c)
  {
    assert Keys(c)[p] == c[p].key;
  }

  lemma KeySetOfFirst<K, V>(c: Chain<K, V>)
    requires c != []
    ensures KeySet(c[..1]) == {c[0].key}
  {
    assert Keys(c[..1]) == [c[0].key];
  }

  lemma KeysSplit<K, V>(c: Chain<K, V>, n: nat)
    requires n <= |c|
    requires forall j, m :: 0 <= j < m < |c| ==> c[j].key != c[m].key
    ensures forall k :: k in Keys(c[n..]) ==> k !in KeySet(c[..n])
    ensures forall k :: k in Keys(c) ==> k in KeySet(c[..n]) || k in Keys(c[n..])
    ensures forall k :: k in KeySet(c[..n]) ==> k in Keys(c)
  {
    assert Keys(c) == Keys(c[..n]) + Keys(c[n..]);
  }

  lemma KeysWithout<K, V>(c: Chain<K, V>, p: nat)
    requires p < |c|
    requires forall j, m :: 0 <= j < m < |c| ==> c[j].key != c[m].key
    ensures var rest := Keys(c[..p] + c[p + 1..]); forall k :: k in rest ==> k != c[p].key
    ensures forall k :: k in Keys(c) ==> k == c[p].key || k in Keys(c[..p] + c[p + 1..])
    ensures c[p].key in Keys(c)
  {
    assert Keys(c)[p] == c[p].key;
    assert Keys(c) == Keys(c[..p]) + [c[p].key] + Keys(c[p + 1..]);
    assert Keys(c[..p] + c[p + 1..]) == Keys(c[..p]) + Keys(c[p + 1..]);
  }

  lemma LinkedDrop<K, V>(c: Chain<K, V>, first: Entry?<K, V>, p: nat)
    requires Linked(c, first) && p < |c|
    ensures Linked(c[p + 1..], c[p].next) && c[p].next == EntryAt(c[p + 1..], 0)
  {
    var rest := c[p + 1..];
    assert forall j :: 0 <= j < |rest| ==> rest[j] == c[j + (p + 1)];
  }

  lemma LinkedWithout<K, V>(c: Chain<K, V>, p: nat)
    requires p < |c|
    ensures var c' := c[..p] + c[p + 1..];
            forall i :: 0 <= i <= |c'| ==> EntryAt(c', i) == if i < p then c[i] else EntryAt(c, i + 1)
  {
  }

  /** Walk to the entry with the key, keeping its predecessor, and unlink it. */
  method Unlink<K(==), V>(first: Entry?<K, V>, key: K, ghost c: Chain<K, V>, ghost p: nat) returns (first': Entry?<K, V>)
    requires Linked(c, first) && p < |c| && c[p].key == key
    requires forall j, m :: 0 <= j < m < |c| ==> c[j].key != c[m].key
    modifies c`next
    ensures Linked(c[..p] + c[p + 1..], first')
  {
    var prev, entry := null, first;
    ghost var q := 0;
    while key != entry.key
      invariant 0 <= q <= p && entry == c[q]
      invariant prev == if q == 0 then null else c[q - 1]
      decreases p - q
    {
      prev, entry := entry, entry.next;
      q := q + 1;
    }
    first' := Bypass(first, prev, entry, c, p);
  }

  method Bypass<K(==), V>(first: Entry?<K, V>, prev: Entry?<K, V>, entry: Entry<K, V>, ghost c: Chain<K, V>, ghost p: nat)
    returns (first': Entry?<K, V>)
    requires Linked(c, first) && p < |c| && c[p] == entry && prev == if p == 0 then null else c[p - 1]
    requires forall j, m :: 0 <= j < m < |c| ==> c[j] != c[m]
    modifies c`next
    ensures Linked(c[..p] + c[p + 1..], first')
  {
    LinkedWithout(c, p);
    if prev != null {
      prev.next := entry.next;
      first' := first;
    } else {
      first' := entry.next;
    }
  }
}
