/** The chaining hash map. */
module HashMap {
  import opened Chains
  import opened Words
  import opened Wrappers

  const DEFAULT_INIT_CAPACITY := 16

  /** The capacity a new map starts with; a maximum of zero is refused. */
  function InitialCapacity(maxCapacity: nat): Option<nat>
    requires maxCapacity < WORD
  {
    if maxCapacity == 0 then None
    else Some(Shr(NextPowerOf2(if DEFAULT_INIT_CAPACITY < maxCapacity then DEFAULT_INIT_CAPACITY else maxCapacity), 1))
  }

  /** A maximum of one is accepted but yields a table without buckets. */
  lemma InitialCapacityUsable(maxCapacity: nat)
    requires maxCapacity < WORD
    ensures InitialCapacity(maxCapacity).Some? <==> maxCapacity != 0
    ensures InitialCapacity(maxCapacity).Some? ==>
              (PowerOfTwo(InitialCapacity(maxCapacity).value) <==> 2 <= maxCapacity)
    ensures 2 <= maxCapacity ==> InitialCapacity(maxCapacity).value <= maxCapacity
    ensures maxCapacity == 1 ==> InitialCapacity(maxCapacity) == Some(0)
    ensures 2 <= maxCapacity ==>
              var capacity := InitialCapacity(maxCapacity).value; capacity < Min(16, maxCapacity) <= 2 * capacity
  {
    hide NextPowerOf2;
    if maxCapacity != 0 {
      var n := if DEFAULT_INIT_CAPACITY < maxCapacity then DEFAULT_INIT_CAPACITY else maxCapacity;
      NextPowerOf2Rounds(n);
      var k: nat :| NextPowerOf2(n) == Pow2(k) && n <= Pow2(k) && (k == 0 || Pow2(k - 1) < n);
      assert Shr(Pow2(k), 1) == Shr(Pow2(k) / 2, 0) == Pow2(k) / 2;
      if k != 0 {
        assert Pow2(k) / 2 == Pow2(k - 1);
      }
    }
  }

  function Double(capacity: nat): nat {
    2 * capacity % WORD
  }

  predicate ResizeRequired(nItems: nat, capacity: nat, maxCapacity: nat) {
    capacity < 2 * nItems && Double(capacity) <= maxCapacity
  }

  /** Doubling stays within the maximum exactly as long as the shift does not overflow. */
  lemma ResizeStaysInRange(nItems: nat, capacity: nat, maxCapacity: nat)
    requires PowerOfTwo(capacity) && capacity <= maxCapacity < WORD
    requires ResizeRequired(nItems, capacity, maxCapacity)
    ensures PowerOfTwo(Double(capacity)) <==> capacity < TOP_BIT
    ensures capacity < TOP_BIT ==> Double(capacity) == 2 * capacity <= maxCapacity
    ensures TOP_BIT <= capacity ==> Double(capacity) == 0
  {
    var k: nat :| capacity == Pow2(k);
    WordBits();
    if k < 63 {
      Pow2Monotone(k + 1, 63);
      assert 2 * capacity == Pow2(k + 1);
    } else {
      Pow2Monotone(63, k);
      if 63 < k {
        Pow2Monotone(64, k);
      }
    }
  }

  datatype LookupResult<K, V> = NotFound | Found(key: K, value: V)

  function ResultOf<K, V>(contents: map<K, V>, key: K): LookupResult<K, V> {
    if key in contents then Found(key, contents[key]) else NotFound
  }

  function ResultsOf<K, V>(contents: map<K, V>, keys: seq<K>): (rs: seq<LookupResult<K, V>>)
    ensures |rs| == |keys| && forall i :: 0 <= i < |keys| ==> rs[i] == ResultOf(contents, keys[i])
  {
    seq(|keys|, i requires 0 <= i < |keys| => ResultOf(contents, keys[i]))
  }

  /** The chains with one more entry at the end of chain `index`. */
  ghost function Appended<K, V>(chains: seq<Chain<K, V>>, index: nat, e: Entry<K, V>): seq<Chain<K, V>> {
    if index < |chains| then chains[index := chains[index] + [e]] else chains
  }

  /** The entries that lookups of the keys, one after the other, compare. */
  function AllCompared<K(==), V>(hasher: K -> nat, chains: seq<Chain<K, V>>, keys: seq<K>): nat {
    if keys == [] then 0
    else
      var last := keys[|keys| - 1];
      AllCompared(hasher, chains, keys[..|keys| - 1]) + Compared(ChainOf(hasher, chains, last), last, 0)
  }

  class Map<K(==), V> {
    const hasher: K -> nat
    const maxCapacity: nat
    var nItems: nat
    var capacity: nat
    var buckets: array<Bucket<K, V>>
    ghost var chains: seq<Chain<K, V>>
    ghost var entries: set<Entry<K, V>>
    ghost var contents: map<K, V>

    /** The table holds together; its load is not considered. */
    ghost predicate Sound()
      reads this, buckets, entries`next, entries`value
    {
      && Shape(hasher, chains, entries) && capacity == |chains|
      && LaidOut(chains, entries, buckets)
      && nItems == Total(chains)
      && capacity <= maxCapacity < WORD
      && Represents(hasher, chains, entries, contents)
    }

    ghost predicate Valid()
      reads this, buckets, entries`next, entries`value
    {
      Sound() && (2 * nItems <= capacity || maxCapacity < 2 * capacity)
    }

    /** A maximum of one gives a table without buckets, in which nothing can be looked up. */
    constructor (maxCapacity: nat, hasher: K -> nat)
      requires 0 < maxCapacity < WORD
      ensures 2 <= maxCapacity ==> Valid()
      ensures maxCapacity == 1 ==> buckets.Length == 0 && !Sound()
      ensures contents == map[] && this.maxCapacity == maxCapacity && this.hasher == hasher
      ensures fresh(buckets) && entries == {} && nItems == 0
      ensures Some(capacity) == InitialCapacity(maxCapacity)
    {
      InitialCapacityUsable(maxCapacity);
      var initCapacity := InitialCapacity(maxCapacity).value;
      this.hasher, this.maxCapacity := hasher, maxCapacity;
      nItems, capacity := 0, initCapacity;
      buckets := new Bucket<K, V>[initCapacity](_ => Bucket(null, 0));
      chains := seq(initCapacity, _ => []);
      entries, contents := {}, map[];
      new;
      if 2 <= maxCapacity {
        EmptyTable(hasher, chains, buckets);
      }
    }

    lemma InRange()
      requires Valid()
      ensures Sound() && 0 < capacity <= maxCapacity < WORD
    {
    }

    lemma HasBuckets()
      requires Sound()
      ensures 0 < capacity
    {
    }

    /** The chain that a key is looked for in. */
    lemma HomeChain(key: K)
      requires Sound()
      ensures var i, c := BucketIndex(hasher, key, capacity), ChainOf(hasher, chains, key);
              && i < buckets.Length && i < capacity && i < |chains| && c == chains[i]
              && Linked(c, buckets[i].first) && buckets[i].first == EntryAt(c, 0) && buckets[i].nItems == |c|
              && (forall j, m :: 0 <= j < m < |c| ==> c[j].key != c[m].key)
              && Holds(c, contents) && (forall e :: e in c ==> e in entries)
              && (key in contents ==> key in Keys(c))
    {
      BucketIndexIsRemainder(hasher, key, capacity);
      ShapeChain(hasher, chains, entries, BucketIndex(hasher, key, capacity));
    }

    /** The entry with the key in its home bucket, at place `p`, or else the end of that chain, if any. */
    method FindPlace(index: nat, key: K) returns (entry: Entry?<K, V>, hit: bool, ghost p: nat)
      requires Sound() && index == BucketIndex(hasher, key, capacity)
      ensures index < capacity
      ensures hit <==> key in contents
      ensures hit ==> p < |chains[index]| && entry == chains[index][p] && entry.key == key && entry.value == contents[key]
      ensures hit ==> entry in entries
      ensures !hit ==> entry == if chains[index] == [] then null else chains[index][|chains[index]| - 1]
      ensures Compared(chains[index], key, 0) == if chains[index] == [] then 0 else p + 1
    {
      hide Sound, Linked, Compared;
      HomeChain(key);
      ghost var c := ChainOf(hasher, chains, key);
      NoneCompared(chains[index], key);
      if buckets[index].nItems == 0 {
        return null, false, 0;
      }
      entry, hit, p := Walk(buckets[index].first, key, chains[index]);
    }

    method Lookup(key: K) returns (r: LookupResult<K, V>, ghost compared: nat)
      requires Valid()
      ensures r == ResultOf(contents, key)
      ensures compared == Compared(ChainOf(hasher, chains, key), key, 0)
    {
      var index := BucketIndex(hasher, key, capacity);
      var entry, hit, p := FindPlace(index, key);
      compared := if chains[index] == [] then 0 else p + 1;
      r := if hit then Found(entry.key, entry.value) else NotFound;
    }

    /** Link an entry to the end of a chain; `last` is the present end of a chain that is not empty. */
    method LinkEntry(index: nat, last: Entry?<K, V>, e: Entry<K, V>)
      requires Shape(hasher, chains, entries) && LaidOut(chains, entries, buckets) && index < |chains|
      requires last == if chains[index] == [] then null else chains[index][|chains[index]| - 1]
      requires e !in entries && e.next == null
      modifies buckets, entries`next
      ensures LaidOut(chains[index := chains[index] + [e]], entries + {e}, buckets)
    {
      hide Shape, Linked;
      ghost var c := chains[index];
      ChainsApart(hasher, chains, entries, index, index);
      assert last != null ==> last in c;
      var first := LinkBehind(buckets[index].first, last, e, c);
      buckets[index] := Bucket(first, buckets[index].nItems + 1);
      forall i | 0 <= i < |chains| && i != index
        ensures Linked(chains[i], buckets[i].first)
      {
        ChainsApart(hasher, chains, entries, index, i);
      }
    }

    /** A new entry at the end of its chain. */
    method Append(index: nat, last: Entry?<K, V>, key: K, value: V) returns (ghost added: Entry<K, V>)
      requires Sound() && index < capacity && index == BucketIndex(hasher, key, capacity)
      requires key !in contents
      requires last == if chains[index] == [] then null else chains[index][|chains[index]| - 1]
      modifies this`nItems, this`chains, this`entries, this`contents, buckets, entries`next
      ensures Sound()
      ensures nItems == old(nItems) + 1 && contents == old(contents)[key := value]
      ensures fresh(added) && added.key == key && added.value == value && entries == old(entries) + {added}
      ensures chains == Appended(old(chains), index, added)
    {
      hide Shape, Linked, Holds, Covers, Total;
      var e := new Entry(key, value);
      added := e;
      ghost var c := chains[index];
      forall i | 0 <= i < |chains|
        ensures Holds(chains[i], contents[key := value])
        ensures i == index ==> key !in Keys(chains[i]) && Holds(chains[i] + [e], contents[key := value])
      {
        HoldsAppend(chains[i], contents, e);
      }
      ShapeAppend(hasher, chains, entries, index, e);
      CoversAppend(hasher, chains, contents, index, e, value);
      TotalUpdate(chains, index, c + [e]);
      LinkEntry(index, last, e);
      nItems := nItems + 1;
      chains := chains[index := c + [e]];
      entries := entries + {e};
      contents := contents[key := value];
    }

    /** Doubling relinks every entry; chain `j` of the new table is the part of old chain
        `j % capacity` that is at home in `j`, in its old order. */
    method PerformResizeIfRequired()
      requires Sound() && (capacity < TOP_BIT || 2 * nItems <= capacity)
      requires nItems <= capacity || maxCapacity < 2 * capacity
      modifies this`capacity, this`buckets, this`chains, entries`next
      ensures Valid()
      ensures if old(capacity) < 2 * nItems && 2 * old(capacity) <= maxCapacity
              then capacity == 2 * old(capacity) && chains == Split(hasher, old(chains)) && fresh(buckets)
              else capacity == old(capacity) && chains == old(chains) && buckets == old(buckets)
    {
      hide Shape, LaidOut, PartlySplit, Linked, Split, Total, Represents, Members, Waiting;
      if !(capacity < 2 * nItems && Double(capacity) <= maxCapacity) {
        return;
      }
      WaitingStart(hasher, chains, entries, buckets);
      ResizeStaysInRange(nItems, capacity, maxCapacity);
      var newCapacity := Double(capacity);
      var newBuckets := new Bucket<K, V>[newCapacity](_ => Bucket(null, 0));
      ghost var chains', moved := MoveAll(newBuckets);
      SplitRepresents(hasher, chains, entries, contents);
      buckets := newBuckets;
      capacity := newCapacity;
      chains := chains';
    }

    method MoveAll(newBuckets: array<Bucket<K, V>>) returns (ghost chains': seq<Chain<K, V>>, ghost moved: set<Entry<K, V>>)
      requires Sound() && newBuckets.Length == 2 * capacity && newBuckets != buckets
      requires forall j :: 0 <= j < newBuckets.Length ==> newBuckets[j] == Bucket(null, 0)
      modifies newBuckets, entries`next
      ensures Shape(hasher, chains', entries) && LaidOut(chains', entries, newBuckets)
      ensures chains' == Split(hasher, chains) && Total(chains') == Total(chains)
    {
      hide Shape, LaidOut, PartlySplit, Linked, Split, Total, Represents, Members, Waiting;
      chains', moved := seq(newBuckets.Length, _ => []), {};
      WaitingStart(hasher, chains, entries, buckets);
      assert PowerOfTwo(2 * |chains|) by {
        var k: nat :| |chains| == Pow2(k);
        assert 2 * |chains| == Pow2(k + 1);
      }
      EmptyTable(hasher, chains', newBuckets);
      TotalOfEmpty(chains[..0]);
      PartlySplitStart(hasher, chains, chains');
      for i := 0 to capacity
        invariant Shape(hasher, chains', moved) && LaidOut(chains', moved, newBuckets)
        invariant PartlySplit(hasher, chains, chains', i, 0) && |chains'| == 2 * |chains|
        invariant Waiting(chains, entries, buckets, i, moved)
        invariant Total(chains') == Total(chains[..i])
        invariant moved <= entries
      {
        TotalPrefix(chains, i);
        chains', moved := MoveBucket(hasher, buckets, newBuckets, i, chains, entries, chains', moved);
      }
      assert chains[..|chains|] == chains;
      PartlySplitDone(hasher, chains, chains');
      Widen(hasher, chains', moved, entries, newBuckets);
    }

    /** One more item does not make the capacity double beyond what a word can hold. */
    ghost predicate CanHold(key: K)
      reads this
    {
      key in contents || capacity < TOP_BIT || 2 * (nItems + 1) <= capacity
    }

    /** An existing key is left alone. */
    method Insert(key: K, value: V) returns (k: K, v: V, inserted: bool, ghost added: Entry?<K, V>)
      requires Valid() && CanHold(key)
      modifies this, buckets, entries`next
      ensures Valid()
      ensures inserted <==> key !in old(contents)
      ensures contents == if inserted then old(contents)[key := value] else old(contents)
      ensures nItems == old(nItems) + if inserted then 1 else 0
      ensures k == key && v == contents[key]
      ensures !inserted ==> capacity == old(capacity) && chains == old(chains) && entries == old(entries)
      ensures inserted ==> fresh(added) && added.key == key && added.value == value && entries == old(entries) + {added}
      ensures inserted ==>
                var longer := Appended(old(chains), BucketIndex(hasher, key, old(capacity)), added);
                if old(capacity) < 2 * nItems && 2 * old(capacity) <= maxCapacity
                then capacity == 2 * old(capacity) && chains == Split(hasher, longer)
                else capacity == old(capacity) && chains == longer
      ensures buckets == old(buckets) || fresh(buckets)
    {
      hide Shape, LaidOut, Total, Represents, Split;
      HasBuckets();
      added := null;
      var index := BucketIndex(hasher, key, capacity);
      var last, hit, p := FindPlace(index, key);
      if hit {
        return last.key, last.value, false, null;
      }
      added := Append(index, last, key, value);
      PerformResizeIfRequired();
      return key, value, true, added;
    }

    /** The value of an existing key is replaced; the result says inserted either way. */
    method Update(key: K, value: V) returns (k: K, v: V, inserted: bool, ghost added: Entry?<K, V>)
      requires Valid() && CanHold(key)
      modifies this, buckets, entries`next, entries`value
      ensures Valid()
      ensures contents == old(contents)[key := value]
      ensures nItems == old(nItems) + if key in old(contents) then 0 else 1
      ensures k == key && v == value && inserted
      ensures key in old(contents) ==> capacity == old(capacity) && chains == old(chains) && entries == old(entries)
      ensures key !in old(contents) ==>
                fresh(added) && added.key == key && added.value == value && entries == old(entries) + {added}
      ensures key !in old(contents) ==>
                var longer := Appended(old(chains), BucketIndex(hasher, key, old(capacity)), added);
                if old(capacity) < 2 * nItems && 2 * old(capacity) <= maxCapacity
                then capacity == 2 * old(capacity) && chains == Split(hasher, longer)
                else capacity == old(capacity) && chains == longer
      ensures buckets == old(buckets) || fresh(buckets)
    {
      hide Shape, LaidOut, Total, Represents, Split;
      HasBuckets();
      added := null;
      var index := BucketIndex(hasher, key, capacity);
      var entry, hit, p := FindPlace(index, key);
      if hit {
        SetValue(index, p, entry, key, value);
        return entry.key, entry.value, true, null;
      }
      added := Append(index, entry, key, value);
      PerformResizeIfRequired();
      return key, value, true, added;
    }

    method SetValue(index: nat, ghost p: nat, entry: Entry<K, V>, key: K, value: V)
      requires Sound() && index < |chains|
      requires p < |chains[index]| && chains[index][p] == entry && entry.key == key && key in contents
      modifies this`contents, entry`value
      ensures Sound() && entry.value == value && contents == old(contents)[key := value]
    {
      hide LaidOut, Total, Shape, Holds, Covers, Keys;
      KeyApart(hasher, chains, entries, index, p, index);
      forall i | 0 <= i < |chains| && i != index
        ensures Holds(chains[i], contents[key := value]) && entry !in chains[i]
      {
        KeyApart(hasher, chains, entries, index, p, i);
        ChainsApart(hasher, chains, entries, index, i);
        HoldsElsewhere(chains[i], contents, key, value);
      }
      CoversUpdate(hasher, chains, contents, key, value);
      SetEntry(entry, value, chains[index], p, contents);
      contents := contents[key := value];
    }

    /** The key is absent, or the first of its chain. */
    ghost predicate AbsentOrFirst(key: K)
      requires Sound()
      reads this, buckets, entries`next, entries`value
    {
      var i := BucketIndex(hasher, key, capacity);
      key !in contents || (i < buckets.Length && buckets[i].first != null && buckets[i].first.key == key)
    }

    /** The next operation on the key finds its bucket counted as not empty, and reads through null. */
    predicate FollowsNull(key: K)
      reads this, buckets
    {
      0 < capacity && BucketIndex(hasher, key, capacity) < buckets.Length
      && var bucket := buckets[BucketIndex(hasher, key, capacity)]; bucket.nItems != 0 && bucket.first == null
    }

    /** As written: the predecessor is never advanced, so the entry after the removed one always
        becomes the first of the chain. What stood before the removed entry is lost with it, but
        only one item is taken off the counts. */
    method Remove(key: K) returns (r: LookupResult<K, V>, ghost p: nat)
      requires Valid()
      modifies this`nItems, this`chains, this`contents, buckets
      ensures Shape(hasher, chains, entries) && Represents(hasher, chains, entries, contents)
      ensures |chains| == capacity == buckets.Length
      ensures forall i :: 0 <= i < |chains| ==> Linked(chains[i], buckets[i].first)
      ensures r == ResultOf(old(contents), key)
      ensures key !in old(contents) ==> chains == old(chains) && contents == old(contents) && nItems == old(nItems)
      ensures key in old(contents) ==>
                var c := ChainOf(hasher, old(chains), key);
                && p < |c| && c[p].key == key && nItems == old(nItems) - 1
                && chains == old(chains)[BucketIndex(hasher, key, capacity) := c[p + 1..]]
                && contents == old(contents) - KeySet(c[..p + 1])
      ensures forall i :: 0 <= i < |chains| ==>
                buckets[i].nItems == old(buckets[i].nItems)
                                     - if key in old(contents) && i == BucketIndex(hasher, key, capacity) then 1 else 0
      ensures key in old(contents) ==> (FollowsNull(key) <==> 0 < p == |ChainOf(hasher, old(chains), key)| - 1)
      ensures Valid() && contents == old(contents) - {key} <==> old(AbsentOrFirst(key))
    {
      hide Shape, Linked, Represents, Keys, KeySet, Total, LaidOut;
      HasBuckets();
      var index := BucketIndex(hasher, key, capacity);
      var entry, hit;
      entry, hit, p := FindPlace(index, key);
      FirstOfBucket(index);
      if !hit {
        return NotFound, p;
      }
      r := Found(entry.key, entry.value);
      FirstPlace(index, p);
      DropThrough(index, p, entry);
    }

    /** The bucket of a present key is not empty, and its first entry is one of the stored keys. */
    lemma FirstIsStored(key: K)
      requires Sound() && key in contents
      ensures var i, c := BucketIndex(hasher, key, capacity), ChainOf(hasher, chains, key);
              && i < buckets.Length && c != [] && buckets[i].first == c[0] && c[0].key in contents
    {
      BucketIndexIsRemainder(hasher, key, capacity);
      var i, c := BucketIndex(hasher, key, capacity), ChainOf(hasher, chains, key);
      assert key in Keys(c) && Linked(c, buckets[i].first) && Holds(c, contents);
    }

    lemma FirstOfBucket(i: nat)
      requires LaidOut(chains, entries, buckets) && i < |chains|
      ensures buckets.Length == |chains| && buckets[i].first == EntryAt(chains[i], 0)
      ensures forall j :: 0 <= j < |chains| ==> Linked(chains[j], buckets[j].first) && buckets[j].nItems == |chains[j]|
    {
    }

    lemma FirstPlace(i: nat, p: nat)
      requires Shape(hasher, chains, entries) && i < |chains| && p < |chains[i]|
      ensures chains[i][0].key == chains[i][p].key <==> p == 0
    {
      ShapeChain(hasher, chains, entries, i);
    }

    /** The entry after place `p` becomes the first of chain `index`. */
    method DropThrough(index: nat, ghost p: nat, entry: Entry<K, V>)
      requires Valid() && index < |chains| && p < |chains[index]| && entry == chains[index][p]
      modifies this`nItems, this`chains, this`contents, buckets
      ensures Shape(hasher, chains, entries) && Represents(hasher, chains, entries, contents)
      ensures |chains| == capacity == buckets.Length
      ensures forall i :: 0 <= i < |chains| ==> Linked(chains[i], buckets[i].first)
      ensures nItems == old(nItems) - 1
      ensures forall i :: 0 <= i < |chains| ==> buckets[i].nItems == |old(chains)[i]| - if i == index then 1 else 0
      ensures buckets[index].first == EntryAt(chains[index], 0)
      ensures chains == old(chains)[index := old(chains)[index][p + 1..]]
      ensures contents == old(contents) - KeySet(old(chains)[index][..p + 1])
      ensures p == 0 <==> Valid()
      ensures p == 0 ==> contents == old(contents) - {entry.key}
    {
      hide Shape, Linked, Represents, Keys, KeySet, Total;
      ghost var c := chains[index];
      ShapeChain(hasher, chains, entries, index);
      KeysSplit(c, p + 1);
      LinkedDrop(c, buckets[index].first, p);
      ShapeDrop(hasher, chains, entries, index, p + 1);
      RepresentsLess(hasher, chains, entries, contents, index, c[p + 1..], KeySet(c[..p + 1]));
      TotalUpdate(chains, index, c[p + 1..]);
      KeySetOfFirst(c);
      buckets[index] := Bucket(entry.next, buckets[index].nItems - 1);
      nItems := nItems - 1;
      contents := contents - KeySet(c[..p + 1]);
      chains := chains[index := c[p + 1..]];
    }

    /** The removal that the loop evidently intends, with the predecessor advanced. */
    method RemoveUnlinking(key: K) returns (r: LookupResult<K, V>, ghost p: nat)
      requires Valid()
      modifies this`nItems, this`chains, this`contents, buckets, entries`next
      ensures Valid() && contents == old(contents) - {key}
      ensures r == ResultOf(old(contents), key)
      ensures nItems == old(nItems) - if key in old(contents) then 1 else 0
      ensures key !in old(contents) ==> chains == old(chains)
      ensures key in old(contents) ==>
                var c := ChainOf(hasher, old(chains), key);
                && p < |c| && c[p].key == key
                && chains == old(chains)[BucketIndex(hasher, key, capacity) := c[..p] + c[p + 1..]]
    {
      hide Shape, Linked, Represents, Keys, Total, LaidOut;
      HasBuckets();
      var index := BucketIndex(hasher, key, capacity);
      var entry, hit;
      entry, hit, p := FindPlace(index, key);
      if !hit {
        return NotFound, p;
      }
      r := Found(entry.key, entry.value);
      FirstOfBucket(index);
      UnlinkEntry(index, p, key);
    }

    method UnlinkEntry(index: nat, ghost p: nat, key: K)
      requires Valid() && index < |chains| && p < |chains[index]| && chains[index][p].key == key
      modifies this`nItems, this`chains, this`contents, buckets, entries`next
      ensures Valid() && contents == old(contents) - {key} && nItems == old(nItems) - 1
      ensures chains == old(chains)[index := old(chains)[index][..p] + old(chains)[index][p + 1..]]
    {
      hide Shape, Linked, Represents, Keys, Total;
      ghost var c := chains[index];
      ghost var c' := c[..p] + c[p + 1..];
      ShapeChain(hasher, chains, entries, index);
      KeysWithout(c, p);
      ShapeRemove(hasher, chains, entries, index, p);
      RepresentsLess(hasher, chains, entries, contents, index, c', {key});
      TotalUpdate(chains, index, c');
      UnlinkLinks(index, p, key);
      nItems := nItems - 1;
      contents := contents - {key};
      chains := chains[index := c'];
    }

    method UnlinkLinks(index: nat, ghost p: nat, key: K)
      requires Shape(hasher, chains, entries) && LaidOut(chains, entries, buckets) && index < |chains|
      requires p < |chains[index]| && chains[index][p].key == key
      modifies buckets, entries`next
      ensures LaidOut(chains[index := chains[index][..p] + chains[index][p + 1..]], entries, buckets)
    {
      hide Shape, Linked;
      ghost var c := chains[index];
      ShapeChain(hasher, chains, entries, index);
      ChainsApart(hasher, chains, entries, index, index);
      var first := Unlink(buckets[index].first, key, c, p);
      buckets[index] := Bucket(first, buckets[index].nItems - 1);
      forall i | 0 <= i < |chains| && i != index
        ensures Linked(chains[i], buckets[i].first)
      {
        ChainsApart(hasher, chains, entries, index, i);
        assert forall e :: e in chains[i] ==> e.next == old(e.next);
        assert old(Linked(chains[i], buckets[i].first));
      }
    }

    method SequentialMultilookup(keys: seq<K>) returns (results: seq<LookupResult<K, V>>, ghost compared: nat)
      requires Valid()
      ensures results == ResultsOf(contents, keys)
      ensures compared == AllCompared(hasher, chains, keys)
    {
      hide Sound;
      results, compared := [], 0;
      for i := 0 to |keys|
        invariant results == ResultsOf(contents, keys[..i])
        invariant compared == AllCompared(hasher, chains, keys[..i])
      {
        ghost var n;
        var r;
        r, n := Lookup(keys[i]);
        results, compared := results + [r], compared + n;
        assert ResultsOf(contents, keys[..i + 1]) == ResultsOf(contents, keys[..i]) + [r];
        assert keys[..i + 1][..i] == keys[..i];
      }
      assert keys[..|keys|] == keys;
    }
  }

  /** What a program gets that asks for a map; a maximum of zero is an error. */
  method NewMap<K(==), V>(maxCapacity: nat, hasher: K -> nat) returns (m: Option<Map<K, V>>)
    requires maxCapacity < WORD
    ensures m == None <==> maxCapacity == 0
    ensures m.Some? ==> fresh(m.value) && fresh(m.value.buckets)
    ensures m.Some? ==> m.value.contents == map[] && (m.value.Valid() <==> 2 <= maxCapacity)
  {
    if maxCapacity == 0 {
      return None;
    }
    var map_ := new Map(maxCapacity, hasher);
    return Some(map_);
  }

  /** Two keys in one bucket: removing the one that is not first forgets the other as well, while
      the map still counts it. The next lookup in that bucket reads through null. */
  method RemoveForgets() returns (count: nat, followsNull: bool, ghost left: map<nat, nat>)
    ensures count == 1 && followsNull && left == map[]
  {
    hide Map.Sound, Map.Valid;
    var m := new Map<nat, nat>(2, _ => 0);
    m.InRange();
    var _, _, _, _ := m.Insert(0, 10);
    m.InRange();
    var _, _, _, _ := m.Insert(1, 11);
    count, followsNull, left := RemoveSecond(m);
  }

  method RemoveSecond(m: Map<nat, nat>) returns (count: nat, followsNull: bool, ghost left: map<nat, nat>)
    requires m.Valid() && m.contents == map[0 := 10, 1 := 11] && m.nItems == 2
    requires forall k :: m.hasher(k) == 0
    modifies m, m.buckets
    ensures count == 1 && followsNull && left == map[]
  {
    hide Map.Sound, Map.Valid, Keys;
    m.InRange();
    m.FirstIsStored(0);
    ghost var c := ChainOf(m.hasher, m.chains, 0);
    var first := m.buckets[BucketIndex(m.hasher, 0, m.capacity)].first;
    var second := if first != null && first.key == 0 then 1 else 0;
    assert ChainOf(m.hasher, m.chains, second) == c && c[0].key != second;
    assert !m.AbsentOrFirst(second);
    var _, p := m.Remove(second);
    assert c[0] in c[..p + 1] && c[p] in c[..p + 1];
    KeysOfMembers(c[..p + 1], 0);
    KeysOfMembers(c[..p + 1], p);
    count, left := m.nItems, m.contents;
    followsNull := m.FollowsNull(second);
  }
}
