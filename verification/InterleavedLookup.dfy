/** Bulk lookup in the hash map by interleaved coroutines. */
module InterleavedLookup {
  import opened Chains
  import opened HashMap
  import opened RecyclingAllocator
  import opened Scheduler
  import opened Throttling
  import opened Words

  /** A lookup that has not begun, or one suspended on the prefetch of an entry. */
  datatype Task<K(==), V> = NoTask | Start(key: K) | At(key: K, entry: Entry<K, V>)

  function PlaceOf<K, V>(c: Chain<K, V>, e: Entry<K, V>): nat {
    if c == [] then 0 else if c[0] == e then 0 else 1 + PlaceOf(c[1..], e)
  }

  lemma {:induction false} PlaceFound<K, V>(c: Chain<K, V>, p: nat)
    requires p < |c|
    requires forall j, m :: 0 <= j < m < |c| ==> c[j].key != c[m].key
    ensures PlaceOf(c, c[p]) == p
  {
    if p != 0 {
      assert c[0].key != c[p].key;
      PlaceFound(c[1..], p - 1);
    }
  }

  /** A suspended lookup stands on an entry of the home chain, the key not being before it. */
  ghost predicate TaskOk<K, V>(hasher: K -> nat, chains: seq<Chain<K, V>>, t: Task<K, V>) {
    && t != NoTask
    && (t.At? ==>
          var c := ChainOf(hasher, chains, t.key);
          PlaceOf(c, t.entry) < |c| && c[PlaceOf(c, t.entry)] == t.entry && t.key !in Keys(c)[..PlaceOf(c, t.entry)])
  }

  function Final<K, V>(contents: map<K, V>, t: Task<K, V>): LookupResult<K, V> {
    if t.NoTask? then NotFound else ResultOf(contents, t.key)
  }

  lemma NextPlace<K, V>(c: Chain<K, V>, p: nat)
    requires p < |c|
    ensures |Keys(c)| == |c| && Keys(c)[..p + 1] == Keys(c)[..p] + [c[p].key]
    ensures p + 1 == |c| ==> Keys(c)[..p + 1] == Keys(c)
  {
  }

  /** How often a lookup is still resumed: once to begin, and once for every entry compared. */
  function Resumptions<K, V>(hasher: K -> nat, chains: seq<Chain<K, V>>, t: Task<K, V>): nat {
    match t
    case NoTask => 0
    case Start(key) => 1 + Compared(ChainOf(hasher, chains, key), key, 0)
    case At(key, entry) => var c := ChainOf(hasher, chains, key); Compared(c, key, PlaceOf(c, entry))
  }

  /** From one suspension point of the lookup coroutine to the next. */
  method Step<K(==), V>(m: Map<K, V>, t: Task<K, V>) returns (o: Outcome<Task<K, V>, LookupResult<K, V>>)
    requires m.Valid() && TaskOk(m.hasher, m.chains, t)
    ensures match o
            case Completed(r) => r == Final(m.contents, t) && Resumptions(m.hasher, m.chains, t) == 1
            case Suspended(u) =>
              && TaskOk(m.hasher, m.chains, u) && Final(m.contents, u) == Final(m.contents, t)
              && Resumptions(m.hasher, m.chains, t) == 1 + Resumptions(m.hasher, m.chains, u)
  {
    hide Map.Sound, Map.Valid, ChainOf, Compared, PlaceOf, BucketIndex, Keys;
    var key := t.key;
    m.InRange();
    ghost var c := ChainOf(m.hasher, m.chains, key);
    m.HomeChain(key);
    if t.Start? {
      var bucket := m.buckets[BucketIndex(m.hasher, key, m.capacity)];
      if bucket.nItems == 0 {
        return Completed(NotFound);
      }
      PlaceFound(c, 0);
      return Suspended(At(key, bucket.first));
    }
    var entry := t.entry;
    ghost var p := PlaceOf(c, entry);
    ComparedHere(c, key, p);
    NextPlace(c, p);
    if key == entry.key {
      return Completed(Found(entry.key, entry.value));
    }
    if entry.next == null {
      return Completed(NotFound);
    }
    PlaceFound(c, p + 1);
    return Suspended(At(key, entry.next));
  }

  type Streams<K(==), V> = Throttler<Task<K, V>, LookupResult<K, V>, seq<LookupResult<K, V>>>

  function FinalIn<K, V>(contents: map<K, V>): Task<K, V> -> LookupResult<K, V> {
    t => Final(contents, t)
  }

  function CostIn<K, V>(hasher: K -> nat, chains: seq<Chain<K, V>>): Task<K, V> -> nat {
    t => Resumptions(hasher, chains, t)
  }

  ghost function OkIn<K, V>(hasher: K -> nat, chains: seq<Chain<K, V>>): Task<K, V> -> bool {
    t => TaskOk(hasher, chains, t)
  }

  /** The throttler runs lookups in the map. */
  ghost predicate LooksIn<K, V>(m: Map<K, V>, t: Streams<K, V>)
    reads m
  {
    && t.final == FinalIn(m.contents)
    && t.cost == CostIn(m.hasher, m.chains)
    && t.ok == OkIn(m.hasher, m.chains)
  }

  /** Resuming one coroutine runs coroutines in turn until exactly one of them completes. */
  method Resume<K, V>(m: Map<K, V>, t: Streams<K, V>, handle: Handle<Task<K, V>>, ghost ready: set<Frame>)
    requires m.Valid() && LooksIn(m, t)
    requires t.InHand(false, handle, ready) && |t.scheduler.queue| < t.scheduler.buffer.Length
    modifies t`sink, t`log, t`limit, t`turns, t.scheduler, t.scheduler.buffer, t.allocator, t.allocator.blocks
    ensures m.Valid() && LooksIn(m, t) && t.InHand(true, handle, ready)
    ensures |t.scheduler.queue| == |old(t.scheduler.queue)| && t.limit == old(t.limit) + 1
    ensures |t.log| == |old(t.log)| + 1
    ensures t.allocator.peak == old(t.allocator.peak) && t.allocator.blocks == old(t.allocator.blocks)
  {
    hide Map.Valid, Throttler.Valid, Throttler.Conserved;
    var running, done := handle, false;
    while !done
      invariant m.Valid() && LooksIn(m, t) && t.InHand(done, running, ready)
      invariant !done ==> t.limit == old(t.limit) && t.log == old(t.log)
      invariant done ==> t.limit == old(t.limit) + 1 && |t.log| == |old(t.log)| + 1
      invariant |t.scheduler.queue| == |old(t.scheduler.queue)| && t.allocator.peak == old(t.allocator.peak)
      invariant t.allocator.blocks == old(t.allocator.blocks)
      decreases !done, Work(t.cost, [running.task] + Tasks(t.scheduler.queue))
    {
      t.InHandOk(running, ready);
      var outcome := Step(m, running.task);
      done, running := t.Settle(running, outcome, ready);
    }
  }

  method Spawn<K, V>(m: Map<K, V>, t: Streams<K, V>, frame: Frame, key: K)
    requires m.Valid() && LooksIn(m, t) && t.Valid({}, {frame}) && t.Conserved(Tasks(t.scheduler.queue))
    requires t.Loaded() && 1 <= t.maxTasks
    modifies t, t.scheduler, t.scheduler.buffer, t.allocator, t.allocator.blocks
    ensures m.Valid() && LooksIn(m, t) && t.Idle() && t.Loaded()
    ensures t.spawned == old(t.spawned) + [Start(key)]
    ensures t.allocator.peak == old(t.allocator.peak) && t.allocator.blocks == old(t.allocator.blocks)
  {
    hide Throttler.Valid, Throttler.Conserved, Map.Valid;
    t.Accounted({}, {frame}, Tasks(t.scheduler.queue));
    if t.limit == 0 {
      var handle := t.Take({frame});
      Resume(m, t, handle, {frame});
    }
    t.Enqueue(Handle(frame, Start(key)));
  }

  /** `run`: resume until the ring looks empty. */
  method RunAll<K, V>(m: Map<K, V>, t: Streams<K, V>)
    requires m.Valid() && LooksIn(m, t) && t.Idle()
    modifies t`sink, t`log, t`limit, t`turns, t.scheduler, t.scheduler.buffer, t.allocator, t.allocator.blocks
    ensures m.Valid() && LooksIn(m, t) && t.Idle()
    ensures |t.scheduler.queue| == if |old(t.scheduler.queue)| == t.scheduler.buffer.Length then |old(t.scheduler.queue)| else 0
    ensures t.allocator.peak == old(t.allocator.peak) && t.allocator.blocks == old(t.allocator.blocks)
  {
    hide Throttler.Valid, Throttler.Conserved, Map.Valid;
    t.Accounted({}, {}, Tasks(t.scheduler.queue));
    var more := t.HasNextTask();
    while more
      invariant m.Valid() && LooksIn(m, t) && t.Idle()
      invariant |old(t.scheduler.queue)| == t.scheduler.buffer.Length ==> !more && t.scheduler.queue == old(t.scheduler.queue)
      invariant |t.scheduler.queue| <= |old(t.scheduler.queue)|
      invariant more <==> 0 < |t.scheduler.queue| < t.scheduler.buffer.Length
      invariant t.allocator.peak == old(t.allocator.peak) && t.allocator.blocks == old(t.allocator.blocks)
      decreases |t.scheduler.queue|
    {
      var handle := t.Take({});
      Resume(m, t, handle, {});
      more := t.HasNextTask();
    }
  }

  function Starts<K, V>(keys: seq<K>): (ts: seq<Task<K, V>>)
    ensures |ts| == |keys| && forall i :: 0 <= i < |keys| ==> ts[i] == Start(keys[i])
  {
    seq(|keys|, i requires 0 <= i < |keys| => Start(keys[i]))
  }

  method SpawnAll<K, V>(m: Map<K, V>, t: Streams<K, V>, keys: seq<K>)
    requires m.Valid() && LooksIn(m, t) && t.Idle() && t.Loaded() && t.spawned == []
    requires keys != [] ==> 1 <= t.maxTasks
    modifies t, t.scheduler, t.scheduler.buffer, t.allocator, t.allocator.blocks
    ensures m.Valid() && LooksIn(m, t) && t.Idle() && t.Loaded()
    ensures t.spawned == Starts(keys)
    ensures t.allocator.peak <= old(t.allocator.peak) || t.allocator.peak <= t.maxTasks + 1
    ensures fresh(t.allocator.blocks - old(t.allocator.blocks))
  {
    hide Throttler.Valid, Throttler.Conserved, Throttler.Loaded, Map.Valid;
    for k := 0 to |keys|
      invariant m.Valid() && LooksIn(m, t) && t.Idle() && t.Loaded()
      invariant t.spawned == Starts(keys[..k])
      invariant t.allocator.peak <= old(t.allocator.peak) || t.allocator.peak <= t.maxTasks + 1
      invariant fresh(t.allocator.blocks - old(t.allocator.blocks))
    {
      var frame := t.NewFrame();
      Spawn(m, t, frame, keys[k]);
      assert Starts<K, V>(keys[..k + 1]) == Starts<K, V>(keys[..k]) + [Start(keys[k])];
    }
    assert keys[..|keys|] == keys;
  }

  function Push<R>(out: seq<R>, r: R): seq<R> {
    out + [r]
  }

  lemma {:induction false} PushesAreTheLog<R>(log: seq<R>)
    ensures Fold(Push, [], log) == log
  {
    if log != [] {
      PushesAreTheLog(log[..|log| - 1]);
    }
  }

  lemma FinalsOfStarts<K, V>(contents: map<K, V>, keys: seq<K>)
    ensures Finals(FinalIn(contents), Starts(keys)) == ResultsOf(contents, keys)
  {
  }

  /** What has been emitted once the ring looks empty. */
  lemma AfterTheRun<K, V>(m: Map<K, V>, t: Streams<K, V>, keys: seq<K>, loaded: nat)
    requires LooksIn(m, t) && t.Idle()
    requires t.spawned == Starts(keys) && t.emit == Push && t.start == []
    requires loaded <= t.scheduler.buffer.Length
    requires t.lost == [] ==> loaded == Min(|keys|, t.maxTasks)
    requires t.lost == [] <==> t.maxTasks <= t.scheduler.buffer.Length || |keys| <= t.scheduler.buffer.Length
    requires |t.scheduler.queue| == if loaded == t.scheduler.buffer.Length then loaded else 0
    ensures multiset(t.sink) <= multiset(ResultsOf(m.contents, keys))
    ensures |t.sink| == |keys| <==> Min(|keys|, t.maxTasks) < t.scheduler.buffer.Length
    ensures |t.sink| == |keys| ==> multiset(t.sink) == multiset(ResultsOf(m.contents, keys))
    ensures |t.sink| == |keys| && t.maxTasks == 1 ==> t.sink == ResultsOf(m.contents, keys)
    ensures |t.sink| == |keys| ==> t.scheduler.queue == [] && t.allocator.live == {}
    ensures t.turns <= |keys| + AllCompared(m.hasher, m.chains, keys)
    ensures |t.sink| == |keys| ==> t.turns == |keys| + AllCompared(m.hasher, m.chains, keys)
  {
    hide Metered, AllOk, AllCompared;
    t.Accounted({}, {}, Tasks(t.scheduler.queue));
    PushesAreTheLog(t.log);
    FinalsOfStarts(m.contents, keys);
    ResumptionsInAll(m.hasher, m.chains, keys);
  }

  lemma {:induction false} ResumptionsInAll<K, V>(hasher: K -> nat, chains: seq<Chain<K, V>>, keys: seq<K>)
    ensures Work(CostIn(hasher, chains), Starts(keys)) == |keys| + AllCompared(hasher, chains, keys)
  {
    if keys != [] {
      var init, last := keys[..|keys| - 1], keys[|keys| - 1];
      ResumptionsInAll(hasher, chains, init);
      assert Starts<K, V>(keys) == Starts<K, V>(init) + [Start(last)];
      WorkConcat(CostIn(hasher, chains), Starts(init), [Start(last)]);
      WorkOne(CostIn(hasher, chains), Start(last));
    }
  }


  /** Interleaving emits the results of the sequential loop, in some order, exactly when the ring
      never fills up; with one stream the order is kept too. Otherwise lookups are lost, and no
      result is ever emitted that the sequential loop would not emit. */
  method InterleavedMultilookup<K(==), V>(
    m: Map<K, V>, keys: seq<K>, scheduler: StaticQueueScheduler<Handle<Task<K, V>>>, nStreams: nat,
    allocator: RecyclingAllocator, frameSize: nat)
    returns (results: seq<LookupResult<K, V>>, ghost resumptions: nat)
    requires m.Valid() && (keys != [] ==> 1 <= nStreams)
    requires scheduler.Valid() && scheduler.queue == []
    requires allocator.Valid() && allocator.Uniform(frameSize) && allocator.live == {}
    modifies scheduler, scheduler.buffer, allocator, allocator.blocks
    ensures m.Valid()
    ensures multiset(results) <= multiset(ResultsOf(m.contents, keys))
    ensures multiset(results) == multiset(ResultsOf(m.contents, keys)) <==> Min(|keys|, nStreams) < scheduler.buffer.Length
    ensures nStreams == 1 < scheduler.buffer.Length ==> results == ResultsOf(m.contents, keys)
    ensures Min(|keys|, nStreams) < scheduler.buffer.Length ==>
              scheduler.Valid() && scheduler.queue == [] && allocator.Valid() && allocator.live == {}
    ensures allocator.allocCount <= old(allocator.peak) || allocator.allocCount <= nStreams + 1
    ensures resumptions <= |keys| + AllCompared(m.hasher, m.chains, keys)
    ensures Min(|keys|, nStreams) < scheduler.buffer.Length ==>
              resumptions == |keys| + AllCompared(m.hasher, m.chains, keys)
  {
    hide Throttler.Valid, Throttler.Conserved, Map.Valid;
    var t := new Throttler(
      Push, scheduler, allocator, frameSize, nStreams, [],
      FinalIn(m.contents), CostIn(m.hasher, m.chains), OkIn(m.hasher, m.chains));
    assert Tasks(scheduler.queue) == [];
    SpawnAll(m, t, keys);
    ghost var loaded := |scheduler.queue|;
    t.Accounted({}, {}, Tasks(scheduler.queue));
    RunAll(m, t);
    AfterTheRun(m, t, keys, loaded);
    t.Accounted({}, {}, Tasks(scheduler.queue));
    results, resumptions := t.sink, t.turns;
    assert |multiset(results)| == |results| && |multiset(ResultsOf(m.contents, keys))| == |keys|;
  }

  /** On a ring of one slot a single lookup fills the ring, which then looks empty. */
  method FullRingLosesLookup() returns (sequential: seq<LookupResult<nat, nat>>, interleaved: seq<LookupResult<nat, nat>>)
    ensures sequential == [NotFound] && interleaved == []
  {
    hide Map.Sound, Map.Valid;
    var m := new Map<nat, nat>(2, _ => 0);
    var scheduler := new StaticQueueScheduler<Handle<Task<nat, nat>>>(1);
    var allocator := new RecyclingAllocator();
    var results, _ := m.SequentialMultilookup([0]);
    sequential := results;
    var emitted, _ := InterleavedMultilookup(m, [0], scheduler, 1, allocator, 64);
    NoneLeft(emitted, ResultsOf(m.contents, [0]));
    interleaved := emitted;
  }

  lemma NoneLeft<R>(some: seq<R>, one: seq<R>)
    requires |one| == 1 && multiset(some) <= multiset(one) && multiset(some) != multiset(one)
    ensures some == []
  {
    assert one == [one[0]];
  }
}
