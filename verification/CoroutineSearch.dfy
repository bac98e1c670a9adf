/** Interleaved binary search by coroutines on the shared ring. */
module CoroutineSearch {
  import opened BinarySearch
  import opened RecyclingAllocator
  import opened Scheduler
  import opened Throttling
  import opened Words

  const RING_SLOTS := 256

  /** A search that has not begun, or one suspended on the prefetch of its middle element. */
  datatype Task = Start(key: int) | At(first: nat, len: nat, key: int)

  datatype Counters = Counters(found: nat, notFound: nat)

  predicate TaskOk(data: seq<int>, t: Task) {
    t.At? ==> 0 < t.len && t.first + t.len <= |data|
  }

  function Final(data: seq<int>, t: Task): bool {
    match t
    case Start(key) => Search(data, 0, |data|, key)
    case At(first, len, key) => first + len <= |data| && Search(data, first, len, key)
  }

  /** How often the coroutine is still resumed: once to begin, and once after every prefetch. */
  function Resumptions(data: seq<int>, t: Task): nat {
    match t
    case Start(key) => 1 + Probes(data, 0, |data|, key)
    case At(first, len, key) => if first + len <= |data| then Probes(data, first, len, key) else 0
  }

  /** From one suspension point of the coroutine to the next. */
  function Step(data: seq<int>, t: Task): Outcome<Task, bool>
    requires TaskOk(data, t)
  {
    match t
    case Start(key) => Loop(0, |data|, key)
    case At(first, len, key) =>
      var half := len / 2;
      var x := data[first + half];
      if x == key then Completed(true)
      else if x < key then Loop(first + half + 1, len - half - 1, key)
      else Loop(first, half, key)
  }

  function Loop(first: nat, len: nat, key: int): Outcome<Task, bool> {
    if 0 < len then Suspended(At(first, len, key)) else Completed(false)
  }

  /** Each resumption after a prefetch is one probe, and every step leaves the answer what it was. */
  lemma StepSearches(data: seq<int>, t: Task)
    requires TaskOk(data, t)
    ensures match Step(data, t)
            case Completed(found) => found == Final(data, t) && Resumptions(data, t) == 1
            case Suspended(u) =>
              && TaskOk(data, u) && Final(data, u) == Final(data, t)
              && Resumptions(data, t) == 1 + Resumptions(data, u)
  {
  }

  function Count(c: Counters, found: bool): Counters {
    if found then c.(found := c.found + 1) else c.(notFound := c.notFound + 1)
  }

  type Streams = Throttler<Task, bool, Counters>

  /** The throttler runs searches on `data`. */
  ghost predicate Searches(data: seq<int>, t: Streams) {
    && (forall u :: t.final(u) == Final(data, u))
    && (forall u :: t.cost(u) == Resumptions(data, u))
    && (forall u :: t.ok(u) == TaskOk(data, u))
  }

  /** Resuming one coroutine runs coroutines in turn until exactly one of them completes. */
  method Resume(data: seq<int>, t: Streams, handle: Handle<Task>, ghost ready: set<Frame>)
    requires Searches(data, t) && t.InHand(false, handle, ready) && |t.scheduler.queue| < t.scheduler.buffer.Length
    modifies t`sink, t`log, t`limit, t`turns, t.scheduler, t.scheduler.buffer, t.allocator, t.allocator.blocks
    ensures t.InHand(true, handle, ready)
    ensures |t.scheduler.queue| == |old(t.scheduler.queue)| && t.limit == old(t.limit) + 1
    ensures |t.log| == |old(t.log)| + 1
    ensures t.allocator.peak == old(t.allocator.peak) && t.allocator.blocks == old(t.allocator.blocks)
  {
    hide Throttler.Valid, Throttler.Conserved;
    var running, done := handle, false;
    while !done
      invariant t.InHand(done, running, ready)
      invariant !done ==> t.limit == old(t.limit) && t.log == old(t.log)
      invariant done ==> t.limit == old(t.limit) + 1 && |t.log| == |old(t.log)| + 1
      invariant |t.scheduler.queue| == |old(t.scheduler.queue)| && t.allocator.peak == old(t.allocator.peak)
      invariant t.allocator.blocks == old(t.allocator.blocks)
      decreases !done, Work(t.cost, [running.task] + Tasks(t.scheduler.queue))
    {
      t.InHandOk(running, ready);
      StepSearches(data, running.task);
      done, running := t.Settle(running, Step(data, running.task), ready);
    }
  }

  method Spawn(data: seq<int>, t: Streams, frame: Frame, key: int)
    requires Searches(data, t) && t.Valid({}, {frame}) && t.Conserved(Tasks(t.scheduler.queue))
    requires t.Loaded() && 1 <= t.maxTasks
    modifies t, t.scheduler, t.scheduler.buffer, t.allocator, t.allocator.blocks
    ensures t.Idle() && t.Loaded()
    ensures t.spawned == old(t.spawned) + [Start(key)]
    ensures t.allocator.peak == old(t.allocator.peak) && t.allocator.blocks == old(t.allocator.blocks)
  {
    hide Throttler.Valid, Throttler.Conserved;
    t.Accounted({}, {frame}, Tasks(t.scheduler.queue));
    if t.limit == 0 {
      var handle := t.Take({frame});
      Resume(data, t, handle, {frame});
    }
    t.Enqueue(Handle(frame, Start(key)));
  }

  /** `run`: resume until the ring looks empty. */
  method RunAll(data: seq<int>, t: Streams)
    requires Searches(data, t) && t.Idle()
    modifies t`sink, t`log, t`limit, t`turns, t.scheduler, t.scheduler.buffer, t.allocator, t.allocator.blocks
    ensures t.Idle()
    ensures |t.scheduler.queue| == if |old(t.scheduler.queue)| == t.scheduler.buffer.Length then |old(t.scheduler.queue)| else 0
    ensures t.allocator.peak == old(t.allocator.peak) && t.allocator.blocks == old(t.allocator.blocks)
  {
    hide Throttler.Valid, Throttler.Conserved;
    t.Accounted({}, {}, Tasks(t.scheduler.queue));
    var more := t.HasNextTask();
    while more
      invariant t.Idle()
      invariant |old(t.scheduler.queue)| == t.scheduler.buffer.Length ==> !more && t.scheduler.queue == old(t.scheduler.queue)
      invariant |t.scheduler.queue| <= |old(t.scheduler.queue)|
      invariant more <==> 0 < |t.scheduler.queue| < t.scheduler.buffer.Length
      invariant t.allocator.peak == old(t.allocator.peak) && t.allocator.blocks == old(t.allocator.blocks)
      decreases |t.scheduler.queue|
    {
      var handle := t.Take({});
      Resume(data, t, handle, {});
      more := t.HasNextTask();
    }
  }

  function Starts(lookups: seq<int>): (ts: seq<Task>)
    ensures |ts| == |lookups| && forall i :: 0 <= i < |lookups| ==> ts[i] == Start(lookups[i])
  {
    seq(|lookups|, i requires 0 <= i < |lookups| => Start(lookups[i]))
  }

  lemma {:induction false} CountersCount(log: seq<bool>)
    ensures var c := Fold(Count, Counters(0, 0), log);
            c.found == multiset(log)[true] && c.notFound == multiset(log)[false] && c.found + c.notFound == |log|
  {
    if log != [] {
      var init, last := log[..|log| - 1], log[|log| - 1];
      CountersCount(init);
      assert log == init + [last];
    }
  }

  lemma {:induction false} HitsAreTrueResults(data: seq<int>, final: Task -> bool, lookups: seq<int>)
    requires forall u :: final(u) == Final(data, u)
    ensures Hits(data, lookups) == multiset(Finals(final, Starts(lookups)))[true]
  {
    if lookups != [] {
      var init, last := lookups[..|lookups| - 1], lookups[|lookups| - 1];
      HitsAreTrueResults(data, final, init);
      assert Finals(final, Starts(lookups)) == Finals(final, Starts(init)) + [Search(data, 0, |data|, last)];
    }
  }

  lemma {:induction false} ResumptionsInAll(data: seq<int>, cost: Task -> nat, lookups: seq<int>)
    requires forall u :: cost(u) == Resumptions(data, u)
    ensures Work(cost, Starts(lookups)) == |lookups| + AllProbes(data, lookups)
  {
    if lookups != [] {
      var init, last := lookups[..|lookups| - 1], lookups[|lookups| - 1];
      ResumptionsInAll(data, cost, init);
      assert Starts(lookups) == Starts(init) + [Start(last)];
      WorkConcat(cost, Starts(init), [Start(last)]);
      WorkOne(cost, Start(last));
    }
  }

  method SpawnAll(data: seq<int>, t: Streams, lookups: seq<int>)
    requires Searches(data, t) && t.Idle() && t.Loaded() && t.spawned == []
    requires lookups != [] ==> 1 <= t.maxTasks
    modifies t, t.scheduler, t.scheduler.buffer, t.allocator, t.allocator.blocks
    ensures t.Idle() && t.Loaded()
    ensures t.spawned == Starts(lookups)
    ensures t.allocator.peak <= old(t.allocator.peak) || t.allocator.peak <= t.maxTasks + 1
    ensures fresh(t.allocator.blocks - old(t.allocator.blocks))
  {
    hide Throttler.Valid, Throttler.Conserved, Throttler.Loaded;
    for k := 0 to |lookups|
      invariant t.Idle() && t.Loaded()
      invariant t.spawned == Starts(lookups[..k])
      invariant t.allocator.peak <= old(t.allocator.peak) || t.allocator.peak <= t.maxTasks + 1
      invariant fresh(t.allocator.blocks - old(t.allocator.blocks))
    {
      var frame := t.NewFrame();
      Spawn(data, t, frame, lookups[k]);
      assert Starts(lookups[..k + 1]) == Starts(lookups[..k]) + [Start(lookups[k])];
    }
    assert lookups[..|lookups|] == lookups;
  }

  /** What the counters hold once the ring looks empty. */
  lemma AfterTheRun(data: seq<int>, t: Streams, lookups: seq<int>, loaded: nat)
    requires Searches(data, t) && t.Idle()
    requires t.spawned == Starts(lookups) && t.emit == Count && t.start == Counters(0, 0)
    requires loaded <= t.scheduler.buffer.Length
    requires t.lost == [] ==> loaded == Min(|lookups|, t.maxTasks)
    requires t.lost == [] <==> t.maxTasks <= t.scheduler.buffer.Length || |lookups| <= t.scheduler.buffer.Length
    requires |t.scheduler.queue| == if loaded == t.scheduler.buffer.Length then loaded else 0
    ensures t.sink.found + t.sink.notFound == |lookups| <==> Min(|lookups|, t.maxTasks) < t.scheduler.buffer.Length
    ensures t.sink.found + t.sink.notFound == |lookups| ==> t.sink.found == Hits(data, lookups)
    ensures t.sink.found + t.sink.notFound == |lookups| ==> t.scheduler.queue == [] && t.allocator.live == {}
    ensures t.turns <= |lookups| + AllProbes(data, lookups)
    ensures t.sink.found + t.sink.notFound == |lookups| ==> t.turns == |lookups| + AllProbes(data, lookups)
  {
    hide Metered, AllOk, AllProbes, Hits;
    t.Accounted({}, {}, Tasks(t.scheduler.queue));
    CountersCount(t.log);
    HitsAreTrueResults(data, t.final, lookups);
    ResumptionsInAll(data, t.cost, lookups);
  }

  /** The counts are complete, and then right, exactly when the ring never fills up; each search has
      then been resumed once to begin and once for every probe of the plain search. `complete` is
      what the program asserts before it returns. */
  method CoroMultiLookup(
    data: seq<int>, lookups: seq<int>, nStreams: nat,
    scheduler: StaticQueueScheduler<Handle<Task>>, allocator: RecyclingAllocator, frameSize: nat)
    returns (result: nat, complete: bool, ghost resumptions: nat)
    requires lookups != [] ==> 1 <= nStreams
    requires scheduler.Valid() && scheduler.queue == [] && scheduler.buffer.Length == RING_SLOTS
    requires allocator.Valid() && allocator.Uniform(frameSize) && allocator.live == {}
    modifies scheduler, scheduler.buffer, allocator, allocator.blocks
    ensures complete <==> Min(|lookups|, nStreams) < RING_SLOTS
    ensures complete ==> result == Hits(data, lookups)
    ensures complete ==> scheduler.Valid() && scheduler.queue == [] && allocator.Valid() && allocator.live == {}
    ensures allocator.allocCount <= old(allocator.peak) || allocator.allocCount <= nStreams + 1
    ensures resumptions <= |lookups| + AllProbes(data, lookups)
    ensures complete ==> resumptions == |lookups| + AllProbes(data, lookups)
  {
    hide Throttler.Valid, Throttler.Conserved;
    var t := new Throttler(
      Count, scheduler, allocator, frameSize, nStreams, Counters(0, 0),
      u => Final(data, u), u => Resumptions(data, u), u => TaskOk(data, u));
    assert Tasks(scheduler.queue) == [];
    SpawnAll(data, t, lookups);
    ghost var loaded := |scheduler.queue|;
    t.Accounted({}, {}, Tasks(scheduler.queue));
    RunAll(data, t);
    AfterTheRun(data, t, lookups, loaded);
    t.Accounted({}, {}, Tasks(scheduler.queue));
    complete := t.sink.found + t.sink.notFound == |lookups|;
    result := t.sink.found;
    resumptions := t.turns;
  }

  /** 256 searches at once fill the ring, and the closing assertion fails. */
  method FullRingFailsAssertion() returns (complete: bool)
    ensures !complete
  {
    var scheduler := new StaticQueueScheduler<Handle<Task>>(256);
    var allocator := new RecyclingAllocator();
    var _, all, _ := CoroMultiLookup([], seq(256, _ => 0), 256, scheduler, allocator, 64);
    complete := all;
  }
}
