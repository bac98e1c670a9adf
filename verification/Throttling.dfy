/** The throttled, interleaved execution of many short coroutines on one ring.

    A coroutine that suspends pushes itself and control passes to the front of the ring; one that
    completes emits its result and gives its slot back. The coroutine bodies are supplied by the
    two searches that use this module. */
module Throttling {
  import opened RecyclingAllocator
  import opened Scheduler

  /** A coroutine handle: the block its frame lives in and the state the frame is suspended in. */
  datatype Handle<T(0)> = Handle(frame: Frame?, task: T)

  datatype Outcome<T, R> = Suspended(task: T) | Completed(result: R)

  /** What the completion callbacks have done to the sink, given the results in completion order. */
  function Fold<A, R>(emit: (A, R) -> A, start: A, log: seq<R>): A {
    if log == [] then start else emit(Fold(emit, start, log[..|log| - 1]), log[|log| - 1])
  }

  lemma FoldMore<A, R>(emit: (A, R) -> A, start: A, log: seq<R>, r: R)
    ensures Fold(emit, start, log + [r]) == emit(Fold(emit, start, log), r)
  {
    assert (log + [r])[..|log|] == log;
  }

  function Finals<T, R>(final: T -> R, ts: seq<T>): (rs: seq<R>)
    ensures |rs| == |ts| && forall i :: 0 <= i < |ts| ==> rs[i] == final(ts[i])
  {
    seq(|ts|, i requires 0 <= i < |ts| => final(ts[i]))
  }

  function Tasks<T(0)>(queue: seq<Handle<T>>): (ts: seq<T>)
    ensures |ts| == |queue| && forall i :: 0 <= i < |queue| ==> ts[i] == queue[i].task
  {
    seq(|queue|, i requires 0 <= i < |queue| => queue[i].task)
  }

  ghost function Work<T>(measure: T -> nat, ts: seq<T>): nat {
    if ts == [] then 0 else measure(ts[0]) + Work(measure, ts[1..])
  }

  lemma {:induction false} WorkConcat<T>(measure: T -> nat, a: seq<T>, b: seq<T>)
    ensures Work(measure, a + b) == Work(measure, a) + Work(measure, b)
  {
    if a == [] {
      assert a + b == b;
    } else {
      assert (a + b)[1..] == a[1..] + b;
      WorkConcat(measure, a[1..], b);
    }
  }

  lemma WorkOne<T>(measure: T -> nat, t: T)
    ensures Work(measure, [t]) == measure(t)
  {
    assert [t][1..] == [];
  }

  ghost predicate AllOk<T>(ok: T -> bool, ts: seq<T>) {
    forall i :: 0 <= i < |ts| ==> ok(ts[i])
  }

  lemma AllOkConcat<T>(ok: T -> bool, a: seq<T>, b: seq<T>)
    ensures AllOk(ok, a + b) <==> AllOk(ok, a) && AllOk(ok, b)
  {
    assert forall i :: 0 <= i < |a| ==> (a + b)[i] == a[i];
    assert forall i :: 0 <= i < |b| ==> (a + b)[|a| + i] == b[i];
  }

  lemma OneOk<T>(ok: T -> bool, t: T)
    ensures AllOk(ok, [t]) <==> ok(t)
  {
    assert [t][0] == t;
  }

  lemma FinalsConcat<T, R>(final: T -> R, a: seq<T>, b: seq<T>)
    ensures Finals(final, a + b) == Finals(final, a) + Finals(final, b)
  {
  }

  /** The ring holds distinct frames out of `live`, none of them `away` from it. */
  ghost predicate Apart<T(0)>(queue: seq<Handle<T>>, live: set<Frame>, away: set<Frame>) {
    && away <= live
    && (forall i :: 0 <= i < |queue| ==> queue[i].frame in live && queue[i].frame !in away)
    && (forall i, j :: 0 <= i < j < |queue| ==> queue[i].frame != queue[j].frame)
  }

  /** Rotating the ring by one place. */
  lemma Rotate<T(0)>(queue: seq<Handle<T>>, h: Handle<T>, next: Handle<T>, queue': seq<Handle<T>>,
                     live: set<Frame>, ready: set<Frame>)
    requires [next] + queue' == queue + [h] && h.frame != null
    requires Apart(queue, live, {h.frame} + ready) && h.frame !in ready
    ensures next.frame != null && next.frame in live && next.frame !in ready && Apart(queue', live, {next.frame} + ready)
    ensures [next.task] + Tasks(queue') == Tasks(queue) + [h.task]
    ensures |queue'| == |queue|
  {
    hide Apart, Tasks;
    RotateTasks(queue, h, next, queue');
    ApartJoin(queue, live, h, ready);
    ApartSplit(next, queue', live, ready);
  }

  lemma RotateTasks<T(0)>(queue: seq<Handle<T>>, h: Handle<T>, next: Handle<T>, queue': seq<Handle<T>>)
    requires [next] + queue' == queue + [h]
    ensures [next.task] + Tasks(queue') == Tasks(queue) + [h.task] && |queue'| == |queue|
  {
    assert |[next] + queue'| == |queue + [h]|;
    assert Tasks([next] + queue') == [next.task] + Tasks(queue');
    assert Tasks(queue + [h]) == Tasks(queue) + [h.task];
  }

  lemma ApartJoin<T(0)>(queue: seq<Handle<T>>, live: set<Frame>, h: Handle<T>, ready: set<Frame>)
    requires h.frame != null && Apart(queue, live, {h.frame} + ready) && h.frame !in ready
    ensures Apart(queue + [h], live, ready) && Apart([h], live, ready)
  {
    assert h.frame in {h.frame} + ready;
  }

  lemma JoinApart<T(0)>(queue: seq<Handle<T>>, live: set<Frame>, h: Handle<T>)
    requires h.frame != null && Apart(queue, live, {} + {h.frame})
    ensures Apart(queue + [h], live, {} + {}) && Apart([] + [h], live, {} + {})
  {
    var none: set<Frame> := {};
    assert none + {h.frame} == {h.frame} + none && none + none == none;
    ApartJoin(queue, live, h, none);
    assert [] + [h] == [h];
  }

  lemma ApartSplit<T(0)>(h: Handle<T>, queue: seq<Handle<T>>, live: set<Frame>, ready: set<Frame>)
    requires Apart([h] + queue, live, ready)
    ensures h.frame != null && h.frame in live && h.frame !in ready && Apart(queue, live, {h.frame} + ready)
  {
    var all := [h] + queue;
    assert all[0] == h && forall i :: 0 <= i < |queue| ==> queue[i] == all[i + 1];
  }

  lemma ApartRetire<T(0)>(queue: seq<Handle<T>>, live: set<Frame>, ready: set<Frame>, f: Frame)
    requires Apart(queue, live, {f} + ready) && f !in ready
    ensures Apart(queue, live - {f}, {} + ready) && |live - {f}| == |live| - 1
  {
  }

  /** The results already emitted, those of forgotten coroutines and those still owed by the
      coroutines in flight are the results of everything spawned. With a single slot their order
      is kept as well. */
  ghost predicate Balanced<T, R>(
    final: T -> R, slots: nat, spawned: seq<T>, log: seq<R>, lost: seq<R>, flying: seq<T>)
  {
    && multiset(Finals(final, spawned)) == multiset(log) + multiset(lost) + multiset(Finals(final, flying))
    && (slots == 1 ==> lost == [] && |flying| <= 1 && Finals(final, spawned) == log + Finals(final, flying))
  }

  lemma BalancedRotate<T, R>(
    final: T -> R, slots: nat, spawned: seq<T>, log: seq<R>, lost: seq<R>,
    was: T, waiting: seq<T>, now: T, flying: seq<T>)
    requires Balanced(final, slots, spawned, log, lost, [was] + waiting)
    requires final(was) == final(now) && flying == waiting + [now]
    ensures Balanced(final, slots, spawned, log, lost, flying)
  {
    FinalsConcat(final, [was], waiting);
    FinalsConcat(final, waiting, [now]);
    assert Finals(final, [was]) == Finals(final, [now]);
    if slots == 1 {
      assert waiting == [];
    }
  }

  lemma BalancedComplete<T, R>(
    final: T -> R, slots: nat, spawned: seq<T>, log: seq<R>, lost: seq<R>, was: T, waiting: seq<T>)
    requires Balanced(final, slots, spawned, log, lost, [was] + waiting)
    ensures Balanced(final, slots, spawned, log + [final(was)], lost, waiting)
  {
    FinalsConcat(final, [was], waiting);
    assert Finals(final, [was]) == [final(was)];
    if slots == 1 {
      assert waiting == [];
    }
  }

  lemma BalancedSpawn<T, R>(
    final: T -> R, slots: nat, spawned: seq<T>, log: seq<R>, lost: seq<R>, flying: seq<T>, t: T)
    requires Balanced(final, slots, spawned, log, lost, flying)
    requires slots == 1 ==> flying == []
    ensures Balanced(final, slots, spawned + [t], log, lost, flying + [t])
    ensures slots != 1 ==> Balanced(final, slots, spawned + [t], log, lost + Finals(final, flying), [t])
  {
    FinalsConcat(final, spawned, [t]);
    FinalsConcat(final, flying, [t]);
  }

  /** The steps already taken and those that the coroutines in flight still owe are those that
      everything spawned takes; unless some coroutines are lost, and their steps with them. */
  ghost predicate Metered<T>(cost: T -> nat, lossless: bool, spawned: seq<T>, turns: nat, flying: seq<T>) {
    && turns + Work(cost, flying) <= Work(cost, spawned)
    && (lossless ==> turns + Work(cost, flying) == Work(cost, spawned))
  }

  lemma MeteredRotate<T>(
    cost: T -> nat, lossless: bool, spawned: seq<T>, turns: nat, was: T, waiting: seq<T>, now: T, flying: seq<T>)
    requires Metered(cost, lossless, spawned, turns, [was] + waiting)
    requires cost(was) == 1 + cost(now) && flying == waiting + [now]
    ensures Metered(cost, lossless, spawned, turns + 1, flying)
    ensures Work(cost, flying) < Work(cost, [was] + waiting)
  {
    WorkConcat(cost, [was], waiting);
    WorkConcat(cost, waiting, [now]);
    WorkOne(cost, was);
    WorkOne(cost, now);
  }

  lemma MeteredComplete<T>(cost: T -> nat, lossless: bool, spawned: seq<T>, turns: nat, was: T, waiting: seq<T>)
    requires Metered(cost, lossless, spawned, turns, [was] + waiting) && cost(was) == 1
    ensures Metered(cost, lossless, spawned, turns + 1, waiting)
  {
    WorkConcat(cost, [was], waiting);
    WorkOne(cost, was);
  }

  lemma MeteredSpawn<T>(cost: T -> nat, lossless: bool, spawned: seq<T>, turns: nat, flying: seq<T>, t: T)
    requires Metered(cost, lossless, spawned, turns, flying)
    ensures Metered(cost, lossless, spawned + [t], turns, flying + [t])
    ensures Metered(cost, false, spawned + [t], turns, [t])
  {
    WorkConcat(cost, spawned, [t]);
    WorkConcat(cost, flying, [t]);
  }

  /** What is kept about the coroutines in flight: whose results and steps are still owed. */
  ghost predicate Kept<T, R>(
    final: T -> R, cost: T -> nat, ok: T -> bool, slots: nat, spawned: seq<T>, log: seq<R>, lost: seq<R>,
    turns: nat, flying: seq<T>)
  {
    && Balanced(final, slots, spawned, log, lost, flying)
    && Metered(cost, lost == [], spawned, turns, flying)
    && AllOk(ok, flying)
  }

  lemma KeptRotate<T, R>(
    final: T -> R, cost: T -> nat, ok: T -> bool, slots: nat, spawned: seq<T>, log: seq<R>, lost: seq<R>,
    turns: nat, was: T, waiting: seq<T>, now: T, flying: seq<T>)
    requires Kept(final, cost, ok, slots, spawned, log, lost, turns, [was] + waiting)
    requires flying == waiting + [now] && final(was) == final(now) && cost(was) == 1 + cost(now) && ok(now)
    ensures Kept(final, cost, ok, slots, spawned, log, lost, turns + 1, flying)
    ensures Work(cost, flying) < Work(cost, [was] + waiting)
  {
    hide Balanced, Metered, AllOk, Work;
    BalancedRotate(final, slots, spawned, log, lost, was, waiting, now, flying);
    MeteredRotate(cost, lost == [], spawned, turns, was, waiting, now, flying);
    AllOkConcat(ok, [was], waiting);
    AllOkConcat(ok, waiting, [now]);
    OneOk(ok, now);
  }

  lemma KeptComplete<T, R>(
    final: T -> R, cost: T -> nat, ok: T -> bool, slots: nat, spawned: seq<T>, log: seq<R>, lost: seq<R>,
    turns: nat, was: T, waiting: seq<T>)
    requires Kept(final, cost, ok, slots, spawned, log, lost, turns, [was] + waiting) && cost(was) == 1
    ensures Kept(final, cost, ok, slots, spawned, log + [final(was)], lost, turns + 1, waiting)
  {
    hide Balanced, Metered, AllOk;
    BalancedComplete(final, slots, spawned, log, lost, was, waiting);
    MeteredComplete(cost, lost == [], spawned, turns, was, waiting);
    AllOkConcat(ok, [was], waiting);
  }

  lemma KeptSpawn<T, R>(
    final: T -> R, cost: T -> nat, ok: T -> bool, slots: nat, spawned: seq<T>, log: seq<R>, lost: seq<R>,
    turns: nat, flying: seq<T>, t: T)
    requires Kept(final, cost, ok, slots, spawned, log, lost, turns, flying)
    requires (slots == 1 ==> flying == []) && ok(t)
    ensures Kept(final, cost, ok, slots, spawned + [t], log, lost, turns, flying + [t])
    ensures slots != 1 && flying != [] ==>
              Kept(final, cost, ok, slots, spawned + [t], log, lost + Finals(final, flying), turns, [t])
  {
    hide Balanced, Metered, AllOk;
    BalancedSpawn(final, slots, spawned, log, lost, flying, t);
    MeteredSpawn(cost, lost == [], spawned, turns, flying, t);
    OneOk(ok, t);
    AllOkConcat(ok, flying, [t]);
    assert flying != [] ==> lost + Finals(final, flying) != [];
  }

  class Throttler<T(0), R, A> {
    const emit: (A, R) -> A
    const scheduler: StaticQueueScheduler<Handle<T>>
    const allocator: RecyclingAllocator
    const frameSize: nat
    const maxTasks: nat
    var limit: nat
    var sink: A

    ghost const start: A
    ghost const final: T -> R
    ghost const cost: T -> nat
    ghost const ok: T -> bool
    ghost var turns: nat
    ghost var spawned: seq<T>
    ghost var log: seq<R>
    ghost var lost: seq<R>

    ghost predicate Conserved(flying: seq<T>)
      reads this`spawned, this`log, this`lost, this`sink, this`turns
    {
      && sink == Fold(emit, start, log)
      && Kept(final, cost, ok, maxTasks, spawned, log, lost, turns, flying)
    }

    /** A step of a coroutine completes it with the result it has owed all along, or leaves it in a
        state that owes the same result and takes one step less. */
    ghost predicate Follows(t: T, o: Outcome<T, R>) {
      match o
      case Completed(r) => r == final(t) && cost(t) == 1
      case Suspended(u) => ok(u) && final(u) == final(t) && cost(t) == 1 + cost(u)
    }

    /** A coroutine is running, unless it is done. */
    ghost predicate InHand(done: bool, handle: Handle<T>, ready: set<Frame>)
      reads this, scheduler, scheduler.buffer, allocator, allocator.free`next, allocator.free`size
    {
      if done then Valid({}, ready) && Conserved(Tasks(scheduler.queue))
      else
        && handle.frame != null && handle.frame in allocator.blocks
        && Valid({handle.frame}, ready) && Conserved([handle.task] + Tasks(scheduler.queue))
    }

    /** `running` is the frame that has been taken off the ring, `ready` the frame that has been
        created but not spawned. */
    ghost predicate Valid(running: set<Frame>, ready: set<Frame>)
      reads this`limit, this`lost, scheduler, scheduler.buffer, allocator, allocator.free`next, allocator.free`size
    {
      && scheduler.Valid() && allocator.Valid() && allocator.Uniform(frameSize)
      && running !! ready && Apart(scheduler.queue, allocator.live, running + ready)
      && limit + |scheduler.queue| + |lost| + |running| == maxTasks
      && |allocator.live| + limit == maxTasks + |ready|
    }

    /** Between spawns no coroutine is running. */
    ghost predicate Idle()
      reads this, scheduler, scheduler.buffer, allocator, allocator.free`next, allocator.free`size
    {
      Valid({}, {}) && Conserved(Tasks(scheduler.queue))
    }

    constructor (
      emit: (A, R) -> A, scheduler: StaticQueueScheduler<Handle<T>>, allocator: RecyclingAllocator,
      frameSize: nat, maxTasks: nat, sink: A, ghost final: T -> R, ghost cost: T -> nat, ghost ok: T -> bool)
      requires scheduler.Valid() && scheduler.queue == []
      requires allocator.Valid() && allocator.Uniform(frameSize) && allocator.live == {}
      ensures Valid({}, {}) && Conserved([]) && Loaded()
      ensures this.scheduler == scheduler && this.allocator == allocator && this.frameSize == frameSize
      ensures this.emit == emit && this.start == sink && this.final == final
      ensures this.cost == cost && this.ok == ok
      ensures this.maxTasks == limit == maxTasks
      ensures spawned == [] && log == [] && lost == [] && turns == 0
    {
      this.emit, this.scheduler, this.allocator := emit, scheduler, allocator;
      this.frameSize, this.maxTasks, this.limit := frameSize, maxTasks, maxTasks;
      this.start, this.sink, this.final, this.cost, this.ok := sink, sink, final, cost, ok;
      spawned, log, lost, turns := [], [], [], 0;
    }

    /** A suspending coroutine pushes itself and hands control to the front of the ring. */
    method Suspend(handle: Handle<T>, ghost was: T, ghost ready: set<Frame>) returns (next: Handle<T>)
      requires handle.frame != null
      requires Valid({handle.frame}, ready) && |scheduler.queue| < scheduler.buffer.Length
      requires Conserved([was] + Tasks(scheduler.queue)) && Follows(was, Suspended(handle.task))
      modifies this`turns, scheduler, scheduler.buffer
      ensures next.frame != null && next.frame in allocator.blocks
      ensures Valid({next.frame}, ready) && Conserved([next.task] + Tasks(scheduler.queue))
      ensures |scheduler.queue| == |old(scheduler.queue)|
      ensures [next.task] + Tasks(scheduler.queue) == Tasks(old(scheduler.queue)) + [handle.task]
      ensures Work(cost, [next.task] + Tasks(scheduler.queue)) < Work(cost, [was] + Tasks(old(scheduler.queue)))
    {
      hide Kept, Work, Apart;
      next := scheduler.Exchange(handle);
      Rotate(old(scheduler.queue), handle, next, scheduler.queue, allocator.live, ready);
      KeptRotate(final, cost, ok, maxTasks, spawned, log, lost, turns,
                 was, Tasks(old(scheduler.queue)), handle.task, [next.task] + Tasks(scheduler.queue));
      turns := turns + 1;
    }

    method Emit(ghost was: T, result: R)
      requires Conserved([was] + Tasks(scheduler.queue)) && Follows(was, Completed(result))
      modifies this`sink, this`log, this`turns
      ensures Conserved(Tasks(scheduler.queue)) && log == old(log) + [result]
    {
      hide Kept, Fold;
      FoldMore(emit, start, log, result);
      KeptComplete(final, cost, ok, maxTasks, spawned, log, lost, turns, was, Tasks(scheduler.queue));
      sink := emit(sink, result);
      log := log + [result];
      turns := turns + 1;
    }

    method Retire(frame: Frame, ghost ready: set<Frame>)
      requires Valid({frame}, ready)
      modifies this`limit, allocator, frame
      ensures Valid({}, ready) && limit == old(limit) + 1
      ensures allocator.peak == old(allocator.peak) && allocator.blocks == old(allocator.blocks)
    {
      limit := limit + 1;
      ApartRetire(scheduler.queue, allocator.live, ready, frame);
      allocator.Free(frame, frameSize);
    }

    /** A completing coroutine emits its result, gives its slot back and frees its frame. */
    method Complete(handle: Handle<T>, result: R, ghost ready: set<Frame>)
      requires handle.frame != null && Valid({handle.frame}, ready)
      requires Conserved([handle.task] + Tasks(scheduler.queue)) && Follows(handle.task, Completed(result))
      modifies this`sink, this`log, this`limit, this`turns, allocator, handle.frame
      ensures Valid({}, ready) && Conserved(Tasks(scheduler.queue))
      ensures log == old(log) + [result] && limit == old(limit) + 1
      ensures allocator.peak == old(allocator.peak) && allocator.blocks == old(allocator.blocks)
    {
      hide Kept, Apart;
      Emit(handle.task, result);
      Retire(handle.frame, ready);
    }

    /** After one step of the running coroutine: it completes, or the front of the ring takes over. */
    method Settle(handle: Handle<T>, outcome: Outcome<T, R>, ghost ready: set<Frame>)
      returns (done: bool, next: Handle<T>)
      requires InHand(false, handle, ready) && |scheduler.queue| < scheduler.buffer.Length
      requires Follows(handle.task, outcome)
      modifies this`sink, this`log, this`limit, this`turns, scheduler, scheduler.buffer, allocator, handle.frame
      ensures InHand(done, next, ready) && |scheduler.queue| == |old(scheduler.queue)|
      ensures allocator.peak == old(allocator.peak) && allocator.blocks == old(allocator.blocks)
      ensures done <==> outcome.Completed?
      ensures done ==> limit == old(limit) + 1 && log == old(log) + [outcome.result]
      ensures done ==> scheduler.queue == old(scheduler.queue)
      ensures !done ==> limit == old(limit) && log == old(log)
      ensures !done ==> [next.task] + Tasks(scheduler.queue) == old(Tasks(scheduler.queue)) + [outcome.task]
      ensures !done ==>
                var before := [handle.task] + old(Tasks(scheduler.queue));
                Work(cost, [next.task] + Tasks(scheduler.queue)) < Work(cost, before)
    {
      hide Throttler.Valid, Throttler.Conserved, Work;
      match outcome
      case Completed(result) =>
        Complete(handle, result, ready);
        done, next := true, handle;
      case Suspended(task) =>
        next := Suspend(handle.(task := task), handle.task, ready);
        done := false;
    }

    /** The state of a running coroutine is one in which it can be stepped. */
    lemma InHandOk(handle: Handle<T>, ready: set<Frame>)
      requires InHand(false, handle, ready)
      ensures ok(handle.task)
    {
      AllOkConcat(ok, [handle.task], Tasks(scheduler.queue));
      OneOk(ok, handle.task);
    }

    method HasNextTask() returns (more: bool)
      requires Valid({}, {})
      ensures more <==> 0 < |scheduler.queue| < scheduler.buffer.Length
    {
      more := scheduler.HasNextTask();
    }

    /** The coroutine at the front of the ring is about to be resumed. */
    method Take(ghost ready: set<Frame>) returns (handle: Handle<T>)
      requires Valid({}, ready) && Conserved(Tasks(scheduler.queue)) && scheduler.queue != []
      modifies scheduler
      ensures InHand(false, handle, ready)
      ensures |scheduler.queue| == |old(scheduler.queue)| - 1
      ensures [handle.task] + Tasks(scheduler.queue) == Tasks(old(scheduler.queue))
    {
      handle := scheduler.RemoveNextTask();
      assert forall i :: 0 <= i < |scheduler.queue| ==> scheduler.queue[i] == old(scheduler.queue)[i + 1];
      assert [handle.task] + Tasks(scheduler.queue) == Tasks(old(scheduler.queue));
    }

    /** A new coroutine joins the ring. On a full ring it makes everything waiting unreachable. */
    method Enqueue(handle: Handle<T>)
      requires handle.frame != null && Valid({}, {handle.frame}) && Conserved(Tasks(scheduler.queue)) && 0 < limit
      requires ok(handle.task)
      modifies this`limit, this`spawned, this`lost, scheduler, scheduler.buffer
      ensures Valid({}, {}) && Conserved(Tasks(scheduler.queue))
      ensures spawned == old(spawned) + [handle.task] && limit == old(limit) - 1
      ensures if |old(scheduler.queue)| < scheduler.buffer.Length
              then Tasks(scheduler.queue) == Tasks(old(scheduler.queue)) + [handle.task] && lost == old(lost)
              else Tasks(scheduler.queue) == [handle.task] && |lost| == |old(lost)| + scheduler.buffer.Length
    {
      hide Kept, Apart;
      ghost var flying := Tasks(scheduler.queue);
      JoinApart(scheduler.queue, allocator.live, handle);
      KeptSpawn(final, cost, ok, maxTasks, spawned, log, lost, turns, flying, handle.task);
      ghost var overflow := |scheduler.queue| == scheduler.buffer.Length;
      spawned := spawned + [handle.task];
      limit := limit - 1;
      scheduler.Schedule(handle);
      if overflow {
        lost := lost + Finals(final, flying);
        assert Tasks(scheduler.queue) == [handle.task];
      } else {
        assert Tasks(scheduler.queue) == flying + [handle.task];
      }
    }

    /** Coroutines spawned are completed, waiting on the ring or forgotten. */
    lemma Accounted(running: set<Frame>, ready: set<Frame>, flying: seq<T>)
      requires Valid(running, ready) && Conserved(flying)
      ensures |scheduler.queue| <= scheduler.buffer.Length && 0 < scheduler.buffer.Length
      ensures limit + |scheduler.queue| + |lost| + |running| == maxTasks
      ensures |spawned| == |log| + |lost| + |flying|
      ensures turns + Work(cost, flying) <= Work(cost, spawned)
      ensures lost == [] ==> turns + Work(cost, flying) == Work(cost, spawned)
      ensures scheduler.Valid() && allocator.Valid() && allocator.Uniform(frameSize)
      ensures |allocator.live| + limit == maxTasks + |ready|
    {
      assert |multiset(Finals(final, spawned))| == |multiset(log)| + |multiset(lost)| + |multiset(Finals(final, flying))|;
    }

    /** The frame of a coroutine that has been called but not spawned yet. */
    method NewFrame() returns (frame: Frame)
      requires Valid({}, {})
      modifies allocator
      ensures Valid({}, {frame})
      ensures fresh(allocator.blocks - old(allocator.blocks)) && old(allocator.blocks) <= allocator.blocks
      ensures allocator.peak <= old(allocator.peak) || allocator.peak <= maxTasks - limit + 1
    {
      frame := allocator.Alloc(frameSize);
    }

    /** How far the ring is filled while coroutines are being spawned. Nothing is forgotten until
        more coroutines are in flight than the ring has slots. */
    ghost predicate Loaded()
      reads this`spawned, this`lost, scheduler
    {
      && (lost == [] ==> |scheduler.queue| == if |spawned| < maxTasks then |spawned| else maxTasks)
      && (lost == [] <==> maxTasks <= scheduler.buffer.Length || |spawned| <= scheduler.buffer.Length)
      && (spawned != [] ==> scheduler.queue != [])
    }
  }
}
