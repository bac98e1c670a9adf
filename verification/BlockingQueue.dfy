/** The blocking queue as a transition system. What a thread does under the mutex is one step; the
    notifications that a push still owes are sent later, one step each. */
module BlockingQueue {
  import opened Wrappers

  /** `awake` are the poppers about to test for a value, `blocked` those waiting for a notification;
      `owed` holds each pusher once for every notification it has still to send. */
  datatype State = State(buffer: seq<nat>, awake: set<nat>, blocked: set<nat>, owed: multiset<nat>)

  const INIT := State([], {}, {}, multiset{})

  datatype Action =
    | PushBatch(t: nat, values: seq<nat>)
    | Notify(t: nat, target: Option<nat>)
    | BeginPop(t: nat)
    | Attempt(t: nat)
    | WakeSpuriously(t: nat)

  datatype Event = Internal | Pushed(values: seq<nat>) | Popped(value: nat)

  datatype Effect = Disabled | Next(state: State, event: Event)

  predicate Free(s: State, t: nat) {
    t !in s.awake && t !in s.blocked && t !in s.owed
  }

  /** A single push is a batch of one. A notification reaches some blocked popper, if there is one. */
  function Apply(s: State, act: Action): Effect {
    match act
    case PushBatch(t, values) =>
      if !Free(s, t) then Disabled
      else Next(s.(buffer := s.buffer + values, owed := s.owed[t := |values|]), Pushed(values))
    case Notify(t, target) =>
      if t !in s.owed then Disabled
      else
        var s' := s.(owed := s.owed - multiset{t});
        (match target
        case None => if s.blocked == {} then Next(s', Internal) else Disabled
        case Some(u) =>
          if u in s.blocked then Next(s'.(blocked := s.blocked - {u}, awake := s.awake + {u}), Internal) else Disabled)
    case BeginPop(t) =>
      if !Free(s, t) then Disabled else Next(s.(awake := s.awake + {t}), Internal)
    case Attempt(t) =>
      if t !in s.awake then Disabled
      else if s.buffer == [] then Next(s.(awake := s.awake - {t}, blocked := s.blocked + {t}), Internal)
      else Next(s.(awake := s.awake - {t}, buffer := s.buffer[1..]), Popped(s.buffer[0]))
    case WakeSpuriously(t) =>
      if t !in s.blocked then Disabled
      else Next(s.(blocked := s.blocked - {t}, awake := s.awake + {t}), Internal)
  }

  /** As long as somebody is blocked, every value in the buffer has an awake popper or a
      notification on its way. */
  ghost predicate Inv(s: State) {
    && s.awake !! s.blocked
    && (s.blocked == {} || |s.buffer| <= |s.awake| + |s.owed|)
  }

  lemma StepKeepsInv(s: State, act: Action)
    requires Inv(s) && Apply(s, act).Next?
    ensures Inv(Apply(s, act).state)
  {
    match act
    case PushBatch(t, values) => assert |s.owed[t := |values|]| == |s.owed| + |values|;
    case Notify(t, target) => assert |s.owed - multiset{t}| == |s.owed| - 1;
    case _ =>
  }

  datatype Run = Running(state: State, trace: seq<Event>) | Impossible

  function RunOf(acts: seq<Action>): Run {
    if acts == [] then Running(INIT, [])
    else
      match RunOf(acts[..|acts| - 1])
      case Running(s, trace) =>
        (match Apply(s, acts[|acts| - 1])
         case Next(s', e) => Running(s', trace + [e])
         case Disabled => Impossible)
      case Impossible => Impossible
  }

  function ValuesIn(trace: seq<Event>): seq<nat> {
    if trace == [] then []
    else
      var e := trace[|trace| - 1];
      ValuesIn(trace[..|trace| - 1]) + if e.Pushed? then e.values else []
  }

  function ValuesOut(trace: seq<Event>): seq<nat> {
    if trace == [] then []
    else
      var e := trace[|trace| - 1];
      ValuesOut(trace[..|trace| - 1]) + if e.Popped? then [e.value] else []
  }

  lemma {:induction false} RunsKeepInv(acts: seq<Action>)
    requires RunOf(acts).Running?
    ensures Inv(RunOf(acts).state)
  {
    if acts != [] {
      RunsKeepInv(acts[..|acts| - 1]);
      StepKeepsInv(RunOf(acts[..|acts| - 1]).state, acts[|acts| - 1]);
    }
  }

  /** What has been pushed, according to what was done and not to what became of it. */
  function ValuesPushed(acts: seq<Action>): seq<nat> {
    if acts == [] then []
    else
      var act := acts[|acts| - 1];
      ValuesPushed(acts[..|acts| - 1]) + if act.PushBatch? then act.values else []
  }

  /** Values come out in the order in which they are put in; the buffer holds the rest. */
  lemma {:induction false} FirstInFirstOut(acts: seq<Action>)
    requires RunOf(acts).Running?
    ensures ValuesPushed(acts) == ValuesOut(RunOf(acts).trace) + RunOf(acts).state.buffer
    ensures ValuesPushed(acts) == ValuesIn(RunOf(acts).trace)
  {
    hide Apply;
    if acts != [] {
      var before, act := acts[..|acts| - 1], acts[|acts| - 1];
      FirstInFirstOut(before);
      FifoStep(RunOf(before).state, RunOf(before).trace, act);
    }
  }

  lemma OutMore(trace: seq<Event>, e: Event)
    ensures ValuesOut(trace + [e]) == if e.Popped? then ValuesOut(trace) + [e.value] else ValuesOut(trace)
  {
    assert (trace + [e])[..|trace|] == trace;
  }

  lemma InMore(trace: seq<Event>, e: Event)
    ensures ValuesIn(trace + [e]) == ValuesIn(trace) + if e.Pushed? then e.values else []
  {
    assert (trace + [e])[..|trace|] == trace;
  }

  lemma FifoStep(s: State, trace: seq<Event>, act: Action)
    requires Apply(s, act).Next? && ValuesIn(trace) == ValuesOut(trace) + s.buffer
    ensures var eff := Apply(s, act);
            && ValuesIn(trace + [eff.event]) == ValuesOut(trace + [eff.event]) + eff.state.buffer
            && ValuesIn(trace + [eff.event]) == ValuesIn(trace) + if act.PushBatch? then act.values else []
  {
    hide ValuesIn, ValuesOut;
    var e := Apply(s, act).event;
    InMore(trace, e);
    OutMore(trace, e);
    if e.Popped? {
      assert s.buffer == [s.buffer[0]] + s.buffer[1..];
    }
  }

  /** No wakeup is lost: values with nobody about to take them, and nobody still to be notified of
      them, mean that no popper is blocked. */
  lemma NoLostWakeup(acts: seq<Action>)
    requires RunOf(acts).Running?
    ensures var s := RunOf(acts).state;
            |s.awake| + |s.owed| < |s.buffer| ==> s.blocked == {}
    ensures var s := RunOf(acts).state;
            s.buffer != [] && s.owed == multiset{} && s.blocked != {} ==> s.awake != {}
  {
    RunsKeepInv(acts);
  }

  // What a thread achieves by its own steps.

  lemma RunOneMore(acts: seq<Action>, act: Action)
    requires RunOf(acts).Running? && Apply(RunOf(acts).state, act).Next?
    ensures var eff := Apply(RunOf(acts).state, act);
            RunOf(acts + [act]) == Running(eff.state, RunOf(acts).trace + [eff.event])
  {
    hide Apply;
    assert (acts + [act])[..|acts|] == acts;
  }

  predicate Busy(s: State, t: nat) {
    t in s.awake || t in s.blocked || t in s.owed
  }

  /** A thread that is not in the middle of an operation can push, whatever the others are doing; the
      values join the end of the buffer at once, and it then owes a notification for each. */
  lemma Pushes(acts: seq<Action>, t: nat, values: seq<nat>)
    requires RunOf(acts).Running? && !Busy(RunOf(acts).state, t)
    ensures var before, after := RunOf(acts), RunOf(acts + [PushBatch(t, values)]);
            && after.Running? && after.state.buffer == before.state.buffer + values
            && after.state.owed[t] == |values|
            && after.state.awake == before.state.awake && after.state.blocked == before.state.blocked
  {
    RunOneMore(acts, PushBatch(t, values));
  }

  predicate Wakes(blocked: set<nat>, target: Option<nat>) {
    match target
    case None => blocked == {}
    case Some(u) => u in blocked
  }

  /** A pusher that still owes a notification can send it. It wakes any one blocked popper, and is
      lost only if none is blocked. */
  lemma Notifies(acts: seq<Action>, t: nat, target: Option<nat>)
    requires RunOf(acts).Running? && t in RunOf(acts).state.owed
    requires Wakes(RunOf(acts).state.blocked, target)
    ensures var before, after := RunOf(acts), RunOf(acts + [Notify(t, target)]);
            && after.Running? && after.state.owed == before.state.owed - multiset{t}
            && after.state.buffer == before.state.buffer
            && (target.Some? ==> target.value in after.state.awake && target.value !in after.state.blocked)
            && |after.state.blocked| == if before.state.blocked == {} then 0 else |before.state.blocked| - 1
  {
    RunsKeepInv(acts);
    RunOneMore(acts, Notify(t, target));
  }

  /** A blocked popper may wake up for no reason at any time, and then tests again. */
  lemma WakesForNoReason(acts: seq<Action>, t: nat)
    requires RunOf(acts).Running? && t in RunOf(acts).state.blocked
    ensures var before, after := RunOf(acts), RunOf(acts + [WakeSpuriously(t)]);
            && after.Running? && t in after.state.awake && t !in after.state.blocked
            && after.state.buffer == before.state.buffer && after.state.owed == before.state.owed
  {
    RunOneMore(acts, WakeSpuriously(t));
  }

  /** A thread that is not in the middle of an operation can pop. If there is a value it takes the
      first and is done; if not, it blocks. */
  lemma Pops(acts: seq<Action>, t: nat) returns (own: seq<Action>)
    requires RunOf(acts).Running?
    requires t in RunOf(acts).state.awake || !Busy(RunOf(acts).state, t)
    ensures own == if t in RunOf(acts).state.awake then [Attempt(t)] else [BeginPop(t), Attempt(t)]
    ensures var before, after := RunOf(acts), RunOf(acts + own);
            && after.Running? && t !in after.state.awake
            && (if before.state.buffer == []
                then t in after.state.blocked && ValuesOut(after.trace) == ValuesOut(before.trace)
                else
                  && t !in after.state.blocked
                  && after.state.buffer == before.state.buffer[1..]
                  && ValuesOut(after.trace) == ValuesOut(before.trace) + [before.state.buffer[0]])
  {
    hide RunOf;
    var before := RunOf(acts);
    if t in before.state.awake {
      own := [Attempt(t)];
      Attempts(acts, t);
    } else {
      own := [BeginPop(t), Attempt(t)];
      RunOneMore(acts, BeginPop(t));
      OutMore(before.trace, Internal);
      Attempts(acts + [BeginPop(t)], t);
      assert acts + own == acts + [BeginPop(t)] + [Attempt(t)];
    }
    RunsKeepInv(acts);
  }

  lemma Attempts(acts: seq<Action>, t: nat)
    requires RunOf(acts).Running? && t in RunOf(acts).state.awake
    ensures var before, after := RunOf(acts), RunOf(acts + [Attempt(t)]);
            && after.Running? && after.state.awake == before.state.awake - {t} && after.state.owed == before.state.owed
            && (if before.state.buffer == []
                then after.state == before.state.(awake := before.state.awake - {t}, blocked := before.state.blocked + {t})
                     && ValuesOut(after.trace) == ValuesOut(before.trace)
                else after.state == before.state.(awake := before.state.awake - {t}, buffer := before.state.buffer[1..])
                     && ValuesOut(after.trace) == ValuesOut(before.trace) + [before.state.buffer[0]])
  {
    var s := RunOf(acts).state;
    RunOneMore(acts, Attempt(t));
    OutMore(RunOf(acts).trace, Apply(s, Attempt(t)).event);
  }

  predicate NewOperation(act: Action) {
    act.PushBatch? || act.BeginPop? || act.WakeSpuriously?
  }

  /** If the operations begun are carried on and no other is begun, then after finitely many steps no
      notification is owed, every popper has its value or is blocked, and one is blocked only if there
      is no value left. */
  lemma {:induction false} Settles(acts: seq<Action>) returns (more: seq<Action>)
    requires RunOf(acts).Running?
    ensures |more| <= 2 * |RunOf(acts).state.owed| + |RunOf(acts).state.awake|
    ensures forall i :: 0 <= i < |more| ==> !NewOperation(more[i])
    ensures RunOf(acts + more).Running?
    ensures var s := RunOf(acts + more).state;
            && s.owed == multiset{} && s.awake == {}
            && (s.buffer == [] || s.blocked == {})
    decreases 2 * |RunOf(acts).state.owed| + |RunOf(acts).state.awake|
  {
    hide Inv, Apply, RunOf;
    var s := RunOf(acts).state;
    if t :| t in s.awake {
      Attempts(acts, t);
      assert |s.awake - {t}| == |s.awake| - 1;
      var rest := Settles(acts + [Attempt(t)]);
      more := [Attempt(t)] + rest;
      assert acts + more == acts + [Attempt(t)] + rest;
    } else if t :| t in s.owed {
      var act := SomeNotify(acts, t);
      var rest := Settles(acts + [act]);
      more := [act] + rest;
      assert acts + more == acts + [act] + rest;
    } else {
      more := [];
      assert acts + more == acts;
      NoLostWakeup(acts);
    }
  }

  lemma SomeNotify(acts: seq<Action>, t: nat) returns (act: Action)
    requires RunOf(acts).Running? && t in RunOf(acts).state.owed
    ensures act.Notify?
    ensures var before, after := RunOf(acts), RunOf(acts + [act]);
            && after.Running? && |after.state.owed| == |before.state.owed| - 1
            && |after.state.awake| <= |before.state.awake| + 1
  {
    var s := RunOf(acts).state;
    if u :| u in s.blocked {
      act := Notify(t, Some(u));
      assert |s.awake + {u}| <= |s.awake| + 1;
    } else {
      act := Notify(t, None);
    }
    RunOneMore(acts, act);
    assert |s.owed - multiset{t}| == |s.owed| - 1;
  }
}
