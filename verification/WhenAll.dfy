/** The `when_all` counter as a transition system: one awaiting coroutine, `n` subtasks that complete
    at any time after they have been started, one step per access to the counter. */
module WhenAll {

  /** The awaiting coroutine: starting subtask `k`, storing its handle, giving up its own share of
      the count, suspended, or continued. */
  datatype Top = Starting(k: nat) | Storing | Subtracting | Suspended | Continued

  datatype Task = NotStarted | Started | Resuming | Done

  datatype State = State(n: nat, count: nat, handleSet: bool, top: Top, tasks: map<nat, Task>)

  function Init(n: nat): State {
    State(n, n + 1, false, Starting(0), map[])
  }

  datatype Action = Start | StoreHandle | TopSubtract | TaskSubtract(t: nat) | TaskResume(t: nat)

  datatype Event = Internal | Continue

  /** A fault is a decrement below zero, a resumption without a handle or of a coroutine that is not
      suspended, or an access to the counter after its owner has continued. */
  datatype Effect = Disabled | Fault | Next(state: State, event: Event)

  function TaskOf(s: State, t: nat): Task {
    if t in s.tasks then s.tasks[t] else NotStarted
  }

  function Apply(s: State, act: Action): Effect {
    match act
    case Start =>
      if !s.top.Starting? then Disabled
      else if s.top.k < s.n then Next(s.(tasks := s.tasks[s.top.k := Started], top := Starting(s.top.k + 1)), Internal)
      else Next(s.(top := Storing), Internal)
    case StoreHandle =>
      if s.top != Storing then Disabled else Next(s.(handleSet := true, top := Subtracting), Internal)
    case TopSubtract =>
      if s.top != Subtracting then Disabled
      else if s.count == 0 then Fault
      else if s.count > 1 then Next(s.(count := s.count - 1, top := Suspended), Internal)
      else Next(s.(count := s.count - 1, top := Continued), Continue)
    case TaskSubtract(t) =>
      if TaskOf(s, t) != Started then Disabled
      else if s.count == 0 || s.top == Continued then Fault
      else Next(s.(count := s.count - 1, tasks := s.tasks[t := if s.count == 1 then Resuming else Done]), Internal)
    case TaskResume(t) =>
      if TaskOf(s, t) != Resuming then Disabled
      else if !s.handleSet || s.top != Suspended then Fault
      else Next(s.(tasks := s.tasks[t := Done], top := Continued), Continue)
  }

  function Unfinished(s: State): set<nat> {
    set t | 0 <= t < s.n && (TaskOf(s, t) == NotStarted || TaskOf(s, t) == Started)
  }

  /** The awaiting coroutine still holds its own share of the count. */
  predicate Holding(top: Top) {
    top.Starting? || top.Storing? || top.Subtracting?
  }

  ghost predicate Inv(s: State) {
    && s.count == |Unfinished(s)| + (if Holding(s.top) then 1 else 0)
    && (forall t: nat :: s.n <= t ==> TaskOf(s, t) == NotStarted)
    && (forall t: nat :: t < s.n ==>
          (TaskOf(s, t) == NotStarted <==> s.top.Starting? && s.top.k <= t))
    && (s.top.Starting? ==> s.top.k <= s.n)
    && (s.handleSet <==> !s.top.Starting? && !s.top.Storing?)
    && (forall t: nat, u: nat :: TaskOf(s, t) == Resuming && TaskOf(s, u) == Resuming ==> t == u)
    && ((exists t: nat :: TaskOf(s, t) == Resuming) <==> s.count == 0 && s.top == Suspended)
    && (s.top == Continued ==> s.count == 0)
  }

  lemma InitInv(n: nat)
    ensures Inv(Init(n))
  {
    assert Unfinished(Init(n)) == Below(n);
    assert forall t: nat :: TaskOf(Init(n), t) == NotStarted;
  }

  function Below(n: nat): (ts: set<nat>)
    ensures |ts| == n && forall t: nat :: t in ts <==> t < n
  {
    if n == 0 then {} else Below(n - 1) + {n - 1}
  }

  ghost predicate StepOk(s: State, act: Action) {
    var eff := Apply(s, act);
    eff != Fault && (eff.Next? ==> Inv(eff.state))
  }

  lemma StartOk(s: State)
    requires Inv(s)
    ensures StepOk(s, Start)
  {
    if s.top.Starting? {
      var s' := Apply(s, Start).state;
      assert Unfinished(s') == Unfinished(s);
      assert forall t: nat :: TaskOf(s, t) != Resuming && TaskOf(s', t) != Resuming;
    }
  }

  lemma TaskSubtractOk(s: State, t: nat)
    requires Inv(s)
    ensures StepOk(s, TaskSubtract(t))
  {
    if TaskOf(s, t) == Started {
      assert t in Unfinished(s);
      var s' := Apply(s, TaskSubtract(t)).state;
      assert Unfinished(s') == Unfinished(s) - {t};
      assert forall u: nat :: u != t ==> TaskOf(s', u) == TaskOf(s, u);
    }
  }

  lemma StepKeepsInv(s: State, act: Action)
    requires Inv(s)
    ensures StepOk(s, act)
  {
    match act
    case Start => StartOk(s);
    case TaskSubtract(t) => TaskSubtractOk(s, t);
    case StoreHandle =>
      if s.top == Storing {
        var s' := Apply(s, StoreHandle).state;
        assert Unfinished(s') == Unfinished(s);
        assert forall t: nat :: TaskOf(s', t) == TaskOf(s, t);
      }
    case TopSubtract =>
      if s.top == Subtracting {
        var s' := Apply(s, TopSubtract).state;
        assert Unfinished(s') == Unfinished(s);
        assert forall t: nat :: TaskOf(s', t) == TaskOf(s, t);
      }
    case TaskResume(t) =>
      if TaskOf(s, t) == Resuming {
        var s' := Apply(s, TaskResume(t)).state;
        assert Unfinished(s') == Unfinished(s);
        assert forall u: nat :: u != t ==> TaskOf(s', u) == TaskOf(s, u);
      }
  }

  // Whole runs.

  datatype Run = Running(state: State, trace: seq<Event>) | Crashed | Impossible

  function RunOf(n: nat, acts: seq<Action>): Run {
    if acts == [] then Running(Init(n), [])
    else
      match RunOf(n, acts[..|acts| - 1])
      case Running(s, trace) =>
        (match Apply(s, acts[|acts| - 1])
         case Next(s', e) => Running(s', trace + [e])
         case Fault => Crashed
         case Disabled => Impossible)
      case Crashed => Crashed
      case Impossible => Impossible
  }

  /** No run faults, whatever the order of completion. */
  lemma {:induction false} RunsKeepInv(n: nat, acts: seq<Action>)
    ensures RunOf(n, acts) != Crashed
    ensures RunOf(n, acts).Running? ==> Inv(RunOf(n, acts).state) && RunOf(n, acts).state.n == n
  {
    hide Inv;
    if acts == [] {
      InitInv(n);
    } else {
      var before := acts[..|acts| - 1];
      RunsKeepInv(n, before);
      if RunOf(n, before).Running? {
        StepKeepsInv(RunOf(n, before).state, acts[|acts| - 1]);
      }
    }
  }

  lemma {:induction false} ContinuedOnce(n: nat, acts: seq<Action>)
    requires RunOf(n, acts).Running?
    ensures multiset(RunOf(n, acts).trace)[Continue] == if RunOf(n, acts).state.top == Continued then 1 else 0
  {
    hide Inv, Apply;
    if acts == [] {
      NotContinued(n);
    } else {
      var before, act := acts[..|acts| - 1], acts[|acts| - 1];
      ContinuedOnce(n, before);
      RunsKeepInv(n, before);
      ContinueStep(RunOf(n, before).state, act);
      OneMoreEvent(RunOf(n, before).trace, Apply(RunOf(n, before).state, act).event);
    }
  }

  lemma NotContinued(n: nat)
    ensures Init(n).top != Continued
  {
  }

  lemma ContinueStep(s: State, act: Action)
    requires Inv(s) && Apply(s, act).Next?
    ensures Apply(s, act).event == Continue <==> s.top != Continued && Apply(s, act).state.top == Continued
    ensures s.top == Continued ==> Apply(s, act).state.top == Continued
  {
    hide Unfinished;
  }

  lemma OneMoreEvent(trace: seq<Event>, e: Event)
    ensures multiset(trace + [e])[Continue] == multiset(trace)[Continue] + if e == Continue then 1 else 0
  {
  }

  /** The awaiting coroutine is continued at most once, and only after all `n` subtasks have
      completed; and when no step is left to take, it has been continued. */
  lemma ContinuesAfterAll(n: nat, acts: seq<Action>)
    requires RunOf(n, acts).Running?
    ensures var r := RunOf(n, acts);
            && multiset(r.trace)[Continue] <= 1
            && (Continue in r.trace ==> forall t: nat :: t < n ==> TaskOf(r.state, t) == Done)
            && ((forall act :: Apply(r.state, act) == Disabled) ==> Continue in r.trace)
  {
    RunsKeepInv(n, acts);
    ContinuedOnce(n, acts);
    var s := RunOf(n, acts).state;
    if s.top == Continued {
      forall t: nat | t < n
        ensures TaskOf(s, t) == Done
      {
        assert t !in Unfinished(s);
      }
    } else if s.top == Suspended {
      if s.count == 0 {
        var t: nat :| TaskOf(s, t) == Resuming;
        assert Apply(s, TaskResume(t)) != Disabled;
      } else {
        var t :| t in Unfinished(s);
        assert Apply(s, TaskSubtract(t)) != Disabled;
      }
    } else {
      assert Apply(s, Start) != Disabled || Apply(s, StoreHandle) != Disabled || Apply(s, TopSubtract) != Disabled;
    }
  }

  // Every run comes to an end.

  function TopLeft(top: Top, n: nat): nat {
    match top
    case Starting(k) => if k <= n then n - k + 3 else 3
    case Storing => 2
    case Subtracting => 1
    case _ => 0
  }

  /** How many steps can still be taken, by the awaiting coroutine and all subtasks together. */
  function StepsLeft(s: State): nat {
    TopLeft(s.top, s.n) + |Unfinished(s)| + if s.top == Continued then 0 else 1
  }

  lemma StepShrinks(s: State, act: Action)
    requires Inv(s) && Apply(s, act).Next?
    ensures StepsLeft(Apply(s, act).state) < StepsLeft(s)
  {
    hide Inv;
    var s' := Apply(s, act).state;
    if act.TaskSubtract? {
      FinishOne(s, act.t);
    } else if act.Start? {
      StartKeeps(s);
    } else {
      SameUnfinished(s, s', act);
    }
  }

  lemma FinishOne(s: State, t: nat)
    requires Inv(s) && TaskOf(s, t) == Started && Apply(s, TaskSubtract(t)).Next?
    ensures |Unfinished(Apply(s, TaskSubtract(t)).state)| == |Unfinished(s)| - 1
  {
    var s' := Apply(s, TaskSubtract(t)).state;
    assert t in Unfinished(s);
    assert Unfinished(s') == Unfinished(s) - {t};
  }

  lemma StartKeeps(s: State)
    requires Inv(s) && s.top.Starting?
    ensures s.top.k <= s.n && Unfinished(Apply(s, Start).state) == Unfinished(s)
  {
  }

  lemma SameUnfinished(s: State, s': State, act: Action)
    requires Apply(s, act).Next? && Apply(s, act).state == s' && !act.TaskSubtract? && !act.Start?
    ensures Unfinished(s') == Unfinished(s)
  {
  }

  /** For `n` subtasks no run takes more than 2n + 4 steps. */
  lemma {:induction false} RunsAreShort(n: nat, acts: seq<Action>)
    requires RunOf(n, acts).Running?
    ensures |acts| + StepsLeft(RunOf(n, acts).state) <= 2 * n + 4
  {
    hide Inv, Apply, StepsLeft;
    if acts == [] {
      StepsAtFirst(n);
    } else {
      var before := acts[..|acts| - 1];
      RunsAreShort(n, before);
      RunsKeepInv(n, before);
      StepShrinks(RunOf(n, before).state, acts[|acts| - 1]);
    }
  }

  lemma StepsAtFirst(n: nat)
    ensures StepsLeft(Init(n)) == 2 * n + 4
  {
    assert Unfinished(Init(n)) == Below(n);
  }

  /** As long as the awaiting coroutine has not continued somebody can take a step. */
  lemma SomeStep(s: State) returns (act: Action)
    requires Inv(s) && s.top != Continued
    ensures Apply(s, act).Next?
  {
    match s.top
    case Starting(_) => act := Start;
    case Storing => act := StoreHandle;
    case Subtracting =>
      act := TopSubtract;
    case Suspended =>
      if s.count == 0 {
        var t: nat :| TaskOf(s, t) == Resuming;
        act := TaskResume(t);
      } else {
        var t :| t in Unfinished(s);
        act := TaskSubtract(t);
      }
  }

  /** Every run can go on until the awaiting coroutine has continued, and since no run takes more than
      2n + 4 steps, it has done so when a run cannot go on any further. */
  lemma {:induction false} Continues(n: nat, acts: seq<Action>) returns (more: seq<Action>)
    requires RunOf(n, acts).Running?
    ensures RunOf(n, acts + more).Running? && Continue in RunOf(n, acts + more).trace
    ensures |acts + more| <= 2 * n + 4
    decreases StepsLeft(RunOf(n, acts).state)
  {
    hide Inv, Apply, StepsLeft;
    RunsKeepInv(n, acts);
    var s := RunOf(n, acts).state;
    if s.top == Continued {
      more := [];
      assert acts + more == acts;
      ContinuedOnce(n, acts);
      RunsAreShort(n, acts);
    } else {
      var act := SomeStep(s);
      StepKeepsInv(s, act);
      StepShrinks(s, act);
      assert (acts + [act])[..|acts|] == acts;
      var rest := Continues(n, acts + [act]);
      more := [act] + rest;
      assert acts + more == acts + [act] + rest;
    }
  }

  /** Having started all subtasks, the awaiting coroutine suspends exactly if one is unfinished. */
  lemma SuspendsExactly(n: nat, acts: seq<Action>)
    requires RunOf(n, acts).Running? && RunOf(n, acts).state.top == Subtracting
    ensures var r := RunOf(n, acts + [TopSubtract]);
            && r.Running?
            && (r.state.top == Suspended <==> exists t: nat :: t < n && TaskOf(RunOf(n, acts).state, t) == Started)
            && (r.state.top == Continued <==> forall t: nat :: t < n ==> TaskOf(RunOf(n, acts).state, t) == Done)
  {
    RunsKeepInv(n, acts);
    var s := RunOf(n, acts).state;
    assert (acts + [TopSubtract])[..|acts|] == acts;
    if Unfinished(s) != {} {
      var t :| t in Unfinished(s);
      assert TaskOf(s, t) == Started;
    } else {
      forall t: nat | t < n
        ensures TaskOf(s, t) == Done
      {
        assert t !in Unfinished(s);
      }
    }
  }
}
