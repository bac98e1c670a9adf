/** What the coroutines, the workers and a shutdown achieve by their own steps on the thread pool,
    whatever has happened before. */
module ThreadPoolProgress {
  import opened ThreadPool
  import opened ThreadPoolShutdown

  lemma RunOneMore(n: nat, acts: seq<Action>, act: Action)
    requires RunOf(n, acts).Running? && Apply(RunOf(n, acts).state, act).Next?
    ensures var r, eff := RunOf(n, acts), Apply(RunOf(n, acts).state, act); var trace := r.trace + [eff.event];
            && RunOf(n, acts + [act]) == Running(eff.state, trace)
            && AdmittedIn(trace) == (if eff.event.Admitted? then AdmittedIn(r.trace) + [eff.event.a] else AdmittedIn(r.trace))
            && ResumedIn(trace) == (if eff.event.Resumed? then ResumedIn(r.trace) + [eff.event.a] else ResumedIn(r.trace))
  {
    hide Apply, AdmittedIn, ResumedIn;
    assert (acts + [act])[..|acts|] == acts;
    LastEvent(RunOf(n, acts).trace, Apply(RunOf(n, acts).state, act).event);
  }

  // Who is turned away.

  predicate SomeClose(acts: seq<Action>) {
    exists i :: 0 <= i < |acts| && acts[i].Close?
  }

  /** A coroutine that has seen the closed flag has seen it on a closed pool. */
  ghost predicate SeenRight(s: State) {
    forall a :: a in s.trying && s.trying[a] % 2 == 1 ==> s.word % 2 == 1
  }

  lemma StepSees(s: State, act: Action)
    requires Inv(s) && SeenRight(s) && Apply(s, act).Next?
    ensures SeenRight(Apply(s, act).state)
    ensures Apply(s, act).event.Rejected? ==> s.word % 2 == 1
    ensures Apply(s, act).state.word % 2 == 1 <==> s.word % 2 == 1 || act.Close?
  {
    hide LogInv, WorkerInv, EnterInv, WordFor, Outstanding, Queue, Up, Down;
    var s' := Apply(s, act).state;
    StepKeepsInv(s, act);
    ClosedWord(s);
    ClosedWord(s');
  }

  /** The closed flag is set exactly if somebody has closed the pool, and a coroutine is turned away
      only if it is set. */
  lemma {:induction false} ClosedExactly(n: nat, acts: seq<Action>)
    requires RunOf(n, acts).Running?
    ensures RunOf(n, acts).state.word % 2 == 1 <==> SomeClose(acts)
    ensures SeenRight(RunOf(n, acts).state)
    ensures var trace := RunOf(n, acts).trace;
            trace != [] && trace[|trace| - 1].Rejected? ==> SomeClose(acts[..|acts| - 1])
  {
    hide Inv, Apply, SeenRight, SomeClose;
    if acts == [] {
      OpenAtFirst(n);
    } else {
      var before, act := acts[..|acts| - 1], acts[|acts| - 1];
      ClosedExactly(n, before);
      RunsKeepInv(n, before);
      StepSees(RunOf(n, before).state, act);
      CloseMore(acts);
    }
  }

  lemma OpenAtFirst(n: nat)
    ensures !SomeClose([]) && SeenRight(Init(n)) && Init(n).word % 2 == 0
  {
  }

  lemma CloseMore(acts: seq<Action>)
    requires acts != []
    ensures SomeClose(acts) <==> SomeClose(acts[..|acts| - 1]) || acts[|acts| - 1].Close?
  {
    assert acts == acts[..|acts| - 1] + [acts[|acts| - 1]];
  }

  // Entering the pool.

  function EnterStep(s: State, a: nat): Action {
    if a in s.trying then Try(a, false) else Load(a)
  }

  /** A compare-exchange on an open pool is never blocked, and reads the word anew if it fails, because
      the word has changed or for no reason. */
  lemma FailedTry(s: State, a: nat, spurious: bool)
    requires Inv(s) && SeenRight(s) && s.word % 2 == 0 && a in s.trying && (spurious || s.trying[a] != s.word)
    ensures Apply(s, Try(a, spurious)) == Next(s.(trying := s.trying[a := s.word]), Internal)
  {
  }

  /** A coroutine that runs, and has not entered the pool. */
  predicate Outside(s: State, a: nat) {
    a in s.trying || (a !in s.entered && (forall w :: w in s.got ==> s.got[w] != a) && Awaiter(a) !in s.log[Taken(s)..])
  }

  function Taken(s: State): (k: nat)
    ensures k <= |s.log|
  {
    if s.popped <= |s.log| then s.popped else |s.log|
  }

  lemma EnterAdvances(s: State, a: nat)
    requires Inv(s) && SeenRight(s) && Outside(s, a)
    ensures var eff := Apply(s, EnterStep(s, a));
            && eff.Next? && eff.state.log == s.log && eff.state.popped == s.popped && eff.state.got == s.got
            && (if eff.event == Internal
                then
                  && a in eff.state.trying && eff.state.word == s.word && eff.state.entered == s.entered
                  && eff.state.trying[a] == s.word
                  && (a in s.trying ==> s.trying[a] != s.word)
                else
                  && a in s.trying && a !in eff.state.trying
                  && (if s.word % 2 == 1 then eff.event == Rejected(a) && eff.state.entered == s.entered
                      else eff.event == Admitted(a) && eff.state.entered == s.entered + {a}))
  {
    hide LogInv, WorkerInv, WordInv, EnterInv, Up;
    if a !in s.trying {
      LoadAllowed(s, a);
    }
  }

  lemma LoadAllowed(s: State, a: nat)
    requires Inv(s) && Outside(s, a) && a !in s.trying
    ensures Active(s, a)
  {
    QueueIs(s);
  }

  /** What entering comes to, for a word with the closed flag set or not. */
  function Arrival(s: State, a: nat): Event {
    if s.word % 2 == 1 then Rejected(a) else Admitted(a)
  }

  /** A coroutine that wants to enter, or is in the middle of entering, is admitted by an open pool and
      turned away by a closed one after at most two steps of its own in which nobody interferes. */
  lemma {:induction false} Enters(n: nat, acts: seq<Action>, a: nat) returns (own: seq<Action>)
    requires RunOf(n, acts).Running? && Outside(RunOf(n, acts).state, a)
    ensures 0 < |own| <= 2 && forall i :: 0 <= i < |own| ==> own[i] == Load(a) || own[i] == Try(a, false)
    ensures a !in RunOf(n, acts).state.trying ==> own == [Load(a), Try(a, false)]
    ensures RunOf(n, acts + own).Running? && RunOf(n, acts + own).trace != []
    ensures var before, after := RunOf(n, acts), RunOf(n, acts + own); var s := before.state;
            && after.trace[|after.trace| - 1] == Arrival(s, a)
            && a !in after.state.trying && after.state.log == s.log && after.state.popped == s.popped
            && after.state.entered == s.entered + (if s.word % 2 == 1 then {} else {a})
            && AdmittedIn(after.trace) == AdmittedIn(before.trace) + (if s.word % 2 == 1 then [] else [a])
            && ResumedIn(after.trace) == ResumedIn(before.trace)
  {
    hide Inv, Apply, RunOf, SeenRight, Outside, AdmittedIn, ResumedIn;
    var s := RunOf(n, acts).state;
    RunsKeepInv(n, acts);
    ClosedExactly(n, acts);
    EnterAdvances(s, a);
    var act := EnterStep(s, a);
    RunOneMore(n, acts, act);
    if Apply(s, act).event == Internal {
      var acts' := acts + [act];
      var s' := RunOf(n, acts').state;
      RunsKeepInv(n, acts');
      ClosedExactly(n, acts');
      StillOutside(s', a);
      EnterAdvances(s', a);
      RunOneMore(n, acts', Try(a, false));
      own := [act, Try(a, false)];
      assert acts + own == acts' + [Try(a, false)];
    } else {
      own := [act];
    }
    assert s.entered + {} == s.entered && AdmittedIn(RunOf(n, acts).trace) + [] == AdmittedIn(RunOf(n, acts).trace);
  }

  lemma StillOutside(s: State, a: nat)
    requires a in s.trying
    ensures Outside(s, a)
  {
  }

  /** On an open pool a coroutine can put itself at the end of the queue. */
  lemma Schedules(n: nat, acts: seq<Action>, a: nat) returns (own: seq<Action>)
    requires RunOf(n, acts).Running? && Outside(RunOf(n, acts).state, a) && !SomeClose(acts)
    ensures forall i :: 0 <= i < |own| ==> own[i] == Load(a) || own[i] == Try(a, false) || own[i] == Push(a)
    ensures RunOf(n, acts + own).Running?
    ensures var before, after := RunOf(n, acts), RunOf(n, acts + own);
            && AdmittedIn(after.trace) == AdmittedIn(before.trace) + [a]
            && after.state.log == before.state.log + [Awaiter(a)]
            && after.state.popped == before.state.popped
            && after.state.entered == before.state.entered - {a}
  {
    hide RunOf, Outside, SomeClose, AdmittedIn, ResumedIn, Inv;
    var s := RunOf(n, acts).state;
    ClosedExactly(n, acts);
    var enter := Enters(n, acts, a);
    RunOneMore(n, acts + enter, Push(a));
    own := enter + [Push(a)];
    assert acts + own == acts + enter + [Push(a)];
    assert s.entered + {a} - {a} == s.entered - {a};
  }

  /** Whoever has entered can push itself, even after the pool has been closed. */
  lemma PushesItself(n: nat, acts: seq<Action>, a: nat)
    requires RunOf(n, acts).Running? && a in RunOf(n, acts).state.entered
    ensures var before, after := RunOf(n, acts), RunOf(n, acts + [Push(a)]);
            && after.Running? && after.state.log == before.state.log + [Awaiter(a)]
            && after.state.entered == before.state.entered - {a}
  {
    hide RunOf, AdmittedIn, ResumedIn;
    RunOneMore(n, acts, Push(a));
  }

  // The workers.

  /** A worker that is neither serving a coroutine nor gone. */
  predicate Unoccupied(s: State, w: nat) {
    w < s.n && w !in s.got && w !in s.leaving && w !in s.exited
  }

  /** An unoccupied worker takes the front of a queue that is not empty. It exits if that is a sentinel;
      if it is a coroutine the worker resumes it, reports that it is gone, and is unoccupied again. */
  lemma Serves(n: nat, acts: seq<Action>, w: nat) returns (own: seq<Action>)
    requires RunOf(n, acts).Running? && Unoccupied(RunOf(n, acts).state, w)
    requires RunOf(n, acts).state.popped < |RunOf(n, acts).state.log|
    ensures RunOf(n, acts + own).Running?
    ensures var before, after := RunOf(n, acts), RunOf(n, acts + own); var s, s' := before.state, after.state;
            && s'.log == s.log && s'.popped == s.popped + 1 && s'.got == s.got && s'.leaving == s.leaving
            && AdmittedIn(after.trace) == AdmittedIn(before.trace)
            && (match s.log[s.popped]
                case Sentinel =>
                  own == [Pop(w)] && s'.exited == s.exited + {w} && ResumedIn(after.trace) == ResumedIn(before.trace)
                case Awaiter(a) =>
                  && own == [Pop(w), Resume(w), Leave(w)] && Unoccupied(s', w) && s'.exited == s.exited
                  && ResumedIn(after.trace) == ResumedIn(before.trace) + [a])
  {
    hide RunOf, AdmittedIn, ResumedIn, Inv, Down, Queue;
    var s := RunOf(n, acts).state;
    RunsKeepInv(n, acts);
    QueueHead(s);
    RunOneMore(n, acts, Pop(w));
    if s.log[s.popped].Awaiter? {
      RunOneMore(n, acts + [Pop(w)], Resume(w));
      RunOneMore(n, acts + [Pop(w)] + [Resume(w)], Leave(w));
      own := [Pop(w), Resume(w), Leave(w)];
      assert acts + own == acts + [Pop(w)] + [Resume(w)] + [Leave(w)];
      assert s.got[w := s.log[s.popped].a] - {w} == s.got;
      assert s.leaving + {w} - {w} == s.leaving;
    } else {
      own := [Pop(w)];
    }
  }

  lemma QueueHead(s: State)
    requires s.popped < |s.log|
    ensures Queue(s) != [] && Queue(s)[0] == s.log[s.popped]
  {
  }

  function ServiceLeft(s: State): nat {
    3 * |s.log[Taken(s)..]| + 2 * |s.got| + |s.leaving|
  }

  /** Some worker can take a step as long as one is serving a coroutine, or one is not gone and
      something is queued. */
  lemma SomeWorkerStep(s: State) returns (act: Action)
    requires Inv(s)
    requires s.got != map[] || s.leaving != {} || (|s.exited| < s.n && s.popped < |s.log|)
    ensures ByWorker(act) && Apply(s, act).Next?
  {
    hide LogInv, WordInv, EnterInv, Up, Down;
    if w :| w in s.got {
      act := Resume(w);
    } else if w :| w in s.leaving {
      act := Leave(w);
    } else {
      var w := SomebodyElse(s.n, s.exited);
      act := Pop(w);
      QueueHead(s);
    }
  }

  lemma ServiceShrinks(s: State, act: Action)
    requires Inv(s) && ByWorker(act) && Apply(s, act).Next?
    ensures ServiceLeft(Apply(s, act).state) < ServiceLeft(s)
    ensures Apply(s, act).state.entered == s.entered && !Apply(s, act).event.Admitted?
    ensures Apply(s, act).state.log == s.log && Apply(s, act).state.batch == s.batch
  {
    hide Inv, ServiceLeft, Up, Down, Queue;
    match act
    case Pop(w) => PopServes(s, w);
    case Resume(w) => ResumeServes(s, w);
    case Leave(w) => LeaveServes(s, w);
  }

  lemma PopServes(s: State, w: nat)
    requires Apply(s, Pop(w)).Next?
    ensures ServiceLeft(Apply(s, Pop(w)).state) < ServiceLeft(s)
  {
    hide Queue;
    QueueFront(s);
    match s.log[s.popped]
    case Sentinel =>
    case Awaiter(a) => GotMore(s.got, w, a);
  }

  lemma ResumeServes(s: State, w: nat)
    requires w in s.got
    ensures ServiceLeft(Apply(s, Resume(w)).state) < ServiceLeft(s)
  {
    GotLess(s.got, w);
    assert |s.leaving + {w}| <= |s.leaving| + 1;
  }

  lemma LeaveServes(s: State, w: nat)
    requires w in s.leaving
    ensures ServiceLeft(Apply(s, Leave(w)).state) < ServiceLeft(s)
  {
    hide Down;
    assert |s.leaving - {w}| == |s.leaving| - 1;
  }

  /** From every reachable state finitely many worker steps alone bring the workers to rest: none is
      serving a coroutine, and nothing is queued unless all of them are gone. */
  lemma {:induction false} WorkersCatchUp(n: nat, acts: seq<Action>) returns (more: seq<Action>)
    requires RunOf(n, acts).Running?
    ensures forall i :: 0 <= i < |more| ==> ByWorker(more[i])
    ensures RunOf(n, acts + more).Running?
    ensures var s, s' := RunOf(n, acts).state, RunOf(n, acts + more).state;
            && s'.got == map[] && s'.leaving == {} && s'.log == s.log && s'.entered == s.entered && s'.batch == s.batch
            && (s'.popped == |s'.log| || |s'.exited| == n)
    ensures AdmittedIn(RunOf(n, acts + more).trace) == AdmittedIn(RunOf(n, acts).trace)
    decreases ServiceLeft(RunOf(n, acts).state)
  {
    hide Inv, Apply, RunOf, ServiceLeft, AdmittedIn, ResumedIn;
    var s := RunOf(n, acts).state;
    RunsKeepInv(n, acts);
    ExitedAtMost(s);
    PoppedAtMost(s);
    if s.got == map[] && s.leaving == {} && (s.popped == |s.log| || |s.exited| == n) {
      more := [];
      assert acts + more == acts;
    } else {
      var act := SomeWorkerStep(s);
      ServiceShrinks(s, act);
      RunOneMore(n, acts, act);
      var rest := WorkersCatchUp(n, acts + [act]);
      more := [act] + rest;
      assert acts + more == acts + [act] + rest;
    }
  }

  lemma PoppedAtMost(s: State)
    requires Inv(s)
    ensures s.popped <= |s.log|
  {
  }

  /** As long as nobody closes the pool, a pool with workers keeps its promise: in every reachable state
      finitely many worker steps are enough to have every admitted coroutine resumed, once for each
      time it was admitted, except those that have not pushed themselves yet. */
  lemma OpenPoolServesAll(n: nat, acts: seq<Action>) returns (more: seq<Action>)
    requires 0 < n && RunOf(n, acts).Running? && !SomeClose(acts)
    ensures forall i :: 0 <= i < |more| ==> ByWorker(more[i])
    ensures RunOf(n, acts + more).Running?
    ensures AdmittedIn(RunOf(n, acts + more).trace) == AdmittedIn(RunOf(n, acts).trace)
    ensures multiset(AdmittedIn(RunOf(n, acts).trace))
         == multiset(ResumedIn(RunOf(n, acts + more).trace)) + multiset(RunOf(n, acts).state.entered)
  {
    hide RunOf, AdmittedIn, ResumedIn, SomeClose, SeenRight, Held, Sum2, Sum4, Queue;
    more := WorkersCatchUp(n, acts);
    var s := RunOf(n, acts + more).state;
    RunsKeepInv(n, acts);
    RunsKeepInv(n, acts + more);
    ClosedExactly(n, acts);
    ClosedWord(RunOf(n, acts).state);
    NobodyGone(s);
    RunsAccounted(n, acts + more);
    HeldNobody(s.got, n);
    QueueIs(s);
    NoItems();
    var trace := RunOf(n, acts + more).trace;
    Totals(multiset(AdmittedIn(trace)), multiset(ResumedIn(trace)), [], s.entered);
  }

  /** Nobody exits before the sentinels are queued. */
  lemma NobodyGone(s: State)
    requires Inv(s) && s.batch == NoBatch
    ensures s.exited == {}
  {
    hide Sentinels, Awaiters, WordInv, EnterInv;
    assert s.log == s.log[..s.popped] + s.log[s.popped..];
    ItemsConcat(s.log[..s.popped], s.log[s.popped..]);
  }

  // Shutting down.

  /** Anybody can close the pool at any time. Whoever is the first to do so can then queue one sentinel
      for each worker; for everybody else there is nothing to do. */
  lemma Closes(n: nat, acts: seq<Action>)
    requires RunOf(n, acts).Running?
    ensures RunOf(n, acts + [Close]).Running? && RunOf(n, acts + [Close]).state.word % 2 == 1
    ensures SomeClose(acts) ==> RunOf(n, acts + [Close]).state == RunOf(n, acts).state
    ensures !SomeClose(acts) ==>
              && RunOf(n, acts + [Close] + [PushSentinels]).Running?
              && RunOf(n, acts + [Close] + [PushSentinels]).state.log == RunOf(n, acts).state.log + Batched(n)
  {
    hide RunOf, AdmittedIn, ResumedIn, SomeClose, SeenRight, Inv;
    ClosedExactly(n, acts);
    RunsKeepInv(n, acts);
    RunOneMore(n, acts, Close);
    if !SomeClose(acts) {
      RunOneMore(n, acts + [Close], PushSentinels);
    }
  }

  /** A closed pool has its sentinels queued, or whoever closed it can still queue them. */
  lemma SentinelsFollow(n: nat, acts: seq<Action>)
    requires RunOf(n, acts).Running? && SomeClose(acts)
    ensures var s := RunOf(n, acts).state;
            || (s.batch.At? && Sentinels(s.log) == n)
            || (RunOf(n, acts + [PushSentinels]).Running?
                && RunOf(n, acts + [PushSentinels]).state.log == s.log + Batched(n))
  {
    hide RunOf, AdmittedIn, ResumedIn, SomeClose, SeenRight, WordInv, WorkerInv, EnterInv, Sentinels, Awaiters;
    ClosedExactly(n, acts);
    RunsKeepInv(n, acts);
    var s := RunOf(n, acts).state;
    ClosedWord(s);
    if s.closing {
      RunOneMore(n, acts, PushSentinels);
    } else {
      LogParts(s.log, s.batch.start, n);
      ItemsBatched(n);
    }
  }
}
