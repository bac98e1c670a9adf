/** Shutting the thread pool down: what the sentinels let the workers do before they exit, and whom
    they leave behind. */
module ThreadPoolShutdown {
  import opened ThreadPool

  /** No worker takes a second sentinel, and there are never more than `n` of them. */
  lemma OneSentinelEach(n: nat, acts: seq<Action>)
    requires RunOf(n, acts).Running?
    ensures var s := RunOf(n, acts).state;
            && s.popped <= |s.log| && |s.exited| == Sentinels(s.log[..s.popped])
            && Sentinels(s.log) <= n && (Sentinels(s.log) == n || Sentinels(s.log) == 0)
            && (forall w :: w in s.exited ==> w < n && !Ready(s, w))
  {
    hide Sentinels, Awaiters, WordInv, EnterInv;
    RunsKeepInv(n, acts);
    var s := RunOf(n, acts).state;
    if s.batch.At? {
      LogParts(s.log, s.batch.start, n);
      ItemsBatched(n);
    }
  }

  lemma LogParts(log: seq<Item>, k: nat, n: nat)
    requires k + n <= |log|
    ensures Sentinels(log) == Sentinels(log[..k]) + Sentinels(log[k..k + n]) + Sentinels(log[k + n..])
    ensures Awaiters(log) == Awaiters(log[..k]) + Awaiters(log[k..k + n]) + Awaiters(log[k + n..])
  {
    hide Sentinels, Awaiters;
    assert log == log[..k] + log[k..k + n] + log[k + n..];
    ItemsConcat(log[..k] + log[k..k + n], log[k + n..]);
    ItemsConcat(log[..k], log[k..k + n]);
  }

  /** Up to the end of the batch, every sentinel taken is one of the batch. */
  lemma TakenExactly(n: nat, log: seq<Item>, k: nat, popped: nat)
    requires k + n <= |log| && popped <= k + n
    requires log[k..k + n] == Batched(n) && Sentinels(log[..k]) == 0
    ensures Sentinels(log[..popped]) == if popped < k then 0 else popped - k
    ensures popped == k + n ==> Awaiters(log[..popped]) == Awaiters(log[..k])
  {
    hide Sentinels, Awaiters;
    if popped < k {
      assert log[..k] == log[..popped] + log[popped..k];
      ItemsConcat(log[..popped], log[popped..k]);
    } else {
      var m := popped - k;
      assert log[..popped] == log[..k] + log[k..popped];
      ItemsConcat(log[..k], log[k..popped]);
      assert log[k..popped] == log[k..k + n][..m] == Batched(n)[..m] == Batched(m);
      ItemsBatched(m);
      Nothing(Awaiters(log[..k]));
    }
  }

  lemma {:induction false} Below(n: nat, ws: set<nat>)
    requires forall w :: w in ws ==> w < n
    ensures |ws| <= n && (|ws| == n ==> forall w: nat :: w < n ==> w in ws)
  {
    if n == 0 {
      assert ws == {};
    } else {
      var rest := ws - {n - 1};
      Below(n - 1, rest);
      if n - 1 in ws {
        assert ws == rest + {n - 1};
        SizeMore(rest, n - 1);
      } else {
        assert ws == rest;
      }
    }
  }

  /** Nothing behind the sentinels is ever taken. */
  ghost predicate Stops(s: State) {
    s.batch.At? ==> s.popped <= s.batch.start + s.n
  }

  lemma StepKeepsStops(s: State, act: Action)
    requires Inv(s) && Stops(s) && Apply(s, act).Next?
    ensures Stops(Apply(s, act).state)
  {
    hide Queue, Sentinels, Awaiters, Batched, WordInv, EnterInv;
    if act.Pop? && s.batch.At? && s.popped == s.batch.start + s.n {
      TakenExactly(s.n, s.log, s.batch.start, s.popped);
      Below(s.n, s.exited);
    }
  }

  lemma {:induction false} RunsStop(n: nat, acts: seq<Action>)
    requires RunOf(n, acts).Running?
    ensures Stops(RunOf(n, acts).state)
  {
    hide Inv, Apply, Stops;
    if acts == [] {
      InitStops(n);
    } else {
      RunsStop(n, acts[..|acts| - 1]);
      RunsKeepInv(n, acts[..|acts| - 1]);
      StepKeepsStops(RunOf(n, acts[..|acts| - 1]).state, acts[|acts| - 1]);
    }
  }

  lemma InitStops(n: nat)
    ensures Stops(Init(n))
  {
  }

  /** Once all workers have exited, those resumed are exactly the awaiters that were pushed before
      the sentinels, each as often as it was pushed. Whoever else was admitted was pushed after the
      sentinels or is still to be pushed, and no worker is left to take it. */
  lemma AllExited(n: nat, acts: seq<Action>)
    requires 0 < n && RunOf(n, acts).Running? && |RunOf(n, acts).state.exited| == n
    ensures var s := RunOf(n, acts).state; var trace := RunOf(n, acts).trace;
            && s.batch.At? && s.batch.start + n <= |s.log|
            && multiset(ResumedIn(trace)) == multiset(Awaiters(s.log[..s.batch.start]))
            && multiset(AdmittedIn(trace)) == multiset(ResumedIn(trace)) + Late(s)
            && forall w: nat :: !Ready(s, w) && w !in s.got && w !in s.leaving
  {
    hide Sentinels, Awaiters, WordInv, EnterInv, AdmittedIn, ResumedIn, Queue, Held, Sum4, Sum2;
    var s, trace := RunOf(n, acts).state, RunOf(n, acts).trace;
    RunsKeepInv(n, acts);
    RunsStop(n, acts);
    RunsAccounted(n, acts);
    Below(n, s.exited);
    HeldNobody(s.got, n);
    assert s.batch.At? by {
      assert s.log == s.log[..s.popped] + s.log[s.popped..];
      ItemsConcat(s.log[..s.popped], s.log[s.popped..]);
    }
    var k := s.batch.start;
    TakenExactly(n, s.log, k, s.popped);
    QueueIs(s);
    Totals(multiset(AdmittedIn(trace)), multiset(ResumedIn(trace)), Awaiters(s.log[k + n..]), s.entered);
    Totals2(multiset(Awaiters(s.log[..s.popped])), multiset(ResumedIn(trace)));
  }

  /** Those who have entered the pool and are not queued before the end of the sentinels. */
  ghost function Late(s: State): multiset<nat> {
    if s.batch.At? && s.batch.start + s.n <= |s.log|
    then multiset(Awaiters(s.log[s.batch.start + s.n..])) + multiset(s.entered)
    else multiset{}
  }

  /** Whoever is late was already between entering and pushing when the sentinels were pushed. */
  lemma LateStart(s: State)
    requires Inv(s) && s.closing
    ensures var s' := Apply(s, PushSentinels).state;
            s'.batch == At(|s.log|) && Late(s') == multiset(s.entered)
  {
    hide Sentinels, Queue, LogInv, WorkerInv, WordInv, EnterInv;
    var s' := Apply(s, PushSentinels).state;
    BatchLength(s.n);
    assert s'.log[|s.log| + s.n..] == [];
  }

  lemma LateStays(s: State, act: Action)
    requires Inv(s) && s.batch.At? && Apply(s, act).Next?
    ensures Apply(s, act).state.batch == s.batch && Late(Apply(s, act).state) == Late(s)
  {
    hide Awaiters, Queue, WorkerInv, WordInv, EnterInv, LogInv, Late, Up, Down;
    ClosedWord(s);
    StaysClosed(s, act);
    NotClosing(s);
    if act.Push? {
      LatePush(s, act.a);
    } else {
      LateSame(s, Apply(s, act).state);
    }
  }

  lemma NotClosing(s: State)
    requires Inv(s) && s.batch.At?
    ensures !s.closing && s.batch.start + s.n <= |s.log| && Closed(s)
  {
    hide WorkerInv, WordInv, EnterInv;
  }

  lemma LateSame(s: State, s': State)
    requires s'.batch == s.batch && s'.n == s.n && s'.log == s.log && s'.entered == s.entered
    ensures Late(s') == Late(s)
  {
  }

  lemma LatePush(s: State, a: nat)
    requires s.batch.At? && s.batch.start + s.n <= |s.log| && a in s.entered
    ensures Late(s.(entered := s.entered - {a}, log := s.log + [Awaiter(a)])) == Late(s)
  {
    hide Sentinels, Awaiters;
    var behind := s.log[s.batch.start + s.n..];
    assert (s.log + [Awaiter(a)])[s.batch.start + s.n..] == behind + [Awaiter(a)];
    ItemsConcat(behind, [Awaiter(a)]);
    OneItem(Awaiter(a));
    Handed(Awaiters(behind), s.entered, a);
  }

  lemma ClosedWord(s: State)
    requires Inv(s)
    ensures s.word % 2 == 1 <==> Closed(s)
  {
    hide WordFor, Outstanding, LogInv, WorkerInv, EnterInv;
    WordArithmetic(Outstanding(s), Closed(s));
  }

  lemma Handed(xs: seq<nat>, ys: set<nat>, a: nat)
    requires a in ys
    ensures multiset(xs + [a]) + multiset(ys - {a}) == multiset(xs) + multiset(ys)
  {
    assert multiset(ys) == multiset(ys - {a}) + multiset{a};
  }

  lemma {:induction false} LateIsFixed(n: nat, before: seq<Action>, after: seq<Action>)
    requires RunOf(n, before + [PushSentinels] + after).Running?
    ensures RunOf(n, before).Running?
    ensures var s := RunOf(n, before + [PushSentinels] + after).state;
            s.batch == At(|RunOf(n, before).state.log|) && Late(s) == multiset(RunOf(n, before).state.entered)
  {
    hide Inv, Late, Queue;
    var acts := before + [PushSentinels] + after;
    if after == [] {
      assert acts[..|acts| - 1] == before;
      RunsKeepInv(n, before);
      LateStart(RunOf(n, before).state);
    } else {
      var acts' := before + [PushSentinels] + after[..|after| - 1];
      assert acts[..|acts| - 1] == acts';
      LateIsFixed(n, before, after[..|after| - 1]);
      RunsKeepInv(n, acts');
      LateStays(RunOf(n, acts').state, after[|after| - 1]);
    }
  }

  /** When all workers have exited, those admitted but never resumed are exactly those who, at the
      moment the sentinels were pushed, had entered the pool and not yet pushed themselves. All
      admitted work has been done if and only if there was nobody between those two steps. */
  lemma Drained(n: nat, before: seq<Action>, after: seq<Action>)
    requires 0 < n && RunOf(n, before + [PushSentinels] + after).Running?
    requires |RunOf(n, before + [PushSentinels] + after).state.exited| == n
    ensures RunOf(n, before).Running?
    ensures var trace := RunOf(n, before + [PushSentinels] + after).trace; var s := RunOf(n, before).state;
            && multiset(ResumedIn(trace)) == multiset(Awaiters(s.log))
            && multiset(AdmittedIn(trace)) == multiset(ResumedIn(trace)) + multiset(s.entered)
            && (multiset(AdmittedIn(trace)) == multiset(ResumedIn(trace)) <==> s.entered == {})
  {
    hide Inv, Late, Awaiters, AdmittedIn, ResumedIn, RunOf;
    var acts := before + [PushSentinels] + after;
    AllExited(n, acts);
    LateIsFixed(n, before, after);
    assert before + ([PushSentinels] + after) == acts;
    LogGrows(n, before, [PushSentinels] + after);
    assert RunOf(n, acts).state.log[..|RunOf(n, before).state.log|] == RunOf(n, before).state.log;
    var admitted, resumed := multiset(AdmittedIn(RunOf(n, acts).trace)), multiset(ResumedIn(RunOf(n, acts).trace));
    Remainder(admitted, resumed, RunOf(n, before).state.entered);
  }

  lemma Remainder(all: multiset<nat>, a: multiset<nat>, rest: set<nat>)
    requires all == a + multiset(rest)
    ensures all == a <==> rest == {}
  {
    assert |all| == |a| + |rest|;
  }

  lemma {:induction false} LogGrows(n: nat, before: seq<Action>, after: seq<Action>)
    requires RunOf(n, before + after).Running?
    ensures RunOf(n, before).Running? && RunOf(n, before).state.log <= RunOf(n, before + after).state.log
  {
    if after == [] {
      assert before + after == before;
    } else {
      assert (before + after)[..|before + after| - 1] == before + after[..|after| - 1];
      LogGrows(n, before, after[..|after| - 1]);
    }
  }

  lemma QueueIs(s: State)
    requires s.popped <= |s.log|
    ensures Queue(s) == s.log[s.popped..]
  {
  }

  lemma Totals(all: multiset<nat>, a: multiset<nat>, xs: seq<nat>, ys: set<nat>)
    ensures Sum4(all, a, multiset{}, multiset(xs), multiset(ys)) ==> all == a + (multiset(xs) + multiset(ys))
  {
  }

  lemma Totals2(all: multiset<nat>, a: multiset<nat>)
    ensures Sum2(all, a, multiset{}) ==> all == a
  {
  }

  lemma {:induction false} HeldNobody(got: map<nat, nat>, k: nat)
    requires forall w :: w in got ==> k <= w
    ensures Held(got, k) == multiset{}
  {
    if k != 0 {
      HeldNobody(got, k - 1);
    }
  }

  // Joining the workers.

  /** How many steps the workers can still take once the sentinels are queued. */
  function WorkLeft(s: State): nat {
    if s.batch.At? && s.popped <= s.batch.start + s.n
    then 3 * (s.batch.start + s.n - s.popped) + 2 * |s.got| + |s.leaving|
    else 0
  }

  predicate ByWorker(act: Action) {
    act.Pop? || act.Resume? || act.Leave?
  }

  /** Every worker step uses up some of what is left, and no other step adds to it. */
  lemma WorkShrinks(s: State, act: Action)
    requires Inv(s) && Stops(s) && s.batch.At? && Apply(s, act).Next?
    ensures Apply(s, act).state.batch == s.batch
    ensures WorkLeft(Apply(s, act).state) <= WorkLeft(s)
    ensures ByWorker(act) ==> WorkLeft(Apply(s, act).state) < WorkLeft(s)
  {
    hide Queue, Inv, Stops, Closed, WorkLeft, Up, Down;
    NotClosing(s);
    StepKeepsStops(s, act);
    match act
    case Pop(w) => PopShrinks(s, w);
    case Resume(w) => ResumeShrinks(s, w);
    case Leave(w) => LeaveShrinks(s, w);
    case PushSentinels =>
    case _ => WorkStays(s, Apply(s, act).state);
  }

  lemma WorkStays(s: State, s': State)
    requires s'.batch == s.batch && s'.n == s.n
    requires s'.popped == s.popped && s'.got == s.got && s'.leaving == s.leaving
    ensures WorkLeft(s') == WorkLeft(s)
  {
  }

  lemma LeaveShrinks(s: State, w: nat)
    requires Stops(s) && s.batch.At? && w in s.leaving
    ensures WorkLeft(Apply(s, Leave(w)).state) < WorkLeft(s)
  {
    assert |s.leaving - {w}| == |s.leaving| - 1;
  }

  lemma PopShrinks(s: State, w: nat)
    requires Stops(s) && s.batch.At? && Apply(s, Pop(w)).Next? && Stops(Apply(s, Pop(w)).state)
    ensures WorkLeft(Apply(s, Pop(w)).state) < WorkLeft(s)
  {
    hide Queue;
    QueueFront(s);
    match s.log[s.popped]
    case Sentinel =>
    case Awaiter(a) => GotMore(s.got, w, a);
  }

  lemma ResumeShrinks(s: State, w: nat)
    requires Stops(s) && s.batch.At? && w in s.got
    ensures WorkLeft(Apply(s, Resume(w)).state) < WorkLeft(s)
  {
    GotLess(s.got, w);
    assert |s.leaving + {w}| <= |s.leaving| + 1;
  }

  /** Once the sentinels are queued, some worker can take a step until all have exited. */
  lemma WorkerCanStep(s: State)
    returns (act: Action)
    requires Inv(s) && Stops(s) && s.batch.At? && |s.exited| < s.n
    ensures ByWorker(act) && Apply(s, act).Next?
  {
    hide Sentinels, Awaiters, Batched, WordInv, EnterInv;
    if w :| w in s.got {
      act := Resume(w);
    } else if w :| w in s.leaving {
      act := Leave(w);
    } else {
      var w := SomebodyElse(s.n, s.exited);
      TakenExactly(s.n, s.log, s.batch.start, s.popped);
      act := Pop(w);
      assert Ready(s, w) && Queue(s) != [];
    }
  }

  lemma {:induction false} SomebodyElse(n: nat, ws: set<nat>)
    returns (w: nat)
    requires |ws| < n
    ensures w < n && w !in ws
  {
    if n - 1 in ws {
      assert |ws - {n - 1}| == |ws| - 1;
      w := SomebodyElse(n - 1, ws - {n - 1});
    } else {
      w := n - 1;
    }
  }

  /** From wherever a shutdown finds the pool the workers alone can bring it to an end, in at most
      `WorkLeft` steps. */
  lemma {:induction false} JoinReturns(n: nat, acts: seq<Action>)
    returns (more: seq<Action>)
    requires RunOf(n, acts).Running? && RunOf(n, acts).state.batch.At?
    ensures |more| <= WorkLeft(RunOf(n, acts).state)
    ensures forall i :: 0 <= i < |more| ==> ByWorker(more[i])
    ensures RunOf(n, acts + more).Running? && |RunOf(n, acts + more).state.exited| == n
    decreases WorkLeft(RunOf(n, acts).state)
  {
    hide Inv, Stops, WorkLeft, Apply, Queue;
    var s := RunOf(n, acts).state;
    RunsKeepInv(n, acts);
    RunsStop(n, acts);
    ExitedAtMost(s);
    if |s.exited| == n {
      more := [];
      assert acts + more == acts;
    } else {
      var act := WorkerCanStep(s);
      WorkShrinks(s, act);
      assert (acts + [act])[..|acts|] == acts;
      var rest := JoinReturns(n, acts + [act]);
      more := [act] + rest;
      assert acts + more == acts + [act] + rest;
    }
  }

  lemma ExitedAtMost(s: State)
    requires Inv(s)
    ensures |s.exited| <= s.n
  {
    hide LogInv, WordInv, EnterInv;
    Below(s.n, s.exited);
  }

  /** Without workers nobody is ever resumed. */
  lemma {:induction false} NoWorkers(acts: seq<Action>)
    requires RunOf(0, acts).Running?
    ensures ResumedIn(RunOf(0, acts).trace) == []
  {
    hide Inv, Apply;
    if acts != [] {
      var before, act := acts[..|acts| - 1], acts[|acts| - 1];
      NoWorkers(before);
      RunsKeepInv(0, before);
      NobodyResumes(RunOf(0, before).state, act);
      LastEvent(RunOf(0, before).trace, Apply(RunOf(0, before).state, act).event);
    }
  }

  lemma NobodyResumes(s: State, act: Action)
    requires Inv(s) && s.n == 0 && Apply(s, act).Next?
    ensures !Apply(s, act).event.Resumed?
  {
  }

  function LateActions(): seq<Action> {
    [Load(0), Try(0, false), Close, PushSentinels, Push(0), Pop(0)]
  }

  function LateEvents(): seq<Event> {
    [Internal, Admitted(0), Internal, Internal, Internal, Internal]
  }

  /** One worker. The coroutine enters, the pool is shut down, the sentinel is queued and only then
      the coroutine: it was admitted and is never resumed. */
  lemma LatePushIsStranded()
    ensures RunOf(1, LateActions()).Running? && RunOf(1, LateActions()).state.exited == {0}
    ensures AdmittedIn(RunOf(1, LateActions()).trace) == [0] && ResumedIn(RunOf(1, LateActions()).trace) == []
  {
    hide RunOf, AdmittedIn, ResumedIn;
    var s1 := Init(1).(trying := map[0 := 0]);
    var s2 := State(1, 2, map[], {0}, [], 0, map[], {}, {}, false, NoBatch);
    var s3 := s2.(word := 3, closing := true);
    var s4 := s2.(word := 3, log := [Sentinel], batch := At(0));
    var s5 := s4.(entered := {}, log := [Sentinel, Awaiter(0)]);
    NoRun();
    LateStep(0, Init(1), s1);
    LateStep(1, s1, s2);
    LateStep(2, s2, s3);
    assert Batched(1) == [Sentinel];
    LateStep(3, s3, s4);
    LateStep(4, s4, s5);
    LateStep(5, s5, s5.(popped := 1, exited := {0}));
    assert LateActions()[..6] == LateActions() && LateEvents()[..6] == LateEvents();
  }

  lemma NoRun()
    ensures LateActions()[..0] == [] && LateEvents()[..0] == []
    ensures RunOf(1, []) == Running(Init(1), []) && AdmittedIn([]) == [] && ResumedIn([]) == []
  {
  }

  lemma LateStep(k: nat, s: State, s': State)
    requires k < 6 && RunOf(1, LateActions()[..k]) == Running(s, LateEvents()[..k])
    requires Apply(s, LateActions()[k]) == Next(s', LateEvents()[k])
    ensures RunOf(1, LateActions()[..k + 1]) == Running(s', LateEvents()[..k + 1])
    ensures var e := LateEvents()[k]; var trace := LateEvents()[..k];
            && ResumedIn(LateEvents()[..k + 1]) == ResumedIn(trace)
            && AdmittedIn(LateEvents()[..k + 1]) == if k == 1 then AdmittedIn(trace) + [0] else AdmittedIn(trace)
  {
    hide Apply, AdmittedIn, ResumedIn;
    assert LateActions()[..k + 1][..k] == LateActions()[..k];
    assert LateEvents()[..k + 1] == LateEvents()[..k] + [LateEvents()[k]];
    LastEvent(LateEvents()[..k], LateEvents()[k]);
  }
}
