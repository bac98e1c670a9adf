/** What a coroutine and a thread achieve by their own steps on the event, whatever has happened
    before. */
module ManualResetEventProgress {
  import opened AwaiterWords
  import opened ManualResetEvent

  /** The history without the steps that nobody sees. */
  function Visible(trace: seq<Event>): seq<Event> {
    if trace == [] then []
    else
      var e := trace[|trace| - 1];
      if e == Internal then Visible(trace[..|trace| - 1]) else Visible(trace[..|trace| - 1]) + [e]
  }

  function Resumes(ids: seq<nat>): seq<Event> {
    seq(|ids|, k requires 0 <= k < |ids| => Resumed(ids[k]))
  }

  lemma RunOneMore(set_: bool, acts: seq<Action>, act: Action)
    requires RunOf(set_, acts).Running? && Apply(RunOf(set_, acts).state, act).Next?
    ensures var r, eff := RunOf(set_, acts), Apply(RunOf(set_, acts).state, act);
            && RunOf(set_, acts + [act]) == Running(eff.state, r.trace + [eff.event])
            && Visible(r.trace + [eff.event]) ==
               (if eff.event == Internal then Visible(r.trace) else Visible(r.trace) + [eff.event])
            && ListsAfter(set_, acts + [act]) == NextLists(r.state, ListsAfter(set_, acts), act)
  {
    hide Apply, NextLists, Visible;
    assert (acts + [act])[..|acts|] == acts;
    ListsMore(set_, acts, act);
    VisibleMore(RunOf(set_, acts).trace, Apply(RunOf(set_, acts).state, act).event);
  }

  lemma ListsMore(set_: bool, acts: seq<Action>, act: Action)
    requires RunOf(set_, acts).Running?
    ensures ListsAfter(set_, acts + [act]) == NextLists(RunOf(set_, acts).state, ListsAfter(set_, acts), act)
  {
    hide Apply, NextLists, RunOf;
    assert (acts + [act])[..|acts|] == acts;
  }

  lemma VisibleMore(trace: seq<Event>, e: Event)
    ensures Visible(trace + [e]) == (if e == Internal then Visible(trace) else Visible(trace) + [e])
  {
    assert (trace + [e])[..|trace|] == trace;
  }

  // Setting the event.

  /** The next step of a thread inside `set`. */
  function OwnStep(w: Walk, i: nat): Action {
    if w.Resuming? then Resume(i) else ReadNext(i)
  }

  function StepsLeft(w: Walk, ids: seq<nat>): nat {
    if w.Resuming? then 2 * |ids| else 2 * |ids| + 1
  }

  /** A setter is never blocked. It resumes its first waiter after reading the link of that waiter, and
      no other. */
  lemma SetterAdvances(s: State, g: Lists, i: nat)
    requires Inv(s, g) && WalkOf(s, i) != Resting
    ensures RestOf(g, i) != [] && Apply(s, OwnStep(WalkOf(s, i), i)).Next?
    ensures var act := OwnStep(WalkOf(s, i), i); var eff := Apply(s, act);
            var before, after := RestOf(g, i), RestOf(NextLists(s, g, act), i);
            && eff.state.word == s.word
            && (if WalkOf(s, i).Resuming?
                then eff.event == Resumed(before[0]) && after == before[1..] && (WalkOf(eff.state, i) == Resting <==> after == [])
                else eff.event == Internal && after == before && WalkOf(eff.state, i).Resuming?)
            && StepsLeft(WalkOf(eff.state, i), after) < StepsLeft(WalkOf(s, i), before)
  {
    hide Linked, Distinct, ListOk;
    assert SetterInv(s, g, i);
    var ids := RestOf(g, i);
    if WalkOf(s, i).Resuming? {
      StepKeepsInv(s, g, Resume(i));
      LinkedHead(s.next, ids[1..], WalkOf(s, i).next, Null);
    } else {
      StepKeepsInv(s, g, ReadNext(i));
    }
  }

  /** From wherever it is in `set`, a thread can finish by finitely many steps of its own. It resumes
      exactly the waiters it has in hand, in order and once each. */
  lemma {:induction false} SetterFinishes(set_: bool, acts: seq<Action>, i: nat) returns (own: seq<Action>)
    requires RunOf(set_, acts).Running?
    ensures forall k :: 0 <= k < |own| ==> own[k] == ReadNext(i) || own[k] == Resume(i)
    ensures var before, after := RunOf(set_, acts), RunOf(set_, acts + own);
            && after.Running? && WalkOf(after.state, i) == Resting && after.state.word == before.state.word
            && Visible(after.trace) == Visible(before.trace) + Resumes(RestOf(ListsAfter(set_, acts), i))
    decreases StepsLeft(WalkOf(RunOf(set_, acts).state, i), RestOf(ListsAfter(set_, acts), i))
  {
    hide Inv, Apply, NextLists, RunOf, ListsAfter, Visible;
    var s, g := RunOf(set_, acts).state, ListsAfter(set_, acts);
    RunsKeepInv(set_, acts);
    if WalkOf(s, i) == Resting {
      own := [];
      assert acts + own == acts;
      NothingInHand(s, g, i);
    } else {
      var act := OwnStep(WalkOf(s, i), i);
      SetterAdvances(s, g, i);
      RunOneMore(set_, acts, act);
      var rest := SetterFinishes(set_, acts + [act], i);
      own := [act] + rest;
      assert acts + own == acts + [act] + rest;
      if WalkOf(s, i).Resuming? {
        assert Resumes(RestOf(g, i)) == [Resumed(RestOf(g, i)[0])] + Resumes(RestOf(g, i)[1..]);
      }
    }
  }

  lemma NothingInHand(s: State, g: Lists, i: nat)
    requires Inv(s, g) && WalkOf(s, i) == Resting
    ensures RestOf(g, i) == []
  {
    assert SetterInv(s, g, i);
  }

  /** A thread that is not inside `set` can set the event, and by steps of its own then resume, once
      each, exactly the waiters that are suspended and in no setter's hands. */
  lemma SetResumesAll(set_: bool, acts: seq<Action>, i: nat) returns (own: seq<Action>, ids: seq<nat>)
    requires RunOf(set_, acts).Running? && WalkOf(RunOf(set_, acts).state, i) == Resting
    ensures own != [] && own[0] == SetExchange(i)
    ensures forall k :: 0 < k < |own| ==> own[k] == ReadNext(i) || own[k] == Resume(i)
    ensures var before, after, g := RunOf(set_, acts), RunOf(set_, acts + own), ListsAfter(set_, acts);
            && after.Running? && WalkOf(after.state, i) == Resting && after.state.word == Mark
            && Visible(after.trace) == Visible(before.trace) + Resumes(ids)
            && (forall a: nat :: a in ids <==> PcOf(before.state, a) == Waiting && forall j: nat :: a !in RestOf(g, j))
            && Distinct(ids)
  {
    hide Inv, Apply, NextLists, RunOf, ListsAfter, Visible;
    var s, g := RunOf(set_, acts).state, ListsAfter(set_, acts);
    RunsKeepInv(set_, acts);
    ids := g.event;
    InNoHands(s, g);
    SetTakesAll(s, g, i);
    RunOneMore(set_, acts, SetExchange(i));
    var rest := SetterFinishes(set_, acts + [SetExchange(i)], i);
    own := [SetExchange(i)] + rest;
    assert acts + own == acts + [SetExchange(i)] + rest;
  }

  lemma SetTakesAll(s: State, g: Lists, i: nat)
    requires Inv(s, g) && WalkOf(s, i) == Resting
    ensures var eff := Apply(s, SetExchange(i));
            && eff.Next? && eff.event == Internal && eff.state.word == Mark
            && RestOf(NextLists(s, g, SetExchange(i)), i) == g.event
  {
  }

  lemma InNoHands(s: State, g: Lists)
    requires Inv(s, g)
    ensures Distinct(g.event)
    ensures forall a: nat :: a in g.event <==> PcOf(s, a) == Waiting && forall j: nat :: a !in RestOf(g, j)
  {
    hide Linked, Distinct;
    forall a: nat
      ensures a in g.event <==> PcOf(s, a) == Waiting && forall j: nat :: a !in RestOf(g, j)
    {
      if a in g.event {
        forall j: nat
          ensures a !in RestOf(g, j)
        {
          assert SetterInv(s, g, j);
        }
      } else if PcOf(s, a) == Waiting {
        var j := g.place[a].i;
        assert SetterInv(s, g, j);
        assert a in RestOf(g, j);
      }
    }
  }

  /** Anybody can reset the event at any time, without waking or losing a waiter. */
  lemma ResetUnsets(set_: bool, acts: seq<Action>)
    requires RunOf(set_, acts).Running?
    ensures var before, after := RunOf(set_, acts), RunOf(set_, acts + [Reset]);
            && after.Running? && after.state.word != Mark
            && Visible(after.trace) == Visible(before.trace)
            && ListsAfter(set_, acts + [Reset]) == ListsAfter(set_, acts)
            && forall a: nat :: PcOf(after.state, a) == PcOf(before.state, a)
  {
    hide RunOf, ListsAfter, Visible;
    RunOneMore(set_, acts, Reset);
  }

  // Waiting for the event.

  predicate ByWaiter(act: Action, a: nat) {
    (act.Check? || act.Load? || act.Cas?) && act.a == a
  }

  /** The next step of a coroutine that is not suspended. */
  function WaiterStep(pc: Pc, a: nat): Action {
    match pc
    case Idle => Check(a)
    case Checked => Load(a)
    case _ => Cas(a, false)
  }

  function WaiterLeft(pc: Pc, word: Word): nat {
    match pc
    case Idle => 3
    case Checked => 2
    case Trying(seen) => if seen == word then 1 else 2
    case Waiting => 0
  }

  /** What waiting comes to: a coroutine goes on if the event is set and is suspended if it is not. */
  function Arrival(word: Word, a: nat): Event {
    if word == Mark then Pass(a) else Enqueue(a)
  }

  lemma WaiterAdvances(s: State, g: Lists, a: nat)
    requires Inv(s, g) && PcOf(s, a) != Waiting
    ensures var eff := Apply(s, WaiterStep(PcOf(s, a), a));
            && eff.Next?
            && (if eff.event == Internal
                then
                  && s.word != Mark && eff.state.word == s.word && PcOf(eff.state, a) != Waiting
                  && WaiterLeft(PcOf(eff.state, a), s.word) < WaiterLeft(PcOf(s, a), s.word)
                else
                  && eff.event == Arrival(s.word, a)
                  && PcOf(eff.state, a) == if s.word == Mark then Idle else Waiting)
  {
    hide EventInv, SetterInv;
    assert PcOf(s, a) != Trying(Mark);
  }

  /** A coroutine that awaits the event, or is in the middle of it, passes at once if the event is set;
      if it is not set the coroutine is suspended after at most three steps of its own in which nobody
      interferes. */
  lemma {:induction false} Arrives(set_: bool, acts: seq<Action>, a: nat) returns (own: seq<Action>)
    requires RunOf(set_, acts).Running? && PcOf(RunOf(set_, acts).state, a) != Waiting
    ensures 0 < |own| <= 3 && (RunOf(set_, acts).state.word == Mark ==> |own| == 1)
    ensures |own| <= WaiterLeft(PcOf(RunOf(set_, acts).state, a), RunOf(set_, acts).state.word)
    ensures forall k :: 0 <= k < |own| ==> ByWaiter(own[k], a)
    ensures var before, after := RunOf(set_, acts), RunOf(set_, acts + own);
            && after.Running? && Visible(after.trace) == Visible(before.trace) + [Arrival(before.state.word, a)]
            && PcOf(after.state, a) == if before.state.word == Mark then Idle else Waiting
    decreases WaiterLeft(PcOf(RunOf(set_, acts).state, a), RunOf(set_, acts).state.word)
  {
    hide Inv, Apply, NextLists, RunOf, ListsAfter, Visible;
    var s := RunOf(set_, acts).state;
    var act := WaiterStep(PcOf(s, a), a);
    RunsKeepInv(set_, acts);
    WaiterAdvances(s, ListsAfter(set_, acts), a);
    RunOneMore(set_, acts, act);
    if Apply(s, act).event == Internal {
      var rest := Arrives(set_, acts + [act], a);
      own := [act] + rest;
      assert acts + own == acts + [act] + rest;
    } else {
      own := [act];
    }
  }

  /** A compare-exchange that fails, because the word has changed or for no reason, reads the word. */
  lemma FailedCas(s: State, a: nat, spurious: bool)
    requires PcOf(s, a).Trying? && (spurious || PcOf(s, a).seen != s.word)
    ensures var eff := Apply(s, Cas(a, spurious));
            && eff.Next? && eff.state.word == s.word
            && (if s.word == Mark then eff.event == Pass(a) && PcOf(eff.state, a) == Idle
                else eff.event == Internal && PcOf(eff.state, a) == Trying(s.word))
  {
  }
}
