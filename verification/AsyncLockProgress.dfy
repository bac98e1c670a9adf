/** What a coroutine achieves by its own steps on the lock, whatever has happened before. */
module AsyncLockProgress {
  import opened AsyncLock
  import opened AwaiterWords
  import opened Sequences
  import opened Wrappers

  // Releasing the lock.

  /** The next step of an owner that releases the lock. */
  function OwnStep(pc: Pc, a: nat): Action {
    match pc
    case Owner => BeginRelease(a)
    case Releasing => TryFree(a)
    case Exchanging => Exchange(a)
    case Reversing(_, _) => Reverse(a)
    case _ => HandOff(a)
  }

  function StepsLeft(pc: Pc, g: Lists): nat {
    match pc
    case Owner => |g.stack| + 5
    case Releasing => |g.stack| + 4
    case Exchanging => |g.stack| + 3
    case Reversing(_, _) => |g.current| + 1
    case _ => 1
  }

  /** What a release by `a` comes to: the first in line gets the lock, or nobody. */
  function Outcome(a: nat, line: seq<nat>): Event {
    if line == [] then Release(a) else Grant(a, line[0])
  }

  /** An owner in the intended code is never blocked, and each of its steps ends the release or brings
      it nearer to its end. */
  lemma OwnerAdvances(s: State, g: Lists, a: nat)
    requires Inv(false, s, g) && Owns(PcOf(s, a))
    ensures Apply(false, s, OwnStep(PcOf(s, a), a)).Next?
    ensures var act := OwnStep(PcOf(s, a), a); var eff := Apply(false, s, act);
            if Owns(PcOf(eff.state, a))
            then eff.event == Internal && StepsLeft(PcOf(eff.state, a), NextLists(false, s, g, act)) < StepsLeft(PcOf(s, a), g)
            else eff.event.Release? || (eff.event.Grant? && PcOf(eff.state, eff.event.to) == Owner)
    ensures Abs(g).owner == Some(a)
  {
    hide Linked, Places;
    var act := OwnStep(PcOf(s, a), a);
    FaultsExactly(false, s, g, act);
    assert g.owner == Some(a) && OwnerInv(false, s, g);
    if PcOf(s, a).Handing? {
      LinkedTail(s.next, g.reversed, PcOf(s, a).head, Null);
      InPlace(g, g.reversed[0]);
    }
  }

  lemma OwnStepOf(s: State, a: nat)
    ensures OwnStep(PcOf(s, a), a).a == a
    ensures var e := Apply(false, s, OwnStep(PcOf(s, a), a));
            e.Next? ==> (e.event.Grant? ==> e.event.a == a) && (e.event.Release? ==> e.event.a == a)
  {
  }

  /** A step that ends a release does so as the first-in first-out lock does. */
  lemma OutcomeOf(f: Fifo, e: Event, f': Fifo, a: nat)
    requires FifoStep(f, e, f') && f.owner == Some(a)
    requires (e.Release? || e.Grant?) && e.a == a
    ensures e == Outcome(a, f.line)
  {
  }

  lemma {:induction false} Finishes(acts: seq<Action>, a: nat) returns (own: seq<Action>)
    requires RunOf(false, acts).Running? && Owns(PcOf(RunOf(false, acts).state, a))
    ensures own != [] && forall i :: 0 <= i < |own| ==> own[i].a == a
    ensures var r := RunOf(false, acts + own);
            && r.Running? && !Owns(PcOf(r.state, a)) && r.trace != []
            && r.trace[|r.trace| - 1] == Outcome(a, Abs(ListsAfter(false, acts)).line)
            && (r.trace[|r.trace| - 1].Grant? ==> PcOf(r.state, r.trace[|r.trace| - 1].to) == Owner)
    decreases StepsLeft(PcOf(RunOf(false, acts).state, a), ListsAfter(false, acts))
  {
    hide Inv, NextLists, Abs, FifoAfter, Apply, StepsLeft, OwnStep;
    var s, g := RunOf(false, acts).state, ListsAfter(false, acts);
    var act := OwnStep(PcOf(s, a), a);
    RefinesFifo(false, acts);
    OwnerAdvances(s, g, a);
    StepKeepsInv(false, s, g, act);
    RunOneMore(false, acts, act);
    NextListsAfter(false, acts, act);
    OwnStepOf(s, a);
    if Owns(PcOf(RunOf(false, acts + [act]).state, a)) {
      var rest := Finishes(acts + [act], a);
      own := [act] + rest;
      assert acts + own == acts + [act] + rest;
    } else {
      own := [act];
      OutcomeOf(Abs(g), Apply(false, s, act).event, Abs(NextLists(false, s, g, act)), a);
    }
  }

  /** In the intended code an owner, wherever it is in its release or before it, can release the lock
      by finitely many steps of its own. The lock goes to the coroutine that has been suspended
      longest, and becomes free only if there is none. */
  lemma OwnerReleases(acts: seq<Action>, a: nat) returns (own: seq<Action>)
    requires RunOf(false, acts).Running? && Owns(PcOf(RunOf(false, acts).state, a))
    ensures own != [] && forall i :: 0 <= i < |own| ==> own[i].a == a
    ensures var before, after := RunOf(false, acts).trace, RunOf(false, acts + own);
            && after.Running? && !Owns(PcOf(after.state, a)) && after.trace != []
            && (var last := after.trace[|after.trace| - 1];
                if |Enqueued(before)| == |Granted(before)| then last == Release(a)
                else
                  && |Granted(before)| < |Enqueued(before)|
                  && last == Grant(a, Enqueued(before)[|Granted(before)|])
                  && PcOf(after.state, last.to) == Owner)
  {
    hide Inv, Abs, Apply, RunOf, FifoAfter, ListsAfter;
    RefinesFifo(false, acts);
    ResumedInOrder(RunOf(false, acts).trace);
    own := Finishes(acts, a);
  }

  // Acquiring the lock.

  /** A compare-exchange of a coroutine that tries is never blocked. It takes a free lock or joins the
      stack if it succeeds; it succeeds unless it fails spuriously or the word has changed; and then
      it is tried again with the word as it is. */
  lemma CasGoesOn(asWritten: bool, s: State, a: nat, spurious: bool)
    requires PcOf(s, a).Trying?
    ensures var eff := Apply(asWritten, s, Cas(a, spurious));
            && eff.Next?
            && (if spurious || PcOf(s, a).seen != s.word then eff.event == Internal && PcOf(eff.state, a) == Trying(s.word)
                else if s.word == Null then eff.event == Acquire(a) && PcOf(eff.state, a) == Owner
                else eff.event == Enqueue(a) && PcOf(eff.state, a) == Waiting)
            && (eff.event == Internal ==> eff.state.word == s.word)
  {
  }

  /** What an attempt by `a` comes to: it acquires the lock if nobody owns it, and is suspended else. */
  function Arrival(s: State, a: nat): Event {
    if s.word == Null then Acquire(a) else Enqueue(a)
  }

  /** A coroutine that asks for the lock, or is in the middle of asking, gets it or is queued after at
      most two steps of its own in which nobody interferes. */
  lemma Arrives(asWritten: bool, acts: seq<Action>, a: nat) returns (own: seq<Action>)
    requires RunOf(asWritten, acts).Running?
    requires PcOf(RunOf(asWritten, acts).state, a) == Idle || PcOf(RunOf(asWritten, acts).state, a).Trying?
    ensures |own| <= 2 && forall i :: 0 <= i < |own| ==> own[i].a == a
    ensures PcOf(RunOf(asWritten, acts).state, a) == Idle ==> own == [Load(a), Cas(a, false)]
    ensures var before, after := RunOf(asWritten, acts), RunOf(asWritten, acts + own);
            && after.Running? && after.trace != []
            && after.trace[|after.trace| - 1] == Arrival(before.state, a)
            && PcOf(after.state, a) == if before.state.word == Null then Owner else Waiting
  {
    hide Apply, RunOf;
    var s := RunOf(asWritten, acts).state;
    if PcOf(s, a).Trying? && PcOf(s, a).seen == s.word {
      own := [Cas(a, false)];
      CasGoesOn(asWritten, s, a, false);
      RunOneMore(asWritten, acts, Cas(a, false));
    } else {
      var first := if PcOf(s, a) == Idle then Load(a) else Cas(a, false);
      own := [first, Cas(a, false)];
      FirstLook(asWritten, s, a, first);
      RunOneMore(asWritten, acts, first);
      CasGoesOn(asWritten, Apply(asWritten, s, first).state, a, false);
      RunOneMore(asWritten, acts + [first], Cas(a, false));
      assert acts + own == acts + [first] + [Cas(a, false)];
    }
  }

  /** Asking begins with a look at the word. */
  lemma FirstLook(asWritten: bool, s: State, a: nat, first: Action)
    requires (first == Load(a) && PcOf(s, a) == Idle) || (first == Cas(a, false) && PcOf(s, a).Trying? && PcOf(s, a).seen != s.word)
    ensures var eff := Apply(asWritten, s, first);
            eff.Next? && PcOf(eff.state, a) == Trying(s.word) && eff.state.word == s.word
  {
  }

  /** A coroutine that asks for the lock gets it exactly if nobody owns it. */
  lemma FreeExactly(asWritten: bool, acts: seq<Action>, a: nat)
    requires RunOf(asWritten, acts).Running?
    ensures Arrival(RunOf(asWritten, acts).state, a) == Acquire(a) <==>
            forall b: nat :: !Owns(PcOf(RunOf(asWritten, acts).state, b))
  {
    hide RunOf, Owns;
    LockIsFifo(asWritten, acts);
  }
}
