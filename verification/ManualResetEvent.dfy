/** The manual-reset event as a transition system with one step per atomic operation or pointer
    access. Any number of coroutines wait on it, and any number of threads set and reset it. `Mark` is
    the address of the event itself, which in the state word says that the event is set. */
module ManualResetEvent {
  import opened AwaiterWords

  datatype Pc = Idle | Checked | Trying(seen: Word) | Waiting

  /** A thread inside `set`: about to read the link of a waiter, or about to resume it. */
  datatype Walk = Resting | Walking(waiter: Word) | Resuming(due: nat, next: Word)

  datatype State = State(word: Word, next: map<nat, Word>, pc: map<nat, Pc>, walk: map<nat, Walk>)

  function Init(set_: bool): State {
    State(if set_ then Mark else Null, map[], map[], map[])
  }

  datatype Action =
    | Check(a: nat)
    | Load(a: nat)
    | Cas(a: nat, spurious: bool)
    | SetExchange(i: nat)
    | ReadNext(i: nat)
    | Resume(i: nat)
    | Reset

  datatype Event = Internal | Pass(a: nat) | Enqueue(a: nat) | Resumed(a: nat)

  /** A step may be impossible, or touch an awaiter that is not suspended any more. */
  datatype Effect = Disabled | Fault | Next(state: State, event: Event)

  function PcOf(s: State, a: nat): Pc {
    if a in s.pc then s.pc[a] else Idle
  }

  function WalkOf(s: State, i: nat): Walk {
    if i in s.walk then s.walk[i] else Resting
  }

  function Goto(s: State, a: nat, pc: Pc): State {
    s.(pc := s.pc[a := pc])
  }

  function Turn(s: State, i: nat, walk: Walk): State {
    s.(walk := s.walk[i := walk])
  }

  /** The loop of `set` goes on while there is a waiter. */
  function Follow(w: Word): Walk {
    if w.Addr? then Walking(w) else Resting
  }

  function Apply(s: State, act: Action): Effect {
    match act
    case Check(a) =>
      if PcOf(s, a) != Idle then Disabled
      else if s.word == Mark then Next(s, Pass(a))
      else Next(Goto(s, a, Checked), Internal)
    case Load(a) =>
      if PcOf(s, a) != Checked then Disabled else Look(s, a)
    case Cas(a, spurious) =>
      if !PcOf(s, a).Trying? then Disabled
      else
        var seen := PcOf(s, a).seen;
        var s' := s.(next := s.next[a := seen]);
        if s.word == seen && !spurious then Next(Goto(s', a, Waiting).(word := Addr(a)), Enqueue(a))
        else Look(s', a)
    case SetExchange(i) =>
      if WalkOf(s, i) != Resting then Disabled
      else Next(Turn(s, i, Follow(s.word)).(word := Mark), Internal)
    case ReadNext(i) =>
      if !WalkOf(s, i).Walking? then Disabled
      else
        var w := WalkOf(s, i).waiter;
        if w.Addr? && w.id in s.next && PcOf(s, w.id) == Waiting
        then Next(Turn(s, i, Resuming(w.id, s.next[w.id])), Internal)
        else Fault
    case Resume(i) =>
      if !WalkOf(s, i).Resuming? then Disabled
      else
        var w := WalkOf(s, i);
        if PcOf(s, w.due) == Waiting then Next(Goto(Turn(s, i, Follow(w.next)), w.due, Idle), Resumed(w.due))
        else Fault
    case Reset => Next(if s.word == Mark then s.(word := Null) else s, Internal)
  }

  /** A waiter has read the state word: it does not suspend if the event is set. */
  function Look(s: State, a: nat): Effect {
    if s.word == Mark then Next(Goto(s, a, Idle), Pass(a)) else Next(Goto(s, a, Trying(s.word)), Internal)
  }

  // Where the suspended waiters are.

  datatype Place = InEvent | With(i: nat)

  datatype Lists = Lists(place: map<nat, Place>, event: seq<nat>, rest: map<nat, seq<nat>>)

  function RestOf(g: Lists, i: nat): seq<nat> {
    if i in g.rest then g.rest[i] else []
  }

  ghost predicate Distinct(ids: seq<nat>) {
    forall i, j :: 0 <= i < j < |ids| ==> ids[i] != ids[j]
  }

  /** A list holds, once each, exactly the waiters placed in it. */
  ghost predicate ListOk(place: map<nat, Place>, ids: seq<nat>, p: Place) {
    && Distinct(ids)
    && (forall a :: a in ids ==> a in place && place[a] == p)
    && (forall a :: a in place && place[a] == p ==> a in ids)
  }

  ghost predicate Placed(s: State, g: Lists) {
    forall a: nat :: (PcOf(s, a) == Waiting <==> a in g.place) && PcOf(s, a) != Trying(Mark)
  }

  ghost predicate EventInv(s: State, g: Lists) {
    && ListOk(g.place, g.event, InEvent)
    && (if s.word == Mark then g.event == [] else Linked(s.next, g.event, s.word, Null))
  }

  ghost predicate SetterInv(s: State, g: Lists, i: nat) {
    var ids := RestOf(g, i);
    && ListOk(g.place, ids, With(i))
    && match WalkOf(s, i)
       case Resting => ids == []
       case Walking(w) => ids != [] && Linked(s.next, ids, w, Null)
       case Resuming(w, next) => ids != [] && ids[0] == w && Linked(s.next, ids[1..], next, Null)
  }

  ghost predicate Inv(s: State, g: Lists) {
    Placed(s, g) && EventInv(s, g) && forall i: nat :: SetterInv(s, g, i)
  }

  lemma InitInv(set_: bool)
    ensures Inv(Init(set_), Lists(map[], [], map[]))
  {
  }

  ghost function NextLists(s: State, g: Lists, act: Action): Lists {
    match act
    case Cas(a, spurious) =>
      if PcOf(s, a).Trying? && PcOf(s, a).seen == s.word && !spurious
      then g.(place := g.place[a := InEvent], event := [a] + g.event) else g
    case SetExchange(i) =>
      if WalkOf(s, i) == Resting
      then Lists(TakenBy(g.place, i), [], g.rest[i := g.event])
      else g
    case Resume(i) =>
      if WalkOf(s, i).Resuming? && RestOf(g, i) != []
      then g.(place := g.place - {WalkOf(s, i).due}, rest := g.rest[i := RestOf(g, i)[1..]])
      else g
    case _ => g
  }

  /** One waiter moves, and is placed or taken from its place accordingly. */
  lemma PlacedStep(s: State, g: Lists, s': State, g': Lists, a: nat, pc: Pc)
    requires Placed(s, g) && s'.pc == s.pc[a := pc] && pc != Trying(Mark)
    requires g'.place.Keys == if pc == Waiting then g.place.Keys + {a} else g.place.Keys - {a}
    ensures Placed(s', g')
  {
    forall b: nat
      ensures (PcOf(s', b) == Waiting <==> b in g'.place) && PcOf(s', b) != Trying(Mark)
    {
      assert b in g'.place <==> b in g'.place.Keys;
      assert PcOf(s', b) == if b == a then pc else PcOf(s, b);
    }
  }

  lemma NotPlaced(s: State, g: Lists, a: nat)
    requires Inv(s, g) && PcOf(s, a) != Waiting
    ensures a !in g.place && a !in g.event
  {
  }

  /** A waiter that is not suspended may move on, and write its own link. */
  lemma OutsiderStep(s: State, g: Lists, a: nat, pc: Pc, w: Word)
    requires Inv(s, g) && PcOf(s, a) != Waiting && pc != Waiting && pc != Trying(Mark)
    ensures Inv(Goto(s, a, pc), g) && Inv(Goto(s.(next := s.next[a := w]), a, pc), g)
  {
    hide Linked, ListOk;
    var s1, s2 := Goto(s, a, pc), Goto(s.(next := s.next[a := w]), a, pc);
    NotPlaced(s, g, a);
    assert g.place.Keys - {a} == g.place.Keys;
    PlacedStep(s, g, s1, g, a, pc);
    PlacedStep(s, g, s2, g, a, pc);
    if s.word != Mark {
      LinkedElsewhere(s.next, g.event, s.word, Null, a, w);
    }
    forall i: nat
      ensures SetterInv(s1, g, i) && SetterInv(s2, g, i)
    {
      assert SetterInv(s, g, i);
      SetterElsewhere(s, g, i, a, w);
    }
  }

  lemma SetterElsewhere(s: State, g: Lists, i: nat, a: nat, w: Word)
    requires SetterInv(s, g, i) && a !in g.place
    ensures SetterInv(s.(next := s.next[a := w]), g, i)
  {
    var ids := RestOf(g, i);
    match WalkOf(s, i)
    case Resting =>
    case Walking(v) => LinkedElsewhere(s.next, ids, v, Null, a, w);
    case Resuming(v, next) => LinkedElsewhere(s.next, ids[1..], next, Null, a, w);
  }

  ghost predicate StepOk(s: State, g: Lists, act: Action) {
    var eff := Apply(s, act);
    eff != Fault && (eff.Next? ==> Inv(eff.state, NextLists(s, g, act)))
  }

  lemma EnqueueOk(s: State, g: Lists, a: nat)
    requires Inv(s, g) && PcOf(s, a) == Trying(s.word)
    ensures Inv(Goto(s.(next := s.next[a := s.word]), a, Waiting).(word := Addr(a)),
                g.(place := g.place[a := InEvent], event := [a] + g.event))
  {
    hide Linked, ListOk;
    var s' := Goto(s.(next := s.next[a := s.word]), a, Waiting).(word := Addr(a));
    var g' := g.(place := g.place[a := InEvent], event := [a] + g.event);
    NotPlaced(s, g, a);
    assert g'.place.Keys == g.place.Keys + {a};
    PlacedStep(s, g, s', g', a, Waiting);
    LinkedCons(s.next, g.event, s.word, Null, a);
    PlacedFirst(g.place, g.event, a, InEvent);
    forall i: nat
      ensures SetterInv(s', g', i)
    {
      assert SetterInv(s, g, i);
      SetterElsewhere(s, g, i, a, s.word);
      PlacedElsewhere(g.place, RestOf(g, i), With(i), a, InEvent);
    }
  }

  lemma PlacedFirst(place: map<nat, Place>, ids: seq<nat>, a: nat, p: Place)
    requires ListOk(place, ids, p) && a !in place
    ensures ListOk(place[a := p], [a] + ids, p)
  {
  }

  lemma PlacedElsewhere(place: map<nat, Place>, ids: seq<nat>, q: Place, a: nat, p: Place)
    requires ListOk(place, ids, q) && a !in place && p != q
    ensures ListOk(place[a := p], ids, q)
  {
  }

  lemma TakeAllOk(s: State, g: Lists, i: nat)
    requires Inv(s, g) && WalkOf(s, i) == Resting
    ensures Inv(Turn(s, i, Follow(s.word)).(word := Mark), NextLists(s, g, SetExchange(i)))
  {
    hide Linked, ListOk;
    var s', g' := Turn(s, i, Follow(s.word)).(word := Mark), NextLists(s, g, SetExchange(i));
    assert SetterInv(s, g, i);
    assert g' == Lists(TakenBy(g.place, i), [], g.rest[i := g.event]);
    assert forall b: nat :: PcOf(s', b) == PcOf(s, b);
    if s.word != Mark {
      LinkedHead(s.next, g.event, s.word, Null);
    }
    TakenOver(g.place, g.event, i);
    forall j: nat
      ensures SetterInv(s', g', j)
    {
      assert SetterInv(s, g, j);
      if j != i {
        TakenElsewhere(g.place, RestOf(g, j), i, j);
      }
    }
  }

  /** Setter `i` takes over all waiters of the event. */
  ghost function TakenBy(place: map<nat, Place>, i: nat): map<nat, Place> {
    map a | a in place :: if place[a] == InEvent then With(i) else place[a]
  }

  lemma TakenOver(place: map<nat, Place>, ids: seq<nat>, i: nat)
    requires ListOk(place, ids, InEvent) && ListOk(place, [], With(i))
    ensures ListOk(TakenBy(place, i), ids, With(i)) && ListOk(TakenBy(place, i), [], InEvent)
  {
  }

  lemma TakenElsewhere(place: map<nat, Place>, ids: seq<nat>, i: nat, j: nat)
    requires ListOk(place, ids, With(j)) && i != j
    ensures ListOk(TakenBy(place, i), ids, With(j))
  {
  }

  lemma DistinctTail(ids: seq<nat>)
    requires Distinct(ids) && ids != []
    ensures Distinct(ids[1..]) && ids[0] !in ids[1..]
  {
  }

  lemma ReadNextOk(s: State, g: Lists, i: nat)
    requires Inv(s, g)
    ensures StepOk(s, g, ReadNext(i))
  {
    hide Linked, Distinct;
    if WalkOf(s, i).Walking? {
      assert SetterInv(s, g, i);
      var ids := RestOf(g, i);
      LinkedTail(s.next, ids, WalkOf(s, i).waiter, Null);
      assert ids[0] in ids;
      forall j: nat
        ensures SetterInv(Apply(s, ReadNext(i)).state, g, j)
      {
        assert SetterInv(s, g, j);
      }
    }
  }

  lemma ResumeOk(s: State, g: Lists, i: nat)
    requires Inv(s, g)
    ensures StepOk(s, g, Resume(i))
  {
    hide Linked, Distinct, ListOk;
    if WalkOf(s, i).Resuming? {
      assert SetterInv(s, g, i);
      var ids, w := RestOf(g, i), WalkOf(s, i).due;
      var s', g' := Goto(Turn(s, i, Follow(WalkOf(s, i).next)), w, Idle), NextLists(s, g, Resume(i));
      FirstPlaced(g.place, ids, With(i));
      LinkedHead(s.next, ids[1..], WalkOf(s, i).next, Null);
      assert g' == g.(place := g.place - {w}, rest := g.rest[i := ids[1..]]);
      PlacedStep(s, g, s', g', w, Idle);
      Unplaced(g.place, ids, With(i), g.event, InEvent);
      forall j: nat
        ensures SetterInv(s', g', j)
      {
        assert SetterInv(s, g, j);
        Unplaced(g.place, ids, With(i), RestOf(g, j), With(j));
      }
    }
  }

  lemma FirstPlaced(place: map<nat, Place>, ids: seq<nat>, p: Place)
    requires ListOk(place, ids, p) && ids != []
    ensures ids[0] in place && place[ids[0]] == p
  {
    assert ids[0] in ids;
  }

  /** Taking the first waiter of a list out of its place leaves the rest of that list, and every
      list at another place, as they should be. */
  lemma Unplaced(place: map<nat, Place>, ids: seq<nat>, p: Place, others: seq<nat>, q: Place)
    requires ListOk(place, ids, p) && ids != [] && ListOk(place, others, q)
    ensures ListOk(place - {ids[0]}, ids[1..], p) && (q != p ==> ListOk(place - {ids[0]}, others, q))
  {
    DistinctTail(ids);
    assert ids == [ids[0]] + ids[1..];
    assert ids[0] in ids;
  }

  lemma StepKeepsInv(s: State, g: Lists, act: Action)
    requires Inv(s, g)
    ensures StepOk(s, g, act)
  {
    hide Linked, Distinct, ListOk;
    match act
    case Check(a) =>
      if PcOf(s, a) == Idle && s.word != Mark { OutsiderStep(s, g, a, Checked, Null); }
    case Load(a) =>
      if PcOf(s, a) == Checked { LookOk(s, g, a, Null); }
    case Cas(a, spurious) =>
      if PcOf(s, a).Trying? {
        var seen := PcOf(s, a).seen;
        if s.word == seen && !spurious { EnqueueOk(s, g, a); } else { LookOk(s, g, a, seen); }
      }
    case SetExchange(i) =>
      if WalkOf(s, i) == Resting { TakeAllOk(s, g, i); }
    case ReadNext(i) => ReadNextOk(s, g, i);
    case Resume(i) => ResumeOk(s, g, i);
    case Reset => ResetOk(s, g);
  }

  lemma LookOk(s: State, g: Lists, a: nat, w: Word)
    requires Inv(s, g) && PcOf(s, a) != Waiting
    ensures Inv(Look(s, a).state, g) && Inv(Look(s.(next := s.next[a := w]), a).state, g)
  {
    OutsiderStep(s, g, a, if s.word == Mark then Idle else Trying(s.word), w);
  }

  lemma ResetOk(s: State, g: Lists)
    requires Inv(s, g)
    ensures StepOk(s, g, Reset)
  {
    var s' := Apply(s, Reset).state;
    forall j: nat
      ensures SetterInv(s', g, j)
    {
      assert SetterInv(s, g, j);
    }
  }

  // Whole runs.

  datatype Run = Running(state: State, trace: seq<Event>) | Crashed | Impossible

  function RunOf(set_: bool, acts: seq<Action>): Run {
    if acts == [] then Running(Init(set_), [])
    else
      match RunOf(set_, acts[..|acts| - 1])
      case Running(s, trace) =>
        (match Apply(s, acts[|acts| - 1])
         case Next(s', e) => Running(s', trace + [e])
         case Fault => Crashed
         case Disabled => Impossible)
      case Crashed => Crashed
      case Impossible => Impossible
  }

  ghost function ListsAfter(set_: bool, acts: seq<Action>): Lists {
    if acts == [] then Lists(map[], [], map[])
    else
      var before := acts[..|acts| - 1];
      match RunOf(set_, before)
      case Running(s, _) => NextLists(s, ListsAfter(set_, before), acts[|acts| - 1])
      case _ => Lists(map[], [], map[])
  }

  /** No run touches an awaiter that is not suspended. */
  lemma {:induction false} RunsKeepInv(set_: bool, acts: seq<Action>)
    ensures RunOf(set_, acts) != Crashed
    ensures RunOf(set_, acts).Running? ==> Inv(RunOf(set_, acts).state, ListsAfter(set_, acts))
  {
    hide Inv, Apply, NextLists;
    if acts == [] {
      InitInv(set_);
    } else {
      var before := acts[..|acts| - 1];
      RunsKeepInv(set_, before);
      if RunOf(set_, before).Running? {
        StepKeepsInv(RunOf(set_, before).state, ListsAfter(set_, before), acts[|acts| - 1]);
      }
    }
  }

  /** The event was set, at the beginning or by a later step, and has not been reset since. */
  predicate SetSince(set_: bool, acts: seq<Action>) {
    if acts == [] then set_
    else
      var last := acts[|acts| - 1];
      last.SetExchange? || (!last.Reset? && SetSince(set_, acts[..|acts| - 1]))
  }

  lemma {:induction false} SetSinceWhen(set_: bool, acts: seq<Action>)
    ensures SetSince(set_, acts) <==>
              || (set_ && NoReset(acts))
              || (exists i :: 0 <= i < |acts| && acts[i].SetExchange? && NoReset(acts[i..]))
  {
    if acts != [] {
      var before, last := acts[..|acts| - 1], acts[|acts| - 1];
      SetSinceWhen(set_, before);
      forall i | 0 <= i < |before|
        ensures NoReset(acts[i..]) <==> NoReset(before[i..]) && !last.Reset?
      {
        assert acts[i..] == before[i..] + [last];
      }
      assert acts[|acts| - 1..] == [last];
    }
  }

  predicate NoReset(acts: seq<Action>) {
    forall i :: 0 <= i < |acts| ==> !acts[i].Reset?
  }

  lemma SetStep(s: State, g: Lists, act: Action)
    requires Inv(s, g) && Apply(s, act).Next?
    ensures Apply(s, act).state.word == Mark <==> act.SetExchange? || (!act.Reset? && s.word == Mark)
    ensures Apply(s, act).event.Pass? ==> s.word == Mark && (act.Check? || act.Load? || act.Cas?)
  {
    hide EventInv, SetterInv;
    assert act.Cas? ==> PcOf(s, act.a) != Trying(Mark);
  }

  /** The state word says set exactly when some `set` has not been followed by a `reset`. */
  lemma {:induction false} WordSaysSet(set_: bool, acts: seq<Action>)
    requires RunOf(set_, acts).Running?
    ensures RunOf(set_, acts).state.word == Mark <==> SetSince(set_, acts)
  {
    hide Inv, Apply, NextLists;
    if acts != [] {
      var before := acts[..|acts| - 1];
      WordSaysSet(set_, before);
      RunsKeepInv(set_, before);
      SetStep(RunOf(set_, before).state, ListsAfter(set_, before), acts[|acts| - 1]);
    }
  }

  /** A coroutine passes without suspending only while the event is set: some `set`, or its initial
      state, has not been followed by a `reset` when it passes. */
  lemma PassesOnlyWhileSet(set_: bool, acts: seq<Action>, a: nat)
    requires RunOf(set_, acts).Running? && RunOf(set_, acts).trace != []
    requires RunOf(set_, acts).trace[|RunOf(set_, acts).trace| - 1] == Pass(a)
    ensures || (set_ && NoReset(acts))
            || (exists i :: 0 <= i < |acts| && acts[i].SetExchange? && NoReset(acts[i..]))
  {
    hide Inv, Apply, NextLists;
    var before := acts[..|acts| - 1];
    RunsKeepInv(set_, before);
    WordSaysSet(set_, before);
    SetStep(RunOf(set_, before).state, ListsAfter(set_, before), acts[|acts| - 1]);
    SetSinceWhen(set_, acts);
  }

  /** Every waiter is resumed once for each time it was suspended, unless it is suspended now. */
  lemma {:induction false} ResumedOncePerSuspension(set_: bool, acts: seq<Action>, a: nat)
    requires RunOf(set_, acts).Running?
    ensures var r := RunOf(set_, acts);
            multiset(r.trace)[Enqueue(a)] == multiset(r.trace)[Resumed(a)] + if PcOf(r.state, a) == Waiting then 1 else 0
  {
    if acts != [] {
      var before, act := acts[..|acts| - 1], acts[|acts| - 1];
      ResumedOncePerSuspension(set_, before, a);
      CountStep(RunOf(set_, before).state, RunOf(set_, before).trace, act, a);
    }
  }

  lemma CountStep(s: State, trace: seq<Event>, act: Action, a: nat)
    requires Apply(s, act).Next?
    requires multiset(trace)[Enqueue(a)] == multiset(trace)[Resumed(a)] + if PcOf(s, a) == Waiting then 1 else 0
    ensures var eff := Apply(s, act);
            var trace' := trace + [eff.event];
            multiset(trace')[Enqueue(a)] ==
            multiset(trace')[Resumed(a)] + if PcOf(eff.state, a) == Waiting then 1 else 0
  {
  }

  /** While the event is set no waiter is left behind in it: every suspended waiter is in the hands
      of exactly one setter, which is still walking. */
  lemma NobodyLeftBehind(set_: bool, acts: seq<Action>, a: nat)
    requires RunOf(set_, acts).Running? && PcOf(RunOf(set_, acts).state, a) == Waiting
    ensures var s, g := RunOf(set_, acts).state, ListsAfter(set_, acts);
            && (s.word == Mark || a !in g.event ==>
                  exists i: nat :: a in RestOf(g, i) && WalkOf(s, i) != Resting && a !in g.event)
            && (forall i: nat, j: nat :: a in RestOf(g, i) && a in RestOf(g, j) ==> i == j)
  {
    RunsKeepInv(set_, acts);
    var s, g := RunOf(set_, acts).state, ListsAfter(set_, acts);
    assert a in g.place;
    if a !in g.event {
      var i := g.place[a].i;
      assert SetterInv(s, g, i);
    }
    forall i: nat, j: nat | a in RestOf(g, i) && a in RestOf(g, j)
      ensures i == j
    {
      assert SetterInv(s, g, i) && SetterInv(s, g, j);
    }
  }
}
