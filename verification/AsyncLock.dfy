/** The asynchronous lock as a transition system with one step per atomic operation.

    Any number of coroutines take steps in any order, and a weak compare-exchange may fail for no
    reason. Coroutine `a` has one awaiter. `Null` is also NOT_LOCKED, `Mark` is LOCKED_NO_WAITERS. */
module AsyncLock {
  import opened AwaiterWords
  import opened Sequences
  import opened Wrappers

  datatype Pc =
    | Idle
    | Trying(seen: Word)
    | Waiting
    | Owner
    | Releasing
    | Exchanging
    | Reversing(current: Word, head: Word)
    | Handing(head: Word)

  datatype State = State(word: Word, awaiters: Word, next: map<nat, Word>, pc: map<nat, Pc>)

  const INIT := State(Null, Null, map[], map[])

  datatype Action =
    | Load(a: nat)
    | Cas(a: nat, spurious: bool)
    | BeginRelease(a: nat)
    | TryFree(a: nat)
    | Exchange(a: nat)
    | Reverse(a: nat)
    | HandOff(a: nat)

  /** What a step means to the users of the lock. */
  datatype Event = Internal | Acquire(a: nat) | Enqueue(a: nat) | Grant(a: nat, to: nat) | Release(a: nat)

  /** A step may be impossible in a state, or follow a word that is not the address of an awaiter. */
  datatype Effect = Disabled | Fault | Next(state: State, event: Event)

  function PcOf(s: State, a: nat): Pc {
    if a in s.pc then s.pc[a] else Idle
  }

  function Goto(s: State, a: nat, pc: Pc): State {
    s.(pc := s.pc[a := pc])
  }

  /** When the reversal loop stops. As written it compares with null only, although the oldest
      awaiter on the stack links to LOCKED_NO_WAITERS. */
  predicate Stops(asWritten: bool, current: Word) {
    current == Null || (!asWritten && current == Mark)
  }

  function Apply(asWritten: bool, s: State, act: Action): Effect {
    var a := act.a;
    match (act, PcOf(s, a))
    case (Load(_), Idle) => Next(Goto(s, a, Trying(s.word)), Internal)
    case (Cas(_, spurious), Trying(seen)) =>
      if seen == Null then
        if s.word == seen && !spurious then Next(Goto(s, a, Owner).(word := Mark), Acquire(a))
        else Next(Goto(s, a, Trying(s.word)), Internal)
      else
        var s' := s.(next := s.next[a := seen]);
        if s.word == seen && !spurious then Next(Goto(s', a, Waiting).(word := Addr(a)), Enqueue(a))
        else Next(Goto(s', a, Trying(s.word)), Internal)
    case (BeginRelease(_), Owner) =>
      Next(Goto(s, a, if s.awaiters == Null then Releasing else Handing(s.awaiters)), Internal)
    case (TryFree(_), Releasing) =>
      if s.word == Mark then Next(Goto(s, a, Idle).(word := Null), Release(a))
      else Next(Goto(s, a, Exchanging), Internal)
    case (Exchange(_), Exchanging) =>
      Next(Goto(s, a, Reversing(s.word, Null)).(word := Mark), Internal)
    case (Reverse(_), Reversing(current, head)) =>
      if current.Addr? && current.id in s.next then
        var tmp := s.next[current.id];
        var s' := s.(next := s.next[current.id := head]);
        Next(Goto(s', a, if Stops(asWritten, tmp) then Handing(current) else Reversing(tmp, current)), Internal)
      else Fault
    case (HandOff(_), Handing(head)) =>
      if head.Addr? && head.id in s.next && PcOf(s, head.id) == Waiting then
        var s' := s.(awaiters := s.next[head.id]);
        Next(Goto(Goto(s', a, Idle), head.id, Owner), Grant(a, head.id))
      else Fault
    case _ => Disabled
  }

  // The specification: a strict first-in first-out lock.

  datatype Fifo = Fifo(owner: Option<nat>, line: seq<nat>)

  /** Acquiring is possible only when the lock is free and nobody waits; the lock passes to the
      first in line, and becomes free only when the line is empty. */
  function FifoNext(f: Fifo, e: Event): Option<Fifo> {
    match e
    case Internal => Some(f)
    case Acquire(a) => if f == Fifo(None, []) then Some(Fifo(Some(a), [])) else None
    case Enqueue(a) =>
      if f.owner.Some? && f.owner != Some(a) && a !in f.line then Some(f.(line := f.line + [a])) else None
    case Grant(a, b) =>
      if f.owner == Some(a) && f.line != [] && b == f.line[0] then Some(Fifo(Some(b), f.line[1..])) else None
    case Release(a) => if f == Fifo(Some(a), []) then Some(Fifo(None, [])) else None
  }

  predicate FifoStep(f: Fifo, e: Event, f': Fifo) {
    FifoNext(f, e) == Some(f')
  }

  /** The state of the specification after a history, if it allows the history. */
  function FifoAfter(trace: seq<Event>): Option<Fifo> {
    if trace == [] then Some(Fifo(None, []))
    else
      var f := FifoAfter(trace[..|trace| - 1]);
      if f.Some? then FifoNext(f.value, trace[|trace| - 1]) else None
  }

  function Enqueued(trace: seq<Event>): seq<nat> {
    if trace == [] then []
    else
      var e := trace[|trace| - 1];
      Enqueued(trace[..|trace| - 1]) + if e.Enqueue? then [e.a] else []
  }

  function Granted(trace: seq<Event>): seq<nat> {
    if trace == [] then []
    else
      var e := trace[|trace| - 1];
      Granted(trace[..|trace| - 1]) + if e.Grant? then [e.to] else []
  }

  /** The suspended coroutines are resumed once each and in the order in which they queued up; those
      not resumed yet are the line. */
  lemma {:induction false} ResumedInOrder(trace: seq<Event>)
    requires FifoAfter(trace).Some?
    ensures Enqueued(trace) == Granted(trace) + FifoAfter(trace).value.line
  {
    if trace != [] {
      var before := trace[..|trace| - 1];
      ResumedInOrder(before);
      var line := FifoAfter(before).value.line;
      if trace[|trace| - 1].Grant? {
        assert line == [line[0]] + line[1..];
      }
    }
  }

  /** Where the suspended coroutines are: on the stack in the state word, in the part of a stack
      that the releaser has still to reverse, in the part it has reversed, or in the queue. */
  datatype Lists = Lists(owner: Option<nat>, stack: seq<nat>, current: seq<nat>, reversed: seq<nat>, queue: seq<nat>)

  function Abs(g: Lists): Fifo {
    Fifo(g.owner, g.queue + Reversed(g.current) + g.reversed + Reversed(g.stack))
  }

  predicate Owns(pc: Pc) {
    pc.Owner? || pc.Releasing? || pc.Exchanging? || pc.Reversing? || pc.Handing?
  }

  function Places(g: Lists, a: nat): nat {
    multiset(g.stack)[a] + multiset(g.current)[a] + multiset(g.reversed)[a] + multiset(g.queue)[a]
  }

  ghost predicate Inv(asWritten: bool, s: State, g: Lists) {
    Placed(s, g) && OneOwner(s, g) && WordInv(s, g) && OwnerInv(asWritten, s, g)
  }

  /** A suspended coroutine is in exactly one place, and nobody else is in any. */
  ghost predicate Placed(s: State, g: Lists) {
    forall a: nat :: Places(g, a) == if PcOf(s, a) == Waiting then 1 else 0
  }

  ghost predicate OneOwner(s: State, g: Lists) {
    forall a: nat :: Owns(PcOf(s, a)) <==> g.owner == Some(a)
  }

  /** The state word is free exactly when nobody owns the lock, and else heads the stack. */
  ghost predicate WordInv(s: State, g: Lists) {
    if s.word == Null then g.owner == None && g.stack == []
    else g.owner.Some? && Linked(s.next, g.stack, s.word, Mark)
  }

  /** What holds of the owner-only part, by what the owner is doing. */
  ghost predicate OwnerInv(asWritten: bool, s: State, g: Lists) {
    var pc := if g.owner.Some? then PcOf(s, g.owner.value) else Idle;
    match pc
    case Reversing(current, head) =>
      && Linked(s.next, g.current, current, Mark) && Linked(s.next, g.reversed, head, Null)
      && g.queue == [] && s.awaiters == Null
      && (g.current == [] ==> asWritten)
    case Handing(head) =>
      && Linked(s.next, g.reversed, head, Null) && g.reversed != []
      && g.current == [] && g.queue == [] && !asWritten
    case _ =>
      && g.current == [] && g.reversed == [] && Linked(s.next, g.queue, s.awaiters, Null)
      && (pc.Idle? || pc.Releasing? || pc.Exchanging? ==> g.queue == [])
      && (pc.Exchanging? ==> g.stack != [])
      && (asWritten ==> g.queue == [])
  }

  lemma InitInv(asWritten: bool)
    ensures Inv(asWritten, INIT, Lists(None, [], [], [], []))
    ensures Abs(Lists(None, [], [], [], [])) == Fifo(None, [])
  {
  }

  /** How the lists change along a step. */
  ghost function NextLists(asWritten: bool, s: State, g: Lists, act: Action): Lists {
    var a := act.a;
    match (act, PcOf(s, a))
    case (Cas(_, spurious), Trying(seen)) =>
      if s.word != seen || spurious then g
      else if seen == Null then g.(owner := Some(a))
      else g.(stack := [a] + g.stack)
    case (BeginRelease(_), Owner) =>
      if s.awaiters == Null then g else g.(reversed := g.queue, queue := [])
    case (TryFree(_), Releasing) => if s.word == Mark then g.(owner := None) else g
    case (Exchange(_), Exchanging) => g.(stack := [], current := g.stack)
    case (Reverse(_), Reversing(_, _)) =>
      if g.current == [] then g else g.(current := g.current[1..], reversed := [g.current[0]] + g.reversed)
    case (HandOff(_), Handing(_)) =>
      if g.reversed == [] then g else g.(owner := Some(g.reversed[0]), reversed := [], queue := g.reversed[1..])
    case _ => g
  }

  ghost predicate StepOk(asWritten: bool, s: State, g: Lists, act: Action) {
    var eff := Apply(asWritten, s, act);
    eff.Next? ==>
      && Inv(asWritten, eff.state, NextLists(asWritten, s, g, act))
      && FifoStep(Abs(g), eff.event, Abs(NextLists(asWritten, s, g, act)))
  }

  /** A coroutine outside the lock may move on and write its own link. */
  lemma OutsiderStep(asWritten: bool, s: State, g: Lists, a: nat, pc: Pc, w: Word)
    requires Inv(asWritten, s, g) && !Owns(PcOf(s, a)) && PcOf(s, a) != Waiting && !Owns(pc) && pc != Waiting
    ensures Inv(asWritten, Goto(s, a, pc), g)
    ensures Inv(asWritten, Goto(s.(next := s.next[a := w]), a, pc), g)
  {
    hide Linked, Places, Owns, Stops;
    assert Places(g, a) == 0;
    MuteOutsider(g, a);
    var s' := Goto(s.(next := s.next[a := w]), a, pc);
    assert g.owner != Some(a);
    if s.word != Null {
      LinkedElsewhere(s.next, g.stack, s.word, Mark, a, w);
    }
    OwnerElsewhere(asWritten, s, g, a, w);
  }

  lemma OwnerElsewhere(asWritten: bool, s: State, g: Lists, a: nat, w: Word)
    requires OwnerInv(asWritten, s, g) && Places(g, a) == 0
    ensures OwnerInv(asWritten, s.(next := s.next[a := w]), g)
  {
    match if g.owner.Some? then PcOf(s, g.owner.value) else Idle
    case Reversing(current, head) =>
      LinkedElsewhere(s.next, g.current, current, Mark, a, w);
      LinkedElsewhere(s.next, g.reversed, head, Null, a, w);
    case Handing(head) =>
      LinkedElsewhere(s.next, g.reversed, head, Null, a, w);
    case _ =>
      LinkedElsewhere(s.next, g.queue, s.awaiters, Null, a, w);
  }

  lemma MuteOutsider(g: Lists, a: nat)
    requires Places(g, a) == 0
    ensures a !in g.stack && a !in g.current && a !in g.reversed && a !in g.queue
  {
  }

  lemma NotInLine(g: Lists, a: nat)
    requires Places(g, a) == 0
    ensures a !in Abs(g).line
  {
    ReversedMembers(g.current);
    ReversedMembers(g.stack);
    assert multiset(Abs(g).line) ==
           multiset(g.queue) + multiset(g.current) + multiset(g.reversed) + multiset(g.stack);
    assert multiset(Abs(g).line)[a] == 0;
  }

  lemma LoadOk(asWritten: bool, s: State, g: Lists, act: Action)
    requires Inv(asWritten, s, g) && act.Load?
    ensures StepOk(asWritten, s, g, act)
  {
    hide Inv, Abs;
    if PcOf(s, act.a) == Idle {
      OutsiderStep(asWritten, s, g, act.a, Trying(s.word), Null);
    }
  }

  lemma CasOk(asWritten: bool, s: State, g: Lists, act: Action)
    requires Inv(asWritten, s, g) && act.Cas?
    ensures StepOk(asWritten, s, g, act)
  {
    hide Inv, Abs;
    var a := act.a;
    if PcOf(s, a).Trying? {
      var seen := PcOf(s, a).seen;
      if s.word != seen || act.spurious {
        OutsiderStep(asWritten, s, g, a, Trying(s.word), seen);
      } else if seen == Null {
        AcquireOk(asWritten, s, g, a);
      } else {
        EnqueueOk(asWritten, s, g, a);
      }
    }
  }

  lemma AcquireOk(asWritten: bool, s: State, g: Lists, a: nat)
    requires Inv(asWritten, s, g) && PcOf(s, a) == Trying(Null) && s.word == Null
    ensures Inv(asWritten, Goto(s, a, Owner).(word := Mark), g.(owner := Some(a)))
    ensures Abs(g) == Fifo(None, []) && Abs(g.(owner := Some(a))) == Fifo(Some(a), [])
  {
    hide Places;
    var s', g' := Goto(s, a, Owner).(word := Mark), g.(owner := Some(a));
    assert OwnerInv(asWritten, s, g);
    forall b: nat
      ensures Places(g', b) == Places(g, b)
    {
      SamePlaces(g, g', b);
    }
  }

  lemma SamePlaces(g: Lists, g': Lists, b: nat)
    requires g'.stack + g'.current + g'.reversed + g'.queue == g.stack + g.current + g.reversed + g.queue
    ensures Places(g', b) == Places(g, b)
  {
    PlacesInAll(g, b);
    PlacesInAll(g', b);
  }

  lemma PlacesInAll(g: Lists, b: nat)
    ensures Places(g, b) == multiset(g.stack + g.current + g.reversed + g.queue)[b]
  {
    var m := multiset(g.stack) + multiset(g.current) + multiset(g.reversed) + multiset(g.queue);
    assert multiset(g.stack + g.current + g.reversed + g.queue) == m;
    assert m[b] == Places(g, b);
  }

  lemma EnqueueOk(asWritten: bool, s: State, g: Lists, a: nat)
    requires Inv(asWritten, s, g) && PcOf(s, a) == Trying(s.word) && s.word != Null
    ensures var g' := g.(stack := [a] + g.stack);
            && Inv(asWritten, Goto(s.(next := s.next[a := s.word]), a, Waiting).(word := Addr(a)), g')
            && FifoStep(Abs(g), Enqueue(a), Abs(g'))
  {
    hide Linked, FifoStep, Abs, OwnerInv;
    var g' := g.(stack := [a] + g.stack);
    var s1 := s.(next := s.next[a := s.word]);
    var s' := Goto(s1, a, Waiting).(word := Addr(a));
    assert Places(g, a) == 0;
    assert g.owner.Some? && g.owner != Some(a);
    MuteOutsider(g, a);
    EnqueueFifo(g, a);
    LinkedCons(s.next, g.stack, s.word, Mark, a);
    OwnerElsewhere(asWritten, s, g, a, s.word);
    forall b: nat
      ensures Places(g', b) == Places(g, b) + if b == a then 1 else 0
    {
    }
    assert OwnerInv(asWritten, s', g') by { StackAside(asWritten, s1, g, s', g'); }
  }

  lemma EnqueueFifo(g: Lists, a: nat)
    requires Places(g, a) == 0 && g.owner.Some? && g.owner != Some(a)
    ensures FifoStep(Abs(g), Enqueue(a), Abs(g.(stack := [a] + g.stack)))
  {
    NotInLine(g, a);
    var g' := g.(stack := [a] + g.stack);
    assert g'.stack[1..] == g.stack;
    assert Abs(g').line == Abs(g).line + [a];
  }

  /** The owner's part does not depend on what is pushed onto the stack. */
  lemma StackAside(asWritten: bool, s: State, g: Lists, s': State, g': Lists)
    requires OwnerInv(asWritten, s, g) && g' == g.(stack := g'.stack) && (g.stack == [] || g'.stack != [])
    requires s'.next == s.next && s'.awaiters == s.awaiters && g.owner.Some? && PcOf(s', g.owner.value) == PcOf(s, g.owner.value)
    ensures OwnerInv(asWritten, s', g')
  {
  }

  /** Only what the owner is doing changes, and nothing is written. */
  lemma BeginReleaseOk(asWritten: bool, s: State, g: Lists, act: Action)
    requires Inv(asWritten, s, g) && act.BeginRelease?
    ensures StepOk(asWritten, s, g, act)
  {
    hide Linked, Places;
    var a := act.a;
    if PcOf(s, a) == Owner {
      assert g.owner == Some(a) && OwnerInv(asWritten, s, g);
      var g' := NextLists(asWritten, s, g, act);
      QueueEmpty(s.next, g.queue, s.awaiters);
      assert Abs(g') == Abs(g) by {
        assert g'.queue + Reversed(g'.current) + g'.reversed == g.queue + Reversed(g.current) + g.reversed;
      }
      forall b: nat
        ensures Places(g', b) == Places(g, b)
      {
        SamePlaces(g, g', b);
      }
    }
  }

  lemma QueueEmpty(next: map<nat, Word>, queue: seq<nat>, awaiters: Word)
    requires Linked(next, queue, awaiters, Null)
    ensures awaiters == Null <==> queue == []
  {
  }

  lemma TryFreeOk(asWritten: bool, s: State, g: Lists, act: Action)
    requires Inv(asWritten, s, g) && act.TryFree?
    ensures StepOk(asWritten, s, g, act)
  {
    hide Places;
    var a := act.a;
    if PcOf(s, a) == Releasing {
      assert g.owner == Some(a) && OwnerInv(asWritten, s, g);
      var g' := NextLists(asWritten, s, g, act);
      forall b: nat
        ensures Places(g', b) == Places(g, b)
      {
        SamePlaces(g, g', b);
      }
    }
  }

  lemma ExchangeOk(asWritten: bool, s: State, g: Lists, act: Action)
    requires Inv(asWritten, s, g) && act.Exchange?
    ensures StepOk(asWritten, s, g, act)
  {
    hide Places, Linked;
    var a := act.a;
    if PcOf(s, a) == Exchanging {
      assert g.owner == Some(a) && OwnerInv(asWritten, s, g);
      var g' := NextLists(asWritten, s, g, act);
      assert s.word != Null;
      LinkedHead(s.next, g.stack, s.word, Mark);
      LinkedHead(s.next, g.queue, s.awaiters, Null);
      NothingLinked(s.next, Mark);
      NothingLinked(s.next, Null);
      TakenLine(g);
      forall b: nat
        ensures Places(g', b) == Places(g, b)
      {
        SamePlaces(g, g', b);
      }
    }
  }

  lemma NothingLinked(next: map<nat, Word>, end: Word)
    ensures Linked(next, [], end, end)
  {
  }

  lemma TakenLine(g: Lists)
    requires g.current == [] && g.reversed == []
    ensures Abs(g.(stack := [], current := g.stack)).line == Abs(g).line
  {
    assert g.queue + Reversed(g.stack) + [] + [] == g.queue + [] + [] + Reversed(g.stack);
  }

  lemma ReverseOk(asWritten: bool, s: State, g: Lists, act: Action)
    requires Inv(asWritten, s, g) && act.Reverse?
    ensures StepOk(asWritten, s, g, act)
  {
    hide Linked, Places;
    var a := act.a;
    if PcOf(s, a).Reversing? {
      assert g.owner == Some(a) && OwnerInv(asWritten, s, g);
      LinkedHead(s.next, g.current, PcOf(s, a).current, Mark);
    }
    if PcOf(s, a).Reversing? && g.current != [] {
      var current, head := PcOf(s, a).current, PcOf(s, a).head;
      var g' := NextLists(asWritten, s, g, act);
      var c := g.current[0];
      LinkedTail(s.next, g.current, current, Mark);
      OnlyFirst(g, c);
      LinkedHead(s.next, g.current[1..], s.next[c], Mark);
      LinkedElsewhere(s.next, g.current[1..], s.next[c], Mark, c, head);
      LinkedElsewhere(s.next, g.stack, s.word, Mark, c, head);
      LinkedCons(s.next, g.reversed, head, Null, c);
      ReverseLine(g);
      forall b: nat
        ensures Places(g', b) == Places(g, b)
      {
        MovedFirst(g, b);
      }
    }
  }

  lemma ReverseLine(g: Lists)
    requires g.current != []
    ensures Abs(g.(current := g.current[1..], reversed := [g.current[0]] + g.reversed)) == Abs(g)
  {
    var c, r := Reversed(g.current[1..]), [g.current[0]];
    assert (g.queue + c) + (r + g.reversed) == (g.queue + (c + r)) + g.reversed;
  }

  lemma OnlyFirst(g: Lists, c: nat)
    requires g.current != [] && c == g.current[0] && Places(g, c) <= 1
    ensures multiset(g.current[1..])[c] == 0 && multiset(g.stack)[c] == 0 && multiset(g.reversed)[c] == 0
  {
    assert g.current == [c] + g.current[1..];
    assert multiset(g.current)[c] == 1 + multiset(g.current[1..])[c];
  }

  lemma MovedFirst(g: Lists, b: nat)
    requires g.current != []
    ensures Places(g.(current := g.current[1..], reversed := [g.current[0]] + g.reversed), b) == Places(g, b)
  {
    assert g.current == [g.current[0]] + g.current[1..];
    assert multiset(g.current)[b] == multiset([g.current[0]])[b] + multiset(g.current[1..])[b];
  }

  lemma HandOffOk(asWritten: bool, s: State, g: Lists, act: Action)
    requires Inv(asWritten, s, g) && act.HandOff?
    ensures StepOk(asWritten, s, g, act)
  {
    hide Linked, Places;
    var a := act.a;
    if PcOf(s, a).Handing? {
      assert g.owner == Some(a) && OwnerInv(asWritten, s, g);
      var g' := NextLists(asWritten, s, g, act);
      LinkedTail(s.next, g.reversed, PcOf(s, a).head, Null);
      HandLine(g);
      forall b: nat
        ensures Places(g', b) + (if b == g.reversed[0] then 1 else 0) == Places(g, b)
      {
        HandedFirst(g, b);
      }
    }
  }

  lemma HandLine(g: Lists)
    requires g.reversed != [] && g.current == [] && g.queue == []
    ensures var g' := g.(owner := Some(g.reversed[0]), reversed := [], queue := g.reversed[1..]);
            Abs(g).line != [] && Abs(g).line[0] == g.reversed[0] && Abs(g').line == Abs(g).line[1..]
  {
    var first, rest := [g.reversed[0]], g.reversed[1..] + Reversed(g.stack);
    assert Abs(g).line == first + rest;
  }

  lemma HandedFirst(g: Lists, b: nat)
    requires g.reversed != [] && g.current == [] && g.queue == []
    ensures var g' := g.(owner := Some(g.reversed[0]), reversed := [], queue := g.reversed[1..]);
            Places(g', b) + (if b == g.reversed[0] then 1 else 0) == Places(g, b)
  {
    assert g.reversed == [g.reversed[0]] + g.reversed[1..];
    assert multiset(g.reversed)[b] == multiset([g.reversed[0]])[b] + multiset(g.reversed[1..])[b];
  }

  lemma StepKeepsInv(asWritten: bool, s: State, g: Lists, act: Action)
    requires Inv(asWritten, s, g)
    ensures StepOk(asWritten, s, g, act)
  {
    match act
    case Load(_) => LoadOk(asWritten, s, g, act);
    case Cas(_, _) => CasOk(asWritten, s, g, act);
    case BeginRelease(_) => BeginReleaseOk(asWritten, s, g, act);
    case TryFree(_) => TryFreeOk(asWritten, s, g, act);
    case Exchange(_) => ExchangeOk(asWritten, s, g, act);
    case Reverse(_) => ReverseOk(asWritten, s, g, act);
    case HandOff(_) => HandOffOk(asWritten, s, g, act);
  }

  /** Only the owner reads or writes the queue, and a word that is not the address of a suspended
      awaiter is followed only by the code as written, at the end of its reversal. */
  lemma FaultsExactly(asWritten: bool, s: State, g: Lists, act: Action)
    requires Inv(asWritten, s, g)
    ensures Apply(asWritten, s, act) == Fault <==> act.Reverse? && PcOf(s, act.a).Reversing? && g.current == []
    ensures Apply(asWritten, s, act) == Fault ==> asWritten && PcOf(s, act.a).current == Mark
    ensures Apply(asWritten, s, act).Next? && (act.BeginRelease? || Apply(asWritten, s, act).state.awaiters != s.awaiters) ==>
              g.owner == Some(act.a)
  {
    hide Linked, Places;
    var a := act.a;
    if Owns(PcOf(s, a)) {
      assert g.owner == Some(a) && OwnerInv(asWritten, s, g);
      if PcOf(s, a).Reversing? {
        LinkedHead(s.next, g.current, PcOf(s, a).current, Mark);
        if g.current != [] {
          LinkedTail(s.next, g.current, PcOf(s, a).current, Mark);
        }
      }
      if PcOf(s, a).Handing? {
        LinkedTail(s.next, g.reversed, PcOf(s, a).head, Null);
        InPlace(g, g.reversed[0]);
      }
    }
  }

  lemma InPlace(g: Lists, a: nat)
    requires a in g.reversed
    ensures 0 < Places(g, a)
  {
  }

  // Whole runs.

  datatype Run = Running(state: State, trace: seq<Event>) | Crashed | Impossible

  function RunOf(asWritten: bool, acts: seq<Action>): Run {
    if acts == [] then Running(INIT, [])
    else
      match RunOf(asWritten, acts[..|acts| - 1])
      case Running(s, trace) =>
        (match Apply(asWritten, s, acts[|acts| - 1])
         case Next(s', e) => Running(s', trace + [e])
         case Fault => Crashed
         case Disabled => Impossible)
      case Crashed => Crashed
      case Impossible => Impossible
  }

  ghost function ListsAfter(asWritten: bool, acts: seq<Action>): Lists {
    if acts == [] then Lists(None, [], [], [], [])
    else
      var before := acts[..|acts| - 1];
      match RunOf(asWritten, before)
      case Running(s, _) => NextLists(asWritten, s, ListsAfter(asWritten, before), acts[|acts| - 1])
      case _ => Lists(None, [], [], [], [])
  }

  /** In every interleaving the lock behaves as the first-in first-out lock. */
  lemma {:induction false} RefinesFifo(asWritten: bool, acts: seq<Action>)
    requires RunOf(asWritten, acts).Running?
    ensures var r, g := RunOf(asWritten, acts), ListsAfter(asWritten, acts);
            Inv(asWritten, r.state, g) && FifoAfter(r.trace) == Some(Abs(g))
  {
    hide Inv, Apply, NextLists, Abs;
    if acts == [] {
      InitInv(asWritten);
    } else {
      var before, act := acts[..|acts| - 1], acts[|acts| - 1];
      RefinesFifo(asWritten, before);
      var r := RunOf(asWritten, before);
      StepKeepsInv(asWritten, r.state, ListsAfter(asWritten, before), act);
      var trace := RunOf(asWritten, acts).trace;
      assert trace[..|trace| - 1] == r.trace;
    }
  }

  /** Mutual exclusion, and first-in first-out service with every waiter resumed at most once. */
  lemma LockIsFifo(asWritten: bool, acts: seq<Action>)
    requires RunOf(asWritten, acts).Running?
    ensures var r := RunOf(asWritten, acts);
            && (forall a: nat, b: nat :: Owns(PcOf(r.state, a)) && Owns(PcOf(r.state, b)) ==> a == b)
            && ((exists a: nat :: Owns(PcOf(r.state, a))) <==> r.state.word != Null)
            && Granted(r.trace) <= Enqueued(r.trace)
            && (forall a: nat :: PcOf(r.state, a) == Waiting <==> a in Enqueued(r.trace)[|Granted(r.trace)|..])
  {
    RefinesFifo(asWritten, acts);
    var r, g := RunOf(asWritten, acts), ListsAfter(asWritten, acts);
    ResumedInOrder(r.trace);
    assert Enqueued(r.trace)[|Granted(r.trace)|..] == Abs(g).line;
    if r.state.word != Null {
      assert Owns(PcOf(r.state, g.owner.value));
    }
    forall a: nat
      ensures PcOf(r.state, a) == Waiting <==> a in Abs(g).line
    {
      LineMembers(g, a);
    }
  }

  lemma LineMembers(g: Lists, a: nat)
    ensures a in Abs(g).line <==> 0 < Places(g, a)
  {
    ReversedMembers(g.current);
    ReversedMembers(g.stack);
    assert multiset(Abs(g).line) ==
           multiset(g.queue) + multiset(g.current) + multiset(g.reversed) + multiset(g.stack);
    assert a in Abs(g).line <==> 0 < multiset(Abs(g).line)[a];
  }

  /** With the terminator recognised, no run follows a word that is not an address. */
  lemma {:induction false} NeverCrashes(acts: seq<Action>)
    ensures RunOf(false, acts) != Crashed
  {
    if acts != [] {
      var before := acts[..|acts| - 1];
      NeverCrashes(before);
      if RunOf(false, before).Running? {
        RefinesFifo(false, before);
        FaultsExactly(false, RunOf(false, before).state, ListsAfter(false, before), acts[|acts| - 1]);
      }
    }
  }

  predicate NobodyReverses(s: State) {
    forall a :: a in s.pc ==> !s.pc[a].Reversing?
  }

  predicate NoExchange(acts: seq<Action>) {
    forall i :: 0 <= i < |acts| ==> !acts[i].Exchange?
  }

  lemma NobodyStarts(s: State, act: Action)
    requires NobodyReverses(s) && !act.Exchange?
    ensures Apply(true, s, act) == Apply(false, s, act)
    ensures Apply(true, s, act).Next? ==> NobodyReverses(Apply(true, s, act).state)
  {
  }

  lemma NobodyYet()
    ensures NobodyReverses(INIT)
  {
  }

  /** As long as no release meets a waiter, the code as written is the intended one. */
  lemma {:induction false} AsWrittenUncontended(acts: seq<Action>)
    requires NoExchange(acts)
    ensures RunOf(true, acts) == RunOf(false, acts)
    ensures RunOf(true, acts).Running? ==> NobodyReverses(RunOf(true, acts).state)
  {
    hide Apply, NobodyReverses;
    if acts == [] {
      NobodyYet();
    } else {
      AsWrittenUncontended(acts[..|acts| - 1]);
      var r := RunOf(true, acts[..|acts| - 1]);
      if r.Running? {
        NobodyStarts(r.state, acts[|acts| - 1]);
      }
    }
  }

  /** Once a release has met a waiter, its reversal never ends and no waiter is ever resumed. */
  lemma {:induction false} AsWrittenContended(acts: seq<Action>)
    requires RunOf(true, acts).Running?
    ensures Granted(RunOf(true, acts).trace) == []
    ensures NoExchange(acts) <==> NobodyReverses(RunOf(true, acts).state)
  {
    hide Inv, Apply, NextLists, NobodyReverses, NoExchange, Abs, FifoAfter, ListsAfter;
    if acts == [] {
      EmptyRun();
    } else {
      var before, act := acts[..|acts| - 1], acts[|acts| - 1];
      AsWrittenContended(before);
      var r, g := RunOf(true, before), ListsAfter(true, before);
      RefinesFifo(true, before);
      ReversalGoesOn(r.state, g, act);
      var trace := RunOf(true, acts).trace;
      assert trace[..|trace| - 1] == r.trace;
      LastExchange(acts);
    }
  }

  lemma EmptyRun()
    ensures NobodyReverses(INIT) && NoExchange([])
  {
  }

  lemma LastExchange(acts: seq<Action>)
    requires acts != []
    ensures NoExchange(acts) <==> NoExchange(acts[..|acts| - 1]) && !acts[|acts| - 1].Exchange?
  {
    assert acts == acts[..|acts| - 1] + [acts[|acts| - 1]];
  }

  lemma OnlyOwnerReverses(s: State, g: Lists)
    requires OneOwner(s, g)
    ensures NobodyReverses(s) <==> !(g.owner.Some? && PcOf(s, g.owner.value).Reversing?)
  {
    if !NobodyReverses(s) {
      var a :| a in s.pc && s.pc[a].Reversing?;
      assert PcOf(s, a) == s.pc[a] && Owns(PcOf(s, a));
    }
  }

  lemma ReversalGoesOn(s: State, g: Lists, act: Action)
    requires Inv(true, s, g) && Apply(true, s, act).Next?
    ensures NobodyReverses(Apply(true, s, act).state) <==> NobodyReverses(s) && !act.Exchange?
    ensures !Apply(true, s, act).event.Grant?
  {
    hide Linked, Places, NobodyReverses, Abs, FifoStep, Placed, WordInv;
    StepKeepsInv(true, s, g, act);
    OnlyOwnerReverses(s, g);
    OnlyOwnerReverses(Apply(true, s, act).state, NextLists(true, s, g, act));
    assert OwnerInv(true, s, g);
    if act.Reverse? {
      ReversalStays(s, g, act.a);
    }
  }

  /** The reversal as written does not stop at the end of the stack. */
  lemma ReversalStays(s: State, g: Lists, a: nat)
    requires Inv(true, s, g) && Apply(true, s, Reverse(a)).Next?
    ensures PcOf(s, a).Reversing? && PcOf(Apply(true, s, Reverse(a)).state, a).Reversing? && g.owner == Some(a)
  {
    hide Linked, Places, Placed, WordInv;
    assert g.owner == Some(a) && OwnerInv(true, s, g);
    LinkedHead(s.next, g.current, PcOf(s, a).current, Mark);
    LinkedTail(s.next, g.current, PcOf(s, a).current, Mark);
    LinkedHead(s.next, g.current[1..], s.next[g.current[0]], Mark);
  }

  function Again(act: Action, n: nat): seq<Action> {
    seq(n, _ => act)
  }

  lemma RunOneMore(asWritten: bool, acts: seq<Action>, act: Action)
    requires RunOf(asWritten, acts).Running?
    ensures RunOf(asWritten, acts + [act]) ==
            match Apply(asWritten, RunOf(asWritten, acts).state, act)
            case Next(s', e) => Running(s', RunOf(asWritten, acts).trace + [e])
            case Fault => Crashed
            case Disabled => Impossible
  {
    assert (acts + [act])[..|acts|] == acts;
  }

  /** A releaser that is in the middle of a reversal as written walks off the end of the stack. */
  lemma {:induction false} ReleaserWalksOff(acts: seq<Action>, a: nat)
    requires RunOf(true, acts).Running? && PcOf(RunOf(true, acts).state, a).Reversing?
    ensures exists n: nat :: RunOf(true, acts + Again(Reverse(a), n)) == Crashed
    decreases |ListsAfter(true, acts).current|
  {
    hide Inv, NextLists, Abs, FifoAfter;
    var s, g := RunOf(true, acts).state, ListsAfter(true, acts);
    RefinesFifo(true, acts);
    FaultsExactly(true, s, g, Reverse(a));
    RunOneMore(true, acts, Reverse(a));
    if g.current == [] {
      assert acts + Again(Reverse(a), 1) == acts + [Reverse(a)];
    } else {
      ReverseAdvances(s, g, a);
      NextListsAfter(true, acts, Reverse(a));
      ReleaserWalksOff(acts + [Reverse(a)], a);
      var n: nat :| RunOf(true, acts + [Reverse(a)] + Again(Reverse(a), n)) == Crashed;
      assert acts + [Reverse(a)] + Again(Reverse(a), n) == acts + Again(Reverse(a), n + 1);
    }
  }

  lemma NextListsAfter(asWritten: bool, acts: seq<Action>, act: Action)
    requires RunOf(asWritten, acts).Running?
    ensures ListsAfter(asWritten, acts + [act])
         == NextLists(asWritten, RunOf(asWritten, acts).state, ListsAfter(asWritten, acts), act)
  {
    assert (acts + [act])[..|acts|] == acts;
  }

  lemma ReverseAdvances(s: State, g: Lists, a: nat)
    requires Inv(true, s, g) && PcOf(s, a).Reversing? && g.current != []
    ensures Apply(true, s, Reverse(a)).Next? && PcOf(Apply(true, s, Reverse(a)).state, a).Reversing?
    ensures |NextLists(true, s, g, Reverse(a)).current| < |g.current|
  {
    hide Linked, Places;
    assert OwnerInv(true, s, g);
    LinkedTail(s.next, g.current, PcOf(s, a).current, Mark);
    LinkedHead(s.next, g.current[1..], s.next[g.current[0]], Mark);
  }

  const CONTENDED: seq<Action> := [Load(0), Cas(0, false), Load(1), Cas(1, false)]

  lemma ContendedState()
    ensures var r := RunOf(true, CONTENDED);
            r.Running? && r.state == State(Addr(1), Null, map[1 := Mark], map[0 := Owner, 1 := Waiting])
  {
    var r1 := [Load(0)];
    RunOneMore(true, [], Load(0));
    assert [] + [Load(0)] == r1;
    var r2 := r1 + [Cas(0, false)];
    RunOneMore(true, r1, Cas(0, false));
    var r3 := r2 + [Load(1)];
    RunOneMore(true, r2, Load(1));
    RunOneMore(true, r3, Cas(1, false));
    assert r3 + [Cas(1, false)] == CONTENDED;
  }

  /** The shortest such run: one owner, one waiter, one release. */
  lemma CrashExample()
    ensures RunOf(true, CONTENDED + [BeginRelease(0), TryFree(0), Exchange(0), Reverse(0), Reverse(0)]) == Crashed
  {
    hide RunOf;
    ContendedState();
    var r5 := CONTENDED + [BeginRelease(0)];
    RunOneMore(true, CONTENDED, BeginRelease(0));
    var r6 := r5 + [TryFree(0)];
    RunOneMore(true, r5, TryFree(0));
    var r7 := r6 + [Exchange(0)];
    RunOneMore(true, r6, Exchange(0));
    var r8 := r7 + [Reverse(0)];
    RunOneMore(true, r7, Reverse(0));
    RunOneMore(true, r8, Reverse(0));
    assert r8 + [Reverse(0)] == CONTENDED + [BeginRelease(0), TryFree(0), Exchange(0), Reverse(0), Reverse(0)];
  }
}
