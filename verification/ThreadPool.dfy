/** The thread pool as a transition system: any number of coroutines scheduling themselves, any
    number of threads shutting the pool down, `n` workers, one step per atomic operation. The queue
    is an atomic first-in first-out queue here; the blocking queue is the subject of its own module. */
module ThreadPool {

  const WORD := 0x1_0000_0000

  datatype Item = Sentinel | Awaiter(a: nat)

  /** `log` is everything ever pushed, of which the first `popped` items have been taken. A worker
      that took an awaiter is in `got` until it has resumed it, then in `leaving` until it has
      decremented the pool word. `batch` is where in the log the sentinels start. */
  datatype State = State(
    n: nat, word: nat, trying: map<nat, nat>, entered: set<nat>, log: seq<Item>, popped: nat,
    got: map<nat, nat>, leaving: set<nat>, exited: set<nat>, closing: bool, batch: Batch)

  datatype Batch = NoBatch | At(start: nat)

  function Init(n: nat): State {
    State(n, 0, map[], {}, [], 0, map[], {}, {}, false, NoBatch)
  }

  datatype Action =
    | Load(a: nat)
    | Try(a: nat, spurious: bool)
    | Push(a: nat)
    | Pop(w: nat)
    | Resume(w: nat)
    | Leave(w: nat)
    | Close
    | PushSentinels

  datatype Event = Internal | Rejected(a: nat) | Admitted(a: nat) | Resumed(a: nat)

  datatype Effect = Disabled | Next(state: State, event: Event)

  function Queue(s: State): seq<Item> {
    if s.popped <= |s.log| then s.log[s.popped..] else []
  }

  function Batched(n: nat): seq<Item> {
    seq(n, _ => Sentinel)
  }

  /** A worker that waits for the queue. */
  predicate Ready(s: State, w: nat) {
    w < s.n && w !in s.got && w !in s.leaving && w !in s.exited
  }

  /** A coroutine that is running, so that it can schedule itself. */
  predicate Active(s: State, a: nat) {
    a !in s.trying && a !in s.entered && a !in s.got.Values && Awaiter(a) !in Queue(s)
  }

  /** One more awaiter, and one less, in 32-bit arithmetic. */
  function Up(word: nat): nat {
    (word + 2) % WORD
  }

  function Down(word: nat): nat {
    (word + WORD - 2) % WORD
  }

  function Apply(s: State, act: Action): Effect {
    match act
    case Load(a) =>
      if !Active(s, a) then Disabled else Next(s.(trying := s.trying[a := s.word]), Internal)
    case Try(a, spurious) =>
      if a !in s.trying then Disabled
      else if s.trying[a] % 2 == 1 then Next(s.(trying := s.trying - {a}), Rejected(a))
      else if s.word == s.trying[a] && !spurious then
        Next(s.(trying := s.trying - {a}, word := Up(s.word), entered := s.entered + {a}), Admitted(a))
      else Next(s.(trying := s.trying[a := s.word]), Internal)
    case Push(a) =>
      if a !in s.entered then Disabled
      else Next(s.(entered := s.entered - {a}, log := s.log + [Awaiter(a)]), Internal)
    case Pop(w) =>
      if !Ready(s, w) || Queue(s) == [] then Disabled
      else
        (match Queue(s)[0]
         case Sentinel => Next(s.(popped := s.popped + 1, exited := s.exited + {w}), Internal)
         case Awaiter(a) => Next(s.(popped := s.popped + 1, got := s.got[w := a]), Internal))
    case Resume(w) =>
      if w !in s.got then Disabled
      else Next(s.(got := s.got - {w}, leaving := s.leaving + {w}), Resumed(s.got[w]))
    case Leave(w) =>
      if w !in s.leaving then Disabled
      else Next(s.(leaving := s.leaving - {w}, word := Down(s.word)), Internal)
    case Close =>
      if s.word % 2 == 1 then Next(s, Internal) else Next(s.(word := s.word + 1, closing := true), Internal)
    case PushSentinels =>
      if !s.closing then Disabled
      else Next(s.(log := s.log + Batched(s.n), closing := false, batch := At(|s.log|)), Internal)
  }

  // What the log holds.

  function Sentinels(items: seq<Item>): nat {
    if items == [] then 0
    else Sentinels(items[..|items| - 1]) + if items[|items| - 1] == Sentinel then 1 else 0
  }

  function Awaiters(items: seq<Item>): seq<nat> {
    if items == [] then []
    else
      var last := items[|items| - 1];
      Awaiters(items[..|items| - 1]) + if last.Awaiter? then [last.a] else []
  }

  lemma {:induction false} ItemsConcat(xs: seq<Item>, ys: seq<Item>)
    ensures Sentinels(xs + ys) == Sentinels(xs) + Sentinels(ys)
    ensures Awaiters(xs + ys) == Awaiters(xs) + Awaiters(ys)
  {
    if ys == [] {
      assert xs + ys == xs;
    } else {
      assert (xs + ys)[..|xs + ys| - 1] == xs + ys[..|ys| - 1];
      ItemsConcat(xs, ys[..|ys| - 1]);
    }
  }

  lemma {:induction false} ItemsBatched(n: nat)
    ensures Sentinels(Batched(n)) == n && Awaiters(Batched(n)) == []
  {
    if n != 0 {
      assert Batched(n)[..n - 1] == Batched(n - 1);
      ItemsBatched(n - 1);
    }
  }

  lemma {:induction false} ItemsMembers(items: seq<Item>)
    ensures |items| == Sentinels(items) + |Awaiters(items)|
    ensures forall a: nat :: Awaiter(a) in items <==> a in Awaiters(items)
  {
    if items != [] {
      ItemsMembers(items[..|items| - 1]);
      assert items == items[..|items| - 1] + [items[|items| - 1]];
    }
  }

  /** Admitted and not yet gone again. */
  function Outstanding(s: State): nat {
    |s.entered| + |Awaiters(Queue(s))| + |s.got| + |s.leaving|
  }

  /** Bit 0 is the closed flag, the other bits count modulo 2^31. */
  function WordFor(outstanding: nat, closed: bool): nat {
    (2 * outstanding + if closed then 1 else 0) % WORD
  }

  lemma WordArithmetic(outstanding: nat, closed: bool)
    ensures var w := WordFor(outstanding, closed);
            && w < WORD && (w % 2 == 1 <==> closed)
            && Up(w) == WordFor(outstanding + 1, closed)
            && (!closed ==> w + 1 == WordFor(outstanding, true))
  {
  }

  lemma WordDown(outstanding: nat, closed: bool)
    requires 0 < outstanding
    ensures Down(WordFor(outstanding, closed)) == WordFor(outstanding - 1, closed)
  {
  }

  lemma WordCounts(outstanding: nat, closed: bool)
    ensures WordFor(outstanding, closed) / 2 == outstanding <==> outstanding < WORD / 2
  {
  }

  predicate Closed(s: State) {
    s.closing || s.batch != NoBatch
  }

  ghost predicate WordInv(s: State) {
    s.word == WordFor(Outstanding(s), Closed(s))
  }

  /** Before the batch and after it there are no sentinels. */
  ghost predicate LogInv(n: nat, log: seq<Item>, closing: bool, batch: Batch) {
    && !(closing && batch.At?)
    && (match batch
        case NoBatch => Sentinels(log) == 0
        case At(k) =>
          && k + n <= |log| && log[k..k + n] == Batched(n)
          && Sentinels(log[..k]) == 0 && Sentinels(log[k + n..]) == 0)
  }

  ghost predicate WorkerInv(n: nat, got: map<nat, nat>, leaving: set<nat>, exited: set<nat>, taken: seq<Item>) {
    && got.Keys !! leaving && got.Keys !! exited && leaving !! exited
    && (forall w :: w in got || w in leaving || w in exited ==> w < n)
    && |exited| == Sentinels(taken)
  }

  ghost predicate EnterInv(trying: map<nat, nat>, entered: set<nat>) {
    trying.Keys !! entered
  }

  ghost predicate Inv(s: State) {
    && LogInv(s.n, s.log, s.closing, s.batch) && s.popped <= |s.log|
    && WorkerInv(s.n, s.got, s.leaving, s.exited, s.log[..s.popped])
    && EnterInv(s.trying, s.entered)
    && WordInv(s)
  }

  lemma InitInv(n: nat)
    ensures Inv(Init(n))
  {
    assert Queue(Init(n)) == [];
  }

  lemma PushedQueue(s: State, items: seq<Item>)
    requires s.popped <= |s.log|
    ensures Queue(s.(log := s.log + items)) == Queue(s) + items
    ensures |Awaiters(Queue(s.(log := s.log + items)))| == |Awaiters(Queue(s))| + |Awaiters(items)|
  {
    ItemsConcat(Queue(s), items);
    assert Queue(s.(log := s.log + items)) == Queue(s) + items;
  }

  lemma PoppedQueue(s: State)
    requires s.popped < |s.log|
    ensures Queue(s) == [s.log[s.popped]] + Queue(s.(popped := s.popped + 1))
    ensures Awaiters(Queue(s)) == Awaiters([s.log[s.popped]]) + Awaiters(Queue(s.(popped := s.popped + 1)))
    ensures Sentinels(s.log[..s.popped + 1]) == Sentinels(s.log[..s.popped]) + Sentinels([s.log[s.popped]])
    ensures Awaiters(s.log[..s.popped + 1]) == Awaiters(s.log[..s.popped]) + Awaiters([s.log[s.popped]])
  {
    assert Queue(s) == [s.log[s.popped]] + Queue(s.(popped := s.popped + 1));
    ItemsConcat([s.log[s.popped]], Queue(s.(popped := s.popped + 1)));
    assert s.log[..s.popped + 1] == s.log[..s.popped] + [s.log[s.popped]];
    ItemsConcat(s.log[..s.popped], [s.log[s.popped]]);
  }

  lemma StillApart(trying: map<nat, nat>, entered: set<nat>, a: nat, w: nat)
    requires EnterInv(trying, entered) && a in trying
    ensures EnterInv(trying - {a}, entered) && EnterInv(trying[a := w], entered)
    ensures EnterInv(trying - {a}, entered + {a}) && a !in entered
  {
    assert (trying - {a}).Keys == trying.Keys - {a};
    assert trying[a := w].Keys == trying.Keys;
  }

  lemma TryOk(s: State, act: Action)
    requires Inv(s) && act.Try? && Apply(s, act).Next?
    ensures Inv(Apply(s, act).state)
  {
    hide LogInv, WorkerInv, WordInv, EnterInv, Up;
    StillApart(s.trying, s.entered, act.a, s.word);
    var s' := Apply(s, act).state;
    if Apply(s, act).event.Admitted? {
      OneMore(s, s', act.a);
    } else {
      NoneMore(s, s');
    }
  }

  lemma NoneMore(s: State, s': State)
    requires WordInv(s) && s' == s.(trying := s'.trying)
    ensures WordInv(s')
  {
    SameQueue(s, s');
  }

  lemma OneMore(s: State, s': State, a: nat)
    requires WordInv(s) && a !in s.entered && s'.word == Up(s.word)
    requires s' == s.(word := s'.word, trying := s'.trying, entered := s.entered + {a})
    ensures WordInv(s')
  {
    hide WordFor, Queue, Awaiters, Up;
    SameQueue(s, s');
    SizeMore(s.entered, a);
    WordArithmetic(Outstanding(s), Closed(s));
  }

  lemma SizeMore(xs: set<nat>, a: nat)
    requires a !in xs
    ensures |xs + {a}| == |xs| + 1
  {
  }

  lemma SameQueue(s: State, s': State)
    requires s.log == s'.log && s.popped == s'.popped
    ensures Queue(s) == Queue(s')
  {
  }

  lemma PushOk(s: State, act: Action)
    requires Inv(s) && act.Push? && Apply(s, act).Next?
    ensures Inv(Apply(s, act).state)
  {
    hide Sentinels, Awaiters, Queue, LogInv, WordFor;
    var s' := Apply(s, act).state;
    var item := [Awaiter(act.a)];
    OneItem(Awaiter(act.a));
    PushedQueue(s, item);
    SameQueue(s', s.(log := s.log + item));
    PushLog(s.n, s.log, s.closing, s.batch, act.a);
    assert s'.log[..s'.popped] == s.log[..s.popped];
    assert Outstanding(s') == Outstanding(s);
  }

  lemma PushLog(n: nat, log: seq<Item>, closing: bool, batch: Batch, a: nat)
    requires LogInv(n, log, closing, batch)
    ensures LogInv(n, log + [Awaiter(a)], closing, batch)
  {
    hide Sentinels, Awaiters, Batched;
    var item := [Awaiter(a)];
    OneItem(Awaiter(a));
    match batch
    case NoBatch =>
      ItemsConcat(log, item);
    case At(k) =>
      assert (log + item)[..k] == log[..k] && (log + item)[k..k + n] == log[k..k + n];
      assert (log + item)[k + n..] == log[k + n..] + item;
      ItemsConcat(log[k + n..], item);
  }

  lemma OneItem(item: Item)
    ensures Sentinels([item]) == if item == Sentinel then 1 else 0
    ensures Awaiters([item]) == if item.Awaiter? then [item.a] else []
  {
    assert [item][..0] == [];
  }

  lemma PopOk(s: State, act: Action)
    requires Inv(s) && act.Pop? && Apply(s, act).Next?
    ensures Inv(Apply(s, act).state)
  {
    hide Sentinels, Awaiters, LogInv, Queue, WordInv, EnterInv;
    var s' := Apply(s, act).state;
    QueueFront(s);
    PoppedQueue(s);
    OneItem(s.log[s.popped]);
    PopWord(s, s', act.w);
  }

  lemma PopWord(s: State, s': State, w: nat)
    requires s.popped < |s.log| && WordInv(s) && w !in s.got
    requires s' == s.(popped := s.popped + 1, got := s'.got, exited := s'.exited)
    requires s'.got == match s.log[s.popped] case Sentinel => s.got case Awaiter(a) => s.got[w := a]
    ensures WordInv(s')
  {
    hide Sentinels, Awaiters, Queue, WordFor;
    PoppedQueue(s);
    OneItem(s.log[s.popped]);
    SameQueue(s', s.(popped := s.popped + 1));
    match s.log[s.popped]
    case Sentinel =>
    case Awaiter(a) => GotMore(s.got, w, a);
  }

  lemma GotMore(got: map<nat, nat>, w: nat, a: nat)
    requires w !in got
    ensures |got[w := a]| == |got| + 1 && got[w := a].Keys == got.Keys + {w}
  {
    assert got[w := a].Keys == got.Keys + {w};
  }

  lemma GotLess(got: map<nat, nat>, w: nat)
    requires w in got
    ensures |got - {w}| == |got| - 1 && (got - {w}).Keys == got.Keys - {w}
  {
    assert (got - {w}).Keys == got.Keys - {w};
  }

  lemma QueueFront(s: State)
    requires Queue(s) != []
    ensures s.popped < |s.log| && Queue(s)[0] == s.log[s.popped]
  {
  }

  lemma ResumeOk(s: State, act: Action)
    requires Inv(s) && act.Resume? && Apply(s, act).Next?
    ensures Inv(Apply(s, act).state)
  {
    hide LogInv, EnterInv, WordInv, Sentinels, Awaiters;
    GotLess(s.got, act.w);
    ResumeWord(s, act.w);
  }

  lemma ResumeWord(s: State, w: nat)
    requires WordInv(s) && w in s.got && w !in s.leaving
    ensures WordInv(s.(got := s.got - {w}, leaving := s.leaving + {w}))
  {
    hide WordFor, Queue, Awaiters;
    SameQueue(s, s.(got := s.got - {w}, leaving := s.leaving + {w}));
    GotLess(s.got, w);
    SizeMore(s.leaving, w);
  }

  lemma LeaveOk(s: State, act: Action)
    requires Inv(s) && act.Leave? && Apply(s, act).Next?
    ensures Inv(Apply(s, act).state)
  {
    hide LogInv, EnterInv, WordFor, Queue, Down, Sentinels, Awaiters;
    var s' := Apply(s, act).state;
    SameQueue(s, s');
    WordDown(Outstanding(s), Closed(s));
    assert Outstanding(s') == Outstanding(s) - 1;
  }

  lemma CloseOk(s: State, act: Action)
    requires Inv(s) && (act.Load? || act.Close? || act.PushSentinels?) && Apply(s, act).Next?
    ensures Inv(Apply(s, act).state)
  {
    hide Sentinels, Awaiters, Batched, WordFor;
    var s' := Apply(s, act).state;
    WordArithmetic(Outstanding(s), Closed(s));
    if act.PushSentinels? {
      ItemsBatched(s.n);
      PushedQueue(s, Batched(s.n));
      assert Queue(s') == Queue(s.(log := s.log + Batched(s.n)));
      assert s'.log[..s'.popped] == s.log[..s.popped];
      BatchLength(s.n);
      assert s'.log[..|s.log|] == s.log && s'.log[|s.log|..] == Batched(s.n);
      assert s'.log[|s.log| + s.n..] == [];
      NoItems();
    } else {
      assert Queue(s') == Queue(s);
    }
    assert Outstanding(s') == Outstanding(s);
  }

  lemma BatchLength(n: nat)
    ensures |Batched(n)| == n
  {
  }

  lemma NoItems()
    ensures Sentinels([]) == 0 && Awaiters([]) == []
  {
  }

  lemma StepKeepsInv(s: State, act: Action)
    requires Inv(s) && Apply(s, act).Next?
    ensures Inv(Apply(s, act).state)
  {
    hide Inv, Apply;
    match act
    case Try(_, _) => TryOk(s, act);
    case Push(_) => PushOk(s, act);
    case Pop(_) => PopOk(s, act);
    case Resume(_) => ResumeOk(s, act);
    case Leave(_) => LeaveOk(s, act);
    case _ => CloseOk(s, act);
  }

  // Whole runs.

  datatype Run = Running(state: State, trace: seq<Event>) | Impossible

  function RunOf(n: nat, acts: seq<Action>): Run {
    if acts == [] then Running(Init(n), [])
    else
      match RunOf(n, acts[..|acts| - 1])
      case Running(s, trace) =>
        (match Apply(s, acts[|acts| - 1])
         case Next(s', e) => Running(s', trace + [e])
         case Disabled => Impossible)
      case Impossible => Impossible
  }

  lemma {:induction false} RunsKeepInv(n: nat, acts: seq<Action>)
    requires RunOf(n, acts).Running?
    ensures Inv(RunOf(n, acts).state) && RunOf(n, acts).state.n == n
  {
    hide Inv;
    if acts == [] {
      InitInv(n);
    } else {
      RunsKeepInv(n, acts[..|acts| - 1]);
      StepKeepsInv(RunOf(n, acts[..|acts| - 1]).state, acts[|acts| - 1]);
    }
  }

  /** Bit 0 of the pool word says that the pool is closed; the other bits count what is outstanding,
      exactly as long as that is below 2^31. A worker never decrements a count of zero. */
  lemma PoolWord(n: nat, acts: seq<Action>)
    requires RunOf(n, acts).Running?
    ensures var s := RunOf(n, acts).state;
            && (s.word % 2 == 1 <==> Closed(s))
            && (s.word / 2 == Outstanding(s) <==> Outstanding(s) < 0x8000_0000)
            && (Outstanding(s) < 0x8000_0000 && s.leaving != {} ==> 2 <= s.word)
  {
    hide WordFor;
    RunsKeepInv(n, acts);
    var s := RunOf(n, acts).state;
    WordArithmetic(Outstanding(s), Closed(s));
    WordCounts(Outstanding(s), Closed(s));
  }

  /** Once bit 0 of the pool word is set it stays set, and nobody is admitted any more. */
  lemma StaysClosed(s: State, act: Action)
    requires Inv(s) && s.word % 2 == 1 && Apply(s, act).Next?
    ensures Apply(s, act).state.word % 2 == 1
    ensures !Apply(s, act).event.Admitted?
  {
    hide WordFor, Outstanding, LogInv, WorkerInv, EnterInv, Queue, Up, Down;
    var s' := Apply(s, act).state;
    StepKeepsInv(s, act);
    WordArithmetic(Outstanding(s), Closed(s));
    WordArithmetic(Outstanding(s'), Closed(s'));
  }

  // Who has been resumed.

  function AdmittedIn(trace: seq<Event>): seq<nat> {
    if trace == [] then []
    else
      var e := trace[|trace| - 1];
      AdmittedIn(trace[..|trace| - 1]) + if e.Admitted? then [e.a] else []
  }

  function ResumedIn(trace: seq<Event>): seq<nat> {
    if trace == [] then []
    else
      var e := trace[|trace| - 1];
      ResumedIn(trace[..|trace| - 1]) + if e.Resumed? then [e.a] else []
  }

  /** The awaiters in the hands of the first `k` workers. */
  ghost function Held(got: map<nat, nat>, k: nat): multiset<nat> {
    if k == 0 then multiset{}
    else Held(got, k - 1) + Hand(got, k - 1)
  }

  ghost function Hand(got: map<nat, nat>, w: nat): multiset<nat> {
    if w in got then multiset{got[w]} else multiset{}
  }

  lemma {:induction false} HeldElsewhere(got: map<nat, nat>, k: nat, w: nat, a: nat)
    requires k <= w
    ensures Held(got[w := a], k) == Held(got, k) == Held(got - {w}, k)
  {
    if k != 0 {
      HeldElsewhere(got, k - 1, w, a);
      assert Hand(got[w := a], k - 1) == Hand(got, k - 1) == Hand(got - {w}, k - 1);
    }
  }

  lemma {:induction false} HeldMore(got: map<nat, nat>, k: nat, w: nat, a: nat)
    requires w < k && w !in got
    ensures Held(got[w := a], k) == Held(got, k) + multiset{a}
  {
    if k - 1 == w {
      HeldElsewhere(got, k - 1, w, a);
    } else {
      HeldMore(got, k - 1, w, a);
      assert Hand(got[w := a], k - 1) == Hand(got, k - 1);
      Swap(Held(got, k - 1), multiset{a}, Hand(got, k - 1));
    }
  }

  lemma Swap(a: multiset<nat>, b: multiset<nat>, c: multiset<nat>)
    ensures (a + b) + c == (a + c) + b
  {
  }

  lemma HeldLess(got: map<nat, nat>, k: nat, w: nat)
    requires w < k && w in got
    ensures Held(got - {w}, k) + multiset{got[w]} == Held(got, k)
  {
    HeldMore(got - {w}, k, w, got[w]);
    assert (got - {w})[w := got[w]] == got;
  }

  /** Every admitted coroutine is resumed, in a worker's hands, queued, or about to be queued; and
      what has been taken off the queue is resumed or in a worker's hands. */
  ghost predicate Accounted(s: State, trace: seq<Event>) {
    && s.popped <= |s.log|
    && Sum2(multiset(Awaiters(s.log[..s.popped])), multiset(ResumedIn(trace)), Held(s.got, s.n))
    && Sum4(multiset(AdmittedIn(trace)),
            multiset(ResumedIn(trace)), Held(s.got, s.n), multiset(Awaiters(Queue(s))), multiset(s.entered))
  }

  ghost predicate Sum2(all: multiset<nat>, a: multiset<nat>, b: multiset<nat>) {
    all == a + b
  }

  ghost predicate Sum4(all: multiset<nat>, a: multiset<nat>, b: multiset<nat>, c: multiset<nat>, d: multiset<nat>) {
    all == a + b + c + d
  }

  lemma Moves(all: multiset<nat>, a: multiset<nat>, b: multiset<nat>, c: multiset<nat>, d: multiset<nat>, x: multiset<nat>)
    ensures Sum4(all, a, b, c, d) ==> Sum4(all + x, a, b, c, d + x)
    ensures Sum4(all, a, b, c, d + x) ==> Sum4(all, a, b, c + x, d)
    ensures Sum4(all, a, b, c + x, d) ==> Sum4(all, a, b + x, c, d)
    ensures Sum4(all, a, b + x, c, d) ==> Sum4(all, a + x, b, c, d)
    ensures Sum2(all, a, b) ==> Sum2(all + x, a, b + x)
    ensures Sum2(all, a, b + x) ==> Sum2(all, a + x, b)
  {
  }

  lemma LastEvent(trace: seq<Event>, e: Event)
    ensures AdmittedIn(trace + [e]) == if e.Admitted? then AdmittedIn(trace) + [e.a] else AdmittedIn(trace)
    ensures ResumedIn(trace + [e]) == if e.Resumed? then ResumedIn(trace) + [e.a] else ResumedIn(trace)
  {
    assert (trace + [e])[..|trace|] == trace;
  }

  lemma Nothing(xs: seq<nat>)
    ensures xs + [] == xs && [] + xs == xs
  {
  }

  lemma AccountedStep(s: State, trace: seq<Event>, act: Action)
    requires Inv(s) && Accounted(s, trace) && Apply(s, act).Next?
    ensures Accounted(Apply(s, act).state, trace + [Apply(s, act).event])
  {
    hide Inv, Accounted;
    match act
    case Load(_) => AccountedOther(s, trace, act);
    case Try(a, _) => AccountedTry(s, trace, act);
    case Push(a) => AccountedPush(s, trace, a);
    case Pop(w) => AccountedPop(s, trace, w);
    case Resume(w) => AccountedResume(s, trace, w);
    case Leave(_) => AccountedOther(s, trace, act);
    case Close => AccountedOther(s, trace, act);
    case PushSentinels => AccountedBatch(s, trace);
  }

  /** Nothing that is accounted for changes. */
  lemma AccountedSame(s: State, s': State, trace: seq<Event>, e: Event)
    requires Accounted(s, trace) && !e.Admitted? && !e.Resumed?
    requires s'.n == s.n && s'.log == s.log && s'.popped == s.popped && s'.got == s.got && s'.entered == s.entered
    ensures Accounted(s', trace + [e])
  {
    hide Awaiters, Queue, Held, Sum2, Sum4;
    LastEvent(trace, e);
    SameQueue(s', s);
  }

  lemma AccountedOther(s: State, trace: seq<Event>, act: Action)
    requires Accounted(s, trace) && (act.Load? || act.Leave? || act.Close?) && Apply(s, act).Next?
    ensures Accounted(Apply(s, act).state, trace + [Apply(s, act).event])
  {
    hide Accounted, Down;
    AccountedSame(s, Apply(s, act).state, trace, Apply(s, act).event);
  }

  lemma AccountedTry(s: State, trace: seq<Event>, act: Action)
    requires Inv(s) && Accounted(s, trace) && act.Try? && Apply(s, act).Next?
    ensures Accounted(Apply(s, act).state, trace + [Apply(s, act).event])
  {
    hide Accounted, WordInv, LogInv, WorkerInv, Up;
    if Apply(s, act).event.Admitted? {
      AccountedEntry(s, Apply(s, act).state, trace, act.a);
    } else {
      AccountedSame(s, Apply(s, act).state, trace, Apply(s, act).event);
    }
  }

  lemma AccountedEntry(s: State, s': State, trace: seq<Event>, a: nat)
    requires Accounted(s, trace) && a !in s.entered
    requires s' == s.(word := s'.word, trying := s'.trying, entered := s.entered + {a})
    ensures Accounted(s', trace + [Admitted(a)])
  {
    hide Awaiters, Queue, Held, Sum2, Sum4;
    LastEvent(trace, Admitted(a));
    SameQueue(s', s);
    Moves(multiset(AdmittedIn(trace)), multiset(ResumedIn(trace)), Held(s.got, s.n),
          multiset(Awaiters(Queue(s))), multiset(s.entered), multiset{a});
    assert multiset(s.entered + {a}) == multiset(s.entered) + multiset{a};
  }

  lemma AccountedBatch(s: State, trace: seq<Event>)
    requires Accounted(s, trace) && s.closing
    ensures Accounted(Apply(s, PushSentinels).state, trace + [Internal])
  {
    hide Awaiters, Sentinels, Queue, Held, Sum2, Sum4, Batched;
    var s' := Apply(s, PushSentinels).state;
    LastEvent(trace, Internal);
    PushedQueue(s, Batched(s.n));
    ItemsBatched(s.n);
    ItemsConcat(Queue(s), Batched(s.n));
    SameQueue(s', s.(log := s.log + Batched(s.n)));
    assert s'.log[..s.popped] == s.log[..s.popped];
    Nothing(Awaiters(Queue(s)));
  }

  lemma AccountedPush(s: State, trace: seq<Event>, a: nat)
    requires Accounted(s, trace) && a in s.entered
    ensures Accounted(Apply(s, Push(a)).state, trace + [Internal])
  {
    hide Sentinels, Awaiters, Queue, Held, Sum2, Sum4;
    LastEvent(trace, Internal);
    var item := [Awaiter(a)];
    var s' := Apply(s, Push(a)).state;
    PushedQueue(s, item);
    ItemsConcat(Queue(s), item);
    OneItem(Awaiter(a));
    SameQueue(s', s.(log := s.log + item));
    assert s'.log[..s.popped] == s.log[..s.popped];
    assert multiset(s.entered) == multiset(s.entered - {a}) + multiset{a};
    Moves(multiset(AdmittedIn(trace)), multiset(ResumedIn(trace)), Held(s.got, s.n),
          multiset(Awaiters(Queue(s))), multiset(s.entered - {a}), multiset{a});
  }

  lemma AccountedPop(s: State, trace: seq<Event>, w: nat)
    requires Accounted(s, trace) && Apply(s, Pop(w)).Next?
    ensures Accounted(Apply(s, Pop(w)).state, trace + [Internal])
  {
    hide Sentinels, Awaiters, Queue, Held, Sum2, Sum4, Accounted;
    QueueFront(s);
    match s.log[s.popped]
    case Sentinel => PopsSentinel(s, trace, w);
    case Awaiter(a) => PopsAwaiter(s, trace, w, a);
  }

  lemma PopsSentinel(s: State, trace: seq<Event>, w: nat)
    requires Accounted(s, trace) && s.popped < |s.log| && s.log[s.popped] == Sentinel
    ensures Accounted(s.(popped := s.popped + 1, exited := s.exited + {w}), trace + [Internal])
  {
    hide Sentinels, Awaiters, Queue, Held, Sum2, Sum4;
    LastEvent(trace, Internal);
    PoppedQueue(s);
    OneItem(Sentinel);
    SameQueue(s.(popped := s.popped + 1, exited := s.exited + {w}), s.(popped := s.popped + 1));
    Nothing(Awaiters(Queue(s.(popped := s.popped + 1))));
    Nothing(Awaiters(s.log[..s.popped]));
  }

  lemma PopsAwaiter(s: State, trace: seq<Event>, w: nat, a: nat)
    requires Accounted(s, trace) && s.popped < |s.log| && s.log[s.popped] == Awaiter(a)
    requires w < s.n && w !in s.got
    ensures Accounted(s.(popped := s.popped + 1, got := s.got[w := a]), trace + [Internal])
  {
    hide Sentinels, Awaiters, Queue, Held, Sum2, Sum4;
    LastEvent(trace, Internal);
    PoppedQueue(s);
    OneItem(Awaiter(a));
    var s' := s.(popped := s.popped + 1, got := s.got[w := a]);
    SameQueue(s', s.(popped := s.popped + 1));
    HeldMore(s.got, s.n, w, a);
    assert multiset(Awaiters(Queue(s))) == multiset(Awaiters(Queue(s'))) + multiset{a};
    Moves(multiset(AdmittedIn(trace)), multiset(ResumedIn(trace)), Held(s.got, s.n),
          multiset(Awaiters(Queue(s'))), multiset(s.entered), multiset{a});
    Moves(multiset(Awaiters(s.log[..s.popped])), multiset(ResumedIn(trace)), Held(s.got, s.n),
          multiset{}, multiset{}, multiset{a});
  }

  lemma AccountedResume(s: State, trace: seq<Event>, w: nat)
    requires Inv(s) && Accounted(s, trace) && w in s.got
    ensures Accounted(Apply(s, Resume(w)).state, trace + [Resumed(s.got[w])])
  {
    hide Awaiters, Queue, Held, WordInv, LogInv, EnterInv, Sum2, Sum4;
    var a := s.got[w];
    LastEvent(trace, Resumed(a));
    HeldLess(s.got, s.n, w);
    SameQueue(Apply(s, Resume(w)).state, s);
    Moves(multiset(AdmittedIn(trace)), multiset(ResumedIn(trace)), Held(s.got - {w}, s.n),
          multiset(Awaiters(Queue(s))), multiset(s.entered), multiset{a});
    Moves(multiset(Awaiters(s.log[..s.popped])), multiset(ResumedIn(trace)), Held(s.got - {w}, s.n),
          multiset{}, multiset{}, multiset{a});
  }

  lemma {:induction false} RunsAccounted(n: nat, acts: seq<Action>)
    requires RunOf(n, acts).Running?
    ensures Accounted(RunOf(n, acts).state, RunOf(n, acts).trace)
  {
    hide Inv, Apply, Accounted;
    if acts == [] {
      InitAccounted(n);
    } else {
      var before := acts[..|acts| - 1];
      RunsAccounted(n, before);
      RunsKeepInv(n, before);
      AccountedStep(RunOf(n, before).state, RunOf(n, before).trace, acts[|acts| - 1]);
    }
  }

  lemma InitAccounted(n: nat)
    ensures Accounted(Init(n), [])
  {
    HeldNothing(n);
  }

  lemma {:induction false} HeldNothing(k: nat)
    ensures Held(map[], k) == multiset{}
  {
    if k != 0 {
      HeldNothing(k - 1);
    }
  }
}
