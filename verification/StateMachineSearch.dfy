/** Interleaved binary search with hand-written frames, cycled through from the last to the first. */
module StateMachineSearch {
  import opened BinarySearch
  import opened Words

  datatype State = KeepGoing | Found | NotFound | Empty

  /** The search a frame is in the middle of, if any. */
  datatype Job = Free | Running(first: nat, len: nat, val: int)

  predicate Succeeds(data: seq<int>, job: Job) {
    job.Running? && job.first + job.len <= |data| && Search(data, job.first, job.len, job.val)
  }

  class Frame {
    var first: nat
    var last: nat
    var middle: nat
    var len: nat
    var half: nat
    var val: int
    var state: State

    ghost predicate Valid(data: seq<int>)
      reads this
    {
      state == KeepGoing ==> 0 < len && first + len <= |data| && half == len / 2 && middle == first + half
    }

    ghost function Current(): Job
      reads this
    {
      if state == KeepGoing then Running(first, len, val) else Free
    }

    constructor ()
      ensures state == Empty
    {
      state := Empty;
    }

    method Init(data: seq<int>, from: nat, to: nat, key: int)
      requires from <= to <= |data|
      modifies this
      ensures Valid(data)
      ensures Current() == if from == to then Free else Running(from, to - from, key)
      ensures from == to ==> state == NotFound
    {
      val := key;
      first := from;
      last := to;
      len := to - from;
      if len == 0 {
        state := NotFound;
        return;
      }
      half := len / 2;
      middle := first + half;
      state := KeepGoing;
    }

    /** One probe. The search that is left has the answer of the search before, and the other probes. */
    method Run(data: seq<int>) returns (done: bool)
      requires Valid(data) && state == KeepGoing
      modifies this
      ensures Valid(data)
      ensures done <==> Current() == Free
      ensures done ==> (state == Found <==> old(Search(data, first, len, val)))
      ensures !done ==> Search(data, first, len, val) == old(Search(data, first, len, val))
      ensures !done ==> val == old(val)
      ensures old(Probes(data, first, len, val)) == 1 + if done then 0 else Probes(data, first, len, val)
    {
      var x := data[middle];
      if x < val {
        first := middle;
        first := first + 1;
        len := len - half - 1;
      } else {
        len := half;
      }
      if x == val {
        state := Found;
        return true;
      }
      if 0 < len {
        half := len / 2;
        middle := first + half;
        return false;
      }
      state := NotFound;
      return true;
    }
  }

  method BinarySearchByFrame(data: seq<int>, from: nat, to: nat, key: int) returns (found: bool, ghost probes: nat)
    requires from <= to <= |data|
    ensures found == Search(data, from, to - from, key)
    ensures probes == Probes(data, from, to - from, key)
  {
    var f := new Frame();
    f.Init(data, from, to, key);
    probes := 0;
    while f.state == KeepGoing
      invariant f.Valid(data) && fresh(f)
      invariant Search(data, from, to - from, key) ==
                if f.state == KeepGoing then Search(data, f.first, f.len, f.val) else f.state == Found
      invariant Probes(data, from, to - from, key) ==
                probes + if f.state == KeepGoing then Probes(data, f.first, f.len, f.val) else 0
      decreases Probes(data, from, to - from, key) - probes
    {
      var _ := f.Run(data);
      probes := probes + 1;
    }
    found := f.state == Found;
  }

  // What a row of frames still has to deliver.

  function HitOf(data: seq<int>, job: Job): nat {
    if Succeeds(data, job) then 1 else 0
  }

  ghost function KeyOf(job: Job): multiset<int> {
    if job.Running? then multiset{job.val} else multiset{}
  }

  function ProbesOf(data: seq<int>, job: Job): nat {
    if job.Running? && job.first + job.len <= |data| then Probes(data, job.first, job.len, job.val) else 0
  }

  function Owed(data: seq<int>, jobs: seq<Job>): nat {
    if jobs == [] then 0 else HitOf(data, jobs[0]) + Owed(data, jobs[1..])
  }

  ghost function Keys(jobs: seq<Job>): multiset<int> {
    if jobs == [] then multiset{} else KeyOf(jobs[0]) + Keys(jobs[1..])
  }

  function Left(data: seq<int>, jobs: seq<Job>): nat {
    if jobs == [] then 0 else ProbesOf(data, jobs[0]) + Left(data, jobs[1..])
  }

  lemma {:induction false} Replace(data: seq<int>, jobs: seq<Job>, i: nat, job: Job)
    requires i < |jobs|
    ensures Owed(data, jobs[i := job]) + HitOf(data, jobs[i]) == Owed(data, jobs) + HitOf(data, job)
    ensures Left(data, jobs[i := job]) + ProbesOf(data, jobs[i]) == Left(data, jobs) + ProbesOf(data, job)
  {
    if i == 0 {
      assert jobs[i := job][1..] == jobs[1..];
    } else {
      assert jobs[i := job][1..] == jobs[1..][i - 1 := job];
      Replace(data, jobs[1..], i - 1, job);
    }
  }

  lemma {:induction false} ReplaceKeys(jobs: seq<Job>, i: nat, job: Job)
    requires i < |jobs|
    ensures Keys(jobs[i := job]) + KeyOf(jobs[i]) == Keys(jobs) + KeyOf(job)
  {
    var tail := jobs[1..];
    if i == 0 {
      assert jobs[i := job][1..] == tail;
    } else {
      ReplaceKeys(tail, i - 1, job);
      assert jobs[i := job][1..] == tail[i - 1 := job];
      assert jobs[i] == tail[i - 1];
      AddFront(KeyOf(jobs[0]), Keys(tail[i - 1 := job]), KeyOf(jobs[i]), Keys(tail), KeyOf(job));
    }
  }

  lemma AddFront(a: multiset<int>, b: multiset<int>, c: multiset<int>, d: multiset<int>, e: multiset<int>)
    requires b + c == d + e
    ensures (a + b) + c == (a + d) + e
  {
    assert (a + b) + c == a + (b + c);
  }

  lemma Cancel(a: multiset<int>, b: multiset<int>, c: multiset<int>)
    requires a + c == b + c
    ensures a == b
  {
    assert a == (a + c) - c;
  }

  lemma {:induction false} AllFree(data: seq<int>, jobs: seq<Job>)
    requires forall i :: 0 <= i < |jobs| ==> jobs[i] == Free
    ensures Owed(data, jobs) == 0 && Keys(jobs) == multiset{} && Left(data, jobs) == 0
  {
    if jobs != [] {
      AllFree(data, jobs[1..]);
    }
  }

  ghost predicate Mirrors(data: seq<int>, frames: seq<Frame>, jobs: seq<Job>)
    reads frames
  {
    && |frames| == |jobs|
    && (forall i, j :: 0 <= i < j < |frames| ==> frames[i] != frames[j])
    && (forall i :: 0 <= i < |frames| ==> frames[i].Valid(data) && frames[i].Current() == jobs[i])
  }

  /** The keys whose search is completed, and the number of probes made for all keys so far. */
  datatype Books = Books(completed: multiset<int>, probes: nat)

  /** Hits already counted and hits still owed are the hits of the lookups started so far, every one
      of those is either completed or in progress, and so are the probes that they take. */
  ghost predicate Balanced(data: seq<int>, started: seq<int>, jobs: seq<Job>, result: nat, books: Books) {
    && result + Owed(data, jobs) == Hits(data, started)
    && books.completed + Keys(jobs) == multiset(started)
    && books.probes + Left(data, jobs) == AllProbes(data, started)
  }

  /** One more key is completed, or one more probe has been made. */
  ghost function Complete(books: Books, key: int): Books {
    books.(completed := books.completed + multiset{key})
  }

  ghost function Probe(books: Books): Books {
    books.(probes := books.probes + 1)
  }

  lemma BalancedStart(
    data: seq<int>, started: seq<int>, jobs: seq<Job>, result: nat, books: Books, i: nat, key: int)
    requires i < |jobs| && jobs[i] == Free && Balanced(data, started, jobs, result, books)
    ensures data == [] ==> Balanced(data, started + [key], jobs, result, Complete(books, key))
    ensures Balanced(data, started + [key], jobs[i := Running(0, |data|, key)], result, books)
  {
    hide Keys, Owed, Left;
    var job := Running(0, |data|, key);
    Replace(data, jobs, i, job);
    ReplaceKeys(jobs, i, job);
    assert (started + [key])[..|started + [key]| - 1] == started;
    NewKey(books.completed, Keys(jobs), Keys(jobs[i := job]), started, key);
  }

  lemma NewKey(completed: multiset<int>, keys: multiset<int>, keys': multiset<int>, started: seq<int>, key: int)
    requires completed + keys == multiset(started) && keys' + multiset{} == keys + multiset{key}
    ensures completed + keys' == multiset(started + [key])
    ensures (completed + multiset{key}) + keys == multiset(started + [key])
  {
    assert keys' == keys + multiset{key};
    assert completed + keys' == (completed + keys) + multiset{key};
    assert (completed + multiset{key}) + keys == (completed + keys) + multiset{key};
    assert multiset(started + [key]) == multiset(started) + multiset{key};
  }

  lemma BalancedNothing(data: seq<int>, jobs: seq<Job>)
    requires forall i :: 0 <= i < |jobs| ==> jobs[i] == Free
    ensures Balanced(data, [], jobs, 0, Books(multiset{}, 0))
  {
    AllFree(data, jobs);
  }

  lemma BalancedRun(
    data: seq<int>, started: seq<int>, jobs: seq<Job>, result: nat, books: Books, i: nat, job: Job)
    requires i < |jobs| && jobs[i].Running? && Balanced(data, started, jobs, result, books)
    requires ProbesOf(data, jobs[i]) == 1 + ProbesOf(data, job)
    ensures job == Free ==>
              Balanced(data, started, jobs[i := job], result + HitOf(data, jobs[i]), Complete(Probe(books), jobs[i].val))
    ensures job.Running? && job.val == jobs[i].val && HitOf(data, job) == HitOf(data, jobs[i]) ==>
              Balanced(data, started, jobs[i := job], result, Probe(books))
    ensures Left(data, jobs[i := job]) < Left(data, jobs)
  {
    hide Keys, Owed, Left, Probes, Search;
    Replace(data, jobs, i, job);
    ReplaceKeys(jobs, i, job);
    if job == Free {
      var rest := Keys(jobs[i := job]);
      assert (books.completed + KeyOf(jobs[i])) + rest == books.completed + (rest + KeyOf(jobs[i]));
    } else if job.val == jobs[i].val {
      Cancel(Keys(jobs[i := job]), Keys(jobs), KeyOf(job));
    }
  }

  /** One probe of frame `i`, with the books brought up to date. */
  method RunFrame(
    data: seq<int>, ghost started: seq<int>, frames: seq<Frame>, ghost jobs: seq<Job>,
    i: nat, result: nat, ghost books: Books)
    returns (done: bool, result': nat, ghost jobs': seq<Job>, ghost books': Books)
    requires Mirrors(data, frames, jobs) && Balanced(data, started, jobs, result, books)
    requires i < |frames| && jobs[i].Running?
    modifies frames[i]
    ensures Mirrors(data, frames, jobs') && Balanced(data, started, jobs', result', books')
    ensures jobs' == jobs[i := jobs'[i]] && Left(data, jobs') < Left(data, jobs)
    ensures ProbesOf(data, jobs[i]) == 1 + ProbesOf(data, jobs'[i]) && books'.probes == books.probes + 1
    ensures done <==> jobs'[i] == Free
  {
    hide Balanced, Search, Left, Keys, Owed, Probes;
    done := frames[i].Run(data);
    result' := result;
    if done && frames[i].state == Found {
      result' := result' + 1;
    }
    jobs' := jobs[i := frames[i].Current()];
    books' := if done then Complete(Probe(books), jobs[i].val) else Probe(books);
    BalancedRun(data, started, jobs, result, books, i, jobs'[i]);
  }

  method InitFrame(
    data: seq<int>, ghost started: seq<int>, frames: seq<Frame>, ghost jobs: seq<Job>,
    i: nat, key: int, ghost result: nat, ghost books: Books)
    returns (ghost jobs': seq<Job>, ghost books': Books)
    requires Mirrors(data, frames, jobs) && Balanced(data, started, jobs, result, books)
    requires i < |frames| && jobs[i] == Free
    modifies frames[i]
    ensures Mirrors(data, frames, jobs') && Balanced(data, started + [key], jobs', result, books')
    ensures jobs' == jobs[i := if data == [] then Free else Running(0, |data|, key)]
  {
    hide Balanced;
    BalancedStart(data, started, jobs, result, books, i, key);
    frames[i].Init(data, 0, |data|, key);
    if data == [] {
      jobs', books' := jobs, Complete(books, key);
      assert jobs == jobs[i := Free];
    } else {
      jobs', books' := jobs[i := Running(0, |data|, key)], books;
    }
  }

  /** Which frames are in use after `k` lookups have been started. */
  ghost predicate InUse(data: seq<int>, jobs: seq<Job>, k: nat, i: nat) {
    && i < |jobs|
    && if data == [] then forall j :: 0 <= j < |jobs| ==> jobs[j] == Free
       else if k < |jobs| then
         && i + k + 1 == |jobs|
         && (forall j :: 0 <= j <= i ==> jobs[j] == Free)
         && (forall j :: i < j < |jobs| ==> jobs[j].Running?)
       else forall j :: 0 <= j < |jobs| ==> jobs[j].Running?
  }

  /** The frame before frame `i`, cyclically; without frames the last index wraps around. */
  function Before(i: nat, n: nat): (j: nat)
    ensures i < n ==> j < n
  {
    if 0 < i then i - 1 else if 0 < n then n - 1 else WORD - 1
  }

  /** The frame whose turn it is `k` turns after that of frame `i`. */
  function Back(i: nat, k: nat, n: nat): (j: nat)
    ensures i < n ==> j < n
  {
    if k == 0 then i else Before(Back(i, k - 1, n), n)
  }

  /** How often it is the turn of frame `j` in `k` turns that begin with frame `i`. */
  function Turns(i: nat, k: nat, j: nat, n: nat): nat {
    if k == 0 then 0 else Turns(i, k - 1, j, n) + if Back(i, k - 1, n) == j then 1 else 0
  }

  /** How many turns after frame `i` frame `j` comes next. */
  function Distance(i: nat, j: nat, n: nat): (d: nat)
    requires i < n && j < n
    ensures d < n
  {
    if j <= i then i - j else i + n - j
  }

  /** In `q` rounds and `r` more turns every frame has `q` turns, and the first `r` of the next round
      one more. */
  lemma {:induction false} TurnsAre(i: nat, q: nat, r: nat, j: nat, n: nat, k: nat)
    requires i < n && j < n && r <= n && k == q * n + r
    ensures Turns(i, k, j, n) == q + if Distance(i, j, n) < r then 1 else 0
    ensures r < n ==> Distance(i, Back(i, k, n), n) == r
    ensures r == n ==> Back(i, k, n) == i
    decreases q, r
  {
    if r != 0 {
      TurnsAre(i, q, r - 1, j, n, k - 1);
    } else if q != 0 {
      assert q * n == (q - 1) * n + n;
      TurnsAre(i, q - 1, n, j, n, k);
    }
  }

  /** No frame is ever more than one turn ahead of another. */
  lemma RoundRobin(i: nat, k: nat, j: nat, m: nat, n: nat)
    requires i < n && j < n && m < n
    ensures Turns(i, k, j, n) <= Turns(i, k, m, n) + 1
  {
    var q, r := k / n, k % n;
    assert k == q * n + r;
    TurnsAre(i, q, r, j, n, k);
    TurnsAre(i, q, r, m, n, k);
  }

  /** All frames are busy: switch between them until one completes. In all its turns, each frame makes
      one probe. */
  method RunUntilDone(
    data: seq<int>, ghost started: seq<int>, frames: seq<Frame>, ghost jobs: seq<Job>,
    i: nat, result: nat, ghost books: Books)
    returns (i': nat, result': nat, ghost jobs': seq<Job>, ghost books': Books, ghost turns: nat)
    requires Mirrors(data, frames, jobs) && Balanced(data, started, jobs, result, books)
    requires i < |frames| && forall j :: 0 <= j < |jobs| ==> jobs[j].Running?
    modifies frames
    ensures Mirrors(data, frames, jobs') && Balanced(data, started, jobs', result', books')
    ensures i' < |jobs'| && jobs'[i'] == Free
    ensures forall j :: 0 <= j < |jobs'| && j != i' ==> jobs'[j].Running?
    ensures 0 < turns && i' == Back(i, turns - 1, |jobs|)
    ensures forall j :: 0 <= j < |jobs| ==>
              ProbesOf(data, jobs[j]) == ProbesOf(data, jobs'[j]) + Turns(i, turns, j, |jobs|)
  {
    hide Balanced, ProbesOf, Left;
    i', result', jobs', books', turns := i, result, jobs, books, 0;
    var done := false;
    while true
      invariant Mirrors(data, frames, jobs') && Balanced(data, started, jobs', result', books')
      invariant i' < |jobs'| && forall j :: 0 <= j < |jobs'| ==> jobs'[j].Running?
      invariant |jobs'| == |jobs| && i' == Back(i, turns, |jobs|)
      invariant forall j :: 0 <= j < |jobs| ==>
                  ProbesOf(data, jobs[j]) == ProbesOf(data, jobs'[j]) + Turns(i, turns, j, |jobs|)
      decreases Left(data, jobs')
    {
      done, result', jobs', books' := RunFrame(data, started, frames, jobs', i', result', books');
      turns := turns + 1;
      if done {
        return;
      }
      i' := Before(i', |frames|);
    }
  }

  /** One pass over all frames, running those that still search. */
  method DrainPass(
    data: seq<int>, ghost started: seq<int>, frames: seq<Frame>, ghost jobs: seq<Job>,
    result: nat, ghost books: Books)
    returns (moreWork: bool, result': nat, ghost jobs': seq<Job>, ghost books': Books)
    requires Mirrors(data, frames, jobs) && Balanced(data, started, jobs, result, books)
    modifies frames
    ensures Mirrors(data, frames, jobs') && Balanced(data, started, jobs', result', books')
    ensures if moreWork then Left(data, jobs') < Left(data, jobs) else forall j :: 0 <= j < |jobs'| ==> jobs'[j] == Free
    ensures |jobs'| == |jobs|
    ensures forall j :: 0 <= j < |jobs| ==>
              ProbesOf(data, jobs[j]) == ProbesOf(data, jobs'[j]) + if jobs[j].Running? then 1 else 0
  {
    hide Balanced, ProbesOf, Left;
    moreWork, result', jobs', books' := false, result, jobs, books;
    for j := 0 to |frames|
      invariant Mirrors(data, frames, jobs') && Balanced(data, started, jobs', result', books')
      invariant if moreWork then Left(data, jobs') < Left(data, jobs)
                else jobs' == jobs && forall m :: 0 <= m < j ==> jobs'[m] == Free
      invariant |jobs'| == |jobs| && forall m :: j <= m < |jobs| ==> jobs'[m] == jobs[m]
      invariant forall m :: 0 <= m < j ==>
                  ProbesOf(data, jobs[m]) == ProbesOf(data, jobs'[m]) + if jobs[m].Running? then 1 else 0
    {
      if frames[j].state == KeepGoing {
        moreWork := true;
        var done;
        done, result', jobs', books' := RunFrame(data, started, frames, jobs', j, result', books');
      }
    }
  }

  /** Once the lookups are used up, the frames still running are run in turn to completion. */
  method Drain(
    data: seq<int>, ghost started: seq<int>, frames: seq<Frame>, ghost jobs: seq<Job>,
    result: nat, ghost books: Books)
    returns (result': nat, ghost books': Books)
    requires Mirrors(data, frames, jobs) && Balanced(data, started, jobs, result, books)
    modifies frames
    ensures result' == Hits(data, started) && books' == Books(multiset(started), AllProbes(data, started))
  {
    ghost var jobs' := jobs;
    var moreWork := true;
    result', books' := result, books;
    while moreWork
      invariant Mirrors(data, frames, jobs') && Balanced(data, started, jobs', result', books')
      invariant !moreWork ==> forall j :: 0 <= j < |jobs'| ==> jobs'[j] == Free
      decreases moreWork, Left(data, jobs')
    {
      moreWork, result', jobs', books' := DrainPass(data, started, frames, jobs', result', books');
    }
    AllFree(data, jobs');
  }

  method MakeFrames(n: nat) returns (frames: seq<Frame>)
    ensures |frames| == n
    ensures forall f :: f in frames ==> fresh(f) && f.state == Empty
    ensures forall i, j :: 0 <= i < j < |frames| ==> frames[i] != frames[j]
  {
    frames := [];
    while |frames| < n
      invariant |frames| <= n
      invariant forall f :: f in frames ==> fresh(f) && f.state == Empty
      invariant forall i, j :: 0 <= i < j < |frames| ==> frames[i] != frames[j]
    {
      var frame := new Frame();
      frames := frames + [frame];
    }
  }

  /** Lookup `k` gets frame `i`, if need be after running the frames until one completes. */
  method StartLookup(
    data: seq<int>, lookups: seq<int>, k: nat, frames: seq<Frame>, ghost jobs: seq<Job>,
    i: nat, result: nat, ghost books: Books)
    returns (i': nat, result': nat, ghost jobs': seq<Job>, ghost books': Books)
    requires k < |lookups| && InUse(data, jobs, k, i)
    requires Mirrors(data, frames, jobs) && Balanced(data, lookups[..k], jobs, result, books)
    modifies frames
    ensures Mirrors(data, frames, jobs') && Balanced(data, lookups[..k + 1], jobs', result', books')
    ensures InUse(data, jobs', k + 1, i')
  {
    hide Balanced;
    i', result', jobs', books' := i, result, jobs, books;
    if frames[i].state == KeepGoing {
      ghost var turns;
      i', result', jobs', books', turns := RunUntilDone(data, lookups[..k], frames, jobs, i, result, books);
    }
    assert lookups[..k + 1] == lookups[..k] + [lookups[k]];
    jobs', books' := InitFrame(data, lookups[..k], frames, jobs', i', lookups[k], result', books');
    i' := Before(i', |frames|);
  }

  /** Every key is searched for exactly once, whatever the data, with the hits and in all the probes
      of the plain search. */
  method StateMachineMultiLookup(data: seq<int>, lookups: seq<int>, nStreams: nat)
    returns (result: nat, ghost completed: multiset<int>, ghost probes: nat)
    requires lookups != [] ==> 1 <= nStreams
    ensures result == Hits(data, lookups)
    ensures completed == multiset(lookups) && probes == AllProbes(data, lookups)
  {
    hide Balanced, Hits, AllProbes;
    var frames := MakeFrames(nStreams);
    ghost var jobs := seq(nStreams, i => Free);
    BalancedNothing(data, jobs);
    var i := Before(0, nStreams);
    result := 0;
    ghost var books := Books(multiset{}, 0);
    for k := 0 to |lookups|
      invariant Mirrors(data, frames, jobs) && Balanced(data, lookups[..k], jobs, result, books)
      invariant lookups != [] ==> InUse(data, jobs, k, i)
    {
      i, result, jobs, books := StartLookup(data, lookups, k, frames, jobs, i, result, books);
    }
    assert lookups[..|lookups|] == lookups;
    result, books := Drain(data, lookups, frames, jobs, result, books);
    completed, probes := books.completed, books.probes;
  }
}
