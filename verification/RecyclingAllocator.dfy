/** The free-list allocator that coroutine frames are recycled through. */
module RecyclingAllocator {

  /** A heap block: an intrusive free-list header while it is free, the memory of a coroutine
      frame while it is live. `extent` is the number of bytes that malloc was asked for. */
  class Frame {
    var next: Frame?
    var size: nat
    ghost const extent: nat

    constructor (n: nat)
      ensures extent == n
    {
      next := null;
      size := 0;
      extent := n;
    }
  }

  ghost function BlockAt(blocks: seq<Frame>, i: nat): Frame? {
    if i < |blocks| then blocks[i] else null
  }

  ghost predicate Linked(blocks: seq<Frame>, first: Frame?)
    reads blocks`next
  {
    && first == BlockAt(blocks, 0)
    && forall i :: 0 <= i < |blocks| ==> blocks[i].next == BlockAt(blocks, i + 1)
  }

  /** Free and live blocks are disjoint and all blocks that were ever allocated. */
  ghost predicate Books(free: seq<Frame>, live: set<Frame>, blocks: set<Frame>, allocCount: nat, peak: nat) {
    && (forall i, j :: 0 <= i < j < |free| ==> free[i] != free[j])
    && (forall i :: 0 <= i < |free| ==> free[i] !in live && free[i] in blocks)
    && live <= blocks
    && allocCount == |free| + |live|
    && |live| <= peak
  }

  lemma BooksFresh(free: seq<Frame>, live: set<Frame>, blocks: set<Frame>, allocCount: nat, peak: nat, f: Frame)
    requires Books(free, live, blocks, allocCount, peak) && f !in blocks
    ensures Books(free, live + {f}, blocks + {f}, allocCount + 1, Larger(|live + {f}|, peak))
  {
    assert |live + {f}| == |live| + 1;
  }

  lemma BooksReuse(free: seq<Frame>, live: set<Frame>, blocks: set<Frame>, allocCount: nat, peak: nat)
    requires Books(free, live, blocks, allocCount, peak) && free != []
    ensures Books(free[1..], live + {free[0]}, blocks, allocCount, Larger(|live + {free[0]}|, peak))
  {
    assert |live + {free[0]}| == |live| + 1;
  }

  function Larger(a: nat, b: nat): nat {
    if a > b then a else b
  }

  lemma BooksFree(free: seq<Frame>, live: set<Frame>, blocks: set<Frame>, allocCount: nat, peak: nat, f: Frame)
    requires Books(free, live, blocks, allocCount, peak) && f in live
    ensures Books([f] + free, live - {f}, blocks, allocCount, peak)
  {
    assert |live - {f}| == |live| - 1;
  }

  class RecyclingAllocator {
    var root: Frame?
    var allocCount: nat
    ghost var free: seq<Frame>
    ghost var live: set<Frame>
    ghost var blocks: set<Frame>
    ghost var peak: nat

    ghost predicate Valid()
      reads this, free`next, free`size
    {
      Linked(free, root) && Books(free, live, blocks, allocCount, peak)
    }

    /** Every free block records the size it was allocated with. */
    ghost predicate Exact()
      reads this, free`next, free`size
    {
      forall i :: 0 <= i < |free| ==> free[i].size == free[i].extent
    }

    /** The regime coroutine frames live in: every block has one size. */
    ghost predicate Uniform(n: nat)
      reads this, free`next, free`size
    {
      && (forall i :: 0 <= i < |free| ==> free[i].size == free[i].extent == n)
      && (forall f :: f in live ==> f.extent == n)
      && allocCount <= peak
    }

    constructor ()
      ensures Valid() && free == [] && live == blocks == {} && peak == allocCount == 0
    {
      root := null;
      allocCount, peak := 0, 0;
      free, live, blocks := [], {}, {};
    }

    /** A block is reused when it is no larger than the request, so a reused block fits only when
        its size is the request exactly. */
    method Alloc(n: nat) returns (f: Frame)
      requires Valid()
      modifies this
      ensures Valid()
      ensures f !in old(live) && live == old(live) + {f}
      ensures if old(free) != [] && old(free[0].size) <= n
              then f == old(free)[0] && free == old(free)[1..] && allocCount == old(allocCount)
              else fresh(f) && f.extent == n && free == old(free) && allocCount == old(allocCount) + 1
      ensures blocks == old(blocks) + {f} && fresh(blocks - old(blocks))
      ensures peak == Larger(|live|, old(peak))
      ensures old(Exact()) ==> Exact() && (n <= f.extent <==> old(free) == [] || n <= old(free[0].size))
      ensures old(Uniform(n)) ==> Uniform(n)
    {
      if root != null && root.size <= n {
        BooksReuse(free, live, blocks, allocCount, peak);
        f := root;
        root := root.next;
        free := free[1..];
      } else {
        f := new Frame(n);
        BooksFresh(free, live, blocks, allocCount, peak, f);
        allocCount := allocCount + 1;
        blocks := blocks + {f};
      }
      live := live + {f};
      peak := Larger(|live|, peak);
    }

    method Free(f: Frame, n: nat)
      requires Valid() && f in live
      modifies this, f`next, f`size
      ensures Valid()
      ensures live == old(live) - {f} && free == [f] + old(free) && f.size == n
      ensures peak == old(peak) && allocCount == old(allocCount) && blocks == old(blocks)
      ensures old(Exact()) && n == f.extent ==> Exact()
      ensures old(Uniform(n)) ==> Uniform(n)
    {
      BooksFree(free, live, blocks, allocCount, peak, f);
      f.size := n;
      f.next := root;
      root := f;
      free, live := [f] + free, live - {f};
    }
  }

  /** A block of 8 bytes that is free is handed out for 16. */
  method ReusesTooSmall() returns (small: Frame, requested: nat)
    ensures small.extent < requested
  {
    var allocator := new RecyclingAllocator();
    var block := allocator.Alloc(8);
    allocator.Free(block, 8);
    requested := 16;
    small := allocator.Alloc(requested);
  }
}
