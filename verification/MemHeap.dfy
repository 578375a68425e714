/**
 The memory heap object (`memheap.c`): headers chained into a ring of all blocks and a ring of the
 free blocks, updated in place by allocation, reallocation and release.
 */
module MemHeap {
  import opened HeapLayout
  import opened Payload
  import opened Ring
  import opened Sequences

  const NULL := 0
  const MINIALLOC := 12

  // ------------------------------------------------------------- requests

  /** The size a request is served with. */
  function Request(n: int): (r: int)
    ensures r >= MINIALLOC && r >= n && Aligned(r) && (r > MINIALLOC ==> r < n + ALIGN)
  {
    if AlignUp(n) < MINIALLOC then MINIALLOC else AlignUp(n)
  }

  /** Rounding the request and adding a header does not wrap around in 32 bits. */
  predicate Representable(n: int, hdr: int) {
    0 <= n && Request(n) + hdr + MINIALLOC < 0x1_0000_0000
  }

  // ----------------------------------------------------------------- headers

  ghost function Addrs(bs: Layout): (r: seq<int>)
    ensures |r| == |bs|
    ensures forall i :: 0 <= i < |r| ==> r[i] == bs[i].addr
  {
    seq(|bs|, i requires 0 <= i < |bs| => bs[i].addr)
  }

  ghost predicate Marked(used: map<int, bool>, bs: Layout) {
    forall b :: b in bs ==> b.addr in used && used[b.addr] == b.used
  }

  ghost predicate DistinctAddrs(bs: Layout) {
    forall b, c :: b in bs && c in bs && b.addr == c.addr ==> b == c
  }

  lemma AddrsAreDistinct(bs: Layout, start: int, pool: int, hdr: int)
    requires Proper(bs, start, pool, hdr)
    ensures DistinctAddrs(bs)
  {
    Apart(bs, start, pool, hdr);
  }

  /** Marking the headers that an edit writes. */
  lemma Remarked(used: map<int, bool>, bs: Layout, r: Layout, x: Block, y: Block)
    requires Marked(used, bs) && DistinctAddrs(r) && x in r && y in r
    requires forall b :: b in r ==> b in bs || b == x || b == y
    ensures Marked(used[x.addr := x.used][y.addr := y.used], r)
  {
  }

  lemma AddrsOfTake(bs: Layout, i: int, size: int, hdr: int)
    requires 0 <= i < |bs|
    ensures Addrs(Take(bs, i, size, hdr)) == With(Addrs(bs), i, bs[i].addr + size + hdr)
  {
  }

  lemma AddrsOfMark(bs: Layout, i: int, used: bool)
    requires 0 <= i < |bs|
    ensures Addrs(Mark(bs, i, used)) == Addrs(bs)
  {
  }

  lemma AddrsOfJoined(bs: Layout, i: int)
    requires 0 <= i < |bs|
    ensures Addrs(Joined(bs, i)) == Without(Addrs(bs), i)
  {
  }

  /** Where a released block starts once it is merged to the left. */
  ghost function Low(bs: Layout, i: int): (lo: int)
    requires 0 <= i < |bs|
    ensures 0 <= lo <= i
  {
    if i > 0 && !bs[i - 1].used then i - 1 else i
  }

  /** The layout halfway through a release. */
  ghost function LeftMerged(bs: Layout, i: int): (r: Layout)
    requires 0 <= i < |bs|
  {
    if Low(bs, i) < i then Joined(Mark(bs, i, false), i) else Mark(bs, i, false)
  }

  /** A release marks the block, joins it to a free left and then joins a free right to it. */
  lemma ReleaseSteps(bs: Layout, i: int)
    requires 0 <= i < |bs| - 1
    ensures var mid, lo := LeftMerged(bs, i), Low(bs, i);
      && lo + 1 < |mid| && mid[lo] == Block(bs[lo].addr, false) && mid[lo + 1] == bs[i + 1]
      && Release(bs, i) == if bs[i + 1].used then mid else Joined(mid, lo + 1)
  {
    var mid, lo := LeftMerged(bs, i), Low(bs, i);
    var a, b := bs[..lo], bs[i + 1..];
    assert mid == a + [Block(bs[lo].addr, false)] + b;
    assert Joined(mid, lo + 1) == a + [Block(bs[lo].addr, false)] + bs[i + 2..];
  }

  lemma LowIsOther(bs: Layout, i: int, start: int, pool: int, hdr: int)
    requires Proper(bs, start, pool, hdr) && 0 <= i < |bs| - 1
    ensures Low(bs, i) < i ==> bs[i - 1].addr < bs[i].addr < bs[i + 1].addr
  {
    NeighboursOf(bs, i, start, pool, hdr);
  }

  lemma NotFree(bs: Layout, i: int, start: int, pool: int, hdr: int)
    requires Proper(bs, start, pool, hdr) && 0 <= i < |bs| && bs[i].used
    ensures !FreeAt(bs, bs[i].addr)
  {
    Apart(bs, start, pool, hdr);
  }

  /** The blocks left after a release: others, unchanged, and the free one. */
  lemma ReleasedBlocks(bs: Layout, i: int, start: int, pool: int, hdr: int)
    requires Proper(bs, start, pool, hdr) && 0 <= i < |bs| - 1 && bs[i].used
    ensures forall b :: b in Release(bs, i) ==>
      (b in bs && b.addr != bs[i].addr) || b == Block(bs[Low(bs, i)].addr, false)
    ensures Low(bs, i) < i ==> bs[i - 1].addr != bs[i].addr
  {
    Apart(bs, start, pool, hdr);
    hide Proper;
    forall b | b in Release(bs, i)
      ensures (b in bs && b.addr != bs[i].addr) || b == Block(bs[Low(bs, i)].addr, false)
    {
      ReleasedOne(bs, i, b);
    }
  }

  lemma ReleasedOne(bs: Layout, i: int, b: Block)
    requires 0 <= i < |bs| - 1 && b in Release(bs, i)
    requires forall j, k :: 0 <= j < k < |bs| ==> bs[j].addr < bs[k].addr
    ensures (b in bs && b.addr != bs[i].addr) || b == Block(bs[Low(bs, i)].addr, false)
  {
    if b != Block(bs[Low(bs, i)].addr, false) {
      var k :| 0 <= k < |bs| && k != i && bs[k] == b;
    }
  }

  lemma AddrsOfCarve(bs: Layout, i: int, size: int, hdr: int)
    requires 0 <= i < |bs| - 1
    ensures var n := bs[i].addr + hdr + size;
      && (bs[i + 1].used ==> Addrs(Carve(bs, i, size, hdr)) == With(Addrs(bs), i, n))
      && (!bs[i + 1].used ==>
            && Addrs(Carve(bs, i, size, hdr)) == With(Without(Addrs(bs), i + 1), i, n)
            && Addrs(Carve(bs, i, size, hdr)) == Without(With(Addrs(bs), i, n), i + 2))
  {
  }

  /** The header behind the one that a carve leaves. */
  lemma CarvedNext(next: Links, prev: Links, bs: Layout, i: int, size: int, hdr: int)
    requires 0 <= i < |bs| - 1 && (!bs[i + 1].used ==> i + 2 < |bs|)
      && Linked(next, prev, Addrs(Carve(bs, i, size, hdr)))
    ensures var n := bs[i].addr + hdr + size;
      n in next && next[n] == bs[if bs[i + 1].used then i + 1 else i + 2].addr
  {
    hide Linked;
    NodeAt(next, prev, Addrs(Carve(bs, i, size, hdr)), i + 1);
  }

  /** Every free block is smaller than `size`. */
  ghost predicate TooSmall(bs: Layout, size: int, hdr: int) {
    forall i :: 0 <= i < |bs| - 1 && !bs[i].used ==> Size(bs, i, hdr) < size
  }

  /** Free block `i` is the first in list order that holds `size` bytes. */
  ghost predicate FirstFit(bs: Layout, ring: seq<int>, size: int, hdr: int, i: int) {
    && 0 <= i < |bs| - 1 && !bs[i].used && Size(bs, i, hdr) >= size
    && exists k :: 0 <= k < |ring| && ring[k] == bs[i].addr && Smaller(bs, ring[..k], size, hdr)
  }

  ghost predicate Smaller(bs: Layout, addrs: seq<int>, size: int, hdr: int) {
    forall i :: 0 <= i < |bs| - 1 && bs[i].addr in addrs ==> Size(bs, i, hdr) < size
  }

  /** The layout after allocating from free block `i`. */
  ghost function Allocated(bs: Layout, i: int, size: int, hdr: int): (r: Layout)
    requires 0 <= i < |bs| - 1
  {
    if Size(bs, i, hdr) >= size + hdr + MINIALLOC then Take(bs, i, size, hdr) else Mark(bs, i, true)
  }

  class Heap {
    const start: int
    const hdr: int
    const poolSize: int
    /** The address of the list header inside the heap object. */
    const freeList: int

    var available: int
    var maxUsed: int

    var used: map<int, bool>
    var next: Links
    var prev: Links
    var nextFree: Links
    var prevFree: Links
    var bytes: Bytes

    /** All blocks in address order, and the free blocks in list order. */
    ghost var blocks: Layout
    ghost var ring: seq<int>

    /** The two rings and the marks agree with the blocks. */
    ghost predicate Rings()
      reads this
    {
      && Linked(next, prev, Addrs(blocks))
      && Linked(nextFree, prevFree, [freeList] + ring)
      && Marked(used, blocks)
    }

    ghost predicate Valid()
      reads this
    {
      && Proper(blocks, start, poolSize, hdr)
      && start > 0 && (freeList < start || start + poolSize <= freeList)
      && Rings()
      && (forall a :: a in ring <==> FreeAt(blocks, a))
      && available == FreeTotal(blocks, hdr)
      && poolSize - available <= maxUsed
    }

    /** MEMITEM_SIZE. */
    function ItemSize(a: int): (n: int)
      requires a in next
      reads this
    {
      next[a] - a - hdr
    }

    /** rt_memheap_init. */
    constructor (startAddr: int, size: int, header: int, headerAt: int)
      requires startAddr > 0 && header > 0 && Aligned(header) && 2 * header <= size - size % ALIGN
      requires headerAt < startAddr || startAddr + size <= headerAt
      ensures Valid()
      ensures start == startAddr && hdr == header && freeList == headerAt && poolSize == size - size % ALIGN
      ensures blocks == [Block(start, false), Block(start + poolSize - hdr, true)] && ring == [start]
      ensures available == poolSize - 2 * hdr && maxUsed == 2 * hdr
    {
      start, hdr, freeList := startAddr, header, headerAt;
      var pool := size - size % ALIGN;
      poolSize := pool;
      available := pool - 2 * header;
      maxUsed := pool - (pool - 2 * header);
      var tail := startAddr + (pool - 2 * header) + header;
      used := map[startAddr := false, tail := true];
      next := map[startAddr := tail, tail := startAddr];
      prev := map[startAddr := tail, tail := startAddr];
      nextFree := map[headerAt := startAddr, startAddr := headerAt];
      prevFree := map[headerAt := startAddr, startAddr := headerAt];
      bytes := map[];
      blocks := [Block(startAddr, false), Block(tail, true)];
      ring := [startAddr];
      new;
      hide Proper, FreeTotal, Aligned, Linked, Addrs, Marked, FreeAt;
      RoundedDown(size);
      InitialMarks(start, tail);
      InitialLayout(start, poolSize, hdr);
      InitialRing(start, tail);
      InitialRing(freeList, start);
      assert [freeList] + ring == [freeList, start];
    }

    // ------------------------------------------------------- pointer surgery

    /** Take `a` off the free ring. */
    method UnlinkFree(a: int)
      requires Linked(nextFree, prevFree, [freeList] + ring) && a in ring
      modifies this`nextFree, this`prevFree, this`ring
      ensures Linked(nextFree, prevFree, [freeList] + ring)
      ensures forall x :: x in ring <==> x in old(ring) && x != a
      ensures a in nextFree && a in prevFree
    {
      ghost var k := IndexOf(ring, a);
      ghost var r := [freeList] + ring;
      assert r[k + 1] == a;
      Unlinked(nextFree, prevFree, r, k + 1);
      assert Without(r, k + 1) == [freeList] + Without(ring, k);
      nextFree, prevFree := UnlinkFwd(nextFree, prevFree, a), UnlinkBwd(nextFree, prevFree, a);
      DistinctTail(freeList, ring);
      WithoutElems(ring, k);
      ring := Without(ring, k);
    }

    /** Put `a` at the front of the free ring. */
    method LinkFree(a: int)
      requires Linked(nextFree, prevFree, [freeList] + ring) && a !in ring && a != freeList
      modifies this`nextFree, this`prevFree, this`ring
      ensures Linked(nextFree, prevFree, [freeList] + ring)
      ensures ring == [a] + old(ring)
    {
      ghost var r := [freeList] + ring;
      Inserted(nextFree, prevFree, r, 0, a);
      assert With(r, 0, a) == [freeList] + ([a] + ring);
      prevFree := LinkBwd(nextFree, prevFree, freeList, a);
      nextFree := LinkFwd(nextFree, freeList, a);
      ring := [a] + ring;
    }

    /** Put `n` on the free ring in place of `a`. */
    method SwapFree(a: int, n: int)
      requires Linked(nextFree, prevFree, [freeList] + ring) && a in ring && n !in ring && n != freeList
      modifies this`nextFree, this`prevFree, this`ring
      ensures Linked(nextFree, prevFree, [freeList] + ring)
      ensures forall x :: x in ring <==> (x in old(ring) && x != a) || x == n
    {
      hide Linked;
      UnlinkFree(a);
      LinkFree(n);
    }

    /** Chain a new header `n` behind header `h` in the block ring. */
    method InsertBlock(h: int, n: int, ghost bs: Layout, ghost i: int, ghost bs': Layout)
      requires Linked(next, prev, Addrs(bs)) && 0 <= i < |bs| && bs[i].addr == h
      requires n !in Addrs(bs) && Addrs(bs') == With(Addrs(bs), i, n)
      modifies this`next, this`prev
      ensures Linked(next, prev, Addrs(bs'))
    {
      Inserted(next, prev, Addrs(bs), i, n);
      prev := LinkBwd(next, prev, h, n);
      next := LinkFwd(next, h, n);
    }

    /** Take header `a` off the block ring. */
    method RemoveBlock(a: int, ghost bs: Layout, ghost i: int, ghost bs': Layout)
      requires Linked(next, prev, Addrs(bs)) && 0 < i < |bs| && bs[i].addr == a
      requires Addrs(bs') == Without(Addrs(bs), i)
      modifies this`next, this`prev
      ensures Linked(next, prev, Addrs(bs'))
    {
      Unlinked(next, prev, Addrs(bs), i);
      next, prev := UnlinkFwd(next, prev, a), UnlinkBwd(next, prev, a);
    }

    // ------------------------------------------------------------ reading

    /** What the fields of a header other than the tail hold. */
    lemma ItemAt(i: int)
      requires Valid() && 0 <= i < |blocks| - 1
      ensures var a := blocks[i].addr;
        && a in next && next[a] == blocks[i + 1].addr && ItemSize(a) == Size(blocks, i, hdr) >= 0 && hdr > 0
        && a in used && used[a] == blocks[i].used && start <= a < start + poolSize && a != freeList
        && next[a] in used && used[next[a]] == blocks[i + 1].used
    {
      hide Tiled, Coalesced, FreeTotal, Aligned, Linked;
      NodeAt(next, prev, Addrs(blocks), i);
      assert blocks[i] in blocks && blocks[i + 1] in blocks;
      NeighboursOf(blocks, i, start, poolSize, hdr);
      InPool(blocks, i, start, poolSize, hdr);
    }

    lemma PrevAt(i: int)
      requires Valid() && 0 <= i < |blocks| - 1
      ensures var a := blocks[i].addr;
        && a in prev && prev[a] == (if i > 0 then blocks[i - 1].addr else blocks[|blocks| - 1].addr)
        && prev[a] in used && used[prev[a]] == (i == 0 || blocks[i - 1].used) && prev[a] != a
    {
      hide Coalesced, FreeTotal, Aligned, Linked;
      if i == 0 { Increasing(blocks, start, poolSize, hdr, 0, |blocks| - 1); }
      NodeAt(next, prev, Addrs(blocks), i);
      assert blocks[|blocks| - 1] in blocks;
      assert i > 0 ==> blocks[i - 1] in blocks;
    }

    /** Which block a node of the free ring is. */
    lemma FreeIndex(a: int) returns (i: int)
      requires Valid() && a in ring
      ensures 0 <= i < |blocks| - 1 && blocks[i] == Block(a, false)
    {
      assert FreeAt(blocks, a);
      i :| 0 <= i < |blocks| && blocks[i] == Block(a, false);
    }

    /** Walk the free ring to the first block of at least `size` bytes. */
    method FindFit(size: int) returns (h: int, freeSize: int, ghost i: int)
      requires Valid() && size > 0
      ensures freeSize >= size ==>
        FirstFit(blocks, ring, size, hdr, i) && h == blocks[i].addr && freeSize == Size(blocks, i, hdr)
      ensures freeSize < size ==> TooSmall(blocks, size, hdr)
    {
      hide Tiled, Coalesced, FreeTotal, Aligned, Linked, Smaller, Marked;
      ghost var r, k := [freeList] + ring, 0;
      NodeAt(nextFree, prevFree, r, 0);
      RingHead(nextFree, prevFree, freeList, ring);
      SmallerNone(blocks, size, hdr);
      assert ring[..0] == [];
      freeSize, i := 0, 0;
      h := nextFree[freeList];
      while h != freeList && freeSize < size
        invariant 0 <= k <= |ring| && h == (if k < |ring| then ring[k] else freeList)
        invariant Smaller(blocks, ring[..k], size, hdr)
        invariant freeSize >= size ==>
          k < |ring| && 0 <= i < |blocks| - 1 && blocks[i] == Block(h, false) && freeSize == Size(blocks, i, hdr)
        decreases |ring| - k, size - freeSize
      {
        i := FreeIndex(h);
        ItemAt(i);
        freeSize := ItemSize(h);
        if freeSize < size {
          NodeAt(nextFree, prevFree, r, k + 1);
          SmallerOneMore(blocks, start, poolSize, ring[..k], i, size, hdr);
          assert ring[..k + 1] == ring[..k] + [h];
          h := nextFree[h];
          k := k + 1;
        }
      }
      if freeSize < size {
        assert ring[..k] == ring;
        SmallerAll(blocks, ring, size, hdr);
      }
    }

    // ---------------------------------------------------------- allocation

    /** Keep the high-water mark. */
    method NoteUse()
      modifies this`maxUsed
      ensures maxUsed == if poolSize - available > old(maxUsed) then poolSize - available else old(maxUsed)
    {
      if poolSize - available > maxUsed {
        maxUsed := poolSize - available;
      }
    }

    /** Serve `size` bytes from free block `h`, leaving the rest of it as a new free block. */
    method SplitBlock(h: int, size: int, ghost i: int)
      requires Valid() && 0 <= i < |blocks| - 1 && blocks[i] == Block(h, false)
      requires size >= 0 && Aligned(size) && size + hdr <= Size(blocks, i, hdr)
      modifies this
      ensures Valid() && blocks == Take(old(blocks), i, size, hdr)
      ensures bytes == Clobber(old(bytes), h + size + hdr, hdr)
      ensures maxUsed == Max(old(maxUsed), poolSize - available)
    {
      hide Proper, FreeTotal, Aligned, Linked, Marked, Clobber, Take, FreeAt, Addrs, With;
      ghost var bs := Take(blocks, i, size, hdr);
      var n := h + size + hdr;
      SplitFacts(i, size);
      used := used[n := false];
      InsertBlock(h, n, blocks, i, bs);
      SwapFree(h, n);
      available := available - size - hdr;
      NoteUse();
      used := used[h := true];
      bytes := Clobber(bytes, n, hdr);
      blocks := bs;
    }

    lemma SplitFacts(i: int, size: int)
      requires Valid() && 0 <= i < |blocks| - 1 && !blocks[i].used
      requires size >= 0 && Aligned(size) && size + hdr <= Size(blocks, i, hdr)
      ensures var h, bs := blocks[i].addr, Take(blocks, i, size, hdr);
        var n := h + size + hdr;
        && Proper(bs, start, poolSize, hdr) && FreeTotal(bs, hdr) == FreeTotal(blocks, hdr) - size - hdr
        && (forall a :: FreeAt(bs, a) <==> (a in ring && a != h) || a == n)
        && Addrs(bs) == With(Addrs(blocks), i, n) && n !in Addrs(blocks)
        && Marked(used[n := false][h := true], bs)
        && h in ring && n !in ring && n != freeList
    {
      hide Tiled, Coalesced, FreeTotal, Aligned, Linked, Marked;
      var h, bs := blocks[i].addr, Take(blocks, i, size, hdr);
      var n := h + size + hdr;
      TakeIsProper(blocks, i, size, start, poolSize, hdr);
      FreshBetween(blocks, i, n, start, poolSize, hdr);
      AddrsOfTake(blocks, i, size, hdr);
      AddrsAreDistinct(bs, start, poolSize, hdr);
      TakeBlocks(blocks, i, size, hdr);
      Remarked(used, blocks, bs, Block(n, false), Block(h, true));
      InPool(bs, i + 1, start, poolSize, hdr);
      assert FreeAt(blocks, h);
    }

    /** Serve the whole of free block `h`. */
    method TakeWhole(h: int, freeSize: int, ghost i: int)
      requires Valid() && 0 <= i < |blocks| - 1 && blocks[i] == Block(h, false) && freeSize == Size(blocks, i, hdr)
      modifies this
      ensures Valid() && blocks == Mark(old(blocks), i, true) && bytes == old(bytes)
      ensures maxUsed == Max(old(maxUsed), poolSize - available)
    {
      hide Proper, FreeTotal, Aligned, Linked, Marked, Mark, FreeAt, Addrs;
      ghost var bs := Mark(blocks, i, true);
      WholeFacts(i);
      available := available - freeSize;
      NoteUse();
      UnlinkFree(h);
      used := used[h := true];
      blocks := bs;
    }

    lemma WholeFacts(i: int)
      requires Valid() && 0 <= i < |blocks| - 1 && !blocks[i].used
      ensures var h, bs := blocks[i].addr, Mark(blocks, i, true);
        && Proper(bs, start, poolSize, hdr) && FreeTotal(bs, hdr) == FreeTotal(blocks, hdr) - Size(blocks, i, hdr)
        && (forall a :: FreeAt(bs, a) <==> a in ring && a != h)
        && Addrs(bs) == Addrs(blocks) && Marked(used[h := true], bs) && h in ring
    {
      hide Tiled, Coalesced, FreeTotal, Aligned, Linked, Marked;
      var h, bs := blocks[i].addr, Mark(blocks, i, true);
      MarkIsProper(blocks, i, start, poolSize, hdr);
      AddrsOfMark(blocks, i, true);
      AddrsAreDistinct(bs, start, poolSize, hdr);
      MarkBlocks(blocks, i, true);
      Remarked(used, blocks, bs, Block(h, true), Block(h, true));
      assert used[h := true][h := true] == used[h := true];
      assert FreeAt(blocks, h);
    }

    /** rt_memheap_alloc. */
    method Alloc(n: int) returns (p: int, ghost i: int)
      requires Valid() && Representable(n, hdr)
      modifies this
      ensures Valid()
      ensures p == NULL <==> Request(n) >= old(available) || TooSmall(old(blocks), Request(n), hdr)
      ensures p == NULL ==> unchanged(this)
      ensures p != NULL ==> FirstFit(old(blocks), old(ring), Request(n), hdr, i) && p == old(blocks)[i].addr + hdr
      ensures p != NULL ==> blocks == Allocated(old(blocks), i, Request(n), hdr)
      ensures p != NULL ==>
        NotLive(old(blocks), p, hdr) && Holds(blocks, p, Request(n), Request(n) + hdr + MINIALLOC - 1, hdr)
      ensures maxUsed == Max(old(maxUsed), poolSize - available)
      ensures Untouched(old(blocks), old(bytes), blocks, bytes, hdr, {})
    {
      hide Tiled, Coalesced, FreeTotal, Aligned, Linked, Marked, Smaller, LiveAt, NotLive, Clobber, KeepsLive;
      var size := if AlignUp(n) < MINIALLOC then MINIALLOC else AlignUp(n);
      p, i := NULL, 0;
      UntouchedRefl(blocks, bytes, hdr);
      if size < available {
        var h, freeSize;
        h, freeSize, i := FindFit(size);
        if freeSize >= size {
          ItemAt(i);
          FitIsNotTooSmall(blocks, i, size, hdr);
          p := h + hdr;
          if freeSize >= size + hdr + MINIALLOC {
            TakeKeepsLive(blocks, i, size, start, poolSize, hdr);
            UntouchedByHeader(blocks, Take(blocks, i, size, hdr), bytes, hdr, {}, h + size + hdr);
            SplitBlock(h, size, i);
          } else {
            MarkKeepsLive(blocks, i, start, poolSize, hdr);
            UntouchedByMark(blocks, Mark(blocks, i, true), bytes, hdr);
            TakeWhole(h, freeSize, i);
          }
        }
      }
    }

    // ------------------------------------------------------------- release

    /** Mark block `h` free and merge it into a free left neighbour. */
    method MergeLeft(h: int, ghost i: int) returns (m: int, insert: bool)
      requires Valid() && 0 <= i < |blocks| - 1 && blocks[i] == Block(h, true)
      modifies this`used, this`available, this`next, this`prev
      ensures used == old(used)[h := false]
      ensures m == blocks[Low(blocks, i)].addr && insert == (Low(blocks, i) == i)
      ensures available == old(available) + Size(blocks, i, hdr) + (if insert then 0 else hdr)
      ensures Linked(next, prev, Addrs(LeftMerged(blocks, i)))
    {
      hide Proper, FreeTotal, Aligned, Linked, Marked, Addrs, Without, FreeAt, Mark;
      ItemAt(i);
      PrevAt(i);
      AddrsOfMark(blocks, i, false);
      ghost var bs := Mark(blocks, i, false);
      assert |bs| == |blocks| && bs[i].addr == h by { MarkBlocks(blocks, i, false); }
      used := used[h := false];
      available := available + ItemSize(h);
      m, insert := h, true;
      LowIsOther(blocks, i, start, poolSize, hdr);
      if !used[prev[h]] {
        available := available + hdr;
        m := prev[h];
        AddrsOfJoined(bs, i);
        RemoveBlock(h, bs, i, Joined(bs, i));
        insert := false;
      }
    }

    /** Merge a free right neighbour into the free block `h`. */
    method MergeRight(h: int, ghost i: int)
      requires 0 <= i < |blocks| - 1 && h == blocks[Low(blocks, i)].addr
      requires Linked(next, prev, Addrs(LeftMerged(blocks, i))) && Linked(nextFree, prevFree, [freeList] + ring)
      requires blocks[i + 1].addr in used && used[blocks[i + 1].addr] == blocks[i + 1].used
      requires !blocks[i + 1].used ==> blocks[i + 1].addr in ring
      modifies this`available, this`next, this`prev, this`nextFree, this`prevFree, this`ring
      ensures available == old(available) + (if blocks[i + 1].used then 0 else hdr)
      ensures Linked(next, prev, Addrs(Release(blocks, i))) && Linked(nextFree, prevFree, [freeList] + ring)
      ensures forall a :: a in ring <==> a in old(ring) && (blocks[i + 1].used || a != blocks[i + 1].addr)
    {
      hide Linked, Addrs, Joined, Without, LeftMerged, Release;
      ghost var mid, lo := LeftMerged(blocks, i), Low(blocks, i);
      ReleaseSteps(blocks, i);
      NodeAt(next, prev, Addrs(mid), lo);
      var right := next[h];
      if !used[right] {
        available := available + hdr;
        AddrsOfJoined(mid, lo + 1);
        RemoveBlock(right, mid, lo + 1, Release(blocks, i));
        UnlinkFree(right);
      }
    }

    /** rt_memheap_free. */
    method Free(p: int) returns (ghost i: int)
      requires Valid()
      requires p != NULL ==> exists sz :: LiveAt(blocks, p, sz, hdr)
      modifies this
      ensures Valid() && bytes == old(bytes) && maxUsed == old(maxUsed)
      ensures p == NULL ==> unchanged(this)
      ensures p != NULL ==>
        0 <= i < |old(blocks)| - 1 && old(blocks)[i] == Block(p - hdr, true) && blocks == Release(old(blocks), i)
      ensures p != NULL ==> NotLive(blocks, p, hdr)
      ensures Untouched(old(blocks), old(bytes), blocks, bytes, hdr, {p})
    {
      hide Proper, FreeTotal, Aligned, Linked, Marked, FreeAt, Addrs, Release, LeftMerged, NotLive, LiveIndex,
           Untouched;
      i := 0;
      if p == NULL {
        UntouchedRefl(blocks, bytes, hdr);
        UntouchedWeaken(blocks, bytes, blocks, bytes, hdr, p);
        return;
      }
      ghost var sz :| LiveAt(blocks, p, sz, hdr);
      i := LiveBlock(blocks, p, sz, hdr);
      FreeFacts(i);
      FreeMarks(i);
      FreeLive(i);
      var h, insert := MergeLeft(p - hdr, i);
      MergeRight(h, i);
      if insert {
        LinkFree(h);
      }
      blocks := Release(blocks, i);
    }

    lemma FreeFacts(i: int)
      requires Valid() && 0 <= i < |blocks| - 1 && blocks[i].used
      ensures var h, r, l, right := blocks[i].addr, Release(blocks, i), blocks[Low(blocks, i)].addr, blocks[i + 1];
        && Proper(r, start, poolSize, hdr) && FreeTotal(r, hdr) == FreeTotal(blocks, hdr) + Gain(blocks, i, hdr)
        && Size(blocks, i, hdr) >= 0 && hdr > 0
        && (forall a :: FreeAt(r, a) <==> (a in ring && (right.used || a != right.addr)) || a == l)
        && (!right.used ==> right.addr in ring) && h !in ring && h != freeList
        && (l != h ==> l in ring && l != right.addr) && (l == h <==> Low(blocks, i) == i)
    {
      hide Tiled, Coalesced, FreeTotal, Aligned, Linked, Marked, Release;
      ReleaseIsProper(blocks, i, start, poolSize, hdr);
      NeighboursOf(blocks, i, start, poolSize, hdr);
      LowIsOther(blocks, i, start, poolSize, hdr);
      NotFree(blocks, i, start, poolSize, hdr);
      InPool(blocks, i, start, poolSize, hdr);
      if blocks[i + 1].used { NotFree(blocks, i + 1, start, poolSize, hdr); }
      assert !blocks[i + 1].used ==> FreeAt(blocks, blocks[i + 1].addr);
      assert Low(blocks, i) < i ==> FreeAt(blocks, blocks[i - 1].addr);
    }

    lemma FreeMarks(i: int)
      requires Valid() && 0 <= i < |blocks| - 1 && blocks[i].used
      ensures var h := blocks[i].addr;
        && Marked(used[h := false], Release(blocks, i))
        && blocks[i + 1].addr in used && used[blocks[i + 1].addr] == blocks[i + 1].used && h != blocks[i + 1].addr
    {
      hide Tiled, Coalesced, FreeTotal, Aligned, Linked;
      ItemAt(i);
      NeighboursOf(blocks, i, start, poolSize, hdr);
      ReleasedBlocks(blocks, i, start, poolSize, hdr);
    }

    lemma FreeLive(i: int)
      requires Valid() && 0 <= i < |blocks| - 1 && blocks[i].used
      ensures var p, r := blocks[i].addr + hdr, Release(blocks, i);
        NotLive(r, p, hdr) && Untouched(blocks, bytes, r, bytes, hdr, {p})
    {
      hide Tiled, Coalesced, FreeTotal, Aligned, Linked, Marked, Release;
      ReleaseFrees(blocks, bytes, i, start, poolSize, hdr);
    }

    // -------------------------------------------------------------- resizing

    lemma CarveFacts(i: int, size: int)
      requires Valid() && Resizable(blocks, i, size, hdr)
      ensures var n, r := blocks[i].addr + hdr + size, Carve(blocks, i, size, hdr);
        && Proper(r, start, poolSize, hdr) && hdr > 0
        && FreeTotal(r, hdr) == FreeTotal(blocks, hdr)
          + Size(blocks, i, hdr) - size - (if blocks[i + 1].used then hdr else 0)
        && (forall a :: FreeAt(r, a) <==> (a in ring && (blocks[i + 1].used || a != blocks[i + 1].addr)) || a == n)
        && (!blocks[i + 1].used ==> blocks[i + 1].addr in ring) && n !in ring && n != freeList && n !in Addrs(blocks)
        && r[i + 1].addr == n
    {
      hide Tiled, Coalesced, FreeTotal, Aligned, Linked, Marked;
      var n, r := blocks[i].addr + hdr + size, Carve(blocks, i, size, hdr);
      CarveIsProper(blocks, i, size, start, poolSize, hdr);
      InPool(r, i + 1, start, poolSize, hdr);
      NeighboursOf(blocks, i, start, poolSize, hdr);
      FreshBetween(blocks, if size < Size(blocks, i, hdr) then i else i + 1, n, start, poolSize, hdr);
      if blocks[i + 1].used { NotFree(blocks, i + 1, start, poolSize, hdr); }
      assert !blocks[i + 1].used ==> FreeAt(blocks, blocks[i + 1].addr);
    }

    lemma CarveMarks(i: int, size: int)
      requires Valid() && Resizable(blocks, i, size, hdr)
      ensures Marked(used[blocks[i].addr + hdr + size := false], Carve(blocks, i, size, hdr))
    {
      hide Tiled, Coalesced, FreeTotal, Aligned, Linked, Marked;
      var y, r := Block(blocks[i].addr + hdr + size, false), Carve(blocks, i, size, hdr);
      CarveIsProper(blocks, i, size, start, poolSize, hdr);
      AddrsAreDistinct(r, start, poolSize, hdr);
      assert r[i + 1] == y;
      Remarked(used, blocks, r, y, y);
      assert used[y.addr := false][y.addr := false] == used[y.addr := false];
    }

    /** Take the header of the free block behind `h` off both rings and put `n` in its place. */
    method MoveHeader(h: int, n: int, ghost i: int, ghost r: Layout)
      requires 0 <= i < |blocks| - 1 && blocks[i].addr == h && blocks[i + 1].addr in ring
      requires Linked(next, prev, Addrs(blocks)) && Linked(nextFree, prevFree, [freeList] + ring)
      requires n !in ring && n != freeList && n !in Addrs(blocks)
      requires Addrs(r) == With(Without(Addrs(blocks), i + 1), i, n)
      modifies this`next, this`prev, this`nextFree, this`prevFree, this`ring
      ensures Linked(next, prev, Addrs(r)) && Linked(nextFree, prevFree, [freeList] + ring)
      ensures forall a :: a in ring <==> (a in old(ring) && a != blocks[i + 1].addr) || a == n
    {
      hide Linked, Addrs, With, Without;
      NodeAt(next, prev, Addrs(blocks), i);
      AddrsOfJoined(blocks, i + 1);
      FreshInJoined(blocks, i + 1, n);
      var behind := next[h];
      UnlinkFree(behind);
      RemoveBlock(behind, blocks, i + 1, Joined(blocks, i + 1));
      InsertBlock(h, n, Joined(blocks, i + 1), i, r);
      LinkFree(n);
    }

    /** Move the header of the free block behind `h` up, so that `h` holds `size` bytes. */
    method Grow(h: int, size: int, ghost i: int)
      requires Valid() && Resizable(blocks, i, size, hdr) && blocks[i].addr == h && Size(blocks, i, hdr) < size
      modifies this
      ensures Valid() && blocks == Carve(old(blocks), i, size, hdr) && bytes == Clobber(old(bytes), h + hdr + size, hdr)
      ensures available == old(available) + Resized(old(blocks), i, size, hdr)
      ensures maxUsed == Max(old(maxUsed), poolSize - available)
    {
      hide Proper, FreeTotal, Aligned, Linked, Marked, Clobber, Carve, FreeAt, Addrs, With, Without;
      ItemAt(i);
      CarveFacts(i, size);
      CarveMarks(i, size);
      AddrsOfCarve(blocks, i, size, hdr);
      ghost var r := Carve(blocks, i, size, hdr);
      var n := h + hdr + size;
      available := available - (size - ItemSize(h));
      NoteUse();
      MoveHeader(h, n, i, r);
      used := used[n := false];
      bytes := Clobber(bytes, n, hdr);
      blocks := r;
    }

    /** Merge a free right neighbour into the split-off block `n`. */
    method AbsorbRight(n: int, ghost i: int, ghost size: int)
      requires 0 <= i < |blocks| - 1 && n == blocks[i].addr + hdr + size && (!blocks[i + 1].used ==> i + 2 < |blocks|)
      requires Linked(next, prev, Addrs(Split(blocks, i, size, hdr))) && Linked(nextFree, prevFree, [freeList] + ring)
      requires blocks[i + 1].addr in used && used[blocks[i + 1].addr] == blocks[i + 1].used
      requires !blocks[i + 1].used ==> blocks[i + 1].addr in ring
      modifies this`available, this`next, this`prev, this`nextFree, this`prevFree, this`ring
      ensures available == old(available) - (if blocks[i + 1].used then 0 else Size(blocks, i + 1, hdr))
      ensures Linked(next, prev, Addrs(Carve(blocks, i, size, hdr))) && Linked(nextFree, prevFree, [freeList] + ring)
      ensures forall a :: a in ring <==> a in old(ring) && (blocks[i + 1].used || a != blocks[i + 1].addr)
    {
      hide Linked, Addrs, Joined, Without, With, Split, Carve;
      ghost var mid := Split(blocks, i, size, hdr);
      SplitSteps(blocks, i, size, hdr);
      NodeAt(next, prev, Addrs(mid), i + 1);
      var right := next[n];
      if !used[right] {
        NodeAt(next, prev, Addrs(mid), i + 2);
        available := available - ItemSize(right);
        AddrsOfJoined(mid, i + 2);
        RemoveBlock(right, mid, i + 2, Carve(blocks, i, size, hdr));
        UnlinkFree(right);
      }
    }

    /** Chain `n` behind `h`, merged with a free right neighbour, and put it on the free ring. */
    method SplitOff(h: int, n: int, ghost i: int, ghost size: int)
      requires 0 <= i < |blocks| - 1 && h == blocks[i].addr && n == h + hdr + size
        && (!blocks[i + 1].used ==> i + 2 < |blocks|)
      requires Linked(next, prev, Addrs(blocks)) && Linked(nextFree, prevFree, [freeList] + ring)
      requires blocks[i + 1].addr in used && used[blocks[i + 1].addr] == blocks[i + 1].used
      requires !blocks[i + 1].used ==> blocks[i + 1].addr in ring
      requires n !in ring && n != freeList && n !in Addrs(blocks)
      modifies this`available, this`next, this`prev, this`nextFree, this`prevFree, this`ring
      ensures available == old(available) - (if blocks[i + 1].used then 0 else Size(blocks, i + 1, hdr))
      ensures Linked(next, prev, Addrs(Carve(blocks, i, size, hdr))) && Linked(nextFree, prevFree, [freeList] + ring)
      ensures forall a :: a in ring <==> (a in old(ring) && (blocks[i + 1].used || a != blocks[i + 1].addr)) || a == n
    {
      hide Linked, Addrs, With, Split, Carve, Size;
      SplitSteps(blocks, i, size, hdr);
      InsertBlock(h, n, blocks, i, Split(blocks, i, size, hdr));
      AbsorbRight(n, i, size);
      LinkFree(n);
    }

    /** Cut `h` down to `size` bytes; the rest becomes a free block, merged with a free right neighbour. */
    method Shrink(h: int, size: int, ghost i: int)
      requires Valid() && Resizable(blocks, i, size, hdr) && blocks[i].addr == h && size + hdr < Size(blocks, i, hdr)
      modifies this
      ensures Valid() && blocks == Carve(old(blocks), i, size, hdr) && bytes == Clobber(old(bytes), h + hdr + size, hdr)
      ensures available == old(available) + Resized(old(blocks), i, size, hdr)
      ensures maxUsed == old(maxUsed)
    {
      hide Proper, FreeTotal, Aligned, Linked, Marked, Clobber, Carve, FreeAt, Addrs, With, Without, Split;
      ItemAt(i);
      CarveFacts(i, size);
      CarveMarks(i, size);
      ghost var r := Carve(blocks, i, size, hdr);
      var n := h + size + hdr;
      SplitOff(h, n, i, size);
      used := used[n := false];
      CarvedNext(next, prev, blocks, i, size, hdr);
      available := available + ItemSize(n);
      bytes := Clobber(bytes, n, hdr);
      blocks := r;
    }

    /** Give block `p` another place: allocate, copy, free. */
    method Move(p: int, size: int, ghost i: int) returns (q: int)
      requires Valid() && Representable(size, hdr) && Request(size) == size
      requires 0 <= i < |blocks| - 1 && blocks[i] == Block(p - hdr, true) && Size(blocks, i, hdr) < size
      modifies this
      ensures Valid()
      ensures q == NULL <==> size >= old(available) || TooSmall(old(blocks), size, hdr)
      ensures q == NULL ==> unchanged(this)
      ensures q != NULL ==>
        NotLive(old(blocks), q, hdr) && NotLive(blocks, p, hdr)
          && Holds(blocks, q, size, size + hdr + MINIALLOC - 1, hdr)
      ensures q != NULL ==> Moved(old(bytes), p, bytes, q, Size(old(blocks), i, hdr))
      ensures Untouched(old(blocks), old(bytes), blocks, bytes, hdr, {p})
    {
      hide Proper, FreeTotal, Aligned, Linked, Marked, FreeAt, Addrs, Allocated, Release, LiveAt, FirstFit, TooSmall,
           Moved, Untouched, NotLive, CopiedOver;
      ghost var sz := Size(blocks, i, hdr);
      LiveAtIndex(blocks, i, hdr);
      ItemAt(i);
      ghost var bs, m := blocks, bytes;
      ghost var k;
      var oldsize := ItemSize(p - hdr);
      q, k := Alloc(size);
      UntouchedWeaken(bs, m, blocks, bytes, hdr, p);
      if q != NULL {
        ghost var bs1, mid := blocks, bytes;
        ghost var qsz :| size <= qsz <= size + hdr + MINIALLOC - 1 && LiveAt(blocks, q, qsz, hdr);
        ApartFromNew(bs, m, bs1, mid, start, poolSize, hdr, p, sz, q, qsz);
        bytes := CopyBytes(bytes, q, p, oldsize);
        ghost var m1 := bytes;
        k := Free(p);
        MoveKeeps(bs, m, bs1, mid, m1, blocks, start, poolSize, hdr, p, sz, q, qsz, sz);
      }
    }

    /** rt_memheap_realloc. */
    method Realloc(p: int, n: int) returns (q: int, ghost i: int)
      requires Valid() && Representable(n, hdr)
      requires p != NULL ==> exists sz :: LiveAt(blocks, p, sz, hdr)
      modifies this
      ensures Valid()
      ensures p != NULL ==> 0 <= i < |old(blocks)| - 1 && old(blocks)[i] == Block(p - hdr, true)
      ensures p == NULL && n > 0 ==>
        && (q == NULL <==> Request(n) >= old(available) || TooSmall(old(blocks), Request(n), hdr))
        && (q != NULL ==> NotLive(old(blocks), q, hdr))
      ensures p != NULL && n > 0 ==>
        && (q == NULL <==> !InPlace(old(blocks), i, Request(n), hdr)
                           && (Request(n) >= old(available) || TooSmall(old(blocks), Request(n), hdr)))
        && (q == p <==> InPlace(old(blocks), i, Request(n), hdr))
        && (Request(n) <= Size(old(blocks), i, hdr) ==> q == p)
        && (i + 2 < |old(blocks)| && !old(blocks)[i + 1].used ==>
              Size(old(blocks), i, hdr) + Size(old(blocks), i + 1, hdr) > Request(n) + MINIALLOC ==> q == p)
        && (q != NULL ==> Moved(old(bytes), p, bytes, q, Min(Size(old(blocks), i, hdr), Request(n))))
        && (q != p && q != NULL ==> NotLive(old(blocks), q, hdr) && NotLive(blocks, p, hdr))
      ensures n == 0 ==> q == NULL && bytes == old(bytes) && (p != NULL ==> blocks == Release(old(blocks), i))
      ensures n > 0 && q != NULL ==> Holds(blocks, q, Request(n), Request(n) + hdr + MINIALLOC, hdr)
      ensures p != NULL && n > 0 && q == p ==>
        if LittleLeft(old(blocks), i, Request(n), hdr) then unchanged(this)
        else Holds(blocks, p, Request(n), Request(n), hdr)
             && available == old(available) + Resized(old(blocks), i, Request(n), hdr)
             && maxUsed == Max(old(maxUsed), poolSize - available)
      ensures n > 0 && q == NULL ==> unchanged(this)
      ensures Untouched(old(blocks), old(bytes), blocks, bytes, hdr, {p})
    {
      hide Proper, FreeTotal, Aligned, Linked, Marked, FreeAt, Addrs, Allocated, Release, LiveAt, FirstFit, TooSmall,
           Moved, Untouched, NotLive, Clobber, Carve;
      if n == 0 {
        i := Free(p);
        return NULL, i;
      }
      var newsize := Request(n);
      RequestAgain(n);
      if p == NULL {
        ghost var bs, m := blocks, bytes;
        q, i := Alloc(newsize);
        UntouchedWeaken(bs, m, blocks, bytes, hdr, p);
        return;
      }
      ghost var sz :| LiveAt(blocks, p, sz, hdr);
      i := LiveBlock(blocks, p, sz, hdr);
      ItemAt(i);
      var h := p - hdr;
      var oldsize := ItemSize(h);
      if newsize > oldsize {
        if !used[next[h]] {
          ItemBehind(i);
          if ItemSize(next[h]) + oldsize > newsize + MINIALLOC {
            CarveKeeps(blocks, start, poolSize, i, newsize, bytes, hdr);
            HoldsMore(Carve(blocks, i, newsize, hdr), p, newsize, newsize, newsize, newsize + hdr + MINIALLOC, hdr);
            Grow(h, newsize, i);
            return p, i;
          }
        }
        ghost var bs := blocks;
        q := Move(p, newsize, i);
        if q != NULL { NotLiveIsOther(bs, q, p, sz, hdr); }
        return;
      }
      q := p;
      if newsize + hdr + MINIALLOC >= oldsize {
        KeepAsIs(blocks, bytes, i, newsize, hdr);
        HoldsMore(blocks, p, oldsize, oldsize, newsize, newsize + hdr + MINIALLOC, hdr);
      } else {
        ItemBehind(i);
        CarveKeeps(blocks, start, poolSize, i, newsize, bytes, hdr);
        HoldsMore(Carve(blocks, i, newsize, hdr), p, newsize, newsize, newsize, newsize + hdr + MINIALLOC, hdr);
        Shrink(h, newsize, i);
      }
    }

    lemma ItemBehind(i: int)
      requires Valid() && 0 <= i < |blocks| - 1
      ensures !blocks[i + 1].used ==>
        i + 2 < |blocks| && blocks[i + 1].addr in next && ItemSize(blocks[i + 1].addr) == Size(blocks, i + 1, hdr) >= 0
    {
      hide Tiled, Coalesced, FreeTotal, Aligned, Linked, Marked;
      NeighboursOf(blocks, i, start, poolSize, hdr);
      if !blocks[i + 1].used { ItemAt(i + 1); }
    }

    /** Freeing what was just allocated restores the tiling and the free bytes. */
    method AllocThenFree(n: int)
      requires Valid() && Representable(n, hdr)
      modifies this
      ensures Valid() && blocks == old(blocks) && available == old(available)
    {
      hide Proper, FreeTotal, Aligned, Linked, Marked, FreeAt, Addrs, LiveAt, TooSmall, Untouched, NotLive, Release,
           Take, Mark;
      ghost var i, j;
      ghost var bs := blocks;
      var p;
      p, i := Alloc(n);
      if p != NULL {
        ReleaseUndoesTake(bs, i, Request(n), start, poolSize, hdr);
        ghost var mid := blocks;
        j := Free(p);
        SameIndex(bs, mid, i, j, Request(n), start, poolSize, hdr);
      }
    }
  }

  /** Whether a block holds enough, and too little more to split it. */
  ghost predicate LittleLeft(bs: Layout, i: int, size: int, hdr: int)
    requires 0 <= i < |bs| - 1
  {
    size <= Size(bs, i, hdr) <= size + hdr + MINIALLOC
  }

  /**
   The free bytes gained when used block `i` is given `size` bytes in place: a new header costs, a moved one does
   not.
   */
  ghost function Resized(bs: Layout, i: int, size: int, hdr: int): (gain: int)
    requires 0 <= i < |bs| - 1
  {
    Size(bs, i, hdr) - size - if bs[i + 1].used then hdr else 0
  }

  /** Whether a resize leaves the block where it is. */
  ghost predicate InPlace(bs: Layout, i: int, size: int, hdr: int)
    requires 0 <= i < |bs| - 1
  {
    || size <= Size(bs, i, hdr)
    || (i + 2 < |bs| && !bs[i + 1].used && Size(bs, i + 1, hdr) + Size(bs, i, hdr) > size + MINIALLOC)
  }

  lemma RequestAgain(n: int)
    ensures Request(Request(n)) == Request(n)
  {
    var r := Request(n);
    assert r == ALIGN * (r / ALIGN);
  }

  lemma SameIndex(bs: Layout, mid: Layout, i: int, j: int, size: int, start: int, pool: int, hdr: int)
    requires 0 <= i < |bs| - 1 && mid == Allocated(bs, i, size, hdr) && Proper(mid, start, pool, hdr)
    requires 0 <= j < |mid| && mid[j].addr == bs[i].addr
    ensures j == i
  {
    Apart(mid, start, pool, hdr);
    assert mid[i].addr == bs[i].addr;
  }

  lemma FreshInJoined(bs: Layout, i: int, n: int)
    requires 0 <= i < |bs| && n !in Addrs(bs)
    ensures n !in Addrs(Joined(bs, i))
  {
    AddrsOfJoined(bs, i);
  }

  /** The layout with the rest of block `i` split off but not merged yet. */
  ghost function Split(bs: Layout, i: int, size: int, hdr: int): (r: Layout)
    requires 0 <= i < |bs|
  {
    bs[..i + 1] + [Block(bs[i].addr + hdr + size, false)] + bs[i + 1..]
  }

  lemma SplitSteps(bs: Layout, i: int, size: int, hdr: int)
    requires 0 <= i < |bs| - 1
    ensures var mid := Split(bs, i, size, hdr);
      && |mid| == |bs| + 1 && mid[i] == bs[i] && mid[i + 1] == Block(bs[i].addr + hdr + size, false)
      && mid[i + 2] == bs[i + 1] && (i + 2 < |bs| ==> mid[i + 3] == bs[i + 2])
      && Addrs(mid) == With(Addrs(bs), i, bs[i].addr + hdr + size)
      && Carve(bs, i, size, hdr) == if bs[i + 1].used then mid else Joined(mid, i + 2)
  {
    var mid := Split(bs, i, size, hdr);
    assert bs[..i + 1] == bs[..i] + [bs[i]];
    assert Joined(mid, i + 2) == bs[..i + 1] + [Block(bs[i].addr + hdr + size, false)] + bs[i + 2..];
  }

  lemma TakeBlocks(bs: Layout, i: int, size: int, hdr: int)
    requires 0 <= i < |bs|
    ensures var x, y, r := Block(bs[i].addr, true), Block(bs[i].addr + size + hdr, false), Take(bs, i, size, hdr);
      x in r && y in r && (forall b :: b in r ==> b in bs || b == y || b == x) && r[i + 1] == y
  {
    var r := Take(bs, i, size, hdr);
    assert r[i] == Block(bs[i].addr, true);
  }

  lemma MarkBlocks(bs: Layout, i: int, used: bool)
    requires 0 <= i < |bs|
    ensures var x, r := Block(bs[i].addr, used), Mark(bs, i, used);
      x in r && forall b :: b in r ==> b in bs || b == x
  {
    assert Mark(bs, i, used)[i] == Block(bs[i].addr, used);
  }

  /** An address strictly between two headers is no header. */
  lemma FreshBetween(bs: Layout, i: int, n: int, start: int, pool: int, hdr: int)
    requires Proper(bs, start, pool, hdr) && 0 <= i < |bs| - 1 && bs[i].addr < n < bs[i + 1].addr
    ensures n !in Addrs(bs) && !FreeAt(bs, n)
  {
    Apart(bs, start, pool, hdr);
  }

  lemma FitIsNotTooSmall(bs: Layout, i: int, size: int, hdr: int)
    requires 0 <= i < |bs| - 1 && !bs[i].used && Size(bs, i, hdr) >= size
    ensures !TooSmall(bs, size, hdr)
  {
  }

  lemma InPool(bs: Layout, i: int, start: int, pool: int, hdr: int)
    requires Proper(bs, start, pool, hdr) && 0 <= i < |bs|
    ensures start <= bs[i].addr <= start + pool - hdr
  {
    if i > 0 { Increasing(bs, start, pool, hdr, 0, i); }
    if i < |bs| - 1 { Increasing(bs, start, pool, hdr, i, |bs| - 1); }
  }

  lemma SmallerNone(bs: Layout, size: int, hdr: int)
    ensures Smaller(bs, [], size, hdr)
  {
  }

  lemma SmallerOneMore(bs: Layout, start: int, pool: int, addrs: seq<int>, i: int, size: int, hdr: int)
    requires Proper(bs, start, pool, hdr) && Smaller(bs, addrs, size, hdr)
    requires 0 <= i < |bs| - 1 && Size(bs, i, hdr) < size
    ensures Smaller(bs, addrs + [bs[i].addr], size, hdr)
  {
    Apart(bs, start, pool, hdr);
  }

  /** All free blocks are in the list, so all being smaller there means all are. */
  lemma SmallerAll(bs: Layout, ring: seq<int>, size: int, hdr: int)
    requires Smaller(bs, ring, size, hdr) && forall a :: FreeAt(bs, a) ==> a in ring
    ensures TooSmall(bs, size, hdr)
  {
    forall j | 0 <= j < |bs| - 1 && !bs[j].used
      ensures Size(bs, j, hdr) < size
    {
      assert FreeAt(bs, bs[j].addr);
    }
  }

  lemma InitialLayout(start: int, pool: int, hdr: int)
    requires start > 0 && hdr > 0 && Aligned(hdr) && Aligned(pool) && 2 * hdr <= pool
    ensures var bs := [Block(start, false), Block(start + pool - hdr, true)];
      Proper(bs, start, pool, hdr) && FreeTotal(bs, hdr) == pool - 2 * hdr
  {
    hide FreeTotal, Aligned;
    var bs := [Block(start, false), Block(start + pool - hdr, true)];
    assert bs == [bs[0]] + [bs[1]];
    TotalOfOne(bs[0], bs[1], hdr);
    AlignedDifference(pool, hdr);
    AlignedDifference(pool, pool);
  }

  lemma InitialMarks(a: int, b: int)
    requires a != b
    ensures var bs := [Block(a, false), Block(b, true)];
      Addrs(bs) == [a, b] && Marked(map[a := false, b := true], bs) && forall x :: x in [a] <==> FreeAt(bs, x)
  {
  }

  lemma InitialRing(a: int, b: int)
    requires a != b
    ensures var m := map[a := b, b := a]; Linked(m, m, [a, b])
  {
    var m := map[a := b, b := a];
    var r := [a, b];
    assert FwdAt(m, r, 0) && FwdAt(m, r, 1) && BwdAt(m, r, 0) && BwdAt(m, r, 1);
  }

  lemma WithoutElems(r: seq<int>, k: int)
    requires 0 <= k < |r| && Distinct(r)
    ensures forall x :: x in Without(r, k) <==> x in r && x != r[k]
  {
    var s := Without(r, k);
    forall x | x in r && x != r[k]
      ensures x in s
    {
      var j := IndexOf(r, x);
      assert s[if j < k then j else j - 1] == x;
    }
  }

  lemma DistinctTail(h: int, ring: seq<int>)
    requires Distinct([h] + ring)
    ensures Distinct(ring)
  {
    var r := [h] + ring;
    assert forall k :: 0 <= k < |ring| ==> r[k + 1] == ring[k];
  }

  lemma RingHead(fwd: Links, bwd: Links, h: int, ring: seq<int>)
    requires Linked(fwd, bwd, [h] + ring)
    ensures h !in ring
  {
    var r := [h] + ring;
    forall k | 0 <= k < |ring|
      ensures ring[k] != h
    {
      assert r[0] != r[k + 1];
    }
  }
}
