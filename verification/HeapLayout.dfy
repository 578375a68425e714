/**
 The block layout of a boundary-tag heap, as a sequence of blocks in address order: what
 splitting, merging and carving do to the tiling, the free bytes and the live blocks.
 */
module HeapLayout {

  const ALIGN := 4

  predicate Aligned(n: int) { n % ALIGN == 0 }

  lemma AlignedSum(x: int, y: int)
    requires Aligned(x) && Aligned(y)
    ensures Aligned(x + y)
  {
    assert x + y == ALIGN * (x / ALIGN + y / ALIGN);
  }

  lemma RoundedDown(x: int)
    ensures Aligned(x - x % ALIGN)
  {
    assert x - x % ALIGN == ALIGN * (x / ALIGN);
  }

  lemma AlignedDifference(x: int, y: int)
    requires Aligned(x) && Aligned(y)
    ensures Aligned(x - y)
  {
    assert x - y == ALIGN * (x / ALIGN - y / ALIGN);
  }

  /** RT_ALIGN(n, RT_ALIGN_SIZE). */
  function AlignUp(n: int): (r: int)
    ensures n <= r < n + ALIGN && Aligned(r)
  {
    (n + ALIGN - 1) / ALIGN * ALIGN
  }

  /** A block header: its address and whether the block is in use. */
  datatype Block = Block(addr: int, used: bool)

  type Layout = seq<Block>

  /** The payload size of block `i`: up to the next header. */
  function Size(bs: Layout, i: int, hdr: int): (n: int)
    requires 0 <= i < |bs| - 1
  {
    bs[i + 1].addr - bs[i].addr - hdr
  }

  /** The blocks tile the pool from `start` to the used tail header at its end. */
  ghost predicate Tiled(bs: Layout, start: int, pool: int, hdr: int) {
    && |bs| >= 2 && bs[0].addr == start && bs[|bs| - 1] == Block(start + pool - hdr, true)
    && (forall i :: 0 <= i < |bs| - 1 ==> bs[i].addr + hdr <= bs[i + 1].addr)
    && (forall i :: 0 <= i < |bs| ==> Aligned(bs[i].addr - start))
  }

  /** No two neighbours are free. */
  ghost predicate Coalesced(bs: Layout) {
    forall i :: 0 <= i < |bs| - 1 ==> bs[i].used || bs[i + 1].used
  }

  lemma {:induction false} Increasing(bs: Layout, start: int, pool: int, hdr: int, i: int, j: int)
    requires Tiled(bs, start, pool, hdr) && 0 <= i < j < |bs|
    ensures bs[i].addr + hdr <= bs[j].addr
    requires hdr > 0
    decreases j - i
  {
    if i + 1 < j {
      Increasing(bs, start, pool, hdr, i + 1, j);
    }
  }

  // ------------------------------------------------------------- free bytes

  /** The total payload of the free blocks, not counting the last header. */
  function FreeTotal(bs: Layout, hdr: int): (n: int) {
    if |bs| < 2 then 0
    else (if bs[0].used then 0 else bs[1].addr - bs[0].addr - hdr) + FreeTotal(bs[1..], hdr)
  }

  /** The total splits at any block. */
  lemma {:induction false} TotalSplits(bs: Layout, k: int, hdr: int)
    requires 0 <= k < |bs|
    ensures FreeTotal(bs, hdr) == FreeTotal(bs[..k + 1], hdr) + FreeTotal(bs[k..], hdr)
  {
    if k == 0 {
      assert bs[0..] == bs;
    } else {
      TotalSplits(bs[1..], k - 1, hdr);
      assert bs[1..][..k] == bs[..k + 1][1..];
      assert bs[1..][k - 1..] == bs[k..];
    }
  }

  /** The last header of a sequence only counts with its address. */
  lemma {:induction false} TotalOfLast(a: Layout, x: Block, y: Block, hdr: int)
    requires x.addr == y.addr
    ensures FreeTotal(a + [x], hdr) == FreeTotal(a + [y], hdr)
  {
    if a != [] {
      TotalOfLast(a[1..], x, y, hdr);
      assert (a + [x])[1..] == a[1..] + [x];
      assert (a + [y])[1..] == a[1..] + [y];
    }
  }

  /** Replacing some blocks in the middle changes the total by what they contribute. */
  lemma TotalReplaced(a: Layout, m: Layout, n: Layout, b: Layout, hdr: int)
    requires |m| > 0 && |n| > 0 && |b| > 0 && m[0].addr == n[0].addr
    ensures FreeTotal(a + n + b, hdr) - FreeTotal(a + m + b, hdr)
         == FreeTotal(n + [b[0]], hdr) - FreeTotal(m + [b[0]], hdr)
  {
    TotalAround(a, m, b, hdr);
    TotalAround(a, n, b, hdr);
    TotalOfLast(a, m[0], n[0], hdr);
  }

  lemma TotalAround(a: Layout, m: Layout, b: Layout, hdr: int)
    requires |m| > 0 && |b| > 0
    ensures FreeTotal(a + m + b, hdr)
         == FreeTotal(a + [m[0]], hdr) + FreeTotal(m + [b[0]], hdr) + FreeTotal(b, hdr)
  {
    hide FreeTotal;
    var s := a + m + b;
    TotalSplits(s, |a|, hdr);
    assert s[..|a| + 1] == a + [m[0]];
    assert s[|a|..] == m + b;
    TotalSplits(m + b, |m|, hdr);
    assert (m + b)[..|m| + 1] == m + [b[0]];
    assert (m + b)[|m|..] == b;
  }

  lemma TotalOfOne(x: Block, z: Block, hdr: int)
    ensures FreeTotal([x] + [z], hdr) == if x.used then 0 else z.addr - x.addr - hdr
  {
    assert ([x] + [z])[1..] == [z];
  }

  lemma TotalOfTwo(x: Block, y: Block, z: Block, hdr: int)
    ensures FreeTotal([x, y] + [z], hdr)
         == (if x.used then 0 else y.addr - x.addr - hdr) + (if y.used then 0 else z.addr - y.addr - hdr)
  {
    assert ([x, y] + [z])[1..] == [y] + [z];
    TotalOfOne(y, z, hdr);
  }

  lemma TotalOfThree(x: Block, y: Block, w: Block, z: Block, hdr: int)
    ensures FreeTotal([x, y, w] + [z], hdr)
         == (if x.used then 0 else y.addr - x.addr - hdr) + (if y.used then 0 else w.addr - y.addr - hdr)
          + (if w.used then 0 else z.addr - w.addr - hdr)
  {
    assert ([x, y, w] + [z])[1..] == [y, w] + [z];
    TotalOfTwo(y, w, z, hdr);
  }

  // ------------------------------------------------------------ free blocks

  /** A free block starts at `a`. */
  predicate FreeAt(bs: Layout, a: int) { Block(a, false) in bs }

  // ------------------------------------------------------------ live blocks

  /** A block in use, other than the tail, has its payload at `p`, `n` bytes long. */
  ghost predicate LiveAt(bs: Layout, p: int, n: int, hdr: int) {
    exists j :: 0 <= j < |bs| - 1 && LiveIndex(bs, j, p, n, hdr)
  }

  ghost predicate NotLive(bs: Layout, p: int, hdr: int) {
    forall sz :: !LiveAt(bs, p, sz, hdr)
  }

  ghost predicate LiveIndex(bs: Layout, j: int, p: int, n: int, hdr: int)
    requires 0 <= j < |bs| - 1
  {
    bs[j].used && bs[j].addr + hdr == p && Size(bs, j, hdr) == n
  }

  // --------------------------------------------------------------- the edits

  /** Taking the header of block `i` out joins it to the block before. */
  function Joined(bs: Layout, i: int): (r: Layout)
    requires 0 <= i < |bs|
  {
    bs[..i] + bs[i + 1..]
  }

  /** Allocating `size` bytes from free block `i`, leaving the rest as a free block. */
  function Take(bs: Layout, i: int, size: int, hdr: int): (r: Layout)
    requires 0 <= i < |bs|
  {
    bs[..i] + [Block(bs[i].addr, true), Block(bs[i].addr + size + hdr, false)] + bs[i + 1..]
  }

  /** Changing the mark of block `i`. */
  function Mark(bs: Layout, i: int, used: bool): (r: Layout)
    requires 0 <= i < |bs|
  {
    bs[..i] + [Block(bs[i].addr, used)] + bs[i + 1..]
  }

  /** Freeing block `i`, merging it with its free neighbours. */
  function Release(bs: Layout, i: int): (r: Layout)
    requires 0 <= i < |bs| - 1
  {
    var left := i > 0 && !bs[i - 1].used;
    var right := !bs[i + 1].used;
    bs[..if left then i - 1 else i]
    + [Block(if left then bs[i - 1].addr else bs[i].addr, false)]
    + bs[if right then i + 2 else i + 1..]
  }

  /** Resizing used block `i` in place to `size` bytes; the rest joins a free right neighbour. */
  function Carve(bs: Layout, i: int, size: int, hdr: int): (r: Layout)
    requires 0 <= i < |bs| - 1
  {
    bs[..i]
    + [bs[i], Block(bs[i].addr + hdr + size, false)]
    + bs[if bs[i + 1].used then i + 1 else i + 2..]
  }

  // ------------------------------------------------------ what the edits keep

  /** A layout every operation starts from and ends in. */
  ghost predicate Proper(bs: Layout, start: int, pool: int, hdr: int) {
    hdr > 0 && Aligned(hdr) && Tiled(bs, start, pool, hdr) && Coalesced(bs)
  }

  /** Headers stand apart by at least a header. */
  lemma Apart(bs: Layout, start: int, pool: int, hdr: int)
    requires hdr > 0 && Tiled(bs, start, pool, hdr)
    ensures forall i, j :: 0 <= i < j < |bs| ==> bs[i].addr + hdr <= bs[j].addr
  {
    forall i, j | 0 <= i < j < |bs|
      ensures bs[i].addr + hdr <= bs[j].addr
    {
      Increasing(bs, start, pool, hdr, i, j);
    }
  }

  /** Blocks `n`, ending before block `z`, are laid out as a stretch of a tiling. */
  ghost predicate Stretch(n: Layout, z: Block, start: int, hdr: int) {
    && |n| > 0
    && (forall k :: 0 <= k < |n| - 1 ==> n[k].addr + hdr <= n[k + 1].addr && (n[k].used || n[k + 1].used))
    && n[|n| - 1].addr + hdr <= z.addr && (n[|n| - 1].used || z.used)
    && (forall k :: 0 <= k < |n| ==> Aligned(n[k].addr - start))
  }

  /** Replacing the blocks between `a` and `b` by another stretch from the same address on. */
  lemma SpliceTiled(a: Layout, m: Layout, n: Layout, b: Layout, start: int, pool: int, hdr: int)
    requires |m| > 0 && |b| > 0 && Tiled(a + m + b, start, pool, hdr)
    requires Stretch(n, b[0], start, hdr) && n[0].addr == m[0].addr
    ensures Tiled(a + n + b, start, pool, hdr)
  {
    hide Aligned;
    var s, r := a + m + b, a + n + b;
    forall k | 0 <= k < |r|
      ensures Aligned(r[k].addr - start)
    {
      if k < |a| {
        assert r[k] == s[k];
      } else if k < |a| + |n| {
        assert r[k] == n[k - |a|];
      } else {
        assert r[k] == s[k - |n| + |m|];
      }
    }
    forall k | 0 <= k < |r| - 1
      ensures r[k].addr + hdr <= r[k + 1].addr
    {
      SpliceGap(a, m, n, b, start, pool, hdr, k);
    }
    assert r[0].addr == s[0].addr;
    assert r[|r| - 1] == s[|s| - 1];
  }

  lemma SpliceGap(a: Layout, m: Layout, n: Layout, b: Layout, start: int, pool: int, hdr: int, k: int)
    requires |m| > 0 && |b| > 0 && Tiled(a + m + b, start, pool, hdr)
    requires Stretch(n, b[0], start, hdr) && n[0].addr == m[0].addr
    requires 0 <= k < |a + n + b| - 1
    ensures (a + n + b)[k].addr + hdr <= (a + n + b)[k + 1].addr
  {
    hide Aligned;
    var s, r := a + m + b, a + n + b;
    if k < |a| - 1 {
      assert r[k] == s[k] && r[k + 1] == s[k + 1];
    } else if k == |a| - 1 {
      assert r[k] == s[k] && r[k + 1] == n[0] && s[k + 1] == m[0];
    } else if k < |a| + |n| - 1 {
      assert r[k] == n[k - |a|] && r[k + 1] == n[k - |a| + 1];
    } else if k == |a| + |n| - 1 {
      assert r[k] == n[|n| - 1] && r[k + 1] == b[0];
    } else {
      var t := k - |n| + |m|;
      assert r[k] == s[t] && r[k + 1] == s[t + 1];
    }
  }

  lemma SpliceCoalesced(a: Layout, m: Layout, n: Layout, b: Layout, start: int, hdr: int)
    requires |m| > 0 && |b| > 0 && Coalesced(a + m + b)
    requires Stretch(n, b[0], start, hdr)
    requires |a| > 0 ==> a[|a| - 1].used || n[0].used
    ensures Coalesced(a + n + b)
  {
    var s, r := a + m + b, a + n + b;
    forall k | 0 <= k < |r| - 1
      ensures r[k].used || r[k + 1].used
    {
      if k < |a| - 1 {
        assert r[k] == s[k] && r[k + 1] == s[k + 1];
      } else if k == |a| - 1 {
        assert r[k] == a[k] && r[k + 1] == n[0];
      } else if k < |a| + |n| - 1 {
        assert r[k] == n[k - |a|] && r[k + 1] == n[k - |a| + 1];
      } else if k == |a| + |n| - 1 {
        assert r[k] == n[|n| - 1] && r[k + 1] == b[0];
      } else {
        var t := k - |n| + |m|;
        assert r[k] == s[t] && r[k + 1] == s[t + 1];
      }
    }
  }

  /** Both at once. */
  lemma SpliceIsProper(a: Layout, m: Layout, n: Layout, b: Layout, start: int, pool: int, hdr: int)
    requires |m| > 0 && |b| > 0 && Proper(a + m + b, start, pool, hdr)
    requires Stretch(n, b[0], start, hdr) && n[0].addr == m[0].addr
    requires |a| > 0 ==> a[|a| - 1].used || n[0].used
    ensures Proper(a + n + b, start, pool, hdr)
  {
    SpliceTiled(a, m, n, b, start, pool, hdr);
    SpliceCoalesced(a, m, n, b, start, hdr);
  }

  /** The free blocks outside the replaced stretch stay, those of the new stretch are added. */
  lemma SpliceFreeAt(a: Layout, m: Layout, n: Layout, b: Layout, start: int, pool: int, hdr: int)
    requires |m| > 0 && hdr > 0 && Tiled(a + m + b, start, pool, hdr)
    ensures forall x :: FreeAt(a + n + b, x) <==> FreeAt(n, x) || (FreeAt(a + m + b, x) && !FreeAt(m, x))
  {
    var s := a + m + b;
    Apart(s, start, pool, hdr);
    forall x | FreeAt(m, x)
      ensures !FreeAt(a, x) && !FreeAt(b, x)
    {
      var j :| 0 <= j < |m| && m[j] == Block(x, false);
      assert s[|a| + j] == m[j];
      forall k | 0 <= k < |a|
        ensures a[k].addr != x
      {
        assert s[k] == a[k];
      }
      forall k | 0 <= k < |b|
        ensures b[k].addr != x
      {
        assert s[|a| + |m| + k] == b[k];
      }
    }
  }

  // ---- allocation

  lemma TakeIsProper(bs: Layout, i: int, size: int, start: int, pool: int, hdr: int)
    requires Proper(bs, start, pool, hdr) && 0 <= i < |bs| - 1 && !bs[i].used
    requires 0 <= size && Aligned(size) && size + hdr <= Size(bs, i, hdr)
    ensures Proper(Take(bs, i, size, hdr), start, pool, hdr)
    ensures FreeTotal(Take(bs, i, size, hdr), hdr) == FreeTotal(bs, hdr) - size - hdr
    ensures forall a :: FreeAt(Take(bs, i, size, hdr), a) <==>
                        (FreeAt(bs, a) && a != bs[i].addr) || a == bs[i].addr + size + hdr
  {
    hide FreeTotal, Tiled, Coalesced, Aligned;
    NeighboursOf(bs, i, start, pool, hdr);
    var x, y := Block(bs[i].addr, true), Block(bs[i].addr + size + hdr, false);
    assert bs == bs[..i] + [bs[i]] + bs[i + 1..];
    TotalReplaced(bs[..i], [bs[i]], [x, y], bs[i + 1..], hdr);
    TotalOfOne(bs[i], bs[i + 1], hdr);
    TotalOfTwo(x, y, bs[i + 1], hdr);
    AlignedSum(bs[i].addr - start, size);
    AlignedSum(bs[i].addr - start + size, hdr);
    SpliceIsProper(bs[..i], [bs[i]], [x, y], bs[i + 1..], start, pool, hdr);
    SpliceFreeAt(bs[..i], [bs[i]], [x, y], bs[i + 1..], start, pool, hdr);
  }

  /** What being in a proper layout says about a block and its neighbours. */
  lemma NeighboursOf(bs: Layout, i: int, start: int, pool: int, hdr: int)
    requires Proper(bs, start, pool, hdr) && 0 <= i < |bs| - 1
    ensures Aligned(bs[i].addr - start) && Aligned(bs[i + 1].addr - start)
    ensures Size(bs, i, hdr) >= 0
    ensures bs[i].used || bs[i + 1].used
    ensures i > 0 ==> (bs[i - 1].used || bs[i].used) && Size(bs, i - 1, hdr) >= 0 && Aligned(bs[i - 1].addr - start)
    ensures !bs[i + 1].used ==>
      i + 2 < |bs| && bs[i + 2].used && Size(bs, i + 1, hdr) >= 0 && Aligned(bs[i + 2].addr - start)
  {
  }

  lemma MarkIsProper(bs: Layout, i: int, start: int, pool: int, hdr: int)
    requires Proper(bs, start, pool, hdr) && 0 <= i < |bs| - 1 && !bs[i].used
    ensures Proper(Mark(bs, i, true), start, pool, hdr)
    ensures FreeTotal(Mark(bs, i, true), hdr) == FreeTotal(bs, hdr) - Size(bs, i, hdr)
    ensures forall a :: FreeAt(Mark(bs, i, true), a) <==> FreeAt(bs, a) && a != bs[i].addr
  {
    hide FreeTotal, Tiled, Coalesced, Aligned;
    NeighboursOf(bs, i, start, pool, hdr);
    var x := Block(bs[i].addr, true);
    assert bs == bs[..i] + [bs[i]] + bs[i + 1..];
    TotalReplaced(bs[..i], [bs[i]], [x], bs[i + 1..], hdr);
    TotalOfOne(bs[i], bs[i + 1], hdr);
    TotalOfOne(x, bs[i + 1], hdr);
    SpliceIsProper(bs[..i], [bs[i]], [x], bs[i + 1..], start, pool, hdr);
    SpliceFreeAt(bs[..i], [bs[i]], [x], bs[i + 1..], start, pool, hdr);
  }

  // ---- release

  /** What a release adds to the free bytes: the payload, and a header for every merge. */
  function Gain(bs: Layout, i: int, hdr: int): (n: int)
    requires 0 <= i < |bs| - 1
  {
    Size(bs, i, hdr) + (if i > 0 && !bs[i - 1].used then hdr else 0) + (if bs[i + 1].used then 0 else hdr)
  }

  lemma ReleaseIsProper(bs: Layout, i: int, start: int, pool: int, hdr: int)
    requires Proper(bs, start, pool, hdr) && 0 <= i < |bs| - 1 && bs[i].used
    ensures Proper(Release(bs, i), start, pool, hdr)
    ensures FreeTotal(Release(bs, i), hdr) == FreeTotal(bs, hdr) + Gain(bs, i, hdr)
    ensures forall a :: FreeAt(Release(bs, i), a) <==>
                        (FreeAt(bs, a) && a != bs[i + 1].addr) || a == if i > 0 && !bs[i - 1].used then bs[i - 1].addr
                          else bs[i].addr
  {
    hide FreeTotal, Tiled, Coalesced, Aligned, FreeAt;
    NeighboursOf(bs, i, start, pool, hdr);
    var left, right := i > 0 && !bs[i - 1].used, !bs[i + 1].used;
    var lo, hi := if left then i - 1 else i, if right then i + 2 else i + 1;
    if lo > 0 { NeighboursOf(bs, lo, start, pool, hdr); }
    var x := Block(bs[lo].addr, false);
    var a, m, b := bs[..lo], bs[lo..hi], bs[hi..];
    InThree(bs, lo, hi);
    assert m[0] == bs[lo] && b[0] == bs[hi];
    assert Release(bs, i) == a + [x] + b;
    ReleaseTotal(bs, i, lo, hi, hdr);
    SpliceIsProper(a, m, [x], b, start, pool, hdr);
    ReleaseFreeAt(bs, i, start, pool, hdr);
  }

  lemma InThree(bs: Layout, lo: int, hi: int)
    requires 0 <= lo <= hi <= |bs|
    ensures bs == bs[..lo] + bs[lo..hi] + bs[hi..]
  {
  }

  lemma ReleaseFreeAt(bs: Layout, i: int, start: int, pool: int, hdr: int)
    requires Proper(bs, start, pool, hdr) && 0 <= i < |bs| - 1 && bs[i].used
    ensures forall a :: FreeAt(Release(bs, i), a) <==>
                        (FreeAt(bs, a) && a != bs[i + 1].addr) || a == if i > 0 && !bs[i - 1].used then bs[i - 1].addr
                          else bs[i].addr
  {
    hide Tiled, Coalesced, Aligned;
    NeighboursOf(bs, i, start, pool, hdr);
    var lo := if i > 0 && !bs[i - 1].used then i - 1 else i;
    var hi := if bs[i + 1].used then i + 1 else i + 2;
    var x := Block(bs[lo].addr, false);
    var a, m, b := bs[..lo], bs[lo..hi], bs[hi..];
    InThree(bs, lo, hi);
    assert Release(bs, i) == a + [x] + b;
    SpliceFreeAt(a, m, [x], b, start, pool, hdr);
    ReleasedStretch(bs, i, lo, hi, start, pool, hdr);
  }

  /** The free blocks that a release swallows are its free neighbours. */
  lemma ReleasedStretch(bs: Layout, i: int, lo: int, hi: int, start: int, pool: int, hdr: int)
    requires Proper(bs, start, pool, hdr) && 0 <= i < |bs| - 1 && bs[i].used
    requires lo == if i > 0 && !bs[i - 1].used then i - 1 else i
    requires hi == if bs[i + 1].used then i + 1 else i + 2
    ensures forall a :: FreeAt(bs, a) && FreeAt(bs[lo..hi], a) ==> a == bs[i + 1].addr || (lo < i && a == bs[lo].addr)
    ensures !bs[i + 1].used ==> FreeAt(bs[lo..hi], bs[i + 1].addr)
    ensures bs[i + 1].used ==> !FreeAt(bs, bs[i + 1].addr)
  {
    Apart(bs, start, pool, hdr);
    if !bs[i + 1].used {
      assert bs[lo..hi][i + 1 - lo] == bs[i + 1];
    } else {
      assert forall k :: 0 <= k < |bs| && k != i + 1 ==> bs[k].addr != bs[i + 1].addr;
    }
  }

  lemma ReleaseTotal(bs: Layout, i: int, lo: int, hi: int, hdr: int)
    requires 0 <= i < |bs| - 1 && bs[i].used
    requires lo == if i > 0 && !bs[i - 1].used then i - 1 else i
    requires hi == (if bs[i + 1].used then i + 1 else i + 2) && hi < |bs|
    ensures FreeTotal(Release(bs, i), hdr) == FreeTotal(bs, hdr) + Gain(bs, i, hdr)
  {
    hide FreeTotal;
    var x := Block(bs[lo].addr, false);
    InThree(bs, lo, hi);
    TotalReplaced(bs[..lo], bs[lo..hi], [x], bs[hi..], hdr);
    TotalOfOne(x, bs[hi], hdr);
    if lo < i && hi == i + 2 {
      assert bs[lo..hi] == [bs[i - 1], bs[i], bs[i + 1]];
      TotalOfThree(bs[i - 1], bs[i], bs[i + 1], bs[hi], hdr);
    } else if lo < i {
      assert bs[lo..hi] == [bs[i - 1], bs[i]];
      TotalOfTwo(bs[i - 1], bs[i], bs[hi], hdr);
    } else if hi == i + 2 {
      assert bs[lo..hi] == [bs[i], bs[i + 1]];
      TotalOfTwo(bs[i], bs[i + 1], bs[hi], hdr);
    } else {
      assert bs[lo..hi] == [bs[i]];
      TotalOfOne(bs[i], bs[hi], hdr);
    }
  }

  // ---- resizing in place

  lemma CarveIsProper(bs: Layout, i: int, size: int, start: int, pool: int, hdr: int)
    requires Proper(bs, start, pool, hdr) && 0 <= i < |bs| - 1 && bs[i].used
    requires 0 <= size && Aligned(size)
    requires bs[i + 1].used ==> size + hdr <= Size(bs, i, hdr)
    requires !bs[i + 1].used ==> i + 2 < |bs| && size <= Size(bs, i, hdr) + Size(bs, i + 1, hdr)
    ensures Proper(Carve(bs, i, size, hdr), start, pool, hdr)
    ensures FreeTotal(Carve(bs, i, size, hdr), hdr)
         == FreeTotal(bs, hdr) + Size(bs, i, hdr) - size - (if bs[i + 1].used then hdr else 0)
    ensures forall a :: FreeAt(Carve(bs, i, size, hdr), a) <==>
                        (FreeAt(bs, a) && a != bs[i + 1].addr) || a == bs[i].addr + hdr + size
  {
    hide FreeTotal, Tiled, Coalesced, Aligned, FreeAt;
    NeighboursOf(bs, i, start, pool, hdr);
    var y := Block(bs[i].addr + hdr + size, false);
    var hi := if bs[i + 1].used then i + 1 else i + 2;
    var a, m, b := bs[..i], bs[i..hi], bs[hi..];
    InThree(bs, i, hi);
    assert m[0] == bs[i] && b[0] == bs[hi];
    assert Carve(bs, i, size, hdr) == a + [bs[i], y] + b;
    CarveTotal(bs, i, size, hi, hdr);
    AlignedSum(bs[i].addr - start, size);
    AlignedSum(bs[i].addr - start + size, hdr);
    SpliceIsProper(a, m, [bs[i], y], b, start, pool, hdr);
    CarveFreeAt(bs, i, size, start, pool, hdr);
  }

  lemma CarveFreeAt(bs: Layout, i: int, size: int, start: int, pool: int, hdr: int)
    requires Proper(bs, start, pool, hdr) && 0 <= i < |bs| - 1 && bs[i].used
    ensures forall a :: FreeAt(Carve(bs, i, size, hdr), a) <==>
                        (FreeAt(bs, a) && a != bs[i + 1].addr) || a == bs[i].addr + hdr + size
  {
    hide Tiled, Coalesced, Aligned;
    NeighboursOf(bs, i, start, pool, hdr);
    var y := Block(bs[i].addr + hdr + size, false);
    var hi := if bs[i + 1].used then i + 1 else i + 2;
    var a, m, b := bs[..i], bs[i..hi], bs[hi..];
    InThree(bs, i, hi);
    assert Carve(bs, i, size, hdr) == a + [bs[i], y] + b;
    SpliceFreeAt(a, m, [bs[i], y], b, start, pool, hdr);
    CarvedStretch(bs, i, hi, start, pool, hdr);
  }

  lemma CarvedStretch(bs: Layout, i: int, hi: int, start: int, pool: int, hdr: int)
    requires Proper(bs, start, pool, hdr) && 0 <= i < |bs| - 1 && bs[i].used
    requires hi == if bs[i + 1].used then i + 1 else i + 2
    ensures forall a :: FreeAt(bs[i..hi], a) <==> FreeAt(bs, a) && a == bs[i + 1].addr
  {
    Apart(bs, start, pool, hdr);
    if bs[i + 1].used {
      assert bs[i..hi] == [bs[i]];
      assert forall k :: 0 <= k < |bs| && k != i + 1 ==> bs[k].addr != bs[i + 1].addr;
    } else {
      assert bs[i..hi] == [bs[i], bs[i + 1]];
    }
  }

  lemma CarveTotal(bs: Layout, i: int, size: int, hi: int, hdr: int)
    requires 0 <= i < |bs| - 1 && bs[i].used && hi == (if bs[i + 1].used then i + 1 else i + 2) && hi < |bs|
    ensures FreeTotal(Carve(bs, i, size, hdr), hdr)
         == FreeTotal(bs, hdr) + Size(bs, i, hdr) - size - (if bs[i + 1].used then hdr else 0)
  {
    hide FreeTotal;
    var y := Block(bs[i].addr + hdr + size, false);
    InThree(bs, i, hi);
    TotalReplaced(bs[..i], bs[i..hi], [bs[i], y], bs[hi..], hdr);
    TotalOfTwo(bs[i], y, bs[hi], hdr);
    if bs[i + 1].used {
      assert bs[i..hi] == [bs[i]];
      TotalOfOne(bs[i], bs[hi], hdr);
    } else {
      assert bs[i..hi] == [bs[i], bs[i + 1]];
      TotalOfTwo(bs[i], bs[i + 1], bs[hi], hdr);
    }
  }

  // ------------------------------------------------------- live blocks stay

  /** Live blocks outside the replaced stretch are the same before and after. */
  lemma SpliceLive(a: Layout, m: Layout, n: Layout, b: Layout, start: int, pool: int, hdr: int, p: int, sz: int)
    requires |m| > 0 && |n| > 0 && |b| > 0 && hdr > 0
    requires Tiled(a + m + b, start, pool, hdr) && Tiled(a + n + b, start, pool, hdr) && n[0].addr == m[0].addr
    requires p <= m[0].addr || p > b[0].addr
    requires LiveAt(a + m + b, p, sz, hdr)
    ensures LiveAt(a + n + b, p, sz, hdr)
    ensures p <= m[0].addr ==> p + sz <= m[0].addr
  {
    var s, r := a + m + b, a + n + b;
    var j :| 0 <= j < |s| - 1 && LiveIndex(s, j, p, sz, hdr);
    Apart(s, start, pool, hdr);
    assert s[|a|] == m[0] && s[|a| + |m|] == b[0];
    hide Tiled;
    if j < |a| {
      assert r[j] == s[j] && r[j + 1].addr == s[j + 1].addr;
      assert LiveIndex(r, j, p, sz, hdr);
    } else {
      assert j >= |a| + |m|;
      var k := j - |m| + |n|;
      assert r[k] == s[j] && r[k + 1] == s[j + 1];
      assert LiveIndex(r, k, p, sz, hdr);
    }
  }

  /** The bytes a header written at `h` overwrites are outside every live payload that `bs` and `r` share. */
  ghost predicate KeepsLive(bs: Layout, r: Layout, hdr: int, except: set<int>, h: int) {
    forall p, sz :: LiveAt(bs, p, sz, hdr) && p !in except ==> LiveAt(r, p, sz, hdr) && (p + sz <= h || h + hdr <= p)
  }

  lemma TakeKeepsLive(bs: Layout, i: int, size: int, start: int, pool: int, hdr: int)
    requires Proper(bs, start, pool, hdr) && 0 <= i < |bs| - 1 && !bs[i].used
    requires 0 <= size && Aligned(size) && size + hdr <= Size(bs, i, hdr)
    ensures KeepsLive(bs, Take(bs, i, size, hdr), hdr, {}, bs[i].addr + size + hdr)
    ensures LiveAt(Take(bs, i, size, hdr), bs[i].addr + hdr, size, hdr)
    ensures NotLive(bs, bs[i].addr + hdr, hdr)
  {
    hide Tiled, Coalesced, FreeTotal, Aligned;
    var r := Take(bs, i, size, hdr);
    TakeIsProper(bs, i, size, start, pool, hdr);
    NeighboursOf(bs, i, start, pool, hdr);
    assert LiveIndex(r, i, bs[i].addr + hdr, size, hdr);
    var a, b := bs[..i], bs[i + 1..];
    var n := [Block(bs[i].addr, true), Block(bs[i].addr + size + hdr, false)];
    assert bs == a + [bs[i]] + b && r == a + n + b;
    forall p, sz | LiveAt(bs, p, sz, hdr)
      ensures LiveAt(r, p, sz, hdr) && sz >= 0 && (p + sz <= bs[i].addr || bs[i + 1].addr + hdr <= p)
    {
      LiveOutside(bs, i, i + 1, start, pool, hdr, p, sz);
      SpliceLive(a, [bs[i]], n, b, start, pool, hdr, p, sz);
    }
  }

  /** A live payload that does not belong to a block of the stretch `lo..hi` lies outside it. */
  lemma LiveOutside(bs: Layout, lo: int, hi: int, start: int, pool: int, hdr: int, p: int, sz: int)
    requires hdr > 0 && Tiled(bs, start, pool, hdr) && 0 <= lo < hi < |bs| && LiveAt(bs, p, sz, hdr)
    requires forall j :: lo <= j < hi && bs[j].used ==> p != bs[j].addr + hdr
    ensures p + sz <= bs[lo].addr || bs[hi].addr + hdr <= p
    ensures p <= bs[lo].addr || p > bs[hi].addr
    ensures sz >= 0
  {
    var j :| 0 <= j < |bs| - 1 && LiveIndex(bs, j, p, sz, hdr);
    Apart(bs, start, pool, hdr);
  }

  lemma MarkKeepsLive(bs: Layout, i: int, start: int, pool: int, hdr: int)
    requires Proper(bs, start, pool, hdr) && 0 <= i < |bs| - 1 && !bs[i].used
    ensures forall p, sz :: LiveAt(bs, p, sz, hdr) ==> LiveAt(Mark(bs, i, true), p, sz, hdr)
    ensures LiveAt(Mark(bs, i, true), bs[i].addr + hdr, Size(bs, i, hdr), hdr)
    ensures NotLive(bs, bs[i].addr + hdr, hdr)
  {
    var r := Mark(bs, i, true);
    MarkIsProper(bs, i, start, pool, hdr);
    assert LiveIndex(r, i, bs[i].addr + hdr, Size(bs, i, hdr), hdr);
    var a, b := bs[..i], bs[i + 1..];
    var n := [Block(bs[i].addr, true)];
    assert bs == a + [bs[i]] + b && r == a + n + b;
    forall p, sz | LiveAt(bs, p, sz, hdr)
      ensures LiveAt(r, p, sz, hdr) && sz >= 0 && (p + sz <= bs[i].addr || bs[i + 1].addr + hdr <= p)
    {
      LiveOutside(bs, i, i + 1, start, pool, hdr, p, sz);
      SpliceLive(a, [bs[i]], n, b, start, pool, hdr, p, sz);
    }
  }

  lemma ReleaseKeepsLive(bs: Layout, i: int, start: int, pool: int, hdr: int)
    requires Proper(bs, start, pool, hdr) && 0 <= i < |bs| - 1 && bs[i].used
    ensures forall p, sz :: LiveAt(bs, p, sz, hdr) && p != bs[i].addr + hdr ==> LiveAt(Release(bs, i), p, sz, hdr)
  {
    hide Tiled, Coalesced, FreeTotal, Aligned, Gain, LiveAt;
    var r := Release(bs, i);
    ReleaseIsProper(bs, i, start, pool, hdr);
    NeighboursOf(bs, i, start, pool, hdr);
    var lo := if i > 0 && !bs[i - 1].used then i - 1 else i;
    var hi := if bs[i + 1].used then i + 1 else i + 2;
    assert 0 <= lo <= i < hi < |bs|;
    var a, m, b := bs[..lo], bs[lo..hi], bs[hi..];
    var n := [Block(bs[lo].addr, false)];
    InThree(bs, lo, hi);
    assert r == a + n + b;
    assert m[0] == bs[lo] && b[0] == bs[hi];
    forall p, sz | LiveAt(bs, p, sz, hdr) && p != bs[i].addr + hdr
      ensures LiveAt(r, p, sz, hdr)
    {
      LiveOutside(bs, lo, hi, start, pool, hdr, p, sz);
      SpliceLive(a, m, n, b, start, pool, hdr, p, sz);
    }
  }

  lemma CarveKeepsLive(bs: Layout, i: int, size: int, start: int, pool: int, hdr: int)
    requires Proper(bs, start, pool, hdr) && 0 <= i < |bs| - 1 && bs[i].used
    requires 0 <= size && Aligned(size)
    requires bs[i + 1].used ==> size + hdr <= Size(bs, i, hdr)
    requires !bs[i + 1].used ==> i + 2 < |bs| && size <= Size(bs, i, hdr) + Size(bs, i + 1, hdr)
    ensures KeepsLive(bs, Carve(bs, i, size, hdr), hdr, {bs[i].addr + hdr}, bs[i].addr + hdr + size)
    ensures LiveAt(Carve(bs, i, size, hdr), bs[i].addr + hdr, size, hdr)
  {
    hide Tiled, Coalesced, FreeTotal, Aligned;
    var r := Carve(bs, i, size, hdr);
    CarveIsProper(bs, i, size, start, pool, hdr);
    NeighboursOf(bs, i, start, pool, hdr);
    assert LiveIndex(r, i, bs[i].addr + hdr, size, hdr);
    var hi := if bs[i + 1].used then i + 1 else i + 2;
    var a, m, b := bs[..i], bs[i..hi], bs[hi..];
    var n := [bs[i], Block(bs[i].addr + hdr + size, false)];
    InThree(bs, i, hi);
    assert r == a + n + b && m[0] == bs[i] && b[0] == bs[hi];
    forall p, sz | LiveAt(bs, p, sz, hdr) && p != bs[i].addr + hdr
      ensures LiveAt(r, p, sz, hdr) && (p + sz <= bs[i].addr || bs[hi].addr + hdr <= p)
    {
      LiveOutside(bs, i, hi, start, pool, hdr, p, sz);
      SpliceLive(a, m, n, b, start, pool, hdr, p, sz);
    }
  }

  // -------------------------------------------------------------- round trips

  /** Freeing a just-allocated block restores the layout: split or whole. */
  lemma ReleaseUndoesTake(bs: Layout, i: int, size: int, start: int, pool: int, hdr: int)
    requires Proper(bs, start, pool, hdr) && 0 <= i < |bs| - 1 && !bs[i].used
    ensures Release(Take(bs, i, size, hdr), i) == bs
    ensures Release(Mark(bs, i, true), i) == bs
  {
    NeighboursOf(bs, i, start, pool, hdr);
    var t, m := Take(bs, i, size, hdr), Mark(bs, i, true);
    assert t[i + 1] == Block(bs[i].addr + size + hdr, false) && t[i + 2] == bs[i + 1];
    assert i > 0 ==> t[i - 1] == bs[i - 1] && m[i - 1] == bs[i - 1];
    assert t[..i] == bs[..i] && t[i + 2..] == bs[i + 1..];
    assert m[i + 1] == bs[i + 1] && m[..i] == bs[..i] && m[i + 1..] == bs[i + 1..];
    assert bs == bs[..i] + [bs[i]] + bs[i + 1..];
  }
}
