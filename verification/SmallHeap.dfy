/**
 The small memory heap (`mem.c`): headers inside the heap area chained by offsets, a pointer to the
 lowest free block, and first fit from there.
 */
module SmallHeap {
  import opened HeapLayout
  import opened Payload

  const NULL := 0
  const MIN_SIZE := 12

  type Fields = map<int, int>

  /** The size a request is served with. */
  function Request(n: int): (r: int)
    ensures r >= MIN_SIZE && r >= n && Aligned(r) && (r > MIN_SIZE ==> r < n + ALIGN)
  {
    if AlignUp(n) < MIN_SIZE then MIN_SIZE else AlignUp(n)
  }

  // ------------------------------------------------------------- used bytes

  /** The same blocks with used and free exchanged. */
  ghost function Flip(bs: Layout): (r: Layout)
    ensures |r| == |bs| && forall i :: 0 <= i < |bs| ==> r[i] == Block(bs[i].addr, !bs[i].used)
  {
    seq(|bs|, i requires 0 <= i < |bs| => Block(bs[i].addr, !bs[i].used))
  }

  /** The total length of the used blocks, headers included, not counting the last header. */
  ghost function UsedTotal(bs: Layout): (n: int) {
    FreeTotal(Flip(bs), 0)
  }

  lemma FlipConcat(a: Layout, m: Layout, b: Layout)
    ensures Flip(a + m + b) == Flip(a) + Flip(m) + Flip(b)
  {
    var s, r := Flip(a + m + b), Flip(a) + Flip(m) + Flip(b);
    forall i | 0 <= i < |s|
      ensures s[i] == r[i]
    {
    }
  }

  /** Replacing some blocks in the middle changes the used bytes by what they contribute. */
  lemma UsedReplaced(a: Layout, m: Layout, n: Layout, b: Layout)
    requires |m| > 0 && |n| > 0 && |b| > 0 && m[0].addr == n[0].addr
    ensures UsedTotal(a + n + b) - UsedTotal(a + m + b)
         == FreeTotal(Flip(n) + [Flip(b)[0]], 0) - FreeTotal(Flip(m) + [Flip(b)[0]], 0)
  {
    hide FreeTotal;
    FlipConcat(a, m, b);
    FlipConcat(a, n, b);
    TotalReplaced(Flip(a), Flip(m), Flip(n), Flip(b), 0);
  }

  lemma UsedOfTake(bs: Layout, i: int, size: int, hdr: int)
    requires 0 <= i < |bs| - 1 && !bs[i].used
    ensures UsedTotal(Take(bs, i, size, hdr)) == UsedTotal(bs) + size + hdr
  {
    hide FreeTotal;
    var x, y := Block(bs[i].addr, true), Block(bs[i].addr + size + hdr, false);
    assert bs == bs[..i] + [bs[i]] + bs[i + 1..];
    UsedReplaced(bs[..i], [bs[i]], [x, y], bs[i + 1..]);
    assert Flip([bs[i]]) == [Block(bs[i].addr, true)] && Flip([x, y]) == [Block(x.addr, false), Block(y.addr, true)];
    TotalOfOne(Block(bs[i].addr, true), Flip(bs[i + 1..])[0], 0);
    TotalOfTwo(Block(x.addr, false), Block(y.addr, true), Flip(bs[i + 1..])[0], 0);
  }

  lemma UsedOfMark(bs: Layout, i: int, used: bool)
    requires 0 <= i < |bs| - 1 && bs[i].used != used
    ensures UsedTotal(Mark(bs, i, used)) == UsedTotal(bs) + if used then bs[i + 1].addr - bs[i].addr
      else bs[i].addr - bs[i + 1].addr
  {
    hide FreeTotal;
    var x := Block(bs[i].addr, used);
    assert bs == bs[..i] + [bs[i]] + bs[i + 1..];
    UsedReplaced(bs[..i], [bs[i]], [x], bs[i + 1..]);
    assert Flip([bs[i]]) == [Block(bs[i].addr, !bs[i].used)] && Flip([x]) == [Block(x.addr, !used)];
    TotalOfOne(Block(bs[i].addr, !bs[i].used), Flip(bs[i + 1..])[0], 0);
    TotalOfOne(Block(x.addr, !used), Flip(bs[i + 1..])[0], 0);
  }

  lemma UsedOfJoined(bs: Layout, i: int)
    requires 0 < i < |bs| - 1 && !bs[i].used && !bs[i - 1].used
    ensures UsedTotal(Joined(bs, i)) == UsedTotal(bs)
  {
    hide FreeTotal;
    var l, x := bs[i - 1], bs[i];
    assert bs == bs[..i - 1] + [l, x] + bs[i + 1..] && Joined(bs, i) == bs[..i - 1] + [l] + bs[i + 1..];
    UsedReplaced(bs[..i - 1], [l, x], [l], bs[i + 1..]);
    assert Flip([l, x]) == [Block(l.addr, true), Block(x.addr, true)] && Flip([l]) == [Block(l.addr, true)];
    TotalOfTwo(Block(l.addr, true), Block(x.addr, true), Flip(bs[i + 1..])[0], 0);
    TotalOfOne(Block(l.addr, true), Flip(bs[i + 1..])[0], 0);
  }

  // ---------------------------------------------------------------- headers

  /** The fields of header `i`; only the end header's links are never looked at. */
  ghost predicate HeaderAt(next: Fields, prev: Fields, used: map<int, bool>, bs: Layout, i: int)
    requires 0 <= i < |bs|
  {
    var a := bs[i].addr;
    && a in used && used[a] == bs[i].used && a in next && a in prev
    && (i < |bs| - 1 ==> next[a] == bs[i + 1].addr && prev[a] == bs[if i == 0 then 0 else i - 1].addr)
  }

  ghost predicate Headers(next: Fields, prev: Fields, used: map<int, bool>, bs: Layout) {
    forall i :: 0 <= i < |bs| ==> HeaderAt(next, prev, used, bs, i)
  }

  ghost predicate AddrsDiffer(bs: Layout) {
    forall i, j :: 0 <= i < j < |bs| ==> bs[i].addr != bs[j].addr
  }

  lemma Reflagged(next: Fields, prev: Fields, used: map<int, bool>, bs: Layout, i: int, flag: bool)
    requires Headers(next, prev, used, bs) && AddrsDiffer(bs) && 0 <= i < |bs|
    ensures Headers(next, prev, used[bs[i].addr := flag], Mark(bs, i, flag)) && AddrsDiffer(Mark(bs, i, flag))
  {
    var r := Mark(bs, i, flag);
    assert forall j :: 0 <= j < |bs| ==> r[j].addr == bs[j].addr && (j != i ==> r[j] == bs[j]);
    var used' := used[bs[i].addr := flag];
    forall j | 0 <= j < |r|
      ensures HeaderAt(next, prev, used', r, j)
    {
      assert HeaderAt(next, prev, used, bs, j);
    }
  }

  /** A header is written between header `i` and the one behind it. */
  function Inserted(bs: Layout, i: int, b: Block): (r: Layout)
    requires 0 <= i < |bs|
  {
    bs[..i + 1] + [b] + bs[i + 1..]
  }

  lemma InsertedHeaders(next: Fields, prev: Fields, prev': Fields, used: map<int, bool>, bs: Layout, i: int, b: Block)
    requires Headers(next, prev, used, bs) && AddrsDiffer(bs) && 0 <= i < |bs| - 1
      && forall j :: 0 <= j < |bs| ==> bs[j].addr != b.addr
    requires bs[i].addr in next
    requires var p := prev[b.addr := bs[i].addr];
      if i + 1 < |bs| - 1 then prev' == p[bs[i + 1].addr := b.addr] else prev' == p
    ensures Headers(next[b.addr := next[bs[i].addr]][bs[i].addr := b.addr], prev', used[b.addr := b.used],
      Inserted(bs, i, b))
    ensures AddrsDiffer(Inserted(bs, i, b))
  {
    var r := Inserted(bs, i, b);
    assert HeaderAt(next, prev, used, bs, i);
    var next', used' := next[b.addr := next[bs[i].addr]][bs[i].addr := b.addr], used[b.addr := b.used];
    forall j | 0 <= j < |r|
      ensures HeaderAt(next', prev', used', r, j)
    {
      if j <= i {
        assert r[j] == bs[j] && HeaderAt(next, prev, used, bs, j) && (j < i ==> r[j + 1] == bs[j + 1])
          && (j > 0 ==> r[j - 1] == bs[j - 1]);
      } else if j == i + 1 {
        assert r[j] == b && r[j - 1] == bs[i] && r[j + 1] == bs[i + 1];
      } else {
        assert r[j] == bs[j - 1] && HeaderAt(next, prev, used, bs, j - 1) && (j < |r| - 1 ==> r[j + 1] == bs[j]);
        assert j > i + 2 ==> r[j - 1] == bs[j - 2];
      }
    }
  }

  /** A header is unlinked. */
  lemma JoinedHeaders(next: Fields, prev: Fields, used: map<int, bool>, bs: Layout, i: int)
    requires Headers(next, prev, used, bs) && AddrsDiffer(bs) && 0 < i < |bs| - 1
    ensures bs[i].addr in next && bs[i - 1].addr in next
    ensures Headers(next[bs[i - 1].addr := next[bs[i].addr]], prev[next[bs[i].addr] := bs[i - 1].addr], used,
      Joined(bs, i))
    ensures AddrsDiffer(Joined(bs, i))
  {
    var r := Joined(bs, i);
    assert HeaderAt(next, prev, used, bs, i) && HeaderAt(next, prev, used, bs, i - 1);
    var next', prev' := next[bs[i - 1].addr := next[bs[i].addr]], prev[next[bs[i].addr] := bs[i - 1].addr];
    forall j | 0 <= j < |r|
      ensures HeaderAt(next', prev', used, r, j)
    {
      if j < i {
        assert r[j] == bs[j] && HeaderAt(next, prev, used, bs, j) && (j > 0 ==> r[j - 1] == bs[j - 1]);
        assert j < i - 1 ==> r[j + 1] == bs[j + 1];
        assert j == i - 1 ==> r[j + 1] == bs[i + 1];
      } else {
        assert r[j] == bs[j + 1] && HeaderAt(next, prev, used, bs, j + 1) && (j < |r| - 1 ==> r[j + 1] == bs[j + 2]);
        assert r[j - 1] == bs[if j == i then i - 1 else j];
      }
    }
  }

  // ----------------------------------------------------------- plugging holes

  function RightPlugged(bs: Layout, i: int): (r: Layout)
    requires 0 <= i < |bs| - 1
  {
    if bs[i + 1].used then bs else Joined(bs, i + 1)
  }

  /** Free block `i` merged with its free neighbours, first to the right, then to the left. */
  function Plugged(bs: Layout, i: int): (r: Layout)
    requires 0 <= i < |bs| - 1
  {
    if i > 0 && !bs[i - 1].used then Joined(RightPlugged(bs, i), i) else RightPlugged(bs, i)
  }

  lemma ReleaseIsPlugged(bs: Layout, i: int)
    requires 0 <= i < |bs| - 1 && (!bs[i + 1].used ==> i + 2 < |bs|)
    ensures Release(bs, i) == Plugged(Mark(bs, i, false), i)
  {
    var m := Mark(bs, i, false);
    assert m[i + 1] == bs[i + 1] && (i > 0 ==> m[i - 1] == bs[i - 1]);
    var r := RightPlugged(m, i);
    assert r == bs[..i] + [Block(bs[i].addr, false)] + bs[if bs[i + 1].used then i + 1 else i + 2..];
    if i > 0 && !bs[i - 1].used {
      assert Joined(r, i) == bs[..i] + bs[if bs[i + 1].used then i + 1 else i + 2..];
      assert bs[..i] == bs[..i - 1] + [bs[i - 1]];
    }
  }

  lemma CarveIsPlugged(bs: Layout, i: int, size: int, hdr: int)
    requires 0 <= i < |bs| - 1 && bs[i].used && (!bs[i + 1].used ==> i + 2 < |bs|)
    ensures Carve(bs, i, size, hdr) == Plugged(Inserted(bs, i, Block(bs[i].addr + hdr + size, false)), i + 1)
  {
    var b := Block(bs[i].addr + hdr + size, false);
    var n := Inserted(bs, i, b);
    assert n[i] == bs[i] && n[i + 1] == b && n[i + 2] == bs[i + 1];
    assert bs[..i + 1] == bs[..i] + [bs[i]];
    if !bs[i + 1].used {
      assert Joined(n, i + 2) == bs[..i + 1] + [b] + bs[i + 2..];
    }
  }

  // --------------------------------------------------------- the lowest free

  /** `l` is a free block, or the end of the heap. */
  ghost predicate FreeOrEnd(bs: Layout, l: int) {
    |bs| > 0 && (FreeAt(bs, l) || l == bs[|bs| - 1].addr)
  }

  /** `l` is the lowest free block, or the end if there is none. */
  ghost predicate Lowest(bs: Layout, l: int) {
    FreeOrEnd(bs, l) && forall b :: b in bs && b.addr < l ==> b.used
  }

  lemma JoinedFree(bs: Layout, i: int)
    requires AddrsDiffer(bs) && 0 <= i < |bs| - 1 && !bs[i].used
    ensures forall x :: FreeAt(Joined(bs, i), x) <==> FreeAt(bs, x) && x != bs[i].addr
    ensures Joined(bs, i)[|bs| - 2] == bs[|bs| - 1]
    ensures forall b :: b in Joined(bs, i) ==> b in bs
  {
    var r := Joined(bs, i);
    assert bs == bs[..i] + [bs[i]] + bs[i + 1..];
    forall b | b in r
      ensures b in bs && b.addr != bs[i].addr
    {
      var k :| 0 <= k < |r| && r[k] == b;
      assert b == bs[if k < i then k else k + 1];
    }
  }

  /** A pointer to the header taken out is moved to the block it was joined to. */
  lemma JoinedLowest(bs: Layout, i: int, l: int)
    requires AddrsDiffer(bs) && 0 < i < |bs| - 1 && !bs[i].used && !bs[i - 1].used && FreeOrEnd(bs, l)
    ensures var l' := if l == bs[i].addr then bs[i - 1].addr else l;
      FreeOrEnd(Joined(bs, i), l')
        && (Lowest(bs, l) && bs[i - 1].addr < bs[i].addr ==> Lowest(Joined(bs, i), l') && l' == l)
  {
    JoinedFree(bs, i);
    assert FreeAt(bs, bs[i - 1].addr) by { assert bs[i - 1] in bs; }
    assert bs[i - 1] in bs;
  }

  class Heap {
    /** mem_size_aligned and SIZEOF_STRUCT_MEM. */
    const memSize: int
    const hdr: int

    var next: Fields
    var prev: Fields
    var used: map<int, bool>
    var lfree: int
    var usedMem: int
    var maxMem: int
    var bytes: Bytes

    ghost var blocks: Layout

    ghost predicate Chained()
      reads this`next, this`prev, this`used, this`blocks
    {
      Headers(next, prev, used, blocks) && AddrsDiffer(blocks)
    }

    ghost predicate Valid()
      reads this
    {
      && memSize >= MIN_SIZE && Proper(blocks, 0, memSize + 2 * hdr, hdr) && Chained()
      && FreeOrEnd(blocks, lfree) && usedMem == UsedTotal(blocks) && usedMem <= maxMem
    }

    /** rt_system_heap_init, on an area that can hold the two headers and the smallest block. */
    constructor (size: int, header: int)
      requires size >= MIN_SIZE && Aligned(size) && header > 0 && Aligned(header)
      ensures Valid() && memSize == size && hdr == header && Lowest(blocks, lfree)
      ensures blocks == [Block(0, false), Block(size + header, true)] && usedMem == 0
    {
      memSize, hdr := size, header;
      var end := size + header;
      next, prev := map[0 := end, end := end], map[0 := 0, end := end];
      used := map[0 := false, end := true];
      lfree, usedMem, maxMem := 0, 0, 0;
      bytes := map[];
      blocks := [Block(0, false), Block(end, true)];
      new;
      InitialLayout(size, header);
      assert HeaderAt(next, prev, used, blocks, 0) && HeaderAt(next, prev, used, blocks, 1);
    }

    /** Merge a free block with a free one behind it. */
    method PlugRight(mem: int, ghost i: int)
      requires Chained() && 0 <= i < |blocks| - 1 && blocks[i] == Block(mem, false)
        && blocks[|blocks| - 1] == Block(memSize + hdr, true)
      requires FreeOrEnd(blocks, lfree)
      modifies this`next, this`prev, this`lfree, this`blocks
      ensures Chained() && blocks == RightPlugged(old(blocks), i) && UsedTotal(blocks) == old(UsedTotal(blocks))
      ensures FreeOrEnd(blocks, lfree)
      ensures old(Lowest(blocks, lfree)) && mem < old(blocks)[i + 1].addr ==> Lowest(blocks, lfree)
      ensures lfree == if !old(blocks)[i + 1].used && old(lfree) == old(blocks)[i + 1].addr then mem else old(lfree)
    {
      hide Headers, AddrsDiffer, UsedTotal, FreeAt, Lowest, FreeOrEnd;
      HeaderOf(next, prev, used, blocks, i);
      LastHeader(blocks, i);
      var nmem := next[mem];
      if mem != nmem && !used[nmem] && nmem != memSize + hdr {
        JoinedHeaders(next, prev, used, blocks, i + 1);
        UsedOfJoined(blocks, i + 1);
        JoinedLowest(blocks, i + 1, lfree);
        if lfree == nmem {
          lfree := mem;
        }
        next := next[mem := next[nmem]];
        prev := prev[next[nmem] := mem];
        blocks := Joined(blocks, i + 1);
      }
    }

    /** Merge a free block into a free one before it. */
    method PlugLeft(mem: int, ghost i: int)
      requires Chained() && 0 <= i < |blocks| - 1 && blocks[i] == Block(mem, false) && FreeOrEnd(blocks, lfree)
      modifies this`next, this`prev, this`lfree, this`blocks
      ensures Chained() && UsedTotal(blocks) == old(UsedTotal(blocks))
      ensures blocks == if i > 0 && !old(blocks)[i - 1].used then Joined(old(blocks), i) else old(blocks)
      ensures FreeOrEnd(blocks, lfree)
      ensures old(Lowest(blocks, lfree)) && (i > 0 ==> old(blocks)[i - 1].addr < mem) ==> Lowest(blocks, lfree)
      ensures i > 0 && old(blocks)[i - 1].used ==> lfree == old(lfree)
    {
      hide Headers, AddrsDiffer, UsedTotal, FreeAt, Lowest, FreeOrEnd;
      HeaderOf(next, prev, used, blocks, i);
      if i > 0 { LastHeader(blocks, i - 1); }
      var pmem := prev[mem];
      if pmem != mem && !used[pmem] {
        JoinedHeaders(next, prev, used, blocks, i);
        UsedOfJoined(blocks, i);
        JoinedLowest(blocks, i, lfree);
        if lfree == mem {
          lfree := pmem;
        }
        next := next[pmem := next[mem]];
        prev := prev[next[mem] := pmem];
        blocks := Joined(blocks, i);
      }
    }

    /** plug_holes. */
    method Plug(mem: int, ghost i: int)
      requires Chained() && 0 <= i < |blocks| - 1 && blocks[i] == Block(mem, false)
        && blocks[|blocks| - 1] == Block(memSize + hdr, true)
      requires FreeOrEnd(blocks, lfree)
      modifies this`next, this`prev, this`lfree, this`blocks
      ensures Chained() && blocks == Plugged(old(blocks), i) && UsedTotal(blocks) == old(UsedTotal(blocks))
      ensures FreeOrEnd(blocks, lfree)
      ensures old(Lowest(blocks, lfree)) ==> (i > 0 ==> old(blocks)[i - 1].addr < mem) ==>
        mem < old(blocks)[i + 1].addr ==> Lowest(blocks, lfree)
      ensures i > 0 && old(blocks)[i - 1].used ==>
        lfree == if !old(blocks)[i + 1].used && old(lfree) == old(blocks)[i + 1].addr then mem else old(lfree)
    {
      hide Headers, AddrsDiffer, UsedTotal, FreeAt, Lowest, FreeOrEnd;
      RightKeeps(blocks, i);
      PlugRight(mem, i);
      PlugLeft(mem, i);
    }

    // -------------------------------------------------------------- malloc

    /** Look for the first free block of at least `size` bytes from the lowest free block on. */
    method Search(size: int) returns (ptr: int, found: bool, ghost i: int)
      requires Valid() && MIN_SIZE <= size <= memSize
      ensures found ==> 0 <= i < |blocks| - 1 && blocks[i] == Block(ptr, false) && Size(blocks, i, hdr) >= size
                        && (i == |blocks| - 2 ==> Size(blocks, i, hdr) > size) && lfree <= ptr
      ensures found ==> forall j :: 0 <= j < i && blocks[j].addr >= lfree ==> Unfit(blocks, j, size, hdr)
      ensures !found ==> forall j :: 0 <= j < |blocks| - 1 && blocks[j].addr >= lfree ==> Unfit(blocks, j, size, hdr)
    {
      hide Tiled, Coalesced, Headers, UsedTotal, Aligned;
      ptr, found := lfree, false;
      i := IndexOfFree(blocks, lfree);
      ghost var lo := i;
      Below(blocks, memSize + 2 * hdr, hdr, lo);
      while ptr < memSize - size
        invariant lo <= i < |blocks| && blocks[i].addr == ptr && lfree <= ptr
        invariant forall j :: lo <= j < i ==> Unfit(blocks, j, size, hdr)
        decreases |blocks| - i
      {
        EndAddr(blocks, memSize + 2 * hdr, hdr, i);
        HeaderOf(next, prev, used, blocks, i);
        NeighboursOf(blocks, i, 0, memSize + 2 * hdr, hdr);
        if !used[ptr] && next[ptr] - (ptr + hdr) >= size {
          LastFits(blocks, memSize + 2 * hdr, hdr, i);
          return ptr, true, i;
        }
        ptr := next[ptr];
        i := i + 1;
      }
      BeyondBound(blocks, memSize, hdr, i, size);
    }

    /** Chain a free header `ptr2` behind header `ptr`. */
    method ChainBehind(ptr: int, ptr2: int)
      requires ptr in next && ptr != ptr2
      modifies this`next, this`prev, this`used
      ensures next == old(next)[ptr2 := old(next)[ptr]][ptr := ptr2]
      ensures prev == PrevAfter(old(next), old(prev), ptr, ptr2, memSize + hdr) && used == old(used)[ptr2 := false]
    {
      used := used[ptr2 := false];
      next := next[ptr2 := next[ptr]];
      prev := prev[ptr2 := ptr];
      next := next[ptr := ptr2];
      if next[ptr2] != memSize + hdr {
        prev := prev[next[ptr2] := ptr2];
      }
    }

    /** Serve `size` bytes from free block `ptr` and make the rest a free block. */
    method Split(ptr: int, size: int, ghost i: int)
      requires Chained() && Proper(blocks, 0, memSize + 2 * hdr, hdr) && 0 <= i < |blocks| - 1
        && blocks[i] == Block(ptr, false)
      requires size >= 0 && Aligned(size) && Size(blocks, i, hdr) >= size + hdr + MIN_SIZE
        && usedMem == UsedTotal(blocks) && usedMem <= maxMem
      modifies this`next, this`prev, this`used, this`blocks, this`usedMem, this`maxMem, this`bytes
      ensures Chained() && blocks == Take(old(blocks), i, size, hdr) && usedMem == UsedTotal(blocks)
        && usedMem <= maxMem
      ensures bytes == Clobber(old(bytes), ptr + size + hdr, hdr)
      ensures maxMem == Max(old(maxMem), usedMem)
    {
      hide Tiled, Coalesced, Headers, UsedTotal, Aligned, FreeTotal, Clobber, PrevAfter;
      var ptr2 := ptr + hdr + size;
      SplitHeaders(next, prev, used, blocks, memSize + 2 * hdr, hdr, i, size);
      UsedOfTake(blocks, i, size, hdr);
      ChainBehind(ptr, ptr2);
      used := used[ptr := true];
      usedMem := usedMem + size + hdr;
      if maxMem < usedMem {
        maxMem := usedMem;
      }
      bytes := Clobber(bytes, ptr2, hdr);
      blocks := Take(blocks, i, size, hdr);
    }

    /** Serve the whole of free block `ptr`. */
    method TakeWhole(ptr: int, ghost i: int)
      requires Chained() && 0 <= i < |blocks| - 1 && blocks[i] == Block(ptr, false) && usedMem == UsedTotal(blocks)
        && usedMem <= maxMem
      modifies this`used, this`blocks, this`usedMem, this`maxMem
      ensures Chained() && blocks == Mark(old(blocks), i, true) && usedMem == UsedTotal(blocks) && usedMem <= maxMem
      ensures maxMem == Max(old(maxMem), usedMem)
    {
      hide Headers, UsedTotal, AddrsDiffer;
      HeaderOf(next, prev, used, blocks, i);
      Reflagged(next, prev, used, blocks, i, true);
      UsedOfMark(blocks, i, true);
      used := used[ptr := true];
      usedMem := usedMem + (next[ptr] - ptr);
      if maxMem < usedMem {
        maxMem := usedMem;
      }
      blocks := Mark(blocks, i, true);
    }

    /** Move the lowest-free pointer up to the next free block. */
    method Advance(ghost k: int)
      requires Chained() && Proper(blocks, 0, memSize + 2 * hdr, hdr) && 0 <= k < |blocks| && blocks[k].addr == lfree
      modifies this`lfree
      ensures FreeOrEnd(blocks, lfree)
      ensures (forall j :: 0 <= j < k ==> blocks[j].used) ==> Lowest(blocks, lfree)
    {
      hide Tiled, Coalesced, Headers;
      ghost var i := k;
      EndHeader(next, prev, used, blocks, memSize + 2 * hdr, hdr);
      while used[lfree] && lfree != memSize + hdr
        invariant k <= i < |blocks| && blocks[i].addr == lfree && lfree in used && used[lfree] == blocks[i].used
        invariant forall j :: k <= j < i ==> blocks[j].used
        decreases |blocks| - i
      {
        NotLast(blocks, memSize + 2 * hdr, hdr, i);
        HeaderOf(next, prev, used, blocks, i);
        lfree := next[lfree];
        i := i + 1;
      }
      assert blocks[i] in blocks && blocks[|blocks| - 1] in blocks;
      Below(blocks, memSize + 2 * hdr, hdr, i);
      NotLast(blocks, memSize + 2 * hdr, hdr, i);
    }

    /** rt_malloc. */
    method Malloc(n: nat) returns (p: int, ghost i: int)
      requires Valid()
      modifies this
      ensures Valid()
      ensures p == NULL <==> n == 0 || AlignUp(n) > memSize || NoFit(old(blocks), old(lfree), Request(n), hdr)
      ensures p == NULL ==> unchanged(this)
      ensures p == NULL && 0 < AlignUp(n) <= memSize ==>
        forall j :: 0 <= j < |blocks| - 1 && !blocks[j].used && blocks[j].addr >= lfree ==>
          Size(blocks, j, hdr) <= Request(n)
      ensures p != NULL ==> 0 <= i < |old(blocks)| - 1 && !old(blocks)[i].used && p == old(blocks)[i].addr + hdr
                            && Size(old(blocks), i, hdr) >= Request(n)
      ensures p != NULL ==> blocks == Allocated(old(blocks), i, Request(n), hdr)
      ensures p != NULL ==>
        forall j :: 0 <= j < i && old(blocks)[j].addr >= old(lfree) ==> Unfit(old(blocks), j, Request(n), hdr)
      ensures p != NULL ==> Given(p) && NotLive(old(blocks), p, hdr)
                            && Holds(blocks, p, Request(n), Request(n) + hdr + MIN_SIZE - 1, hdr)
      ensures maxMem == Max(old(maxMem), usedMem)
      ensures Untouched(old(blocks), old(bytes), blocks, bytes, hdr, {})
      ensures old(Lowest(blocks, lfree)) ==> Lowest(blocks, lfree)
    {
      hide Tiled, Coalesced, Headers, UsedTotal, Aligned, FreeTotal, AddrsDiffer, Lowest, FreeOrEnd, Unfit, Take, Mark,
           NotLive, Holds, LiveAt, Clobber, Untouched;
      i := 0;
      UntouchedRefl(blocks, bytes, hdr);
      if n == 0 {
        return NULL, i;
      }
      var size := AlignUp(n);
      if size > memSize {
        return NULL, i;
      }
      if size < MIN_SIZE {
        size := MIN_SIZE;
      }
      assert size == Request(n);
      var ptr, found;
      ptr, found, i := Search(size);
      if !found {
        UnfitIsSmall(blocks, lfree, size, hdr);
        return NULL, i;
      }
      NeighboursOf(blocks, i, 0, memSize + 2 * hdr, hdr);
      FoundFits(blocks, lfree, i, size, hdr);
      AllocatedFacts(blocks, memSize + 2 * hdr, hdr, i, size, lfree);
      AllocatedLive(blocks, bytes, memSize + 2 * hdr, hdr, i, size);
      ghost var bs := blocks;
      HeaderOf(next, prev, used, blocks, i);
      if next[ptr] - (ptr + hdr) >= size + hdr + MIN_SIZE {
        Split(ptr, size, i);
      } else {
        TakeWhole(ptr, i);
      }
      if ptr == lfree {
        Advance(i);
      }
      InHeap(bs, memSize + 2 * hdr, hdr, i);
      p := ptr + hdr;
    }

    // ---------------------------------------------------------------- free

    /** A pointer into the heap area; rt_free and rt_realloc leave every other one alone. */
    predicate Given(p: int) { p != NULL && 0 <= p < memSize + hdr }

    /** rt_free. */
    method Free(p: int) returns (ghost i: int)
      requires Valid() && (Given(p) ==> exists sz :: LiveAt(blocks, p, sz, hdr))
      modifies this
      ensures Valid() && (!Given(p) ==> unchanged(this))
      ensures Given(p) ==>
        0 <= i < |old(blocks)| - 1 && old(blocks)[i] == Block(p - hdr, true) && blocks == Release(old(blocks), i)
      ensures bytes == old(bytes) && (Given(p) ==> NotLive(blocks, p, hdr))
        && Untouched(old(blocks), bytes, blocks, bytes, hdr, {p})
      ensures old(Lowest(blocks, lfree)) ==> Lowest(blocks, lfree)
    {
      hide Tiled, Coalesced, Headers, UsedTotal, Aligned, FreeTotal, AddrsDiffer, Lowest, FreeOrEnd, Release, Mark,
           Plugged, LiveIndex, LiveAt, NotLive, Untouched;
      i := 0;
      if p == NULL || p < 0 || p >= memSize + hdr {
        UntouchedRefl(blocks, bytes, hdr);
        UntouchedWeaken(blocks, bytes, blocks, bytes, hdr, p);
        return;
      }
      ghost var sz :| LiveAt(blocks, p, sz, hdr);
      i := LiveBlock(blocks, p, sz, hdr);
      var mem := p - hdr;
      NeighboursOf(blocks, i, 0, memSize + 2 * hdr, hdr);
      FreeFacts(blocks, memSize + 2 * hdr, hdr, i, lfree);
      ReleaseFrees(blocks, bytes, i, 0, memSize + 2 * hdr, hdr);
      HeaderOf(next, prev, used, blocks, i);
      Reflagged(next, prev, used, blocks, i, false);
      UsedOfMark(blocks, i, false);
      used := used[mem := false];
      if mem < lfree {
        lfree := mem;
      }
      usedMem := usedMem - (next[mem] - mem);
      blocks := Mark(blocks, i, false);
      Plug(mem, i);
    }

    // -------------------------------------------------------------- resize

    /** The shrinking branch of rt_realloc: the end of the block becomes free. */
    method Shrink(p: int, size: int, ghost i: int)
      requires Valid() && 0 <= i < |blocks| - 1 && blocks[i] == Block(p - hdr, true)
      requires size >= 0 && Aligned(size) && size + hdr + MIN_SIZE < Size(blocks, i, hdr)
      modifies this
      ensures Valid() && blocks == Carve(old(blocks), i, size, hdr) && bytes == Clobber(old(bytes), p + size, hdr)
      ensures old(Lowest(blocks, lfree)) ==>
        (Lowest(blocks, lfree) <==>
        old(lfree) < p || (!old(blocks)[i + 1].used && old(lfree) == old(blocks)[i + 1].addr))
      ensures usedMem == old(usedMem) - (Size(old(blocks), i, hdr) - size) && maxMem == old(maxMem)
    {
      hide Tiled, Coalesced, Headers, UsedTotal, Aligned, FreeTotal, AddrsDiffer, Lowest, FreeOrEnd, Inserted, Carve,
           Plugged, Clobber, PrevAfter;
      var ptr := p - hdr;
      var ptr2 := ptr + hdr + size;
      NeighboursOf(blocks, i, 0, memSize + 2 * hdr, hdr);
      ShrinkFacts(next, prev, used, blocks, memSize + 2 * hdr, hdr, i, size, lfree);
      var oldSize := next[ptr] - ptr - hdr;
      usedMem := usedMem - (oldSize - size);
      ChainBehind(ptr, ptr2);
      bytes := Clobber(bytes, ptr2, hdr);
      blocks := Inserted(blocks, i, Block(ptr2, false));
      Plug(ptr2, i + 1);
      ShrinkLowest(old(blocks), memSize + 2 * hdr, hdr, i, size, old(lfree), lfree);
    }

    /** The moving branch of rt_realloc: allocate, copy, free. */
    method Move(p: int, size: int, ghost i: int) returns (q: int)
      requires Valid() && 0 < size && AlignUp(size) == size && 0 <= i < |blocks| - 1
        && blocks[i] == Block(p - hdr, true) && Given(p)
      modifies this
      ensures Valid()
      ensures q == NULL <==> size > memSize || NoFit(old(blocks), old(lfree), Request(size), hdr)
      ensures q == NULL ==> unchanged(this)
      ensures q != NULL ==>
        q != p && Given(q) && NotLive(old(blocks), q, hdr) && NotLive(blocks, p, hdr)
        && Holds(blocks, q, size, Request(size) + hdr + MIN_SIZE - 1, hdr)
      ensures q != NULL ==> Moved(old(bytes), p, bytes, q, Min(Size(old(blocks), i, hdr), size))
      ensures Untouched(old(blocks), old(bytes), blocks, bytes, hdr, {p})
      ensures old(Lowest(blocks, lfree)) ==> Lowest(blocks, lfree)
    {
      hide Proper, Headers, UsedTotal, Aligned, FreeTotal, AddrsDiffer, Lowest, FreeOrEnd, Release, Allocated, LiveAt,
           NotLive, NoFit, Moved, Untouched, CopiedOver;
      LiveAtIndex(blocks, i, hdr);
      HeaderOf(next, prev, used, blocks, i);
      var oldSize := next[p - hdr] - (p - hdr) - hdr;
      SizeIsNat(blocks, memSize + 2 * hdr, hdr, i);
      ghost var bs, m := blocks, bytes;
      ghost var k;
      q, k := Malloc(size);
      UntouchedWeaken(bs, m, blocks, bytes, hdr, p);
      if q != NULL {
        ghost var bs1, mid := blocks, bytes;
        ghost var qsz :| Request(size) <= qsz <= Request(size) + hdr + MIN_SIZE - 1 && LiveAt(blocks, q, qsz, hdr);
        ApartFromNew(bs, m, bs1, mid, 0, memSize + 2 * hdr, hdr, p, oldSize, q, qsz);
        bytes := CopyBytes(bytes, q, p, Min(oldSize, size));
        ghost var m1 := bytes;
        k := Free(p);
        MoveKeeps(bs, m, bs1, mid, m1, blocks, 0, memSize + 2 * hdr, hdr, p, oldSize, q, qsz, Min(oldSize, size));
      }
    }

    /** rt_realloc. */
    method Realloc(p: int, n: nat) returns (q: int, ghost i: int)
      requires Valid() && (Given(p) ==> exists sz :: LiveAt(blocks, p, sz, hdr))
      modifies this
      ensures Valid()
      ensures Given(p) ==> 0 <= i < |old(blocks)| - 1 && old(blocks)[i] == Block(p - hdr, true)
      ensures n == 0 ==> q == NULL && bytes == old(bytes) && (Given(p) ==> blocks == Release(old(blocks), i))
      ensures p == NULL && n > 0 ==>
        (q == NULL <==> AlignUp(n) > memSize || NoFit(old(blocks), old(lfree), Request(n), hdr))
          && (q != NULL ==> NotLive(old(blocks), q, hdr))
      ensures Given(p) && n > 0 ==>
        && (q == NULL <==>
          AlignUp(n) > memSize || (!Stays(old(blocks), i, AlignUp(n), hdr)
          && NoFit(old(blocks), old(lfree), Request(n), hdr)))
        && (q == p <==> AlignUp(n) <= memSize && Stays(old(blocks), i, AlignUp(n), hdr))
        && (AlignUp(n) <= memSize && AlignUp(n) + hdr + MIN_SIZE < Size(old(blocks), i, hdr) ==> q == p)
        && (AlignUp(n) <= memSize && AlignUp(n) == Size(old(blocks), i, hdr) ==> q == p)
        && (q != NULL ==> Moved(old(bytes), p, bytes, q, Min(Size(old(blocks), i, hdr), AlignUp(n))))
        && (q != NULL && q != p ==> NotLive(old(blocks), q, hdr) && NotLive(blocks, p, hdr))
      ensures p != NULL && !Given(p) ==> unchanged(this) && q == if 0 < AlignUp(n) <= memSize then p else NULL
      ensures n > 0 && q != NULL && (p == NULL || Given(p)) ==>
        Given(q) && Holds(blocks, q, AlignUp(n), Request(n) + hdr + MIN_SIZE - 1, hdr)
      ensures n > 0 && Given(p) && q == p ==>
        && Holds(blocks, p, AlignUp(n), AlignUp(n), hdr) && maxMem == old(maxMem)
        && usedMem == old(usedMem) - (Size(old(blocks), i, hdr) - AlignUp(n))
      ensures n > 0 && q == NULL ==> unchanged(this)
      ensures Untouched(old(blocks), old(bytes), blocks, bytes, hdr, {p})
      ensures old(Lowest(blocks, lfree)) ==>
        (Lowest(blocks, lfree) <==>
          !(Given(p) && 0 < AlignUp(n) <= memSize && Undercuts(old(blocks), i, AlignUp(n), old(lfree), hdr)))
    {
      hide Proper, Headers, UsedTotal, Aligned, FreeTotal, AddrsDiffer, Lowest, FreeOrEnd, Release, Allocated, Carve,
           LiveAt, NotLive, NoFit, Moved, Untouched, Clobber;
      var newsize := AlignUp(n);
      RequestCovers(n);
      ghost var bs, m := blocks, bytes;
      i := 0;
      if Given(p) {
        ghost var sz :| LiveAt(blocks, p, sz, hdr);
        i := LiveBlock(blocks, p, sz, hdr);
      }
      UntouchedRefl(blocks, bytes, hdr);
      UntouchedWeaken(bs, m, blocks, bytes, hdr, p);
      ghost var k;
      if newsize > memSize {
        return NULL, i;
      } else if newsize == 0 {
        k := Free(p);
        if Given(p) { SameBlock(bs, memSize + 2 * hdr, hdr, i, k); }
        return NULL, i;
      }
      if p == NULL {
        q, k := Malloc(newsize);
        UntouchedWeaken(bs, m, blocks, bytes, hdr, p);
        if q != NULL {
          HoldsMore(blocks, q, Request(n), Request(n) + hdr + MIN_SIZE - 1, newsize, Request(n) + hdr + MIN_SIZE - 1,
            hdr);
        }
        return;
      }
      if p < 0 || p >= memSize + hdr {
        return p, i;
      }
      HeaderOf(next, prev, used, blocks, i);
      SizeIsNat(blocks, memSize + 2 * hdr, hdr, i);
      var size := next[p - hdr] - (p - hdr) - hdr;
      if size == newsize {
        KeepAsIs(blocks, bytes, i, newsize, hdr);
        HoldsMore(blocks, p, newsize, newsize, newsize, Request(n) + hdr + MIN_SIZE - 1, hdr);
        return p, i;
      }
      if newsize + hdr + MIN_SIZE < size {
        CarveFits(blocks, bytes, memSize + 2 * hdr, hdr, i, newsize);
        HoldsMore(Carve(blocks, i, newsize, hdr), p, newsize, newsize, newsize, Request(n) + hdr + MIN_SIZE - 1, hdr);
        Shrink(p, newsize, i);
        return p, i;
      }
      q := Move(p, newsize, i);
    }
  }

  /** Whether rt_realloc leaves the block in place: it fits exactly, or the rest makes a block. */
  ghost predicate Stays(bs: Layout, i: int, size: int, hdr: int)
    requires 0 <= i < |bs| - 1
  {
    size == Size(bs, i, hdr) || size + hdr + MIN_SIZE < Size(bs, i, hdr)
  }

  /** Shrinking block `i` frees memory below the lowest free block `l`, which rt_realloc does not record. */
  ghost predicate Undercuts(bs: Layout, i: int, size: int, l: int, hdr: int)
    requires 0 <= i < |bs| - 1
  {
    size + hdr + MIN_SIZE < Size(bs, i, hdr) && !(l < bs[i].addr + hdr || (!bs[i + 1].used && l == bs[i + 1].addr))
  }

  lemma SizeIsNat(bs: Layout, pool: int, hdr: int, i: int)
    requires Proper(bs, 0, pool, hdr) && 0 <= i < |bs| - 1
    ensures Size(bs, i, hdr) >= 0 && hdr > 0
  {
  }

  lemma SameBlock(bs: Layout, pool: int, hdr: int, i: int, k: int)
    requires Proper(bs, 0, pool, hdr) && 0 <= i < |bs| - 1 && 0 <= k < |bs| - 1 && bs[i] == bs[k]
    ensures i == k
  {
    Apart(bs, 0, pool, hdr);
  }

  lemma HeaderOf(next: Fields, prev: Fields, used: map<int, bool>, bs: Layout, i: int)
    requires Headers(next, prev, used, bs) && 0 <= i < |bs| - 1
    ensures var a := bs[i].addr;
      && a in next && a in prev && a in used && used[a] == bs[i].used && next[a] == bs[i + 1].addr
      && prev[a] == bs[if i == 0 then 0 else i - 1].addr
      && bs[i + 1].addr in used && used[bs[i + 1].addr] == bs[i + 1].used && bs[i + 1].addr in next
      && (i > 0 ==> bs[i - 1].addr in used && used[bs[i - 1].addr] == bs[i - 1].used)
  {
    assert HeaderAt(next, prev, used, bs, i) && HeaderAt(next, prev, used, bs, i + 1);
    assert i > 0 ==> HeaderAt(next, prev, used, bs, i - 1);
  }

  lemma LastHeader(bs: Layout, i: int)
    requires AddrsDiffer(bs) && 0 <= i < |bs| - 1
    ensures bs[i + 1].addr == bs[|bs| - 1].addr <==> i + 1 == |bs| - 1
    ensures bs[i].addr != bs[i + 1].addr
  {
  }

  /** Too small, or just large enough as the last block: the search passes over it. */
  ghost predicate Unfit(bs: Layout, j: int, size: int, hdr: int)
    requires 0 <= j < |bs| - 1
  {
    bs[j].used || Size(bs, j, hdr) < size || (j == |bs| - 2 && Size(bs, j, hdr) == size)
  }

  lemma UnfitIsSmall(bs: Layout, l: int, size: int, hdr: int)
    requires forall j :: 0 <= j < |bs| - 1 && bs[j].addr >= l ==> Unfit(bs, j, size, hdr)
    ensures forall j :: 0 <= j < |bs| - 1 && !bs[j].used && bs[j].addr >= l ==> Size(bs, j, hdr) <= size
  {
    forall j | 0 <= j < |bs| - 1 && !bs[j].used && bs[j].addr >= l
      ensures Size(bs, j, hdr) <= size
    {
      assert Unfit(bs, j, size, hdr);
    }
  }

  lemma RightKeeps(bs: Layout, i: int)
    requires 0 <= i < |bs| - 1 && bs[|bs| - 1].used
    ensures var r := RightPlugged(bs, i); i < |r| - 1 && r[i] == bs[i] && (i > 0 ==> r[i - 1] == bs[i - 1])
  {
  }

  lemma IndexOfFree(bs: Layout, l: int) returns (i: int)
    requires FreeOrEnd(bs, l)
    ensures 0 <= i < |bs| && bs[i].addr == l && (i < |bs| - 1 ==> !bs[i].used || l == bs[|bs| - 1].addr)
  {
    if FreeAt(bs, l) {
      i :| 0 <= i < |bs| && bs[i] == Block(l, false);
    } else {
      i := |bs| - 1;
    }
  }

  lemma Below(bs: Layout, pool: int, hdr: int, k: int)
    requires Proper(bs, 0, pool, hdr) && 0 <= k < |bs|
    ensures forall j :: 0 <= j < |bs| ==> (bs[j].addr >= bs[k].addr <==> j >= k)
  {
    Apart(bs, 0, pool, hdr);
  }

  lemma EndAddr(bs: Layout, pool: int, hdr: int, i: int)
    requires Proper(bs, 0, pool, hdr) && 0 <= i < |bs| && bs[i].addr < pool - hdr
    ensures i < |bs| - 1
  {
  }

  lemma LastFits(bs: Layout, pool: int, hdr: int, i: int)
    requires Proper(bs, 0, pool, hdr) && 0 <= i < |bs| - 1
    ensures i == |bs| - 2 ==> Size(bs, i, hdr) == pool - 2 * hdr - bs[i].addr
  {
  }

  /** Blocks beyond the search bound are too small, but for a last block that would fit exactly. */
  lemma BeyondBound(bs: Layout, memSize: int, hdr: int, i: int, size: int)
    requires Proper(bs, 0, memSize + 2 * hdr, hdr) && 0 <= i < |bs| && bs[i].addr >= memSize - size
    ensures forall j :: i <= j < |bs| - 1 ==> Unfit(bs, j, size, hdr)
  {
    Apart(bs, 0, memSize + 2 * hdr, hdr);
    forall j | i <= j < |bs| - 1
      ensures Unfit(bs, j, size, hdr)
    {
      assert bs[j].addr >= bs[i].addr;
      assert bs[j + 1].addr <= bs[|bs| - 1].addr;
      assert j < |bs| - 2 ==> bs[j + 1].addr + hdr <= bs[|bs| - 1].addr;
    }
  }

  /** Of the blocks that are large enough, the bound excludes exactly a last one that fits exactly. */
  lemma BoundExcludes(bs: Layout, memSize: int, hdr: int, j: int, size: int)
    requires Proper(bs, 0, memSize + 2 * hdr, hdr) && 0 <= j < |bs| - 1 && Size(bs, j, hdr) >= size
    ensures bs[j].addr >= memSize - size <==> j == |bs| - 2 && Size(bs, j, hdr) == size
  {
    LastFits(bs, memSize + 2 * hdr, hdr, j);
    if j < |bs| - 2 {
      Apart(bs, 0, memSize + 2 * hdr, hdr);
      assert bs[j + 1].addr + hdr <= bs[|bs| - 1].addr;
    }
  }

  /** No free block from `l` on is taken by the search. */
  ghost predicate NoFit(bs: Layout, l: int, size: int, hdr: int) {
    forall j :: 0 <= j < |bs| - 1 && bs[j].addr >= l ==> Unfit(bs, j, size, hdr)
  }

  /** With `l` the lowest free block, that is no free block at all. */
  lemma NoFitFromLowest(bs: Layout, l: int, size: int, hdr: int)
    requires Lowest(bs, l)
    ensures NoFit(bs, l, size, hdr) <==> forall j :: 0 <= j < |bs| - 1 ==> Unfit(bs, j, size, hdr)
  {
    forall j | 0 <= j < |bs| - 1 && bs[j].addr < l
      ensures Unfit(bs, j, size, hdr)
    {
      assert bs[j] in bs;
    }
  }

  lemma FoundFits(bs: Layout, l: int, i: int, size: int, hdr: int)
    requires 0 <= i < |bs| - 1 && !bs[i].used && Size(bs, i, hdr) >= size && (i == |bs| - 2 ==> Size(bs, i, hdr) > size)
      && l <= bs[i].addr
    ensures !NoFit(bs, l, size, hdr)
  {
    assert !Unfit(bs, i, size, hdr);
  }

  /** The layout after allocating from free block `i`. */
  function Allocated(bs: Layout, i: int, size: int, hdr: int): (r: Layout)
    requires 0 <= i < |bs| - 1
  {
    if Size(bs, i, hdr) >= size + hdr + MIN_SIZE then Take(bs, i, size, hdr) else Mark(bs, i, true)
  }

  lemma AllocatedFacts(bs: Layout, pool: int, hdr: int, i: int, size: int, l: int)
    requires Proper(bs, 0, pool, hdr) && 0 <= i < |bs| - 1 && !bs[i].used && 0 <= size <= Size(bs, i, hdr)
      && Aligned(size)
    requires FreeOrEnd(bs, l) && l <= bs[i].addr
    ensures var r := Allocated(bs, i, size, hdr);
      && Proper(r, 0, pool, hdr) && i < |r| && r[i].addr == bs[i].addr
      && (l != bs[i].addr ==> FreeOrEnd(r, l) && (Lowest(bs, l) ==> Lowest(r, l)))
      && (Lowest(bs, l) && l == bs[i].addr ==> forall j :: 0 <= j < i ==> r[j].used)
  {
    hide Tiled, Coalesced, FreeTotal, Aligned;
    if Size(bs, i, hdr) >= size + hdr + MIN_SIZE {
      TakeIsProper(bs, i, size, 0, pool, hdr);
    } else {
      MarkIsProper(bs, i, 0, pool, hdr);
    }
    Below(bs, pool, hdr, i);
    var r := Allocated(bs, i, size, hdr);
    assert r[|r| - 1] == bs[|bs| - 1];
    forall j | 0 <= j < i
      ensures r[j] == bs[j] && bs[j] in bs && bs[j].addr < bs[i].addr
    {
    }
    AllocatedBlocks(bs, i, size, hdr);
  }

  lemma AllocatedBlocks(bs: Layout, i: int, size: int, hdr: int)
    requires 0 <= i < |bs| - 1 && size >= 0 && hdr > 0
    ensures forall b :: b in Allocated(bs, i, size, hdr) ==> b in bs || b.used || b.addr > bs[i].addr
  {
  }

  lemma InHeap(bs: Layout, pool: int, hdr: int, i: int)
    requires Proper(bs, 0, pool, hdr) && 0 <= i < |bs|
    ensures bs[i].addr >= 0 && hdr > 0 && (i < |bs| - 1 ==> bs[i + 1].addr <= pool - hdr)
  {
    if i > 0 { Increasing(bs, 0, pool, hdr, 0, i); }
    if i < |bs| - 2 { Increasing(bs, 0, pool, hdr, i + 1, |bs| - 1); }
  }

  lemma NotLast(bs: Layout, pool: int, hdr: int, i: int)
    requires Proper(bs, 0, pool, hdr) && 0 <= i < |bs|
    ensures bs[i].addr == pool - hdr <==> i == |bs| - 1
    ensures bs[|bs| - 1] == Block(pool - hdr, true)
  {
    if i < |bs| - 1 { Increasing(bs, 0, pool, hdr, i, |bs| - 1); }
  }

  lemma EndHeader(next: Fields, prev: Fields, used: map<int, bool>, bs: Layout, pool: int, hdr: int)
    requires Headers(next, prev, used, bs) && Proper(bs, 0, pool, hdr)
    ensures forall j :: 0 <= j < |bs| ==> bs[j].addr in used && used[bs[j].addr] == bs[j].used
  {
    forall j | 0 <= j < |bs|
      ensures bs[j].addr in used && used[bs[j].addr] == bs[j].used
    {
      assert HeaderAt(next, prev, used, bs, j);
    }
  }

  /** The links after `b` is put behind header `i`. */
  function PrevAfter(next: Fields, prev: Fields, ptr: int, ptr2: int, end: int): (r: Fields)
    requires ptr in next
  {
    if next[ptr] != end then prev[ptr2 := ptr][next[ptr] := ptr2] else prev[ptr2 := ptr]
  }

  lemma InsertedBehind(next: Fields, prev: Fields, used: map<int, bool>, bs: Layout, pool: int, hdr: int, i: int,
                       b: Block)
    requires Headers(next, prev, used, bs) && Tiled(bs, 0, pool, hdr) && hdr > 0 && 0 <= i < |bs| - 1
      && bs[i].addr < b.addr < bs[i + 1].addr
    ensures var ptr := bs[i].addr;
      ptr in next && next[ptr] == bs[i + 1].addr && (next[ptr] == pool - hdr <==> i + 1 == |bs| - 1)
      && Headers(next[b.addr := next[ptr]][ptr := b.addr], PrevAfter(next, prev, ptr, b.addr, pool - hdr),
        used[b.addr := b.used], Inserted(bs, i, b))
      && AddrsDiffer(Inserted(bs, i, b))
  {
    Apart(bs, 0, pool, hdr);
    assert AddrsDiffer(bs);
    HeaderOf(next, prev, used, bs, i);
    assert i + 1 < |bs| - 1 ==> bs[i + 1].addr < bs[|bs| - 1].addr;
    forall j | 0 <= j < |bs|
      ensures bs[j].addr != b.addr
    {
      assert j < i ==> bs[j].addr < bs[i].addr;
      assert j > i + 1 ==> bs[i + 1].addr < bs[j].addr;
    }
    hide Tiled;
    InsertedHeaders(next, prev, PrevAfter(next, prev, bs[i].addr, b.addr, pool - hdr), used, bs, i, b);
  }

  lemma SplitHeaders(next: Fields, prev: Fields, used: map<int, bool>, bs: Layout, pool: int, hdr: int, i: int,
                     size: int)
    requires Headers(next, prev, used, bs) && AddrsDiffer(bs) && Proper(bs, 0, pool, hdr) && 0 <= i < |bs| - 1
      && !bs[i].used
    requires size >= 0 && Size(bs, i, hdr) > size + hdr
    ensures var ptr, ptr2 := bs[i].addr, bs[i].addr + hdr + size;
      && ptr in next && ptr != ptr2 && next[ptr] != ptr && next[ptr] != ptr2
      && Headers(next[ptr2 := next[ptr]][ptr := ptr2], PrevAfter(next, prev, ptr, ptr2, pool - hdr),
        used[ptr2 := false][ptr := true], Take(bs, i, size, hdr))
      && AddrsDiffer(Take(bs, i, size, hdr))
  {
    var ptr, ptr2, m := bs[i].addr, bs[i].addr + hdr + size, Mark(bs, i, true);
    Reflagged(next, prev, used, bs, i, true);
    MarkTiled(bs, pool, hdr, i);
    assert m[i].addr == ptr && m[i + 1] == bs[i + 1] && |m| == |bs|;
    InsertedBehind(next, prev, used[ptr := true], m, pool, hdr, i, Block(ptr2, false));
    assert used[ptr := true][ptr2 := false] == used[ptr2 := false][ptr := true];
    assert Inserted(m, i, Block(ptr2, false)) == Take(bs, i, size, hdr);
  }

  lemma MarkTiled(bs: Layout, pool: int, hdr: int, i: int)
    requires Tiled(bs, 0, pool, hdr) && 0 <= i < |bs| - 1
    ensures Tiled(Mark(bs, i, true), 0, pool, hdr)
  {
    var m := Mark(bs, i, true);
    assert forall j :: 0 <= j < |bs| ==> m[j].addr == bs[j].addr && (j != i ==> m[j] == bs[j]);
  }

  lemma FreeFacts(bs: Layout, pool: int, hdr: int, i: int, l: int)
    requires Proper(bs, 0, pool, hdr) && 0 <= i < |bs| - 1 && bs[i].used && FreeOrEnd(bs, l)
    ensures var m, r := Mark(bs, i, false), Release(bs, i); var l' := if bs[i].addr < l then bs[i].addr else l;
      && Proper(r, 0, pool, hdr) && r == Plugged(m, i) && m[i] == Block(bs[i].addr, false) && |m| == |bs|
      && m[|m| - 1] == Block(pool - hdr, true) && bs[i].addr < bs[i + 1].addr
      && m[i + 1] == bs[i + 1] && (i > 0 ==> m[i - 1] == bs[i - 1] && bs[i - 1].addr < bs[i].addr)
      && FreeOrEnd(m, l') && (Lowest(bs, l) ==> Lowest(m, l'))
  {
    hide Coalesced, FreeTotal, Aligned, Tiled, Release, Plugged, FreeOrEnd, Lowest;
    ReleaseIsProper(bs, i, 0, pool, hdr);
    NeighboursOf(bs, i, 0, pool, hdr);
    MarkFacts(bs, pool, hdr, i);
    ReleaseIsPlugged(bs, i);
    MarkedLowest(bs, i, l);
  }

  lemma MarkFacts(bs: Layout, pool: int, hdr: int, i: int)
    requires Proper(bs, 0, pool, hdr) && 0 <= i < |bs| - 1
    ensures var m := Mark(bs, i, false);
      && |m| == |bs| && m[|m| - 1] == Block(pool - hdr, true) && bs[i].addr < bs[i + 1].addr
      && m[i + 1] == bs[i + 1] && (i > 0 ==> m[i - 1] == bs[i - 1] && bs[i - 1].addr < bs[i].addr)
  {
    hide Coalesced, FreeTotal, Aligned;
  }

  lemma MarkedLowest(bs: Layout, i: int, l: int)
    requires 0 <= i < |bs| - 1 && bs[i].used && FreeOrEnd(bs, l)
    ensures var m, l' := Mark(bs, i, false), if bs[i].addr < l then bs[i].addr else l;
      FreeOrEnd(m, l') && (Lowest(bs, l) ==> Lowest(m, l'))
  {
    var m := Mark(bs, i, false);
    assert m[i] == Block(bs[i].addr, false) && m[|m| - 1] == bs[|bs| - 1];
    assert bs == bs[..i] + [bs[i]] + bs[i + 1..];
    assert forall b :: b in m ==> b in bs || b == m[i];
    assert forall b :: b in bs ==> b in m || b == bs[i];
  }

  lemma ShrinkFacts(next: Fields, prev: Fields, used: map<int, bool>, bs: Layout, pool: int, hdr: int, i: int,
                    size: int, l: int)
    requires Headers(next, prev, used, bs) && Proper(bs, 0, pool, hdr) && 0 <= i < |bs| - 1 && bs[i].used
      && FreeOrEnd(bs, l)
    requires size >= 0 && Aligned(size) && Size(bs, i, hdr) > size + hdr
    ensures var ptr, ptr2 := bs[i].addr, bs[i].addr + hdr + size; var b := Block(ptr2, false);
      var n, r := Inserted(bs, i, b), Carve(bs, i, size, hdr);
      && ptr in next && next[ptr] == bs[i + 1].addr && ptr != ptr2 && next[ptr] != ptr && next[ptr] != ptr2
      && Headers(next[ptr2 := next[ptr]][ptr := ptr2], PrevAfter(next, prev, ptr, ptr2, pool - hdr),
        used[ptr2 := false], n) && AddrsDiffer(n)
      && Proper(r, 0, pool, hdr) && r == Plugged(n, i + 1) && |n| == |bs| + 1 && n[i + 1] == b && n[i] == bs[i]
      && n[i + 2] == bs[i + 1]
      && n[|n| - 1] == Block(pool - hdr, true) && FreeOrEnd(n, l)
      && UsedTotal(n) == UsedTotal(bs) - (Size(bs, i, hdr) - size)
  {
    hide Coalesced, FreeTotal, Aligned, Tiled, Headers, AddrsDiffer, UsedTotal, Carve, Plugged, Inserted, FreeOrEnd;
    NeighboursOf(bs, i, 0, pool, hdr);
    CarveIsProper(bs, i, size, 0, pool, hdr);
    CarveIsPlugged(bs, i, size, hdr);
    InsertedBehind(next, prev, used, bs, pool, hdr, i, Block(bs[i].addr + hdr + size, false));
    UsedOfInserted(bs, i, Block(bs[i].addr + hdr + size, false));
    NotLast(bs, pool, hdr, i);
    InsertedShape(bs, i, Block(bs[i].addr + hdr + size, false), l);
  }

  lemma InsertedShape(bs: Layout, i: int, b: Block, l: int)
    requires 0 <= i < |bs| - 1
    ensures var n := Inserted(bs, i, b);
      && |n| == |bs| + 1 && n[i] == bs[i] && n[i + 1] == b && n[i + 2] == bs[i + 1] && n[|n| - 1] == bs[|bs| - 1]
      && (FreeOrEnd(bs, l) ==> FreeOrEnd(n, l))
  {
    assert bs == bs[..i + 1] + bs[i + 1..];
  }

  lemma UsedOfInserted(bs: Layout, i: int, b: Block)
    requires 0 <= i < |bs| - 1 && bs[i].used && !b.used
    ensures UsedTotal(Inserted(bs, i, b)) == UsedTotal(bs) - (bs[i + 1].addr - b.addr)
  {
    hide FreeTotal;
    assert bs == bs[..i] + [bs[i]] + bs[i + 1..] && Inserted(bs, i, b) == bs[..i] + [bs[i], b] + bs[i + 1..];
    UsedReplaced(bs[..i], [bs[i]], [bs[i], b], bs[i + 1..]);
    assert Flip([bs[i]]) == [Block(bs[i].addr, false)]
      && Flip([bs[i], b]) == [Block(bs[i].addr, false), Block(b.addr, true)];
    TotalOfOne(Block(bs[i].addr, false), Flip(bs[i + 1..])[0], 0);
    TotalOfTwo(Block(bs[i].addr, false), Block(b.addr, true), Flip(bs[i + 1..])[0], 0);
  }

  /** Shrinking a block below the lowest free one leaves the pointer too high. */
  lemma ShrinkLowest(bs: Layout, pool: int, hdr: int, i: int, size: int, l: int, l': int)
    requires Proper(bs, 0, pool, hdr) && 0 <= i < |bs| - 1 && bs[i].used && size >= 0 && Aligned(size)
      && Size(bs, i, hdr) > size + hdr
    requires l' == if !bs[i + 1].used && l == bs[i + 1].addr then bs[i].addr + hdr + size else l
    ensures Lowest(bs, l) ==>
      (Lowest(Carve(bs, i, size, hdr), l') <==> l < bs[i].addr + hdr || (!bs[i + 1].used && l == bs[i + 1].addr))
  {
    hide Coalesced, FreeTotal, Aligned, Tiled, Carve;
    NeighboursOf(bs, i, 0, pool, hdr);
    CarveIsProper(bs, i, size, 0, pool, hdr);
    CarveBlocks(bs, i, size, hdr);
    Below(bs, pool, hdr, i);
    Below(bs, pool, hdr, i + 1);
    if Lowest(bs, l) {
      var k := IndexOfFree(bs, l);
      NotLast(bs, pool, hdr, k);
      NotLast(bs, pool, hdr, i);
    }
  }

  lemma CarveBlocks(bs: Layout, i: int, size: int, hdr: int)
    requires 0 <= i < |bs| - 1
    ensures var r, b := Carve(bs, i, size, hdr), Block(bs[i].addr + hdr + size, false);
      && (forall x :: x in r ==> x in bs || x == b) && b in r
      && (bs[|bs| - 1].used ==> |r| > 0 && r[|r| - 1] == bs[|bs| - 1])
  {
    assert Carve(bs, i, size, hdr)[i + 1] == Block(bs[i].addr + hdr + size, false);
  }

  // ------------------------------------------------------------ live blocks

  lemma AllocatedLive(bs: Layout, m: Bytes, pool: int, hdr: int, i: int, size: int)
    requires Proper(bs, 0, pool, hdr) && 0 <= i < |bs| - 1 && !bs[i].used && 0 <= size <= Size(bs, i, hdr)
      && Aligned(size)
    ensures var r, p := Allocated(bs, i, size, hdr), bs[i].addr + hdr;
      && NotLive(bs, p, hdr) && Holds(r, p, size, size + hdr + MIN_SIZE - 1, hdr)
      && Untouched(bs, m, r, if Size(bs, i, hdr) >= size + hdr + MIN_SIZE then Clobber(m, bs[i].addr + size + hdr, hdr)
        else m, hdr, {})
  {
    hide Tiled, Coalesced, FreeTotal, Aligned, LiveAt, KeepsLive, Clobber, Untouched;
    if Size(bs, i, hdr) >= size + hdr + MIN_SIZE {
      TakeKeepsLive(bs, i, size, 0, pool, hdr);
      UntouchedByHeader(bs, Take(bs, i, size, hdr), m, hdr, {}, bs[i].addr + size + hdr);
    } else {
      MarkKeepsLive(bs, i, 0, pool, hdr);
      UntouchedByMark(bs, Mark(bs, i, true), m, hdr);
    }
  }

  lemma CarveFits(bs: Layout, m: Bytes, pool: int, hdr: int, i: int, size: int)
    requires Proper(bs, 0, pool, hdr) && 0 <= i < |bs| - 1 && bs[i].used && 0 <= size && size + hdr < Size(bs, i, hdr)
      && Aligned(size)
    ensures var p, r := bs[i].addr + hdr, Carve(bs, i, size, hdr);
      var m' := Clobber(m, p + size, hdr);
      Untouched(bs, m, r, m', hdr, {p}) && Holds(r, p, size, size, hdr)
        && Moved(m, p, m', p, Min(Size(bs, i, hdr), size))
  {
    hide Tiled, Coalesced, FreeTotal, Aligned, LiveAt, Carve;
    NeighboursOf(bs, i, 0, pool, hdr);
    CarveKeeps(bs, 0, pool, i, size, m, hdr);
  }

  lemma RequestCovers(n: int)
    ensures AlignUp(AlignUp(n)) == AlignUp(n) && Request(AlignUp(n)) == Request(n)
  {
    assert AlignUp(n) == ALIGN * (AlignUp(n) / ALIGN);
  }

  lemma InitialLayout(size: int, hdr: int)
    requires size >= 0 && Aligned(size) && hdr > 0 && Aligned(hdr)
    ensures var bs := [Block(0, false), Block(size + hdr, true)];
      Proper(bs, 0, size + 2 * hdr, hdr) && UsedTotal(bs) == 0 && Lowest(bs, 0)
  {
    var bs := [Block(0, false), Block(size + hdr, true)];
    AlignedSum(size, hdr);
    assert Flip(bs) == [Block(0, true)] + [Block(size + hdr, false)];
    TotalOfOne(Block(0, true), Block(size + hdr, false), 0);
    assert bs[0] in bs;
  }

  // -------------------------------------------------------- where it goes wrong

  /** On every fresh heap a request for all of it fails, although the one free block holds just that. */
  method WholeHeapRefused(size: int, header: int) returns (h: Heap, p: int)
    requires size >= MIN_SIZE && Aligned(size) && header > 0 && Aligned(header)
    ensures fresh(h) && h.Valid() && p == NULL
    ensures h.blocks == [Block(0, false), Block(size + header, true)]
      && Size(h.blocks, 0, h.hdr) == size == Request(size)
  {
    h := new Heap(size, header);
    Exact(size);
    ghost var k;
    assert NoFit(h.blocks, h.lfree, size, header);
    p, k := h.Malloc(size);
  }

  lemma Exact(n: int)
    requires n >= MIN_SIZE && Aligned(n)
    ensures AlignUp(n) == n && Request(n) == n
  {
    assert n == ALIGN * (n / ALIGN);
  }

  /** The three layouts of the run below. */
  function Layout0(): (bs: Layout) { [Block(0, false), Block(212, true)] }
  function Layout1(): (bs: Layout) { [Block(0, true), Block(112, false), Block(212, true)] }
  function Layout2(): (bs: Layout) { [Block(0, true), Block(112, true), Block(136, false), Block(212, true)] }

  lemma Served0(l: int, i: int)
    requires Lowest(Layout0(), l)
    ensures AlignUp(100) == 100 == Request(100) && !NoFit(Layout0(), l, 100, 12)
    ensures 0 <= i < 1 && !Layout0()[i].used ==> Layout0()[i].addr == 0 && Allocated(Layout0(), i, 100, 12) == Layout1()
  {
    var bs := Layout0();
    assert l == 0 by { assert bs[0] in bs; }
    assert !Unfit(bs, 0, 100, 12);
    if i == 0 { assert Take(bs, 0, 100, 12) == Layout1(); }
  }

  lemma Served1(l: int, i: int)
    requires Lowest(Layout1(), l)
    ensures AlignUp(12) == 12 == Request(12) && !NoFit(Layout1(), l, 12, 12)
    ensures 0 <= i < 2 && !Layout1()[i].used ==> Allocated(Layout1(), i, 12, 12) == Layout2()
  {
    var bs := Layout1();
    assert l == 112 by { assert bs[1] in bs && bs[0] in bs; }
    assert !Unfit(bs, 1, 12, 12);
    if i == 1 { assert Take(bs, 1, 12, 12) == Layout2(); }
  }

  lemma Undercut2(l: int, i: int)
    requires Lowest(Layout2(), l) && 0 <= i < 3 && Layout2()[i] == Block(0, true)
    ensures Undercuts(Layout2(), i, 12, l, 12)
  {
    var bs := Layout2();
    assert l == 136 by { assert bs[2] in bs && bs[1] in bs && bs[0] in bs; }
  }

  lemma LiveFirst(bs: Layout)
    requires |bs| >= 2 && bs[0] == Block(0, true)
    ensures LiveAt(bs, 12, Size(bs, 0, 12), 12)
  {
    assert LiveIndex(bs, 0, 12, Size(bs, 0, 12), 12);
  }

  /** After two allocations, shrinking the first leaves a free block below the lowest-free pointer. */
  method ShrinkUndercuts() returns (h: Heap)
    ensures fresh(h) && h.Valid() && !Lowest(h.blocks, h.lfree)
  {
    hide Tiled, Coalesced, Headers, UsedTotal, FreeTotal, Untouched, LiveAt, NotLive, Holds, Moved, Lowest,
         FreeOrEnd, NoFit, Allocated,
         AlignUp, Aligned, AddrsDiffer, Unfit, Undercuts, Stays;
    assert Aligned(200) && Aligned(12) by { Multiple4(50); Multiple4(3); }
    h := new Heap(200, 12);
    ghost var i, j, k;
    var a, b, c;
    ghost var l := h.lfree;
    Served0(l, 0);
    a, i := h.Malloc(100);
    Served0(l, i);
    assert h.blocks == Layout1() && a == 12;
    l := h.lfree;
    Served1(l, 0);
    b, j := h.Malloc(12);
    Served1(l, j);
    assert h.blocks == Layout2();
    LiveFirst(h.blocks);
    l := h.lfree;
    c, k := h.Realloc(a, 12);
    Undercut2(l, k);
  }

  lemma Multiple4(k: int)
    ensures Aligned(4 * k)
  {
  }
}
