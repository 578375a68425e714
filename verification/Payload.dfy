/**
 The payload bytes of a boundary-tag heap: which of them survive a header being written, a copy, a
 move and a release.
 */
module Payload {
  import opened HeapLayout
  import opened Words

  /** The bytes that are neither a header nor lost under one since they were last written. */
  type Bytes = map<int, byte>

  /** Memory after a header was written at `h`. */
  function Clobber(m: Bytes, h: int, hdr: int): (r: Bytes) {
    map x | x in m && !(h <= x < h + hdr) :: m[x]
  }

  /** The `n` bytes at `p` are the same, defined or not. */
  ghost predicate SameBytes(m: Bytes, m': Bytes, p: int, n: int) {
    forall x :: p <= x < p + n ==> SameByte(m, x, m', x)
  }

  ghost predicate SameByte(m: Bytes, x: int, m': Bytes, y: int) {
    (x in m <==> y in m') && (x in m ==> m[x] == m'[y])
  }

  ghost predicate MovedAt(m: Bytes, p: int, m': Bytes, q: int, k: int) { SameByte(m, p + k, m', q + k) }

  /** The `n` bytes at `q` now are those that were at `p`. */
  ghost predicate Moved(m: Bytes, p: int, m': Bytes, q: int, n: int) {
    forall k :: 0 <= k < n ==> MovedAt(m, p, m', q, k)
  }

  lemma MovedOneMore(m: Bytes, src: int, m0: Bytes, m1: Bytes, dst: int, k: int)
    requires k >= 0 && Moved(m, src, m0, dst, k) && SameByte(m, src + k, m0, src + k)
    requires m1 == if src + k in m0 then m0[dst + k := m0[src + k]] else m0 - {dst + k}
    ensures Moved(m, src, m1, dst, k + 1)
  {
    forall j | 0 <= j < k + 1
      ensures MovedAt(m, src, m1, dst, j)
    {
      if j < k { assert MovedAt(m, src, m0, dst, j); }
    }
  }

  lemma MovedAfterSame(m: Bytes, mid: Bytes, m': Bytes, p: int, q: int, n: int)
    requires SameBytes(m, mid, p, n) && Moved(mid, p, m', q, n)
    ensures Moved(m, p, m', q, n)
  {
    forall k | 0 <= k < n
      ensures MovedAt(m, p, m', q, k)
    {
      assert MovedAt(mid, p, m', q, k) && SameByte(m, p + k, mid, p + k);
    }
  }

  /** Every live block except those at `except` is still live, at the same size, with the same bytes. */
  ghost predicate Untouched(bs: Layout, m: Bytes, bs': Layout, m': Bytes, hdr: int, except: set<int>) {
    forall p, sz :: LiveAt(bs, p, sz, hdr) && p !in except ==> LiveAt(bs', p, sz, hdr) && SameBytes(m, m', p, sz)
  }

  lemma UntouchedByHeader(bs: Layout, bs': Layout, m: Bytes, hdr: int, except: set<int>, h: int)
    requires KeepsLive(bs, bs', hdr, except, h)
    ensures Untouched(bs, m, bs', Clobber(m, h, hdr), hdr, except)
  {
  }

  lemma UntouchedByMark(bs: Layout, bs': Layout, m: Bytes, hdr: int)
    requires forall p, sz :: LiveAt(bs, p, sz, hdr) ==> LiveAt(bs', p, sz, hdr)
    ensures Untouched(bs, m, bs', m, hdr, {})
  {
  }

  lemma UntouchedRefl(bs: Layout, m: Bytes, hdr: int)
    ensures Untouched(bs, m, bs, m, hdr, {})
  {
  }

  lemma UntouchedWeaken(bs: Layout, m: Bytes, bs': Layout, m': Bytes, hdr: int, p: int)
    requires Untouched(bs, m, bs', m', hdr, {})
    ensures Untouched(bs, m, bs', m', hdr, {p})
  {
  }

  /** Which block a live payload belongs to. */
  lemma LiveBlock(bs: Layout, p: int, sz: int, hdr: int) returns (i: int)
    requires LiveAt(bs, p, sz, hdr)
    ensures 0 <= i < |bs| - 1 && bs[i] == Block(p - hdr, true) && Size(bs, i, hdr) == sz
  {
    i :| 0 <= i < |bs| - 1 && LiveIndex(bs, i, p, sz, hdr);
  }

  lemma UntouchedTrans(a: Layout, m: Bytes, b: Layout, n: Bytes, c: Layout, o: Bytes, hdr: int, e: set<int>,
                       f: set<int>)
    requires Untouched(a, m, b, n, hdr, e) && Untouched(b, n, c, o, hdr, f)
    ensures Untouched(a, m, c, o, hdr, e + f)
  {
    forall p, sz | LiveAt(a, p, sz, hdr) && p !in e + f
      ensures LiveAt(c, p, sz, hdr) && SameBytes(m, o, p, sz)
    {
      assert LiveAt(b, p, sz, hdr);
      forall x | p <= x < p + sz
        ensures SameByte(m, x, o, x)
      {
        assert SameByte(m, x, n, x) && SameByte(n, x, o, x);
      }
    }
  }

  /** A live block of at least `size` bytes is at `p`. */
  /** The block at `p` is live and holds `lo` to `hi` bytes. */
  ghost predicate Holds(bs: Layout, p: int, lo: int, hi: int, hdr: int) {
    exists sz :: lo <= sz <= hi && LiveAt(bs, p, sz, hdr)
  }

  lemma HoldsMore(bs: Layout, p: int, lo: int, hi: int, lo': int, hi': int, hdr: int)
    requires Holds(bs, p, lo, hi, hdr) && lo' <= lo && hi <= hi'
    ensures Holds(bs, p, lo', hi', hdr)
  {
    hide LiveAt;
  }

  function Min(a: int, b: int): (m: int) { if a < b then a else b }

  function Max(a: int, b: int): (m: int) { if a < b then b else a }

  lemma LiveAtIndex(bs: Layout, i: int, hdr: int)
    requires 0 <= i < |bs| - 1 && bs[i].used
    ensures LiveAt(bs, bs[i].addr + hdr, Size(bs, i, hdr), hdr)
  {
    assert LiveIndex(bs, i, bs[i].addr + hdr, Size(bs, i, hdr), hdr);
  }

  lemma NotLiveIsOther(bs: Layout, q: int, p: int, sz: int, hdr: int)
    requires NotLive(bs, q, hdr) && LiveAt(bs, p, sz, hdr)
    ensures p != q
  {
  }

  /** Two live payloads do not overlap. */
  lemma LiveDisjoint(bs: Layout, start: int, pool: int, hdr: int, p: int, sz: int, q: int, qsz: int)
    requires Proper(bs, start, pool, hdr) && LiveAt(bs, p, sz, hdr) && LiveAt(bs, q, qsz, hdr) && p != q
    ensures p + sz <= q || q + qsz <= p
  {
    Apart(bs, start, pool, hdr);
  }

  lemma UntouchedAt(bs: Layout, m: Bytes, bs': Layout, m': Bytes, hdr: int, except: set<int>, p: int, sz: int)
    requires Untouched(bs, m, bs', m', hdr, except) && LiveAt(bs, p, sz, hdr) && p !in except
    ensures LiveAt(bs', p, sz, hdr) && SameBytes(m, m', p, sz)
  {
  }

  lemma UntouchedByCopy(bs: Layout, start: int, pool: int, m: Bytes, m': Bytes, hdr: int, q: int, qsz: int, n: int)
    requires Proper(bs, start, pool, hdr) && LiveAt(bs, q, qsz, hdr) && n <= qsz
    requires forall x :: x < q || q + n <= x ==> SameByte(m, x, m', x)
    ensures Untouched(bs, m, bs, m', hdr, {q})
  {
    forall p, sz | LiveAt(bs, p, sz, hdr) && p != q
      ensures SameBytes(m, m', p, sz)
    {
      LiveDisjoint(bs, start, pool, hdr, p, sz, q, qsz);
    }
  }

  lemma UntouchedDrop(bs: Layout, m: Bytes, bs': Layout, m': Bytes, hdr: int, q: int, p: int)
    requires Untouched(bs, m, bs', m', hdr, {} + {q} + {p}) && NotLive(bs, q, hdr)
    ensures Untouched(bs, m, bs', m', hdr, {p})
  {
  }

  /** What resizing in place does to the bytes. */
  lemma CarveKeeps(bs: Layout, start: int, pool: int, i: int, size: int, m: Bytes, hdr: int)
    requires Proper(bs, start, pool, hdr) && Resizable(bs, i, size, hdr)
    ensures var p, r := bs[i].addr + hdr, Carve(bs, i, size, hdr);
      var m' := Clobber(m, p + size, hdr);
      Untouched(bs, m, r, m', hdr, {p}) && LiveAt(r, p, size, hdr) && Holds(r, p, size, size, hdr)
        && Moved(m, p, m', p, Min(Size(bs, i, hdr), size))
  {
    hide Tiled, Coalesced, FreeTotal, Aligned, LiveAt;
    CarveKeepsLive(bs, i, size, start, pool, hdr);
    var p := bs[i].addr + hdr;
    UntouchedByHeader(bs, Carve(bs, i, size, hdr), m, hdr, {p}, p + size);
  }

  lemma KeepAsIs(bs: Layout, m: Bytes, i: int, size: int, hdr: int)
    requires 0 <= i < |bs| - 1 && bs[i].used && size <= Size(bs, i, hdr)
    ensures var p := bs[i].addr + hdr;
      Untouched(bs, m, bs, m, hdr, {p}) && Holds(bs, p, Size(bs, i, hdr), Size(bs, i, hdr), hdr)
        && Moved(m, p, m, p, Min(Size(bs, i, hdr), size))
  {
    LiveAtIndex(bs, i, hdr);
  }

  /** Used block `i` can be given `size` bytes in place, leaving a free block behind it. */
  ghost predicate Resizable(bs: Layout, i: int, size: int, hdr: int) {
    && 0 <= i < |bs| - 1 && bs[i].used && size >= 0 && Aligned(size) && size != Size(bs, i, hdr)
    && (bs[i + 1].used ==> size + hdr <= Size(bs, i, hdr))
    && (!bs[i + 1].used ==> i + 2 < |bs| && size < Size(bs, i, hdr) + Size(bs, i + 1, hdr))
  }

  /** `m'` differs from `m` only in that the `n` bytes at `src` were copied to `dst`. */
  ghost predicate CopiedOver(m: Bytes, m': Bytes, dst: int, src: int, n: int) {
    Moved(m, src, m', dst, n) && forall x :: x < dst || dst + n <= x ==> SameByte(m, x, m', x)
  }

  /** rt_memcpy of `n` bytes. */
  method CopyBytes(m: Bytes, dst: int, src: int, n: int) returns (r: Bytes)
    requires n >= 0 && (src + n <= dst || dst + n <= src)
    ensures CopiedOver(m, r, dst, src, n)
  {
    r := m;
    var k := 0;
    while k < n
      invariant 0 <= k <= n && CopiedOver(m, r, dst, src, k)
    {
      ghost var m0 := r;
      assert SameByte(m, src + k, m0, src + k);
      r := if src + k in r then r[dst + k := r[src + k]] else r - {dst + k};
      MovedOneMore(m, src, m0, r, dst, k);
      forall x | x < dst || dst + k + 1 <= x
        ensures SameByte(m, x, r, x)
      {
        assert SameByte(m, x, m0, x);
      }
      k := k + 1;
    }
  }

  /** A block served while `p` was live does not overlap it. */
  lemma ApartFromNew(bs: Layout, m: Bytes, bs': Layout, m': Bytes, start: int, pool: int, hdr: int, p: int, sz: int,
                     q: int, qsz: int)
    requires Proper(bs', start, pool, hdr) && Untouched(bs, m, bs', m', hdr, {})
    requires LiveAt(bs, p, sz, hdr) && NotLive(bs, q, hdr) && LiveAt(bs', q, qsz, hdr)
    ensures p != q && (p + sz <= q || q + qsz <= p) && LiveAt(bs', p, sz, hdr)
  {
    hide Proper, LiveAt;
    LiveDisjoint(bs', start, pool, hdr, p, sz, q, qsz);
  }

  /** Serving a new block, copying into it and releasing the old one moves the bytes and touches no other block. */
  lemma MoveKeeps(bs: Layout, m: Bytes, bs1: Layout, mid: Bytes, m1: Bytes, bs2: Layout, start: int, pool: int,
                  hdr: int,
                  p: int, sz: int, q: int, qsz: int, n: int)
    requires Proper(bs1, start, pool, hdr) && LiveAt(bs, p, sz, hdr) && NotLive(bs, q, hdr) && p != q
    requires Untouched(bs, m, bs1, mid, hdr, {}) && LiveAt(bs1, q, qsz, hdr) && 0 <= n <= sz && n <= qsz
    requires CopiedOver(mid, m1, q, p, n) && Untouched(bs1, m1, bs2, m1, hdr, {p})
    ensures Untouched(bs, m, bs2, m1, hdr, {p}) && Moved(m, p, m1, q, n) && LiveAt(bs2, q, qsz, hdr)
  {
    hide Proper, LiveAt, Moved, Untouched, NotLive, SameByte;
    UntouchedAt(bs, m, bs1, mid, hdr, {}, p, sz);
    UntouchedByCopy(bs1, start, pool, mid, m1, hdr, q, qsz, n);
    MovedAfterSame(m, mid, m1, p, q, n);
    UntouchedTrans(bs, m, bs1, mid, bs1, m1, hdr, {}, {q});
    UntouchedAt(bs1, m1, bs2, m1, hdr, {p}, q, qsz);
    UntouchedTrans(bs, m, bs1, m1, bs2, m1, hdr, {} + {q}, {p});
    UntouchedDrop(bs, m, bs2, m1, hdr, q, p);
  }

  /** Releasing block `i` ends its life and touches no other block. */
  lemma ReleaseFrees(bs: Layout, m: Bytes, i: int, start: int, pool: int, hdr: int)
    requires Proper(bs, start, pool, hdr) && 0 <= i < |bs| - 1 && bs[i].used
    ensures var p, r := bs[i].addr + hdr, Release(bs, i); NotLive(r, p, hdr) && Untouched(bs, m, r, m, hdr, {p})
  {
    hide Tiled, Coalesced, FreeTotal, Aligned, Release;
    ReleaseKeepsLive(bs, i, start, pool, hdr);
    ReleasedUsed(bs, i, start, pool, hdr);
  }

  lemma ReleasedUsed(bs: Layout, i: int, start: int, pool: int, hdr: int)
    requires Proper(bs, start, pool, hdr) && 0 <= i < |bs| - 1 && bs[i].used
    ensures forall b :: b in Release(bs, i) ==> !b.used || b.addr != bs[i].addr
  {
    Apart(bs, start, pool, hdr);
  }
}
