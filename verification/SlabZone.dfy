/**
 Slab zones (`slab.c`): how a request size picks a zone and a chunk size, and how one zone hands out
 and takes back its chunks.
 */
module SlabZone {
  import opened Sequences

  const NZONES := 72
  const PAGE := 4096
  const MIN_CHUNK_SIZE := 8

  // ------------------------------------------------------------- zoneindex

  /** The granularity of chunk sizes around `n`. */
  function Step(n: int): (g: int) {
    if n < 128 then 8
    else if n < 256 then 16
    else if n < 512 then 32
    else if n < 1024 then 64
    else if n < 2048 then 128
    else if n < 4096 then 256
    else if n < 8192 then 512
    else 1024
  }

  /** zoneindex: the chunk size serving `n` bytes, a multiple of a granularity that grows with `n`. */
  function ChunkSize(n: int): (s: int)
    requires 0 < n < 16384
    ensures n <= s <= 16384
  {
    if n < 128 then (n + 7) / 8 * 8
    else if n < 256 then (n + 15) / 16 * 16
    else if n < 512 then (n + 31) / 32 * 32
    else if n < 1024 then (n + 63) / 64 * 64
    else if n < 2048 then (n + 127) / 128 * 128
    else if n < 4096 then (n + 255) / 256 * 256
    else if n < 8192 then (n + 511) / 512 * 512
    else (n + 1023) / 1024 * 1024
  }

  /** A chunk is the least multiple of the granularity that holds the request. */
  lemma ChunkLeast(n: int)
    requires 0 < n < 16384
    ensures n <= ChunkSize(n) < n + Step(n) && ChunkSize(n) % Step(n) == 0
  {
    RoundUpLeast(n, Step(n));
  }

  lemma RoundUpLeast(n: int, g: int)
    requires n > 0 && g > 0
    ensures var s := (n + g - 1) / g * g; n <= s < n + g && s % g == 0
  {
    var q, r := (n + g - 1) / g, (n + g - 1) % g;
    assert n + g - 1 == g * q + r;
    if q < 0 { Multiples(g, q); }
    ModShift(0, q, g);
    assert 0 + q * g == q * g;
  }

  /** zoneindex: the index of the zone list serving `n` bytes, counted in units of the granularity. */
  function ZoneIndex(n: int): (i: int)
    requires 0 < n < 16384
  {
    if n < 128 then (n + 7) / 8 - 1
    else if n < 256 then (n + 15) / 16 + 7
    else if n < 512 then (n + 31) / 32 + 15
    else if n < 1024 then (n + 63) / 64 + 23
    else if n < 2048 then (n + 127) / 128 + 31
    else if n < 4096 then (n + 255) / 256 + 39
    else if n < 8192 then (n + 511) / 512 + 47
    else (n + 1023) / 1024 + 55
  }

  /** The chunk size of a zone list, by its index alone. */
  function SizeOfIndex(i: int): (s: int)
    requires 0 <= i < NZONES
  {
    if i < 15 then 8 * (i + 1)
    else if i < 23 then 16 * (i - 7)
    else if i < 31 then 32 * (i - 15)
    else if i < 39 then 64 * (i - 23)
    else if i < 47 then 128 * (i - 31)
    else if i < 55 then 256 * (i - 39)
    else if i < 63 then 512 * (i - 47)
    else 1024 * (i - 55)
  }

  /** The index is in range and determines the chunk size, also where two granularities meet. */
  lemma IndexGivesSize(n: int)
    requires 0 < n < 16384
    ensures 0 <= ZoneIndex(n) < NZONES && SizeOfIndex(ZoneIndex(n)) == ChunkSize(n)
  {
  }

  /** Requests are served by the same list exactly if they get the same chunk size. */
  lemma SameListSameSize(m: int, n: int)
    requires 0 < m < 16384 && 0 < n < 16384
    ensures ZoneIndex(m) == ZoneIndex(n) <==> ChunkSize(m) == ChunkSize(n)
  {
    IndexGivesSize(m);
    IndexGivesSize(n);
    SizesGrow(ZoneIndex(m), ZoneIndex(n));
    SizesGrow(ZoneIndex(n), ZoneIndex(m));
  }

  lemma SizesGrow(i: int, j: int)
    requires 0 <= i < NZONES && 0 <= j < NZONES
    ensures i < j ==> SizeOfIndex(i) < SizeOfIndex(j)
  {
  }

  /** Less than an eighth of a chunk, or seven bytes, is lost to rounding. */
  lemma LittleWaste(n: int)
    requires 0 < n < 16384
    ensures ChunkSize(n) - n < MIN_CHUNK_SIZE || 8 * (ChunkSize(n) - n) < n
  {
  }

  // ----------------------------------------------------------------- a zone

  /** sizeof(slab_zone). */
  const HEADER := 36

  /**
   A zone's header: where its chunks begin, how many there are, have ever been issued and are free, and the free
   list.
   */
  datatype Zone = Zone(base: int, size: int, nmax: int, uindex: int, nfree: int, free: seq<int>, index: int)

  function ChunkAt(z: Zone, k: int): (a: int) {
    z.base + k * z.size
  }

  /** A chunk that has been handed out at some time. */
  ghost predicate Issued(z: Zone, a: int) {
    exists k :: 0 <= k <= z.uindex && a == ChunkAt(z, k)
  }

  ghost predicate LiveIn(z: Zone, a: int) {
    Issued(z, a) && a !in z.free
  }

  /** The free chunks are those never issued and those on the list. */
  ghost predicate Sound(z: Zone) {
    && z.size > 0 && 0 <= z.uindex < z.nmax && z.nfree == z.nmax - 1 - z.uindex + |z.free|
    && Distinct(z.free) && (forall a :: a in z.free ==> Issued(z, a))
  }

  /** Chunks are laid out one behind the other. */
  lemma {:induction false} ChunksApart(z: Zone, j: int, k: int)
    requires z.size > 0 && j < k
    ensures ChunkAt(z, j) + z.size <= ChunkAt(z, k)
    decreases k - j
  {
    NextChunk(z, k - 1);
    if j + 1 < k {
      ChunksApart(z, j, k - 1);
    }
  }

  lemma NextChunk(z: Zone, k: int)
    ensures ChunkAt(z, k + 1) == ChunkAt(z, k) + z.size
  {
  }

  lemma LiveDisjoint(z: Zone, a: int, b: int)
    requires Sound(z) && LiveIn(z, a) && LiveIn(z, b) && a != b
    ensures a + z.size <= b || b + z.size <= a
  {
    var j :| 0 <= j <= z.uindex && a == ChunkAt(z, j);
    var k :| 0 <= k <= z.uindex && b == ChunkAt(z, k);
    if j < k { ChunksApart(z, j, k); } else { ChunksApart(z, k, j); }
  }

  lemma LiveInside(z: Zone, a: int)
    requires Sound(z) && Issued(z, a)
    ensures z.base <= a && a + z.size <= ChunkAt(z, z.nmax)
  {
    var k :| 0 <= k <= z.uindex && a == ChunkAt(z, k);
    if k > 0 { ChunksApart(z, 0, k); }
    ChunksApart(z, k, z.nmax);
  }

  /** Zone initialisation, with its first chunk handed out. */
  function Opened(base: int, size: int, nmax: int, index: int): (z: Zone) {
    Zone(base, size, nmax, 0, nmax - 1, [], index)
  }

  /** A chunk is taken: from the part never issued, and only then from the list. */
  function Take(z: Zone): (r: (Zone, int))
    requires z.nfree > 0 && (z.uindex + 1 == z.nmax ==> z.free != [])
  {
    if z.uindex + 1 != z.nmax then (z.(nfree := z.nfree - 1, uindex := z.uindex + 1), ChunkAt(z, z.uindex + 1))
    else (z.(nfree := z.nfree - 1, free := z.free[1..]), z.free[0])
  }

  /** A chunk comes back. */
  function Give(z: Zone, a: int): (r: Zone) {
    z.(nfree := z.nfree + 1, free := [a] + z.free)
  }

  lemma OpenedIsSound(base: int, size: int, nmax: int, index: int)
    requires size > 0 && nmax > 0
    ensures var z := Opened(base, size, nmax, index); Sound(z) && forall a :: LiveIn(z, a) <==> a == base
  {
    var z := Opened(base, size, nmax, index);
    assert ChunkAt(z, 0) == base;
  }

  lemma CanTake(z: Zone)
    requires Sound(z) && z.nfree > 0
    ensures z.uindex + 1 == z.nmax ==> z.free != []
  {
  }

  lemma TakeIsSound(z: Zone)
    requires Sound(z) && z.nfree > 0 && (z.uindex + 1 == z.nmax ==> z.free != [])
    ensures var (z', p) := Take(z);
      Sound(z') && !LiveIn(z, p) && forall a :: LiveIn(z', a) <==> LiveIn(z, a) || a == p
  {
    var (z', p) := Take(z);
    if z.uindex + 1 != z.nmax {
      TakeFresh(z);
    } else {
      assert forall a :: Issued(z', a) <==> Issued(z, a) by {
        assert forall k :: ChunkAt(z', k) == ChunkAt(z, k);
      }
      assert p in z.free;
      assert forall a :: a in z'.free <==> a in z.free && a != p;
    }
  }

  lemma TakeFresh(z: Zone)
    requires Sound(z) && z.uindex + 1 != z.nmax
    ensures var z' := z.(nfree := z.nfree - 1, uindex := z.uindex + 1); var p := ChunkAt(z, z.uindex + 1);
      Sound(z') && !LiveIn(z, p) && forall a :: LiveIn(z', a) <==> LiveIn(z, a) || a == p
  {
    var z', p := z.(nfree := z.nfree - 1, uindex := z.uindex + 1), ChunkAt(z, z.uindex + 1);
    forall k | 0 <= k <= z.uindex
      ensures ChunkAt(z, k) != p
    {
      ChunksApart(z, k, z.uindex + 1);
    }
    forall a
      ensures Issued(z', a) <==> Issued(z, a) || a == p
    {
      if Issued(z, a) {
        var k :| 0 <= k <= z.uindex && a == ChunkAt(z, k);
        assert a == ChunkAt(z', k);
      }
      if a == p { assert a == ChunkAt(z', z'.uindex); }
      if Issued(z', a) {
        var k :| 0 <= k <= z'.uindex && a == ChunkAt(z', k);
        assert a == ChunkAt(z, k);
      }
    }
  }

  lemma GiveIsSound(z: Zone, p: int)
    requires Sound(z) && LiveIn(z, p)
    ensures Sound(Give(z, p)) && forall a :: LiveIn(Give(z, p), a) <==> LiveIn(z, a) && a != p
  {
    var z' := Give(z, p);
    assert forall a :: Issued(z', a) <==> Issued(z, a) by {
      assert forall k :: ChunkAt(z', k) == ChunkAt(z, k);
    }
    assert forall a :: a in z'.free <==> a in z.free || a == p;
  }

  // ---- counting

  ghost function IssuedSet(z: Zone, n: int): (s: set<int>) {
    set k | 0 <= k < n :: ChunkAt(z, k)
  }

  lemma {:induction false} IssuedCount(z: Zone, n: int)
    requires z.size > 0 && n >= 0
    ensures |IssuedSet(z, n)| == n
  {
    if n > 0 {
      IssuedCount(z, n - 1);
      forall k | 0 <= k < n - 1
        ensures ChunkAt(z, k) != ChunkAt(z, n - 1)
      {
        ChunksApart(z, k, n - 1);
      }
      assert IssuedSet(z, n) == IssuedSet(z, n - 1) + {ChunkAt(z, n - 1)};
    } else {
      assert IssuedSet(z, n) == {};
    }
  }

  ghost function Elems(s: seq<int>): (r: set<int>) { set x | x in s }

  lemma {:induction false} DistinctCount(s: seq<int>)
    requires Distinct(s)
    ensures |Elems(s)| == |s|
  {
    if s != [] {
      DistinctCount(s[1..]);
      assert Elems(s) == Elems(s[1..]) + {s[0]};
    }
  }

  lemma SubsetCount(a: set<int>, b: set<int>)
    requires a <= b
    ensures |a| <= |b| && (|a| == |b| ==> a == b)
  {
    assert b == a + (b - a) && a * (b - a) == {};
    assert |b| == |a| + |b - a|;
  }

  /** The free count is right: it never exceeds the number of chunks, and reaches it exactly when none is live. */
  lemma AllFreeMeansNoneLive(z: Zone)
    requires Sound(z)
    ensures z.nfree <= z.nmax
    ensures z.nfree == z.nmax <==> forall a :: !LiveIn(z, a)
  {
    var issued, free := IssuedSet(z, z.uindex + 1), Elems(z.free);
    IssuedCount(z, z.uindex + 1);
    DistinctCount(z.free);
    forall a
      ensures a in issued <==> Issued(z, a)
    {
    }
    assert free <= issued;
    SubsetCount(free, issued);
    if forall a :: !LiveIn(z, a) {
      forall a | a in issued
        ensures a in free
      {
        assert !LiveIn(z, a);
      }
      SubsetCount(issued, free);
    }
  }

  // ------------------------------------------------------------- zone layout

  const POWERS: set<int> := {8, 16, 32, 64, 128, 256, 512, 1024, 2048, 4096, 8192, 16384}

  /** Where the chunks begin: behind the header, at a multiple of a power-of-two chunk size or else of eight. */
  function Offset(size: int): (off: int) {
    if size == 16 then 48
    else if size == 32 then 64
    else if size in POWERS && size >= 64 then size
    else 40
  }

  lemma OffsetIsLeast(size: int)
    requires size > 0
    ensures size in POWERS ==> HEADER <= Offset(size) < HEADER + size && Offset(size) % size == 0
    ensures size !in POWERS ==> HEADER <= Offset(size) < HEADER + MIN_CHUNK_SIZE && Offset(size) % MIN_CHUNK_SIZE == 0
  {
  }

  function ChunkCount(zoneSize: int, size: int): (n: int)
    requires size > 0
  {
    (zoneSize - Offset(size)) / size
  }

  /** A zone has room for at least three chunks, and all of them fit. */
  lemma ChunksFit(zoneSize: int, size: int)
    requires 0 < size <= zoneSize / 4 && zoneSize >= 8 * PAGE
    ensures ChunkCount(zoneSize, size) >= 3 && Offset(size) + ChunkCount(zoneSize, size) * size <= zoneSize
  {
    var room := zoneSize - Offset(size);
    assert Offset(size) <= 64 || Offset(size) == size;
    assert 3 * size <= room;
    QuotientBounds(room, size);
  }

  lemma QuotientBounds(a: int, b: int)
    requires b > 0 && 3 * b <= a
    ensures a / b >= 3 && a / b * b <= a
  {
    var q := a / b;
    assert a == b * q + a % b;
    assert b * (q - 3) == b * q - 3 * b;
    Multiples(b, q - 3);
  }

  /** Power-of-two chunks are aligned to their size exactly if their zone is. */
  lemma AlignedWithZone(zone: int, size: int, k: int)
    requires size in POWERS && 0 <= k
    ensures (zone + Offset(size) + k * size) % size == 0 <==> zone % size == 0
  {
    var m := if size == 8 then 5 else if size == 16 then 3 else if size == 32 then 2 else 1;
    assert Offset(size) == m * size;
    assert zone + Offset(size) + k * size == zone + (m + k) * size;
    ModShift(zone, m + k, size);
  }

  /** Page-aligned zones are aligned for chunks of up to a page, and for larger ones if their page number is. */
  lemma PageAligned(z: int, size: int)
    requires z >= 0 && size in POWERS
    ensures size <= PAGE ==> (z * PAGE) % size == 0
    ensures size > PAGE ==> ((z * PAGE) % size == 0 <==> z % (size / PAGE) == 0)
  {
    if size <= PAGE {
      var c := PagePerChunk(size);
      assert z * PAGE == 0 + z * c * size by { assert z * PAGE == z * (c * size); }
      ModShift(0, z * c, size);
    } else if size == 8192 {
      TwoPages(z);
    } else {
      FourPages(z);
    }
  }

  /** How many chunks of a power of two fill a page. */
  lemma PagePerChunk(size: int) returns (c: int)
    requires size in POWERS && size <= PAGE
    ensures c > 0 && c * size == PAGE
  {
    c := if size == 8 then 512 else if size == 16 then 256 else if size == 32 then 128 else if size == 64 then 64
         else if size == 128 then 32 else if size == 256 then 16 else if size == 512 then 8 else if size == 1024 then 4
         else if size == 2048 then 2 else 1;
  }

  lemma TwoPages(z: int)
    ensures (z * PAGE) % 8192 == 0 <==> z % 2 == 0
  {
  }

  lemma FourPages(z: int)
    ensures (z * PAGE) % 16384 == 0 <==> z % 4 == 0
  {
  }

  lemma {:induction false} ModShift(a: int, k: int, b: int)
    requires b > 0 && k >= 0
    ensures (a + k * b) % b == a % b
    decreases k
  {
    if k > 0 {
      ModShift(a, k - 1, b);
      assert a + k * b == a + (k - 1) * b + b;
      ModStep(a + (k - 1) * b, b);
    }
  }

  lemma ModStep(a: int, b: int)
    requires b > 0
    ensures (a + b) % b == a % b
  {
    var q, r, q', r' := a / b, a % b, (a + b) / b, (a + b) % b;
    assert a == b * q + r && a + b == b * q' + r';
    assert b * (q + 1 - q') == b * q + b - b * q';
    Multiples(b, q + 1 - q');
  }

  /** A multiple other than zero is at least as large as what it is a multiple of. */
  lemma Multiples(b: int, d: int)
    requires b > 0
    ensures d >= 1 ==> b * d >= b
    ensures d <= -1 ==> b * d <= -b
  {
  }
}
