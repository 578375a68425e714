/**
 The slab allocator (`slab.c`): small requests are served from zones of equal chunks, large ones from
 the page list; zones that become empty are kept spare or go back to the page list.
 */
module Slab {
  import opened Sequences
  import opened SlabZone
  import opened SlabSpace
  import PageList

  const NULL := 0
  const ZALLOC_ZONE_LIMIT := 16384
  const ZONE_RELEASE_THRESH := 2

  class Heap {
    const zoneSize: int
    const zoneLimit: int
    /** zone_page_cnt. */
    const pageCount: int
    const pages: PageList.Pages

    /** The zone headers, by the page they are at. */
    var zones: Zones
    /** zone_array and zone_free. */
    var lists: Lists
    var spare: seq<int>
    var spareCount: int
    /** memusage, by page. */
    var usage: Usages

    /** The large blocks in use, and who each page belongs to. */
    ghost var large: map<int, int>
    ghost var owner: Owners
    /** The pages the heap was given. */
    ghost const space: iset<int>

    ghost predicate Geometry() {
      && zoneSize in {8 * PAGE, 16 * PAGE, 32 * PAGE} && zoneSize == pageCount * PAGE && pageCount >= 8
      && zoneLimit == if zoneSize / 4 > ZALLOC_ZONE_LIMIT then ZALLOC_ZONE_LIMIT else zoneSize / 4
    }

    ghost predicate Valid()
      reads this, pages
    {
      && Geometry() && pages.Valid() && Taken(pages.runs, owner, space)
      && ZonesOk(zones, spare, zoneSize) && ListsOk(zones, lists, spare)
      && OwnersOk(owner, zones, large, pageCount) && UsageOk(usage, owner, large)
      && spareCount == |spare| <= ZONE_RELEASE_THRESH
    }

    /** A block of `n` bytes at `a` is in use. */
    ghost predicate Alive(a: int, n: int)
      reads this`zones, this`spare, this`large
    {
      Block(zones, spare, large, a, n)
    }

    /** The state rt_system_heap_init leaves, on the pages it has put on the page list. */
    constructor (p: PageList.Pages, size: int)
      requires p.Valid() && size in {8 * PAGE, 16 * PAGE, 32 * PAGE}
      ensures Valid() && pages == p && zoneSize == size && (forall a, n :: !Alive(a, n)) && large == map[]
      ensures forall x :: x in space <==> PageList.FreePage(p.runs, x)
      ensures zoneLimit <= size / 4 && zoneLimit <= ZALLOC_ZONE_LIMIT
        && (zoneLimit == size / 4 || zoneLimit == ZALLOC_ZONE_LIMIT)
    {
      pages, zoneSize, pageCount := p, size, size / PAGE;
      zoneLimit := if size / 4 > ZALLOC_ZONE_LIMIT then ZALLOC_ZONE_LIMIT else size / 4;
      zones, lists, spare, spareCount, usage := map[], seq(NZONES, i => []), [], 0, map[];
      large, owner, space := map[], map[], iset x | PageList.FreePage(p.runs, x);
      new;
      assert forall i :: 0 <= i < NZONES ==> lists[i] == [];
    }

    // ---------------------------------------------------------------- malloc

    /** A chunk from the first zone of list `zi`. */
    method TakeChunk(zi: int) returns (p: int)
      requires Valid() && 0 <= zi < NZONES && lists[zi] != []
      modifies this`zones, this`lists
      ensures Valid() && (forall n :: !old(Alive(p, n))) && zones.Keys == old(zones).Keys
      ensures forall a, n :: Alive(a, n) <==> old(Alive(a, n)) || (a == p && n == SizeOfIndex(zi))
      ensures var z := old(lists)[zi][0]; z in zones && LiveIn(zones[z], p)
    {
      hide ListsOk, OwnersOk, UsageOk, Taken, Sound, Issued, Take, LiveSmall, LiveLarge, LiveIn;
      FirstOf(zones, lists, spare, zi);
      var z := lists[zi][0];
      TakeFacts(zones, lists, spare, large, owner, zoneSize, pageCount, zi);
      var (h, chunk) := Take(zones[z]);
      zones := zones[z := h];
      if h.nfree == 0 {
        lists := lists[zi := lists[zi][1..]];
      } else {
        assert lists[zi := lists[zi]] == lists;
      }
      p := chunk;
    }

    /** Note in memusage what the pages of a new zone are. */
    method MarkZone(z: int)
      modifies this`usage
      ensures forall p :: z <= p < z + pageCount ==> p in usage && usage[p] == Usage(SmallKind, p - z)
      ensures forall p :: !(z <= p < z + pageCount) && p in old(usage) ==> p in usage && usage[p] == old(usage)[p]
    {
      var off := 0;
      while off < pageCount
        invariant 0 <= off && (off <= pageCount || off == 0)
        invariant forall p :: z <= p < z + off ==> p in usage && usage[p] == Usage(SmallKind, p - z)
        invariant forall p :: !(z <= p < z + off) && p in old(usage) ==> p in usage && usage[p] == old(usage)[p]
      {
        usage := usage[z + off := Usage(SmallKind, off)];
        off := off + 1;
      }
    }

    /** Get the pages of a zone off the page list. */
    method FreshZone() returns (z: int)
      requires pages.Valid() && Taken(pages.runs, owner, space) && OwnersOk(owner, zones, large, pageCount)
        && UsageOk(usage, owner, large) && pageCount > 0
      modifies this`usage, this`owner, pages
      ensures pages.Valid() && Taken(pages.runs, owner, space) && UsageOk(usage, owner, large)
      ensures z == NULL <==> forall p :: !PageList.AllFree(old(pages.runs), p, pageCount)
      ensures z == NULL ==> unchanged(this) && unchanged(pages)
      ensures z != NULL ==> z > 0 && z !in zones && owner == Claim(old(owner), z, pageCount, ZonePage(z))
                            && forall p :: z <= p < z + pageCount ==> p !in old(owner)
    {
      hide OwnersOk, Taken, UsageOk, PageList.AllFree, PageList.FreePage, PageList.Linked, PageList.Proper;
      z := pages.Alloc(pageCount);
      if z != NULL {
        ClaimedPages(old(pages.runs), pages.runs, space, owner, zones, large, pageCount, z);
        MarkZone(z);
        UsageClaimed(old(usage), usage, owner, large, zones, pageCount, z);
        owner := Claim(owner, z, pageCount, ZonePage(z));
      }
    }

    /** Get the pages of a zone: a spare one, or fresh from the page list. */
    method GetZone() returns (z: int)
      requires Valid()
      modifies this`spare, this`spareCount, this`usage, this`owner, pages
      ensures pages.Valid() && Taken(pages.runs, owner, space) && UsageOk(usage, owner, large)
        && spareCount == |spare| <= ZONE_RELEASE_THRESH
      ensures z == NULL <==> old(spare) == [] && forall p :: !PageList.AllFree(old(pages.runs), p, pageCount)
      ensures z == NULL ==> unchanged(this) && unchanged(pages)
      ensures z != NULL ==> Obtained(old(owner), owner, zones, old(spare), spare, pageCount, z)
    {
      hide ListsOk, OwnersOk, ZonesOk, Taken, UsageOk, PageList.AllFree, PageList.FreePage, PageList.Linked,
           PageList.Proper;
      if spare != [] {
        z := spare[0];
        SpareInZones(zones, lists, spare, owner, large, pageCount);
        spare := spare[1..];
        spareCount := spareCount - 1;
        return;
      }
      z := FreshZone();
    }

    /** A new zone for list `zi`, with its first chunk handed out. */
    method NewZone(zi: int) returns (p: int)
      requires Valid() && 0 <= zi < NZONES && SizeOfIndex(zi) <= zoneSize / 4
      modifies this, pages
      ensures Valid() && large == old(large)
      ensures p == NULL <==> old(spare) == [] && forall q :: !PageList.AllFree(old(pages.runs), q, pageCount)
      ensures p == NULL ==> unchanged(this) && unchanged(pages)
      ensures p != NULL ==>
        (forall n :: !old(Alive(p, n)))
        && forall a, n :: Alive(a, n) <==> old(Alive(a, n)) || (a == p && n == SizeOfIndex(zi))
    {
      hide ListsOk, OwnersOk, ZonesOk, Taken, UsageOk, PageList.AllFree, PageList.FreePage, PageList.Linked,
           PageList.Proper, LiveSmall, LiveLarge, Obtained;
      ghost var owner0, spare0 := owner, spare;
      var z := GetZone();
      if z == NULL {
        return NULL;
      }
      var size := SizeOfIndex(zi);
      OpenFacts(zones, lists, spare0, spare, large, owner0, owner, zoneSize, pageCount, z, zi);
      var h := Opened(z * PAGE + Offset(size), size, ChunkCount(zoneSize, size), zi);
      zones := zones[z := h];
      lists := lists[zi := [z] + lists[zi]];
      p := h.base;
    }

    /** Two blocks in use never overlap, whether small or large. */
    lemma AliveDisjoint(a: int, n: int, b: int, m: int)
      requires Valid() && Block(zones, spare, large, a, n) && Block(zones, spare, large, b, m) && a != b
      ensures a + n <= b || b + m <= a
    {
      BlocksDisjoint(zones, spare, large, owner, zoneSize, pageCount, a, n, b, m);
    }

    /**
     A chunk of power-of-two size is aligned to its size if that is at most a page; a larger one exactly if the
     page number of its zone is a multiple of its size in pages.
     */
    lemma ChunksAligned(z: int, a: int)
      requires Valid() && z in zones && z !in spare && LiveIn(zones[z], a) && zones[z].size in POWERS
      ensures var n := zones[z].size; if n <= PAGE then a % n == 0 else a % n == 0 <==> z % (n / PAGE) == 0
    {
      hide ListsOk, OwnersOk, UsageOk, Taken;
      var h := zones[z];
      var k :| 0 <= k <= h.uindex && a == ChunkAt(h, k);
      assert ZoneOk(z, h, zoneSize);
      AlignedWithZone(z * PAGE, h.size, k);
      PageAligned(z, h.size);
    }

    /** A zone lies in the pages the heap was given. */
    lemma ZoneInSpace(z: int)
      requires Valid() && z in zones
      ensures forall p :: z <= p < z + pageCount ==> p in space
    {
      ZoneOwns(owner, zones, large, pageCount, z);
    }

    /** A large block, straight from the page list. */
    method AllocLarge(size: int) returns (p: int)
      requires Valid() && size > 0
      modifies this`usage, this`large, this`owner, pages
      ensures Valid()
      ensures p == NULL <==> forall q :: !PageList.AllFree(old(pages.runs), q, PagesFor(size))
      ensures p == NULL ==> unchanged(this) && unchanged(pages)
      ensures p != NULL ==>
        (forall n :: !old(Alive(p, n)))
        && forall a, n :: Alive(a, n) <==> old(Alive(a, n)) || (a == p && n == PagesFor(size) * PAGE)
    {
      hide ListsOk, OwnersOk, ZonesOk, Taken, UsageOk, PageList.AllFree, PageList.FreePage, PageList.Linked,
           PageList.Proper, LiveSmall, LiveLarge;
      var n := PagesFor(size);
      var f := pages.Alloc(n);
      if f == NULL {
        return NULL;
      }
      LargeFacts(old(pages.runs), pages.runs, space, zones, spare, large, owner, usage, zoneSize, pageCount, f, n);
      usage := usage[f := Usage(LargeKind, n)];
      large, owner := large[f := n], Claim(owner, f, n, LargePage(f));
      p := f * PAGE;
    }

    /** The size of the block that serves a request. */
    function Served(size: nat): (n: int)
      requires 0 < size && zoneLimit <= ZALLOC_ZONE_LIMIT
    {
      if size >= zoneLimit then PagesFor(size) * PAGE else ChunkSize(size)
    }

    /** rt_malloc. */
    method Malloc(size: nat) returns (p: int)
      requires Valid()
      modifies this, pages
      ensures Valid()
      ensures p == NULL <==>
        || size == 0
        || (size >= zoneLimit && forall q :: !PageList.AllFree(old(pages.runs), q, PagesFor(size)))
        || (0 < size < zoneLimit && old(lists)[ZoneIndex(size)] == [] && old(spare) == []
            && forall q :: !PageList.AllFree(old(pages.runs), q, pageCount))
      ensures p == NULL ==> unchanged(this) && unchanged(pages)
      ensures p != NULL ==> (if size >= zoneLimit then Served(size) < size + PAGE
                             else Served(size) - size < MIN_CHUNK_SIZE || 8 * (Served(size) - size) < size)
      ensures p != NULL ==> Served(size) >= size && (forall n :: !old(Alive(p, n)))
                            && forall a, n :: Alive(a, n) <==> old(Alive(a, n)) || (a == p && n == Served(size))
      ensures size < zoneLimit ==> large == old(large)
    {
      hide ListsOk, OwnersOk, ZonesOk, Taken, UsageOk, PageList.AllFree, PageList.FreePage, PageList.Linked,
           PageList.Proper,
           LiveSmall, LiveLarge, Block, ChunkSize, ZoneIndex, SizeOfIndex;
      if size == 0 {
        return NULL;
      }
      if size >= zoneLimit {
        p := AllocLarge(size);
        return;
      }
      UnderLimit(size, zoneSize);
      IndexGivesSize(size);
      LittleWaste(size);
      var zi := ZoneIndex(size);
      FirstOf(zones, lists, spare, zi);
      if lists[zi] != [] {
        p := TakeChunk(zi);
        assert Alive(p, SizeOfIndex(zi));
        LivePositive(zones, spare, large, owner, zoneSize, pageCount, p, SizeOfIndex(zi));
      } else {
        p := NewZone(zi);
      }
    }

    // ------------------------------------------------------------------ free

    /** A large block goes back to the page list. */
    method FreeLarge(p: int)
      requires Valid() && p % PAGE == 0 && p / PAGE in large
      modifies this`usage, this`large, this`owner, pages
      ensures Valid() && forall a, n :: Alive(a, n) <==> old(Alive(a, n)) && a != p
      ensures forall q :: PageList.FreePage(pages.runs, q) <==>
        old(PageList.FreePage(pages.runs, q)) || p / PAGE <= q < p / PAGE + old(large)[p / PAGE]
    {
      hide ListsOk, OwnersOk, ZonesOk, Taken, UsageOk, PageList.AllFree, PageList.NoneFree, PageList.FreePage,
           PageList.Linked, PageList.Proper, LiveSmall;
      var f := p / PAGE;
      FreeLargeFacts(pages.runs, space, zones, spare, large, owner, usage, zoneSize, pageCount, f);
      var n := usage[f].size;
      usage := usage[f := Usage(LargeKind, 0)];
      pages.Free(f, n);
      TakenAfterFree(old(pages.runs), pages.runs, space, owner, f, n);
      large, owner := large - {f}, Disown(owner, f, n);
    }

    /** A chunk goes back to its zone. */
    method GiveChunk(z: int, p: int)
      requires Valid() && z in zones && z !in spare && LiveIn(zones[z], p)
      modifies this`zones, this`lists
      ensures Valid() && (forall a, n :: Alive(a, n) <==> old(Alive(a, n)) && a != p)
        && zones == old(zones)[z := Give(old(zones)[z], p)]
      ensures 0 <= zones[z].index < NZONES == |lists| && zones[z].nfree > 0 && |old(lists)| == NZONES
      ensures forall x :: x in lists[zones[z].index] <==> x in old(lists)[zones[z].index] || x == z
    {
      hide ListsOk, OwnersOk, ZonesOk, Taken, UsageOk, PageList.Linked, PageList.Proper, LiveSmall, LiveLarge, Sound,
           LiveIn;
      GiveFacts(zones, lists, spare, large, owner, zoneSize, pageCount, z, p);
      var h := zones[z];
      var i := h.index;
      zones := zones[z := Give(h, p)];
      if h.nfree == 0 {
        lists := lists[i := [z] + lists[i]];
      } else {
        assert lists[i := lists[i]] == lists;
      }
    }

    /** The spare zone that is one too many goes back to the page list. */
    method ReleaseZone()
      requires Geometry() && pages.Valid() && Taken(pages.runs, owner, space) && ZonesOk(zones, spare, zoneSize)
        && ListsOk(zones, lists, spare)
      requires OwnersOk(owner, zones, large, pageCount) && UsageOk(usage, owner, large)
        && spareCount == |spare| == ZONE_RELEASE_THRESH + 1
      modifies this, pages
      ensures Valid() && (forall a, n :: Alive(a, n) <==> old(Alive(a, n))) && spare == old(spare)[1..]
        && zones == old(zones) - {old(spare)[0]}
      ensures forall q :: PageList.FreePage(pages.runs, q) <==>
        old(PageList.FreePage(pages.runs, q)) || old(spare)[0] <= q < old(spare)[0] + pageCount
    {
      hide ListsOk, OwnersOk, ZonesOk, Taken, UsageOk, PageList.NoneFree, PageList.FreePage, PageList.Linked,
           PageList.Proper, LiveSmall, LiveLarge;
      ReleaseFacts(pages.runs, space, zones, lists, spare, large, owner, zoneSize, pageCount);
      var z := spare[0];
      UnmarkZone(z);
      UsageReleased(old(usage), usage, owner, large, zones, pageCount, z);
      spare := spare[1..];
      spareCount := spareCount - 1;
      pages.Free(z, pageCount);
      TakenAfterFree(old(pages.runs), pages.runs, space, owner, z, pageCount);
      zones, owner := zones - {z}, Disown(owner, z, pageCount);
    }

    method UnmarkZone(z: int)
      modifies this`usage
      ensures forall p :: !(z <= p < z + pageCount) && p in old(usage) ==> p in usage && usage[p] == old(usage)[p]
    {
      var i := 0;
      while i < pageCount
        invariant 0 <= i && (i <= pageCount || i == 0)
        invariant forall p :: !(z <= p < z + i) && p in old(usage) ==> p in usage && usage[p] == old(usage)[p]
      {
        usage := usage[z + i := Usage(FreeKind, 0)];
        i := i + 1;
      }
    }

    /** A zone with no chunk in use leaves its list and becomes spare. */
    method RetireZone(z: int)
      requires Valid() && z in zones && z !in spare && zones[z].nfree == zones[z].nmax && zones[z].nfree > 0
      modifies this, pages
      ensures Valid() && forall a, n :: Alive(a, n) <==> old(Alive(a, n))
      ensures Retired(old(spare), spare, old(zones), zones, old(pages.runs), pages.runs, z, pageCount)
    {
      hide ListsOk, OwnersOk, ZonesOk, Taken, UsageOk, PageList.Linked, PageList.Proper, LiveSmall, LiveLarge, Sound,
           LiveIn;
      RetireFacts(zones, lists, spare, zoneSize, z);
      var i := zones[z].index;
      var list := Unhook(lists[i], z);
      ListsSpared(zones, lists, spare, z, list);
      lists := lists[i := list];
      spare := [z] + spare;
      spareCount := spareCount + 1;
      if spareCount > ZONE_RELEASE_THRESH {
        ReleaseZone();
      }
    }

    /** rt_free. */
    method Free(p: int)
      requires Valid() && (p != NULL ==> exists n :: Alive(p, n))
      modifies this, pages
      ensures Valid() && spareCount <= ZONE_RELEASE_THRESH
      ensures p == NULL ==> unchanged(this) && unchanged(pages)
      ensures p != NULL ==> forall a, n :: Alive(a, n) <==> old(Alive(a, n)) && a != p
      ensures p != NULL ==>
        Returned(old(zones), old(lists), old(spare), old(large), old(pages.runs), zones, spare, pages.runs, p,
        pageCount)
    {
      hide ListsOk, OwnersOk, ZonesOk, Taken, UsageOk, PageList.Linked, PageList.Proper, LiveSmall, LiveLarge, LiveIn;
      if p == NULL {
        return;
      }
      FindOwner(zones, spare, large, owner, usage, zoneSize, pageCount, p);
      var kup := usage[p / PAGE];
      if kup.kind == LargeKind {
        FreeLarge(p);
        return;
      }
      var z := p / PAGE - kup.size;
      GiveChunk(z, p);
      OnlyOne(zones, lists, spare, zones[z].index, z);
      if zones[z].nfree == zones[z].nmax && lists[zones[z].index] != [z] {
        RetireZone(z);
      }
      assert ReturnedTo(old(zones), old(lists), old(spare), old(pages.runs), zones, spare, pages.runs, p, pageCount, z);
    }
  }

  /** An empty zone is kept spare, or its pages go back to the page list if enough are. */
  ghost predicate Retired(spare: seq<int>, spare': seq<int>, zones: Zones, zones': Zones, runs: PageList.Runs,
                          runs': PageList.Runs, z: int, count: int) {
    if |spare| < ZONE_RELEASE_THRESH then spare' == [z] + spare && zones' == zones && runs' == runs
    else spare' == spare && zones' == zones - {z} && FreedPages(runs, runs', z, count)
  }

  ghost predicate FreedPages(runs: PageList.Runs, runs': PageList.Runs, first: int, n: int) {
    forall q :: PageList.FreePage(runs', q) <==> PageList.FreePage(runs, q) || first <= q < first + n
  }

  /** The block is the last of its zone in use, and another zone of the same index has free chunks. */
  ghost predicate Empties(zones: Zones, lists: Lists, z: int)
    requires z in zones && 0 <= zones[z].index < |lists|
  {
    zones[z].nfree + 1 == zones[z].nmax && exists x :: x in lists[zones[z].index] && x != z
  }

  /** What freeing `p` gives back: the pages of a large block, a chunk to its zone, or the whole zone. */
  ghost predicate Returned(zones: Zones, lists: Lists, spare: seq<int>, large: map<int, int>, runs: PageList.Runs,
                           zones': Zones, spare': seq<int>, runs': PageList.Runs, p: int, count: int) {
    || (p % PAGE == 0 && p / PAGE in large && spare' == spare && zones' == zones
      && FreedPages(runs, runs', p / PAGE, large[p / PAGE]))
    || exists z :: ReturnedTo(zones, lists, spare, runs, zones', spare', runs', p, count, z)
  }

  ghost predicate ReturnedTo(zones: Zones, lists: Lists, spare: seq<int>, runs: PageList.Runs,
                             zones': Zones, spare': seq<int>, runs': PageList.Runs, p: int, count: int, z: int) {
    && z in zones && z !in spare && LiveIn(zones[z], p) && 0 <= zones[z].index < |lists|
    && var given := zones[z := Give(zones[z], p)];
      if Empties(zones, lists, z) then Retired(spare, spare', given, zones', runs, runs', z, count)
      else spare' == spare && zones' == given && runs' == runs
  }

  lemma OnlyOne(zones: Zones, lists: Lists, spare: seq<int>, i: int, z: int)
    requires ListsOk(zones, lists, spare) && 0 <= i < NZONES && z in lists[i]
    ensures lists[i] == [z] <==> forall x :: x in lists[i] ==> x == z
  {
    assert ListOk(zones, lists[i], spare, i);
    if forall x :: x in lists[i] ==> x == z {
      assert |lists[i]| > 1 ==> lists[i][0] in lists[i] && lists[i][1] in lists[i];
    }
  }

  /** Everything that taking a chunk from the first zone of a list changes, and does not. */
  lemma TakeFacts(zones: Zones, lists: Lists, spare: seq<int>, large: map<int, int>, owner: Owners, zoneSize: int,
                  count: int, zi: int)
    requires ZonesOk(zones, spare, zoneSize) && ListsOk(zones, lists, spare) && OwnersOk(owner, zones, large, count)
    requires 0 <= zi < NZONES && lists[zi] != [] && zoneSize == count * PAGE && count >= 8
    ensures lists[zi][0] in zones && zones[lists[zi][0]].nfree > 0
    ensures var h := zones[lists[zi][0]]; h.uindex + 1 == h.nmax ==> h.free != []
    ensures var z := lists[zi][0]; var (h, p) := Take(zones[z]); var zones' := zones[z := h];
      && ZonesOk(zones', spare, zoneSize) && OwnersOk(owner, zones', large, count)
      && ListsOk(zones', lists[zi := if h.nfree == 0 then lists[zi][1..] else lists[zi]], spare)
      && (forall n :: !LiveSmall(zones, spare, p, n) && !LiveLarge(large, p, n))
      && (forall a, n :: LiveSmall(zones', spare, a, n) <==>
        LiveSmall(zones, spare, a, n) || (a == p && n == SizeOfIndex(zi)))
      && LiveIn(h, p)
  {
    hide ListsOk, OwnersOk, Sound, Issued;
    FirstOf(zones, lists, spare, zi);
    var z := lists[zi][0];
    CanTake(zones[z]);
    TakeIsSound(zones[z]);
    var (h, p) := Take(zones[z]);
    var zones' := zones[z := h];
    ListsTaken(zones, lists, spare, zi, h);
    OwnersSameZones(owner, zones, large, count, z, h);
    assert LiveIn(h, p);
    LiveOnce(zones', spare, large, owner, zoneSize, count, z, p);
    LiveAdded(zones, spare, z, h, p);
    OnlyThere(zones, spare, z, h, p);
  }

  lemma FirstOf(zones: Zones, lists: Lists, spare: seq<int>, zi: int)
    requires ListsOk(zones, lists, spare) && 0 <= zi < NZONES
    ensures |lists| == NZONES
    ensures lists[zi] != [] ==>
      lists[zi][0] in zones && lists[zi][0] !in spare && zones[lists[zi][0]].index == zi
      && zones[lists[zi][0]].nfree > 0
  {
    if lists[zi] != [] { ListsTaken(zones, lists, spare, zi, Opened(0, 1, 1, 0)); }
  }

  lemma OnlyThere(zones: Zones, spare: seq<int>, z: int, h: Zone, p: int)
    requires z in zones && z !in spare && !LiveIn(zones[z], p)
    requires forall x :: x in zones[z := h] && x !in spare && Issued(zones[z := h][x], p) ==> x == z
    ensures forall n :: !LiveSmall(zones, spare, p, n)
  {
    forall x | x in zones && x !in spare
      ensures !LiveIn(zones[x], p)
    {
      assert x != z ==> zones[z := h][x] == zones[x];
    }
  }

  lemma OwnersSameZones(owner: Owners, zones: Zones, large: map<int, int>, count: int, z: int, h: Zone)
    requires OwnersOk(owner, zones, large, count) && z in zones
    ensures OwnersOk(owner, zones[z := h], large, count)
  {
    var zones' := zones[z := h];
    assert forall x :: x in zones' <==> x in zones;
  }

  /** Zone `z` was spare, or its pages have just been claimed. */
  ghost predicate Obtained(owner: Owners, owner': Owners, zones: Zones, spare: seq<int>, spare': seq<int>, count: int,
                           z: int) {
    && z > 0
    && (|| (spare != [] && z == spare[0] && spare' == spare[1..] && owner' == owner && z in zones)
        || (spare == [] && spare' == [] && z !in zones && owner' == Claim(owner, z, count, ZonePage(z))
            && forall p :: z <= p < z + count ==> p !in owner))
  }

  lemma SpareInZones(zones: Zones, lists: Lists, spare: seq<int>, owner: Owners, large: map<int, int>, count: int)
    requires ListsOk(zones, lists, spare) && OwnersOk(owner, zones, large, count) && spare != []
    ensures spare[0] in zones && spare[0] > 0
  {
    assert spare[0] in spare;
  }

  /** Pages taken off the page list can be claimed. */
  lemma ClaimedPages(runs: PageList.Runs, runs': PageList.Runs, space: iset<int>, owner: Owners, zones: Zones,
                     large: map<int, int>, count: int, z: int)
    requires Taken(runs, owner, space) && PageList.AllFree(runs, z, count) && OwnersOk(owner, zones, large, count)
      && count > 0
    requires forall p :: PageList.FreePage(runs', p) <==> PageList.FreePage(runs, p) && !(z <= p < z + count)
    ensures Taken(runs', Claim(owner, z, count, ZonePage(z)), space) && z !in zones
    ensures forall p :: z <= p < z + count ==> p !in owner
  {
    Unowned(runs, owner, space, z, count);
    assert z in zones ==> Owns(owner, z, count, ZonePage(z));
    assert z in zones ==> z in owner;
  }

  lemma UsageClaimed(usage: Usages, usage': Usages, owner: Owners, large: map<int, int>, zones: Zones, count: int,
                     z: int)
    requires UsageOk(usage, owner, large) && OwnersOk(owner, zones, large, count)
      && forall p :: z <= p < z + count ==> p !in owner
    requires forall p :: z <= p < z + count ==> p in usage' && usage'[p] == Usage(SmallKind, p - z)
    requires forall p :: !(z <= p < z + count) && p in usage ==> p in usage' && usage'[p] == usage[p]
    ensures UsageOk(usage', Claim(owner, z, count, ZonePage(z)), large)
  {
    forall f | f in large
      ensures f in usage' && usage'[f] == Usage(LargeKind, large[f])
    {
      assert Owns(owner, f, large[f], LargePage(f));
      assert f in owner;
    }
  }

  /** Everything that opening a zone changes, and does not. */
  lemma OpenFacts(zones: Zones, lists: Lists, spare: seq<int>, spare': seq<int>, large: map<int, int>, owner: Owners,
                  owner': Owners,
                  zoneSize: int, count: int, z: int, zi: int)
    requires ZonesOk(zones, spare, zoneSize) && ListsOk(zones, lists, spare) && OwnersOk(owner, zones, large, count)
    requires zoneSize == count * PAGE && count >= 8 && 0 <= zi < NZONES && SizeOfIndex(zi) <= zoneSize / 4
    requires Obtained(owner, owner', zones, spare, spare', count, z)
    ensures |lists| == NZONES && SizeOfIndex(zi) > 0
    ensures var h := Opened(z * PAGE + Offset(SizeOfIndex(zi)), SizeOfIndex(zi), ChunkCount(zoneSize, SizeOfIndex(zi)),
      zi);
      var zones' := zones[z := h];
      && h.base > 0
      && ZonesOk(zones', spare', zoneSize) && OwnersOk(owner', zones', large, count)
      && ListsOk(zones', lists[zi := [z] + lists[zi]], spare')
      && (forall n :: !LiveSmall(zones, spare, h.base, n) && !LiveLarge(large, h.base, n))
      && (forall a, n :: LiveSmall(zones', spare', a, n) <==>
        LiveSmall(zones, spare, a, n) || (a == h.base && n == SizeOfIndex(zi)))
  {
    hide ListsOk, OwnersOk;
    var size := SizeOfIndex(zi);
    var h := Opened(z * PAGE + Offset(size), size, ChunkCount(zoneSize, size), zi);
    var zones' := zones[z := h];
    ChunksFit(zoneSize, size);
    OffsetIsLeast(size);
    OpenedIsSound(h.base, size, h.nmax, zi);
    FirstOf(zones, lists, spare, zi);
    ListsOpened(zones, lists, spare, spare', z, h);
    OpenOwners(owner, owner', zones, spare, spare', large, count, z, h);
    SpareDistinct(zones, lists, spare);
    LiveOpened(zones, spare, spare', z, h, h.base);
    OpenZones(zones, spare, spare', zoneSize, z, h);
    assert LiveIn(h, h.base);
    LiveOnce(zones', spare', large, owner', zoneSize, count, z, h.base);
    NotBefore(zones, spare, spare', z, h, h.base);
  }

  lemma SpareDistinct(zones: Zones, lists: Lists, spare: seq<int>)
    requires ListsOk(zones, lists, spare)
    ensures Distinct(spare) && forall z :: z in spare ==> z in zones
  {
  }

  lemma OpenOwners(owner: Owners, owner': Owners, zones: Zones, spare: seq<int>, spare': seq<int>, large: map<int, int>,
                   count: int, z: int, h: Zone)
    requires OwnersOk(owner, zones, large, count) && count > 0
      && Obtained(owner, owner', zones, spare, spare', count, z)
    ensures OwnersOk(owner', zones[z := h], large, count)
  {
    if z in zones {
      OwnersSameZones(owner, zones, large, count, z, h);
    } else {
      ZoneClaimed(owner, zones, large, count, z, h);
    }
  }

  lemma OpenZones(zones: Zones, spare: seq<int>, spare': seq<int>, zoneSize: int, z: int, h: Zone)
    requires ZonesOk(zones, spare, zoneSize) && ZoneOk(z, h, zoneSize) && Sound(h)
    requires spare' == spare || (spare != [] && z == spare[0] && spare' == spare[1..])
    ensures ZonesOk(zones[z := h], spare', zoneSize)
  {
    assert forall x :: x in spare && x != z ==> x in spare' by {
      assert spare' != spare ==> spare == [z] + spare';
    }
  }

  lemma NotBefore(zones: Zones, spare: seq<int>, spare': seq<int>, z: int, h: Zone, p: int)
    requires spare' == spare || (spare != [] && z == spare[0] && spare' == spare[1..])
    requires z in zones ==> z in spare
    requires forall x :: x in zones[z := h] && x !in spare' && Issued(zones[z := h][x], p) ==> x == z
    ensures forall n :: !LiveSmall(zones, spare, p, n)
  {
    forall x | x in zones && x !in spare
      ensures !LiveIn(zones[x], p)
    {
      assert x != z && zones[z := h][x] == zones[x];
      assert x !in spare' by { assert forall y :: y in spare' ==> y in spare; }
    }
  }

  // ---------------------------------------------------------- large blocks

  function PagesFor(size: int): (n: int) { (size + PAGE - 1) / PAGE }

  lemma LargeFacts(runs: PageList.Runs, runs': PageList.Runs, space: iset<int>, zones: Zones, spare: seq<int>,
                   large: map<int, int>, owner: Owners, usage: Usages,
                   zoneSize: int, count: int, f: int, n: int)
    requires Taken(runs, owner, space) && OwnersOk(owner, zones, large, count) && UsageOk(usage, owner, large)
      && ZonesOk(zones, spare, zoneSize)
    requires zoneSize == count * PAGE && count >= 8 && n > 0 && f > 0 && PageList.AllFree(runs, f, n)
    requires forall p :: PageList.FreePage(runs', p) <==> PageList.FreePage(runs, p) && !(f <= p < f + n)
    ensures var large', owner' := large[f := n], Claim(owner, f, n, LargePage(f));
      && Taken(runs', owner', space) && OwnersOk(owner', zones, large', count)
      && UsageOk(usage[f := Usage(LargeKind, n)], owner', large')
      && (forall m :: !LiveSmall(zones, spare, f * PAGE, m) && !LiveLarge(large, f * PAGE, m))
      && (forall a, m :: LiveLarge(large', a, m) <==> LiveLarge(large, a, m) || (a == f * PAGE && m == n * PAGE))
  {
    Unowned(runs, owner, space, f, n);
    LargeClaimed(owner, zones, large, count, f, n);
    UsageLarge(usage, owner, zones, large, count, f, n);
    LargeLive(large, f, n);
    hide OwnersOk, UsageOk, PageList.FreePage;
    assert f !in owner;
    NotInZones(zones, spare, large, owner, zoneSize, count, f);
  }

  lemma UsageLarge(usage: Usages, owner: Owners, zones: Zones, large: map<int, int>, count: int, f: int, n: int)
    requires UsageOk(usage, owner, large) && OwnersOk(owner, zones, large, count) && f !in owner
    ensures UsageOk(usage[f := Usage(LargeKind, n)], Claim(owner, f, n, LargePage(f)), large[f := n])
  {
    forall g | g in large
      ensures g != f
    {
      assert Owns(owner, g, large[g], LargePage(g));
      assert g in owner;
    }
  }

  lemma LargeLive(large: map<int, int>, f: int, n: int)
    requires f !in large
    ensures forall a, m :: LiveLarge(large[f := n], a, m) <==>
      LiveLarge(large, a, m) || (a == f * PAGE && m == n * PAGE)
  {
    var large' := large[f := n];
    forall a, m
      ensures LiveLarge(large', a, m) <==> LiveLarge(large, a, m) || (a == f * PAGE && m == n * PAGE)
    {
      if LiveLarge(large, a, m) {
        var g :| g in large && a == g * PAGE && m == large[g] * PAGE;
        assert g in large' && large'[g] == large[g];
      }
      if a == f * PAGE && m == n * PAGE { assert f in large'; }
    }
  }

  lemma NotInZones(zones: Zones, spare: seq<int>, large: map<int, int>, owner: Owners, zoneSize: int, count: int,
                   f: int)
    requires ZonesOk(zones, spare, zoneSize) && OwnersOk(owner, zones, large, count) && zoneSize == count * PAGE
      && count >= 8 && f !in owner
    ensures forall n :: !LiveSmall(zones, spare, f * PAGE, n) && !LiveLarge(large, f * PAGE, n)
  {
    forall z | z in zones && z !in spare
      ensures !LiveIn(zones[z], f * PAGE)
    {
      if LiveIn(zones[z], f * PAGE) {
        ZoneTouches(z, zones[z], zoneSize, count, f * PAGE);
        ZoneOwns(owner, zones, large, count, z);
      }
    }
    forall g | g in large
      ensures g != f
    {
      LargeOwns(owner, zones, large, count, g);
      assert g in owner;
    }
  }

  lemma FreeLargeFacts(runs: PageList.Runs, space: iset<int>, zones: Zones, spare: seq<int>, large: map<int, int>,
                       owner: Owners, usage: Usages,
                       zoneSize: int, count: int, f: int)
    requires Taken(runs, owner, space) && OwnersOk(owner, zones, large, count) && UsageOk(usage, owner, large)
      && f in large
    requires ZonesOk(zones, spare, zoneSize) && zoneSize == count * PAGE && count >= 8
    ensures f > 0 && large[f] > 0 && f in usage && usage[f].size == large[f] && PageList.NoneFree(runs, f, large[f])
    ensures var n := large[f]; var large', owner' := large - {f}, Disown(owner, f, n);
      && OwnersOk(owner', zones, large', count) && UsageOk(usage[f := Usage(LargeKind, 0)], owner', large')
      && (forall a, m :: LiveLarge(large', a, m) <==> LiveLarge(large, a, m) && a != f * PAGE)
      && (forall m :: !LiveSmall(zones, spare, f * PAGE, m))
      && (forall p :: f <= p < f + n ==> p in owner)
  {
    hide ZonesOk, OwnersOk, LiveSmall, Owns, Disown;
    LargeOwns(owner, zones, large, count, f);
    LargeDisowned(owner, zones, large, count, f);
    LargeNotSmall(zones, spare, large, owner, zoneSize, count, f);
    UsageDisowned(usage, owner, large, f);
    LargeLess(large, f);
    LargeTaken(runs, space, owner, f, large[f]);
  }

  lemma LargeNotSmall(zones: Zones, spare: seq<int>, large: map<int, int>, owner: Owners, zoneSize: int, count: int,
                      f: int)
    requires OwnersOk(owner, zones, large, count) && f in large
    requires ZonesOk(zones, spare, zoneSize) && zoneSize == count * PAGE && count >= 8
    ensures forall m :: !LiveSmall(zones, spare, f * PAGE, m)
  {
    LargeOwns(owner, zones, large, count, f);
    assert owner[f] == LargePage(f);
    forall z | z in zones && z !in spare
      ensures !LiveIn(zones[z], f * PAGE)
    {
      if LiveIn(zones[z], f * PAGE) {
        ZoneTouches(z, zones[z], zoneSize, count, f * PAGE);
        ZoneOwns(owner, zones, large, count, z);
      }
    }
  }

  lemma UsageDisowned(usage: Usages, owner: Owners, large: map<int, int>, f: int)
    requires UsageOk(usage, owner, large) && f in large && Owns(owner, f, large[f], LargePage(f))
    ensures UsageOk(usage[f := Usage(LargeKind, 0)], Disown(owner, f, large[f]), large - {f})
  {
  }

  lemma LargeLess(large: map<int, int>, f: int)
    ensures forall a, m :: LiveLarge(large - {f}, a, m) <==> LiveLarge(large, a, m) && a != f * PAGE
  {
    assert forall g :: g in large - {f} <==> g in large && g != f;
  }

  lemma LargeTaken(runs: PageList.Runs, space: iset<int>, owner: Owners, f: int, n: int)
    requires Taken(runs, owner, space) && Owns(owner, f, n, LargePage(f))
    ensures PageList.NoneFree(runs, f, n) && forall p :: f <= p < f + n ==> p in owner
  {
  }

  lemma TakenAfterFree(runs: PageList.Runs, runs': PageList.Runs, space: iset<int>, owner: Owners, first: int, n: int)
    requires Taken(runs, owner, space)
      && forall p :: PageList.FreePage(runs', p) <==> PageList.FreePage(runs, p) || first <= p < first + n
    requires forall p :: first <= p < first + n ==> p in owner
    ensures Taken(runs', Disown(owner, first, n), space)
  {
  }

  // ----------------------------------------------------------- small blocks

  lemma UnderLimit(size: int, zoneSize: int)
    requires zoneSize in {8 * PAGE, 16 * PAGE, 32 * PAGE} && 0 < size < zoneSize / 4 && size < ZALLOC_ZONE_LIMIT
    ensures size <= ChunkSize(size) <= zoneSize / 4
  {
  }

  lemma LivePositive(zones: Zones, spare: seq<int>, large: map<int, int>, owner: Owners, zoneSize: int, count: int,
                     p: int, n: int)
    requires ZonesOk(zones, spare, zoneSize) && OwnersOk(owner, zones, large, count) && zoneSize == count * PAGE
      && count >= 8
    requires Block(zones, spare, large, p, n)
    ensures p > 0
  {
    if LiveSmall(zones, spare, p, n) {
      var z :| z in zones && z !in spare && LiveIn(zones[z], p) && n == zones[z].size;
      ChunkInZone(z, zones[z], zoneSize, p);
    }
  }

  lemma GiveFacts(zones: Zones, lists: Lists, spare: seq<int>, large: map<int, int>, owner: Owners, zoneSize: int,
                  count: int, z: int, p: int)
    requires ZonesOk(zones, spare, zoneSize) && ListsOk(zones, lists, spare) && OwnersOk(owner, zones, large, count)
    requires zoneSize == count * PAGE && count >= 8 && z in zones && z !in spare && LiveIn(zones[z], p)
    ensures 0 <= zones[z].index < NZONES == |lists| && zones[z].nfree >= 0
      && (zones[z].nfree > 0 ==> z in lists[zones[z].index])
    ensures var h := zones[z]; var h' := Give(h, p); var zones' := zones[z := h'];
      && ZonesOk(zones', spare, zoneSize) && OwnersOk(owner, zones', large, count)
      && ListsOk(zones', lists[h.index := if h.nfree == 0 then [z] + lists[h.index] else lists[h.index]], spare)
      && (forall a, n :: LiveSmall(zones', spare, a, n) <==> LiveSmall(zones, spare, a, n) && a != p)
      && (forall n :: !LiveLarge(large, p, n))
  {
    hide ListsOk, OwnersOk, Issued, Sound;
    GiveIsSound(zones[z], p);
    var h' := Give(zones[z], p);
    FreeCount(zones[z]);
    FirstOf(zones, lists, spare, zones[z].index);
    Listed(zones, lists, spare, z);
    ListsGiven(zones, lists, spare, z, h');
    OwnersSameZones(owner, zones, large, count, z, h');
    LiveOnce(zones, spare, large, owner, zoneSize, count, z, p);
    LiveDropped(zones, spare, z, h', p);
  }

  lemma Listed(zones: Zones, lists: Lists, spare: seq<int>, z: int)
    requires ListsOk(zones, lists, spare) && z in zones && z !in spare && 0 <= zones[z].index < NZONES
    ensures zones[z].nfree > 0 <==> z in lists[zones[z].index]
  {
    assert ListOk(zones, lists[zones[z].index], spare, zones[z].index);
  }

  lemma FreeCount(h: Zone)
    requires Sound(h)
    ensures h.nfree >= 0
  {
  }

  /** Going from a block in use to its owner through memusage. */
  lemma FindOwner(zones: Zones, spare: seq<int>, large: map<int, int>, owner: Owners, usage: Usages, zoneSize: int,
                  count: int, p: int)
    requires ZonesOk(zones, spare, zoneSize) && OwnersOk(owner, zones, large, count) && UsageOk(usage, owner, large)
    requires zoneSize == count * PAGE && count >= 8 && exists n :: Block(zones, spare, large, p, n)
    ensures p / PAGE in usage
    ensures var u := usage[p / PAGE]; var z := p / PAGE - u.size;
      if u.kind == LargeKind then p % PAGE == 0 && p / PAGE in large
        else z in zones && z !in spare && LiveIn(zones[z], p)
  {
    hide ZonesOk, OwnersOk, UsageOk, LiveIn;
    var n :| Block(zones, spare, large, p, n);
    if LiveSmall(zones, spare, p, n) {
      var z :| z in zones && z !in spare && LiveIn(zones[z], p);
      FindZone(zones, spare, large, owner, usage, zoneSize, count, p, z);
    } else {
      var f :| f in large && p == f * PAGE;
      LargeUsage(usage, owner, large, f);
      assert p / PAGE == f && p % PAGE == 0;
    }
  }

  lemma FindZone(zones: Zones, spare: seq<int>, large: map<int, int>, owner: Owners, usage: Usages, zoneSize: int,
                 count: int, p: int, z: int)
    requires ZonesOk(zones, spare, zoneSize) && OwnersOk(owner, zones, large, count) && UsageOk(usage, owner, large)
    requires zoneSize == count * PAGE && count >= 8 && z in zones && z !in spare && LiveIn(zones[z], p)
    ensures p / PAGE in usage && usage[p / PAGE] == Usage(SmallKind, p / PAGE - z)
  {
    hide OwnersOk;
    LiveIsIssued(zones[z], p);
    ZoneTouches(z, zones[z], zoneSize, count, p);
    ZoneOwns(owner, zones, large, count, z);
  }

  lemma LargeUsage(usage: Usages, owner: Owners, large: map<int, int>, f: int)
    requires UsageOk(usage, owner, large) && f in large
    ensures f in usage && usage[f] == Usage(LargeKind, large[f])
  {
  }

  // ------------------------------------------------------------ spare zones

  lemma RetireFacts(zones: Zones, lists: Lists, spare: seq<int>, zoneSize: int, z: int)
    requires ZonesOk(zones, spare, zoneSize) && ListsOk(zones, lists, spare)
    requires z in zones && z !in spare && zones[z].nfree == zones[z].nmax && zones[z].nfree > 0
    ensures 0 <= zones[z].index < NZONES == |lists| && z in lists[zones[z].index] && Distinct(lists[zones[z].index])
    ensures ZonesOk(zones, [z] + spare, zoneSize)
    ensures forall a, n :: LiveSmall(zones, [z] + spare, a, n) <==> LiveSmall(zones, spare, a, n)
  {
    assert ListOk(zones, lists[zones[z].index], spare, zones[z].index);
    AllFreeMeansNoneLive(zones[z]);
    LiveSpared(zones, spare, z);
  }

  /** The walk that takes a zone off its list. */
  method Unhook(list: seq<int>, z: int) returns (r: seq<int>)
    requires Distinct(list) && z in list
    ensures Distinct(r) && forall x :: x in r <==> x in list && x != z
  {
    var k := 0;
    while list[k] != z
      invariant 0 <= k < |list| && z !in list[..k]
      decreases |list| - k
    {
      k := k + 1;
    }
    r := list[..k] + list[k + 1..];
    assert list == list[..k] + [z] + list[k + 1..];
  }

  lemma ReleaseFacts(runs: PageList.Runs, space: iset<int>, zones: Zones, lists: Lists, spare: seq<int>,
                     large: map<int, int>, owner: Owners, zoneSize: int, count: int)
    requires Taken(runs, owner, space) && ZonesOk(zones, spare, zoneSize) && ListsOk(zones, lists, spare)
      && OwnersOk(owner, zones, large, count) && spare != []
    ensures var z := spare[0]; var zones', spare' := zones - {z}, spare[1..];
      && z in zones && z > 0 && PageList.NoneFree(runs, z, count)
      && ZonesOk(zones', spare', zoneSize) && ListsOk(zones', lists, spare')
      && OwnersOk(Disown(owner, z, count), zones', large, count)
      && (forall a, n :: LiveSmall(zones', spare', a, n) <==> LiveSmall(zones, spare, a, n))
      && (forall p :: z <= p < z + count ==> p in owner)
  {
    SpareInZones(zones, lists, spare, owner, large, count);
    SpareDistinct(zones, lists, spare);
    ListsReleased(zones, lists, spare);
    ZoneDisowned(owner, zones, large, count, spare[0]);
    LiveReleased(zones, spare);
    ZoneOwns(owner, zones, large, count, spare[0]);
    hide ListsOk, OwnersOk, LiveSmall;
    assert forall x :: x in spare ==> x in spare[1..] || x == spare[0];
  }

  lemma UsageReleased(usage: Usages, usage': Usages, owner: Owners, large: map<int, int>, zones: Zones, count: int,
                      z: int)
    requires UsageOk(usage, owner, large) && OwnersOk(owner, zones, large, count) && z in zones
    requires forall p :: !(z <= p < z + count) && p in usage ==> p in usage' && usage'[p] == usage[p]
    ensures UsageOk(usage', Disown(owner, z, count), large)
  {
    ZoneOwns(owner, zones, large, count, z);
    forall f | f in large
      ensures f in usage' && usage'[f] == Usage(LargeKind, large[f])
    {
      LargeOwns(owner, zones, large, count, f);
      assert f in owner;
    }
  }

  /** Power-of-two alignment fails for chunks of two pages: the only zone of this heap begins on page 1. */
  method OddZone() returns (p: int)
    ensures p != NULL && p % 8192 != 0
  {
    hide ListsOk, OwnersOk, ZonesOk, Taken, UsageOk, PageList.Linked, PageList.Proper, PageList.Freed, PageList.Between,
         LiveIn;
    var pages := new PageList.Pages();
    pages.Free(1, 8);
    var heap := new Heap(pages, 8 * PAGE);
    assert PageList.AllFree(pages.runs, 1, 8);
    assert heap.pageCount == 8 && heap.zoneLimit == 8192;
    p := heap.Malloc(8191);
    assert heap.Alive(p, 8192);
    ghost var z :| z in heap.zones && z !in heap.spare && LiveIn(heap.zones[z], p) && heap.zones[z].size == 8192;
    heap.ZoneInSpace(z);
    assert z in heap.space && z + 7 in heap.space;
    heap.ChunksAligned(z, p);
  }
}
