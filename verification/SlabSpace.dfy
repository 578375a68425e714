/**
 The bookkeeping of the slab allocator (`slab.c`) as values: which pages belong to which zone or large
 block, which zones are on which list, and what that says about the live blocks.
 */
module SlabSpace {
  import opened Sequences
  import opened SlabZone
  import PageList

  type Lists = seq<seq<int>>
  type Zones = map<int, Zone>

  datatype Owner = ZonePage(z: int) | LargePage(f: int)
  type Owners = map<int, Owner>

  datatype Kind = FreeKind | SmallKind | LargeKind
  /** A memusage entry: the kind of a page, and its offset in the zone or the size of the block. */
  datatype Usage = Usage(kind: Kind, size: int)
  type Usages = map<int, Usage>

  // ----------------------------------------------------------------- zones

  /** The header of the zone at page `z` describes chunks that fit in the zone. */
  predicate ZoneOk(z: int, h: Zone, zoneSize: int) {
    && z > 0 && 0 <= h.index < NZONES && h.size == SizeOfIndex(h.index) && 0 < h.size <= zoneSize / 4
    && h.base == z * PAGE + Offset(h.size) && h.nmax == ChunkCount(zoneSize, h.size)
  }

  /** Zones in use have consistent headers; spare ones are waiting to be given a chunk size. */
  ghost predicate ZonesOk(zones: Zones, spare: seq<int>, zoneSize: int) {
    forall z :: z in zones && z !in spare ==> ZoneOk(z, zones[z], zoneSize) && Sound(zones[z])
  }

  ghost predicate Available(zones: Zones, spare: seq<int>, z: int, i: int) {
    z in zones && z !in spare && zones[z].index == i && zones[z].nfree > 0
  }

  /** The list of an index holds exactly the zones of that index with free chunks. */
  ghost predicate ListOk(zones: Zones, list: seq<int>, spare: seq<int>, i: int) {
    Distinct(list) && forall z :: z in list <==> Available(zones, spare, z, i)
  }

  ghost predicate ListsOk(zones: Zones, lists: Lists, spare: seq<int>) {
    && |lists| == NZONES && (forall i :: 0 <= i < NZONES ==> ListOk(zones, lists[i], spare, i))
    && Distinct(spare) && forall z :: z in spare ==> z in zones
  }

  // ----------------------------------------------------------------- pages

  /** Every page of a zone or a large block is owned by it, and no other page is. */
  ghost predicate OwnersOk(owner: Owners, zones: Zones, large: map<int, int>, count: int) {
    && (forall p :: p in owner ==> Within(owner[p], zones, large, count, p))
    && (forall z :: z in zones ==> z > 0 && Owns(owner, z, count, ZonePage(z)))
    && (forall f :: f in large ==> f > 0 && large[f] > 0 && Owns(owner, f, large[f], LargePage(f)))
  }

  predicate Within(o: Owner, zones: Zones, large: map<int, int>, count: int, p: int) {
    match o
    case ZonePage(z) => z in zones && z <= p < z + count
    case LargePage(f) => f in large && f <= p < f + large[f]
  }

  ghost predicate Owns(owner: Owners, first: int, n: int, o: Owner) {
    forall p :: first <= p < first + n ==> p in owner && owner[p] == o
  }

  /** memusage leads from a page of a zone to the zone, and from a large block to its size. */
  ghost predicate UsageOk(usage: Usages, owner: Owners, large: map<int, int>) {
    && (forall p :: p in owner && owner[p].ZonePage? ==> p in usage && usage[p] == Usage(SmallKind, p - owner[p].z))
    && (forall f :: f in large ==> f in usage && usage[f] == Usage(LargeKind, large[f]))
  }

  /** Of the pages of the heap, exactly those without an owner are on the page list: none is lost. */
  ghost predicate Taken(runs: PageList.Runs, owner: Owners, space: iset<int>) {
    && (forall p :: PageList.FreePage(runs, p) <==> p in space && p !in owner)
    && (forall p :: p in owner ==> p in space)
  }

  // ------------------------------------------------------------ live blocks

  ghost predicate LiveSmall(zones: Zones, spare: seq<int>, a: int, n: int) {
    exists z :: z in zones && z !in spare && LiveIn(zones[z], a) && n == zones[z].size
  }

  ghost predicate LiveLarge(large: map<int, int>, a: int, n: int) {
    exists f :: f in large && a == f * PAGE && n == large[f] * PAGE
  }

  /** `a` is a live block of `n` bytes. */
  ghost predicate Block(zones: Zones, spare: seq<int>, large: map<int, int>, a: int, n: int) {
    LiveSmall(zones, spare, a, n) || LiveLarge(large, a, n)
  }

  lemma ChunkInZone(z: int, h: Zone, zoneSize: int, a: int)
    requires ZoneOk(z, h, zoneSize) && Sound(h) && Issued(h, a) && zoneSize >= 8 * PAGE
    ensures z * PAGE < a && a + h.size <= z * PAGE + zoneSize
  {
    LiveInside(h, a);
    ChunksFit(zoneSize, h.size);
    OffsetIsLeast(h.size);
  }

  lemma LiveIsIssued(h: Zone, a: int)
    requires LiveIn(h, a)
    ensures Issued(h, a)
  {
  }

  lemma ZoneTouches(z: int, h: Zone, zoneSize: int, count: int, a: int)
    requires ZoneOk(z, h, zoneSize) && Sound(h) && Issued(h, a) && zoneSize == count * PAGE && count >= 8
    ensures forall p :: Touches(a, h.size, p) ==> z <= p < z + count
    ensures z <= a / PAGE < z + count
  {
    ChunkInZone(z, h, zoneSize, a);
  }

  lemma LargeTouches(f: int, n: int)
    ensures forall p :: Touches(f * PAGE, n * PAGE, p) ==> f <= p < f + n
  {
  }

  lemma ZoneOwns(owner: Owners, zones: Zones, large: map<int, int>, count: int, z: int)
    requires OwnersOk(owner, zones, large, count) && z in zones
    ensures forall p :: z <= p < z + count ==> p in owner && owner[p] == ZonePage(z)
  {
  }

  lemma LargeOwns(owner: Owners, zones: Zones, large: map<int, int>, count: int, f: int)
    requires OwnersOk(owner, zones, large, count) && f in large
    ensures forall p :: f <= p < f + large[f] ==> p in owner && owner[p] == LargePage(f)
    ensures f > 0 && large[f] > 0
  {
  }

  /** Where a live block is, as pages with one owner. */
  lemma BlockPages(zones: Zones, spare: seq<int>, large: map<int, int>, owner: Owners, zoneSize: int, count: int,
                   a: int, n: int) returns (o: Owner)
    requires ZonesOk(zones, spare, zoneSize) && OwnersOk(owner, zones, large, count) && Block(zones, spare, large, a, n)
    requires zoneSize == count * PAGE && count >= 8
    ensures n > 0
    ensures forall p :: Touches(a, n, p) ==> p in owner && owner[p] == o
    ensures o.ZonePage? ==> o.z in zones && o.z !in spare && LiveIn(zones[o.z], a) && n == zones[o.z].size
    ensures o.LargePage? ==> o.f in large && a == o.f * PAGE
  {
    hide OwnersOk, Touches, LiveIn;
    if LiveSmall(zones, spare, a, n) {
      var z :| z in zones && z !in spare && LiveIn(zones[z], a) && n == zones[z].size;
      o := ZonePage(z);
      LiveIsIssued(zones[z], a);
      ZoneTouches(z, zones[z], zoneSize, count, a);
      ZoneOwns(owner, zones, large, count, z);
    } else {
      var f :| f in large && a == f * PAGE && n == large[f] * PAGE;
      o := LargePage(f);
      LargeTouches(f, large[f]);
      LargeOwns(owner, zones, large, count, f);
    }
  }

  /** Live blocks do not overlap. */
  lemma BlocksDisjoint(zones: Zones, spare: seq<int>, large: map<int, int>, owner: Owners, zoneSize: int, count: int,
                       a: int, n: int, b: int, m: int)
    requires ZonesOk(zones, spare, zoneSize) && OwnersOk(owner, zones, large, count) && zoneSize == count * PAGE
      && count >= 8
    requires Block(zones, spare, large, a, n) && Block(zones, spare, large, b, m) && a != b
    ensures a + n <= b || b + m <= a
  {
    hide Block, OwnersOk, LiveIn;
    var o := BlockPages(zones, spare, large, owner, zoneSize, count, a, n);
    var o' := BlockPages(zones, spare, large, owner, zoneSize, count, b, m);
    if o == o' {
      if o.ZonePage? { LiveDisjoint(zones[o.z], a, b); }
    } else {
      var p := SharedPage(a, n, b, m);
    }
  }

  /** Page `p` holds bytes of the block. */
  predicate Touches(a: int, n: int, p: int) {
    a / PAGE <= p <= (a + n - 1) / PAGE
  }

  /** Overlapping ranges share a page. */
  lemma SharedPage(a: int, n: int, b: int, m: int) returns (p: int)
    requires n > 0 && m > 0
    ensures a < b + m && b < a + n ==> Touches(a, n, p) && Touches(b, m, p)
  {
    p := if a < b then b / PAGE else a / PAGE;
  }

  // ---------------------------------------------------------- changing a list

  /** One list is replaced; the zones of the other indices are what they were. */
  lemma ListsSwap(zones: Zones, lists: Lists, spare: seq<int>, zones': Zones, spare': seq<int>, i: int, list: seq<int>)
    requires ListsOk(zones, lists, spare) && 0 <= i < NZONES && ListOk(zones', list, spare', i)
    requires forall z, j :: j != i ==> (Available(zones', spare', z, j) <==> Available(zones, spare, z, j))
    requires Distinct(spare') && forall z :: z in spare' ==> z in zones'
    ensures ListsOk(zones', lists[i := list], spare')
  {
    var lists' := lists[i := list];
    forall j | 0 <= j < NZONES
      ensures ListOk(zones', lists'[j], spare', j)
    {
      assert ListOk(zones, lists[j], spare, j);
    }
  }

  /** The first zone of a list has given out a chunk. */
  lemma ListsTaken(zones: Zones, lists: Lists, spare: seq<int>, i: int, h: Zone)
    requires ListsOk(zones, lists, spare) && 0 <= i < NZONES && lists[i] != []
    ensures lists[i][0] in zones && lists[i][0] !in spare && zones[lists[i][0]].index == i
      && zones[lists[i][0]].nfree > 0
    ensures h.index == i && h.nfree == zones[lists[i][0]].nfree - 1 ==>
      ListsOk(zones[lists[i][0] := h], lists[i := if h.nfree == 0 then lists[i][1..] else lists[i]], spare)
  {
    var list := lists[i];
    var z := list[0];
    assert ListOk(zones, list, spare, i) && z in list;
    if h.index == i && h.nfree == zones[z].nfree - 1 {
      assert forall x :: x in list[1..] <==> x in list && x != z;
      ListsSwap(zones, lists, spare, zones[z := h], spare, i, if h.nfree == 0 then list[1..] else list);
    }
  }

  /** A zone has got a chunk back. */
  lemma ListsGiven(zones: Zones, lists: Lists, spare: seq<int>, z: int, h: Zone)
    requires ListsOk(zones, lists, spare) && z in zones && z !in spare && 0 <= zones[z].index < NZONES
    requires h.index == zones[z].index && h.nfree == zones[z].nfree + 1 && zones[z].nfree >= 0
    ensures ListsOk(zones[z := h],
      lists[h.index := if zones[z].nfree == 0 then [z] + lists[h.index] else lists[h.index]], spare)
  {
    var i := h.index;
    var list := lists[i];
    assert ListOk(zones, list, spare, i);
    assert zones[z].nfree == 0 ==> z !in list;
    assert Distinct(if zones[z].nfree == 0 then [z] + list else list);
    ListsSwap(zones, lists, spare, zones[z := h], spare, i, if zones[z].nfree == 0 then [z] + list else list);
  }

  /** A zone leaves its list and becomes spare. */
  lemma ListsSpared(zones: Zones, lists: Lists, spare: seq<int>, z: int, list: seq<int>)
    requires ListsOk(zones, lists, spare) && z in zones && z !in spare && 0 <= zones[z].index < NZONES
    requires Distinct(list) && forall x :: x in list <==> x in lists[zones[z].index] && x != z
    ensures ListsOk(zones, lists[zones[z].index := list], [z] + spare)
  {
    var i := zones[z].index;
    assert ListOk(zones, lists[i], spare, i);
    ListsSwap(zones, lists, spare, zones, [z] + spare, i, list);
  }

  /** A zone that was on no list is given an index. */
  lemma ListsOpened(zones: Zones, lists: Lists, spare: seq<int>, spare': seq<int>, z: int, h: Zone)
    requires ListsOk(zones, lists, spare) && 0 <= h.index < NZONES && h.nfree > 0
    requires (z !in zones && spare' == spare) || (spare != [] && z == spare[0] && spare' == spare[1..])
    ensures ListsOk(zones[z := h], lists[h.index := [z] + lists[h.index]], spare')
  {
    var i := h.index;
    assert ListOk(zones, lists[i], spare, i);
    assert z !in lists[i];
    assert forall x :: x in spare' ==> x in spare && x != z;
    assert forall x :: x in spare ==> x in spare' || x == z;
    ListsSwap(zones, lists, spare, zones[z := h], spare', i, [z] + lists[i]);
  }

  /** The first spare zone is given up. */
  lemma ListsReleased(zones: Zones, lists: Lists, spare: seq<int>)
    requires ListsOk(zones, lists, spare) && spare != []
    ensures ListsOk(zones - {spare[0]}, lists, spare[1..])
  {
    var z := spare[0];
    assert forall x :: x in spare[1..] <==> x in spare && x != z;
    forall j | 0 <= j < NZONES
      ensures ListOk(zones - {z}, lists[j], spare[1..], j)
    {
      assert ListOk(zones, lists[j], spare, j);
    }
  }

  // --------------------------------------------------------- changing owners

  ghost function Span(first: int, n: int): (s: set<int>)
    ensures forall p :: p in s <==> first <= p < first + n
    decreases n
  {
    if n <= 0 then {} else {first} + Span(first + 1, n - 1)
  }

  /** The pages from `first` on get an owner. */
  ghost function Claim(owner: Owners, first: int, n: int, o: Owner): (r: Owners)
    ensures forall p :: p in r <==> p in owner || first <= p < first + n
    ensures forall p :: p in r ==> r[p] == if first <= p < first + n then o else owner[p]
  {
    map p | p in owner.Keys + Span(first, n) :: if first <= p < first + n then o else owner[p]
  }

  ghost function Disown(owner: Owners, first: int, n: int): (r: Owners)
    ensures forall p :: p in r <==> p in owner && !(first <= p < first + n)
    ensures forall p :: p in r ==> r[p] == owner[p]
  {
    map p | p in owner && !(first <= p < first + n) :: owner[p]
  }

  /** Pages off the page list have no owner yet. */
  lemma Unowned(runs: PageList.Runs, owner: Owners, space: iset<int>, first: int, n: int)
    requires Taken(runs, owner, space) && PageList.AllFree(runs, first, n)
    ensures forall p :: first <= p < first + n ==> p !in owner
  {
  }

  /** What has an owner keeps it when other pages are claimed. */
  lemma OwnsBeside(owner: Owners, a: int, n: int, o: Owner, b: int, m: int, o': Owner)
    requires Owns(owner, a, n, o) && forall p :: b <= p < b + m ==> p !in owner
    ensures Owns(Claim(owner, b, m, o'), a, n, o)
  {
    var more := Claim(owner, b, m, o');
    forall p | a <= p < a + n
      ensures p in more && more[p] == o
    {
      assert p in owner;
    }
  }

  lemma ClaimOwns(owner: Owners, first: int, n: int, o: Owner)
    ensures Owns(Claim(owner, first, n, o), first, n, o)
  {
  }

  lemma ZoneClaimed(owner: Owners, zones: Zones, large: map<int, int>, count: int, z: int, h: Zone)
    requires OwnersOk(owner, zones, large, count) && count > 0 && z > 0
      && forall p :: z <= p < z + count ==> p !in owner
    ensures z !in zones && OwnersOk(Claim(owner, z, count, ZonePage(z)), zones[z := h], large, count)
  {
    NotOwned(owner, z, count, ZonePage(z));
    hide Owns, Claim;
    var owner', zones' := Claim(owner, z, count, ZonePage(z)), zones[z := h];
    ClaimOwns(owner, z, count, ZonePage(z));
    forall x | x in zones
      ensures Owns(owner', x, count, ZonePage(x))
    {
      OwnsBeside(owner, x, count, ZonePage(x), z, count, ZonePage(z));
    }
    forall f | f in large
      ensures Owns(owner', f, large[f], LargePage(f))
    {
      OwnsBeside(owner, f, large[f], LargePage(f), z, count, ZonePage(z));
    }
  }

  lemma NotOwned(owner: Owners, first: int, n: int, o: Owner)
    requires first !in owner && n > 0
    ensures !Owns(owner, first, n, o)
  {
  }

  lemma NotLarge(owner: Owners, zones: Zones, large: map<int, int>, count: int, f: int)
    requires OwnersOk(owner, zones, large, count) && f !in owner
    ensures f !in large
  {
    hide Owns;
    if f in large { NotOwned(owner, f, large[f], LargePage(f)); }
  }

  lemma ClaimWithin(owner: Owners, zones: Zones, large: map<int, int>, count: int, f: int, n: int, p: int)
    requires OwnersOk(owner, zones, large, count) && f !in large && p in Claim(owner, f, n, LargePage(f))
    ensures Within(Claim(owner, f, n, LargePage(f))[p], zones, large[f := n], count, p)
  {
    hide Owns;
  }

  lemma LargeClaimed(owner: Owners, zones: Zones, large: map<int, int>, count: int, f: int, n: int)
    requires OwnersOk(owner, zones, large, count) && n > 0 && f > 0 && forall p :: f <= p < f + n ==> p !in owner
    ensures f !in large && OwnersOk(Claim(owner, f, n, LargePage(f)), zones, large[f := n], count)
  {
    NotLarge(owner, zones, large, count, f);
    hide Owns, Claim, Within;
    var owner', large' := Claim(owner, f, n, LargePage(f)), large[f := n];
    forall p | p in owner'
      ensures Within(owner'[p], zones, large', count, p)
    {
      ClaimWithin(owner, zones, large, count, f, n, p);
    }
    ClaimOwns(owner, f, n, LargePage(f));
    forall x | x in zones
      ensures Owns(owner', x, count, ZonePage(x))
    {
      OwnsBeside(owner, x, count, ZonePage(x), f, n, LargePage(f));
    }
    forall g | g in large
      ensures Owns(owner', g, large[g], LargePage(g))
    {
      OwnsBeside(owner, g, large[g], LargePage(g), f, n, LargePage(f));
    }
  }

  /** What belongs to one owner stays when another gives up its pages. */
  lemma OwnsApart(owner: Owners, a: int, n: int, o: Owner, b: int, m: int, o': Owner)
    requires Owns(owner, a, n, o) && Owns(owner, b, m, o') && o != o'
    ensures Owns(Disown(owner, b, m), a, n, o)
  {
    var less := Disown(owner, b, m);
    forall p | a <= p < a + n
      ensures p in less && less[p] == o
    {
      assert p in owner;
    }
  }

  lemma ZoneDisowned(owner: Owners, zones: Zones, large: map<int, int>, count: int, z: int)
    requires OwnersOk(owner, zones, large, count) && z in zones
    ensures OwnersOk(Disown(owner, z, count), zones - {z}, large, count)
  {
    hide Owns;
    assert Owns(owner, z, count, ZonePage(z));
    var owner', zones' := Disown(owner, z, count), zones - {z};
    assert forall x :: x in zones' <==> x in zones && x != z;
    forall x | x in zones'
      ensures Owns(owner', x, count, ZonePage(x))
    {
      OwnsApart(owner, x, count, ZonePage(x), z, count, ZonePage(z));
    }
    forall f | f in large
      ensures Owns(owner', f, large[f], LargePage(f))
    {
      OwnsApart(owner, f, large[f], LargePage(f), z, count, ZonePage(z));
    }
  }

  lemma LargeDisowned(owner: Owners, zones: Zones, large: map<int, int>, count: int, f: int)
    requires OwnersOk(owner, zones, large, count) && f in large
    ensures OwnersOk(Disown(owner, f, large[f]), zones, large - {f}, count)
  {
    hide Owns;
    assert Owns(owner, f, large[f], LargePage(f));
    var owner', large' := Disown(owner, f, large[f]), large - {f};
    assert forall g :: g in large' <==> g in large && g != f;
    assert forall g :: g in large' ==> large'[g] == large[g];
    forall x | x in zones
      ensures Owns(owner', x, count, ZonePage(x))
    {
      OwnsApart(owner, x, count, ZonePage(x), f, large[f], LargePage(f));
    }
    forall g | g in large'
      ensures Owns(owner', g, large'[g], LargePage(g))
    {
      OwnsApart(owner, g, large[g], LargePage(g), f, large[f], LargePage(f));
    }
  }

  // --------------------------------------------------------- changing what lives

  /** A chunk of one zone comes alive. */
  lemma LiveAdded(zones: Zones, spare: seq<int>, z: int, h: Zone, p: int)
    requires z in zones && z !in spare && h.size == zones[z].size
      && forall a :: LiveIn(h, a) <==> LiveIn(zones[z], a) || a == p
    requires forall x :: x in zones && x !in spare && Issued(zones[z := h][x], p) ==> x == z
    ensures forall a, n :: LiveSmall(zones[z := h], spare, a, n) <==>
      LiveSmall(zones, spare, a, n) || (a == p && n == h.size)
  {
    var zones' := zones[z := h];
    forall a, n
      ensures LiveSmall(zones', spare, a, n) <==> LiveSmall(zones, spare, a, n) || (a == p && n == h.size)
    {
      if LiveSmall(zones, spare, a, n) {
        var x :| x in zones && x !in spare && LiveIn(zones[x], a) && n == zones[x].size;
        assert x in zones' && LiveIn(zones'[x], a) && n == zones'[x].size;
      }
      if a == p && n == h.size { assert LiveIn(zones'[z], a); }
      if LiveSmall(zones', spare, a, n) {
        var x :| x in zones' && x !in spare && LiveIn(zones'[x], a) && n == zones'[x].size;
        assert x in zones && (LiveIn(zones[x], a) || (a == p && x == z));
      }
    }
  }

  /** A chunk belongs to the zone whose pages it is in. */
  lemma LiveOnce(zones: Zones, spare: seq<int>, large: map<int, int>, owner: Owners, zoneSize: int, count: int, z: int,
                 p: int)
    requires ZonesOk(zones, spare, zoneSize) && OwnersOk(owner, zones, large, count) && zoneSize == count * PAGE
      && count >= 8
    requires z in zones && z !in spare && Issued(zones[z], p)
    ensures forall x :: x in zones && x !in spare && Issued(zones[x], p) ==> x == z
    ensures forall n :: !LiveLarge(large, p, n)
  {
    hide OwnersOk, Issued;
    ZoneTouches(z, zones[z], zoneSize, count, p);
    ZoneOwns(owner, zones, large, count, z);
    forall x | x in zones && x !in spare && Issued(zones[x], p)
      ensures x == z
    {
      ZoneTouches(x, zones[x], zoneSize, count, p);
      ZoneOwns(owner, zones, large, count, x);
      assert owner[p / PAGE] == ZonePage(x);
    }
    assert owner[p / PAGE] == ZonePage(z);
    forall f | f in large
      ensures p != f * PAGE
    {
      LargeOwns(owner, zones, large, count, f);
      assert owner[f] == LargePage(f);
    }
  }

  /** A chunk of one zone dies. */
  lemma LiveDropped(zones: Zones, spare: seq<int>, z: int, h: Zone, p: int)
    requires z in zones && z !in spare && h.size == zones[z].size
      && forall a :: LiveIn(h, a) <==> LiveIn(zones[z], a) && a != p
    requires forall x :: x in zones && x !in spare && Issued(zones[x], p) ==> x == z
    ensures forall a, n :: LiveSmall(zones[z := h], spare, a, n) <==> LiveSmall(zones, spare, a, n) && a != p
  {
    var zones' := zones[z := h];
    forall a, n
      ensures LiveSmall(zones', spare, a, n) <==> LiveSmall(zones, spare, a, n) && a != p
    {
      if LiveSmall(zones, spare, a, n) && a != p {
        var x :| x in zones && x !in spare && LiveIn(zones[x], a) && n == zones[x].size;
        assert x in zones' && LiveIn(zones'[x], a) && n == zones'[x].size;
      }
      if LiveSmall(zones', spare, a, n) {
        var x :| x in zones' && x !in spare && LiveIn(zones'[x], a) && n == zones'[x].size;
        assert x in zones && LiveIn(zones[x], a);
      }
    }
  }

  /** Sparing a zone without live chunks changes nothing, nor does giving up or reusing a spare one. */
  lemma LiveSpared(zones: Zones, spare: seq<int>, z: int)
    requires z in zones && z !in spare && forall a :: !LiveIn(zones[z], a)
    ensures forall a, n :: LiveSmall(zones, [z] + spare, a, n) <==> LiveSmall(zones, spare, a, n)
  {
  }

  lemma LiveReleased(zones: Zones, spare: seq<int>)
    requires spare != [] && Distinct(spare)
    ensures forall a, n :: LiveSmall(zones - {spare[0]}, spare[1..], a, n) <==> LiveSmall(zones, spare, a, n)
  {
    var z, rest := spare[0], spare[1..];
    var zones' := zones - {z};
    assert forall x :: x in rest <==> x in spare && x != z;
    assert forall x :: x in zones' <==> x in zones && x != z;
  }

  lemma LiveOpened(zones: Zones, spare: seq<int>, spare': seq<int>, z: int, h: Zone, p: int)
    requires (z !in zones && spare' == spare)
      || (spare != [] && Distinct(spare) && z == spare[0] && spare' == spare[1..])
    requires z !in zones ==> z !in spare
    requires forall a :: LiveIn(h, a) <==> a == p
    ensures forall a, n :: LiveSmall(zones[z := h], spare', a, n) <==>
      LiveSmall(zones, spare, a, n) || (a == p && n == h.size)
  {
    var zones' := zones[z := h];
    assert forall x :: x in spare' ==> x in spare && x != z;
    assert forall x :: x in spare ==> x in spare' || x == z;
    forall a, n
      ensures LiveSmall(zones', spare', a, n) <==> LiveSmall(zones, spare, a, n) || (a == p && n == h.size)
    {
      if LiveSmall(zones, spare, a, n) {
        var x :| x in zones && x !in spare && LiveIn(zones[x], a) && n == zones[x].size;
        assert x in zones' && LiveIn(zones'[x], a) && n == zones'[x].size;
      }
      if a == p && n == h.size { assert LiveIn(zones'[z], a); }
      if LiveSmall(zones', spare', a, n) {
        var x :| x in zones' && x !in spare' && LiveIn(zones'[x], a) && n == zones'[x].size;
        assert x != z ==> x in zones && LiveIn(zones[x], a);
      }
    }
  }
}
