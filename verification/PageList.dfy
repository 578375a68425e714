/**
 The page allocator (`slab.c`): a linked list of runs of free pages, in address order. An address is
 a page number here.
 */
module PageList {

  const NULL := 0
  /** Stands for the list head variable, as the field that points to the first run. */
  const HEAD := -1

  datatype Run = Run(first: int, len: int)

  type Runs = seq<Run>

  function End(r: Run): (e: int) { r.first + r.len }

  /** In address order, none empty, and with a gap between neighbours: as few runs as there can be. */
  ghost predicate Proper(runs: Runs) {
    && (forall i :: 0 <= i < |runs| ==> runs[i].len > 0 && runs[i].first > 0)
    && (forall i, j :: 0 <= i < j < |runs| ==> End(runs[i]) < runs[j].first)
  }

  predicate Covers(r: Run, p: int) { r.first <= p < r.first + r.len }

  ghost predicate FreePage(runs: Runs, p: int) {
    exists r :: r in runs && Covers(r, p)
  }

  /** The `n` pages from `p` on are all free. */
  ghost predicate AllFree(runs: Runs, p: int, n: int) {
    forall q :: p <= q < p + n ==> FreePage(runs, q)
  }

  ghost predicate NoneFree(runs: Runs, p: int, n: int) {
    forall q :: p <= q < p + n ==> !FreePage(runs, q)
  }

  /** Consecutive free pages lie in one run. */
  lemma {:induction false} OneRun(runs: Runs, p: int, n: int) returns (i: int)
    requires Proper(runs) && n > 0 && AllFree(runs, p, n)
    ensures 0 <= i < |runs| && runs[i].first <= p && p + n <= End(runs[i])
    decreases n
  {
    if n == 1 {
      assert FreePage(runs, p);
      var r :| r in runs && Covers(r, p);
      i :| 0 <= i < |runs| && runs[i] == r;
    } else {
      i := OneRun(runs, p, n - 1);
      assert FreePage(runs, p + n - 1);
      var r :| r in runs && Covers(r, p + n - 1);
      var j :| 0 <= j < |runs| && runs[j] == r;
      assert j == i;
    }
  }

  /** Every run is too short. */
  ghost predicate TooShort(runs: Runs, n: int) {
    forall i :: 0 <= i < |runs| ==> runs[i].len < n
  }

  /** With the runs maximal, no run is long enough exactly if there are not that many free pages in a row. */
  lemma TooShortMeansNoRoom(runs: Runs, n: int)
    requires Proper(runs) && n > 0
    ensures TooShort(runs, n) <==> forall p :: !AllFree(runs, p, n)
  {
    if TooShort(runs, n) {
      forall p
        ensures !AllFree(runs, p, n)
      {
        if AllFree(runs, p, n) {
          var i := OneRun(runs, p, n);
        }
      }
    } else {
      var i :| 0 <= i < |runs| && runs[i].len >= n;
      assert AllFree(runs, runs[i].first, n) by {
        forall q | runs[i].first <= q < runs[i].first + n
          ensures FreePage(runs, q)
        {
          assert runs[i] in runs && Covers(runs[i], q);
        }
      }
    }
  }

  // ------------------------------------------------------------------ edits

  /** The runs after taking the first `n` pages of run `i`. */
  function Taken(runs: Runs, i: int, n: int): (r: Runs)
    requires 0 <= i < |runs|
  {
    if runs[i].len == n then runs[..i] + runs[i + 1..]
    else runs[..i] + [Run(runs[i].first + n, runs[i].len - n)] + runs[i + 1..]
  }

  lemma FreeSplit(a: Runs, m: Runs, b: Runs, p: int)
    ensures FreePage(a + m + b, p) <==> FreePage(a, p) || FreePage(m, p) || FreePage(b, p)
  {
    var s := a + m + b;
    assert forall r :: r in s <==> r in a || r in m || r in b;
  }

  /** The pages of a stretch of the list are in no run before or after it. */
  lemma StretchApart(a: Runs, m: Runs, b: Runs, p: int)
    requires Proper(a + m + b) && FreePage(m, p)
    ensures !FreePage(a, p) && !FreePage(b, p)
  {
    var s := a + m + b;
    var r :| r in m && Covers(r, p);
    var k :| 0 <= k < |m| && m[k] == r;
    assert s[|a| + k] == r;
    forall i | 0 <= i < |a|
      ensures !Covers(a[i], p)
    {
      assert s[i] == a[i];
    }
    forall i | 0 <= i < |b|
      ensures !Covers(b[i], p)
    {
      assert s[|a| + |m| + i] == b[i];
    }
  }

  /** Replacing a stretch by runs that stay clear of the rest keeps the list proper. */
  lemma SpliceIsProper(a: Runs, m: Runs, n: Runs, b: Runs)
    requires Proper(a + m + b) && Proper(n)
    requires |a| > 0 && |n| > 0 ==> End(a[|a| - 1]) < n[0].first
    requires |n| > 0 && |b| > 0 ==> End(n[|n| - 1]) < b[0].first
    ensures Proper(a + n + b)
  {
    var s, r := a + m + b, a + n + b;
    forall i | 0 <= i < |r|
      ensures r[i].len > 0 && r[i].first > 0
    {
      if i < |a| {
        assert r[i] == s[i];
      } else if i < |a| + |n| {
        assert r[i] == n[i - |a|];
      } else {
        assert r[i] == s[i - |n| + |m|];
      }
    }
    forall i, j | 0 <= i < j < |r|
      ensures End(r[i]) < r[j].first
    {
      PairApart(a, m, n, b, i, j);
    }
  }

  lemma PairApart(a: Runs, m: Runs, n: Runs, b: Runs, i: int, j: int)
    requires Proper(a + m + b) && Proper(n) && 0 <= i < j < |a + n + b|
    requires |a| > 0 && |n| > 0 ==> End(a[|a| - 1]) < n[0].first
    requires |n| > 0 && |b| > 0 ==> End(n[|n| - 1]) < b[0].first
    ensures End((a + n + b)[i]) < (a + n + b)[j].first
  {
    var s, r := a + m + b, a + n + b;
    var x := if i < |a| then 0 else if i < |a| + |n| then 1 else 2;
    var y := if j < |a| then 0 else if j < |a| + |n| then 1 else 2;
    if x == 0 {
      assert r[i] == s[i] && s[|a| - 1] == a[|a| - 1];
      assert i < |a| - 1 ==> End(s[i]) < s[|a| - 1].first;
    }
    if x == 2 { assert r[i] == s[i - |n| + |m|]; }
    if y == 0 { assert r[j] == s[j]; }
    if y == 2 {
      assert r[j] == s[j - |n| + |m|] && s[|a| + |m|] == b[0];
    }
    if x == 1 { assert r[i] == n[i - |a|]; }
    if y == 1 { assert r[j] == n[j - |a|]; }
  }

  lemma TakenIsProper(runs: Runs, i: int, n: int)
    requires Proper(runs) && 0 <= i < |runs| && 0 < n <= runs[i].len
    ensures Proper(Taken(runs, i, n))
    ensures forall p :: FreePage(Taken(runs, i, n), p) <==>
      FreePage(runs, p) && !(runs[i].first <= p < runs[i].first + n)
  {
    var a, m, b := runs[..i], [runs[i]], runs[i + 1..];
    var rest := if runs[i].len == n then [] else [Run(runs[i].first + n, runs[i].len - n)];
    assert runs == a + m + b && Taken(runs, i, n) == a + rest + b;
    SpliceIsProper(a, m, rest, b);
    forall p
      ensures FreePage(Taken(runs, i, n), p) <==> FreePage(runs, p) && !(runs[i].first <= p < runs[i].first + n)
    {
      FreeSplit(a, m, b, p);
      FreeSplit(a, rest, b, p);
      OfOne(runs[i], p);
      if FreePage(m, p) { StretchApart(a, m, b, p); }
      if runs[i].len != n { OfOne(rest[0], p); }
    }
  }

  lemma OfOne(r: Run, p: int)
    ensures FreePage([r], p) <==> Covers(r, p)
  {
    assert r in [r];
  }

  // ---- giving pages back

  function Low(runs: Runs, k: int, addr: int): (lo: int)
    requires 0 <= k <= |runs|
  {
    if k > 0 && End(runs[k - 1]) == addr then k - 1 else k
  }

  function High(runs: Runs, k: int, end: int): (hi: int)
    requires 0 <= k <= |runs|
  {
    if k < |runs| && runs[k].first == end then k + 1 else k
  }

  /** The freed pages together with the runs they touch. */
  function Joined(runs: Runs, k: int, addr: int, n: int): (r: Run)
    requires 0 <= k <= |runs|
  {
    var first := if Low(runs, k, addr) < k then runs[k - 1].first else addr;
    var end := if High(runs, k, addr + n) > k then End(runs[k]) else addr + n;
    Run(first, end - first)
  }

  /** The runs after freeing `n` pages at `addr`, which belong before run `k`. */
  function Freed(runs: Runs, k: int, addr: int, n: int): (r: Runs)
    requires 0 <= k <= |runs|
  {
    runs[..Low(runs, k, addr)] + [Joined(runs, k, addr, n)] + runs[High(runs, k, addr + n)..]
  }

  /** Pages belong before run `k`. */
  ghost predicate Between(runs: Runs, k: int, addr: int, n: int) {
    && 0 <= k <= |runs|
    && (k > 0 ==> End(runs[k - 1]) <= addr)
    && (k < |runs| ==> addr + n <= runs[k].first)
  }

  lemma FreedIsProper(runs: Runs, k: int, addr: int, n: int)
    requires Proper(runs) && n > 0 && addr > 0 && Between(runs, k, addr, n)
    ensures Proper(Freed(runs, k, addr, n))
    ensures forall p :: FreePage(Freed(runs, k, addr, n), p) <==> FreePage(runs, p) || addr <= p < addr + n
  {
    hide Proper, FreePage, Joined;
    var lo, hi, x := Low(runs, k, addr), High(runs, k, addr + n), Joined(runs, k, addr, n);
    var a, m, b := runs[..lo], runs[lo..hi], runs[hi..];
    assert runs == a + m + b;
    JoinedFits(runs, k, addr, n);
    SpliceIsProper(a, m, [x], b);
    forall p
      ensures FreePage(Freed(runs, k, addr, n), p) <==> FreePage(runs, p) || addr <= p < addr + n
    {
      FreeSplit(a, m, b, p);
      FreeSplit(a, [x], b, p);
      OfOne(x, p);
      JoinedPages(runs, k, addr, n, p);
    }
  }

  lemma JoinedFits(runs: Runs, k: int, addr: int, n: int)
    requires Proper(runs) && n > 0 && addr > 0 && Between(runs, k, addr, n)
    ensures var lo, hi, x := Low(runs, k, addr), High(runs, k, addr + n), Joined(runs, k, addr, n);
      Proper([x]) && (lo > 0 ==> End(runs[lo - 1]) < x.first) && (hi < |runs| ==> End(x) < runs[hi].first)
  {
  }

  lemma JoinedPages(runs: Runs, k: int, addr: int, n: int, p: int)
    requires Proper(runs) && n > 0 && Between(runs, k, addr, n)
    ensures Covers(Joined(runs, k, addr, n), p) <==>
            FreePage(runs[Low(runs, k, addr)..High(runs, k, addr + n)], p) || addr <= p < addr + n
  {
    var lo, hi := Low(runs, k, addr), High(runs, k, addr + n);
    var m := runs[lo..hi];
    if lo < k && k < hi {
      assert m == [runs[k - 1]] + [runs[k]] + [];
      FreeSplit([runs[k - 1]], [runs[k]], [], p);
      OfOne(runs[k - 1], p);
      OfOne(runs[k], p);
    } else if lo < k {
      assert m == [runs[k - 1]];
      OfOne(runs[k - 1], p);
    } else if k < hi {
      assert m == [runs[k]];
      OfOne(runs[k], p);
    } else {
      assert m == [];
    }
  }

  lemma Gaps(runs: Runs, i: int)
    requires Proper(runs) && 0 <= i < |runs|
    ensures i > 0 ==> End(runs[i - 1]) < runs[i].first
    ensures i + 1 < |runs| ==> End(runs[i]) < runs[i + 1].first
  {
  }

  /** Giving back the pages just taken restores the list. */
  lemma FreedUndoesTaken(runs: Runs, i: int, n: int)
    requires Proper(runs) && 0 <= i < |runs| && 0 < n <= runs[i].len
    ensures Between(Taken(runs, i, n), i, runs[i].first, n) && Freed(Taken(runs, i, n), i, runs[i].first, n) == runs
  {
    hide Proper;
    Gaps(runs, i);
    var t, addr := Taken(runs, i, n), runs[i].first;
    assert t[..i] == runs[..i];
    assert i > 0 ==> t[i - 1] == runs[i - 1];
    assert Low(t, i, addr) == i;
    if runs[i].len == n {
      assert t[i..] == runs[i + 1..];
      assert i < |t| ==> t[i] == runs[i + 1];
      assert High(t, i, addr + n) == i;
    } else {
      assert t[i] == Run(addr + n, runs[i].len - n) && t[i + 1..] == runs[i + 1..];
      assert High(t, i, addr + n) == i + 1;
    }
    assert Joined(t, i, addr, n) == runs[i];
    assert runs == runs[..i] + [runs[i]] + runs[i + 1..];
  }

  // -------------------------------------------------------------- the list

  type Fields = map<int, int>

  /** The field that points to run `i`. */
  function Key(runs: Runs, i: int): (a: int)
    requires 0 <= i <= |runs|
  {
    if i == 0 then HEAD else runs[i - 1].first
  }

  function First(runs: Runs, i: int): (a: int)
    requires 0 <= i <= |runs|
  {
    if i < |runs| then runs[i].first else NULL
  }

  ghost predicate LinkAt(next: Fields, runs: Runs, i: int)
    requires 0 <= i <= |runs|
  {
    Key(runs, i) in next && next[Key(runs, i)] == First(runs, i)
  }

  ghost predicate CountAt(page: Fields, runs: Runs, i: int)
    requires 0 <= i < |runs|
  {
    runs[i].first in page && page[runs[i].first] == runs[i].len
  }

  ghost predicate Linked(next: Fields, page: Fields, runs: Runs) {
    && (forall i :: 0 <= i <= |runs| ==> LinkAt(next, runs, i))
    && (forall i :: 0 <= i < |runs| ==> CountAt(page, runs, i))
  }

  lemma Node(next: Fields, page: Fields, runs: Runs, i: int)
    requires Linked(next, page, runs) && Proper(runs) && 0 <= i < |runs|
    ensures var b := runs[i].first;
      && b > 0 && runs[i].len > 0 && b in page && page[b] == runs[i].len && b in next && next[b] == First(runs, i + 1)
      && Key(runs, i + 1) == b
  {
    assert LinkAt(next, runs, i + 1) && CountAt(page, runs, i);
  }

  /** Shortening run `i` from the front moves its header. */
  lemma SplitLinked(next: Fields, page: Fields, runs: Runs, i: int, n: int)
    requires Linked(next, page, runs) && Proper(runs) && 0 <= i < |runs| && 0 < n < runs[i].len
    ensures var b := runs[i].first; var h := b + n;
      b in next && Linked(next[h := next[b]][Key(runs, i) := h], page[h := runs[i].len - n], Taken(runs, i, n))
  {
    Node(next, page, runs, i);
    var r, b := Taken(runs, i, n), runs[i].first;
    var h := b + n;
    var next', page' := next[h := next[b]][Key(runs, i) := h], page[h := runs[i].len - n];
    forall j | 0 <= j <= |r|
      ensures LinkAt(next', r, j)
    {
      assert LinkAt(next, runs, j);
      assert j > 0 && j != i + 1 ==> r[j - 1] == runs[j - 1];
      assert j < |r| && j != i ==> r[j] == runs[j];
    }
    forall j | 0 <= j < |r|
      ensures CountAt(page', r, j)
    {
      assert CountAt(page, runs, j);
      assert j != i ==> r[j] == runs[j];
    }
  }

  /** Unlinking run `i`. */
  lemma RemoveLinked(next: Fields, page: Fields, runs: Runs, i: int)
    requires Linked(next, page, runs) && Proper(runs) && 0 <= i < |runs|
    ensures var b := runs[i].first; b in next && Linked(next[Key(runs, i) := next[b]], page, runs[..i] + runs[i + 1..])
  {
    Node(next, page, runs, i);
    var r, b := runs[..i] + runs[i + 1..], runs[i].first;
    var next' := next[Key(runs, i) := next[b]];
    forall j | 0 <= j <= |r|
      ensures LinkAt(next', r, j)
    {
      var k := if j <= i then j else j + 1;
      assert LinkAt(next, runs, k);
      assert j > 0 ==> r[j - 1] == runs[if j - 1 < i then j - 1 else j];
      assert j < |r| ==> r[j] == runs[if j < i then j else j + 1];
    }
    forall j | 0 <= j < |r|
      ensures CountAt(page, r, j)
    {
      assert CountAt(page, runs, if j < i then j else j + 1);
    }
  }

  class Pages {
    var next: Fields
    var page: Fields
    ghost var runs: Runs

    ghost predicate Valid()
      reads this
    {
      Proper(runs) && Linked(next, page, runs)
    }

    /** The empty list that rt_page_init starts from. */
    constructor ()
      ensures Valid() && runs == []
    {
      next, page, runs := map[HEAD := NULL], map[], [];
      new;
      assert LinkAt(next, runs, 0);
    }

    /** rt_page_alloc. */
    method Alloc(npages: nat) returns (b: int)
      requires Valid()
      modifies this
      ensures Valid()
      ensures b == NULL <==> npages == 0 || forall p :: !AllFree(old(runs), p, npages)
      ensures b == NULL ==> unchanged(this)
      ensures b != NULL ==> b > 0 && AllFree(old(runs), b, npages) && Round(old(runs), runs, b, npages)
      ensures b != NULL ==> forall p :: p < b ==> !AllFree(old(runs), p, npages)
      ensures b != NULL ==> forall p :: FreePage(runs, p) <==> FreePage(old(runs), p) && !(b <= p < b + npages)
    {
      hide Proper, Linked, FreePage, AllFree, Taken;
      if npages == 0 {
        return NULL;
      }
      TooShortMeansNoRoom(runs, npages);
      var prev := HEAD;
      ghost var i := 0;
      Start(next, page, runs);
      b := next[prev];
      while b != NULL
        invariant Valid() && unchanged(this)
        invariant 0 <= i <= |runs| && prev == Key(runs, i) && b == First(runs, i) && prev in next
        invariant forall j :: 0 <= j < i ==> runs[j].len < npages
        decreases |runs| - i
      {
        Node(next, page, runs, i);
        if page[b] >= npages {
          TakenIsProper(runs, i, npages);
          FitIsFree(runs, i, npages);
          FitIsLowest(runs, i, npages);
          FreedUndoesTaken(runs, i, npages);
        }
        if page[b] > npages {
          SplitLinked(next, page, runs, i, npages);
          var n := b + npages;
          next := next[n := next[b]];
          page := page[n := page[b] - npages];
          next := next[prev := n];
          runs := Taken(runs, i, npages);
          return;
        }
        if page[b] == npages {
          RemoveLinked(next, page, runs, i);
          TakenWhole(runs, i);
          next := next[prev := next[b]];
          runs := Taken(runs, i, npages);
          return;
        }
        prev := b;
        b := next[prev];
        i := i + 1;
      }
      EndOfList(runs, i);
    }

    /** The run ending at the freed pages grows over them, and over the run behind them. */
    method GrowRun(b: int, npages: int, ghost i: int)
      requires Valid() && npages > 0 && 0 <= i < |runs| && runs[i].first == b
      requires Between(runs, i + 1, End(runs[i]), npages)
      modifies this
      ensures Valid() && runs == Freed(old(runs), i + 1, End(old(runs)[i]), npages)
    {
      hide Proper, Linked, Freed, Between;
      ghost var addr := End(runs[i]);
      Node(next, page, runs, i);
      FreedIsProper(runs, i + 1, addr, npages);
      GrowLinked(next, page, runs, i, npages);
      page := page[b := page[b] + npages];
      if b + page[b] == next[b] {
        assert page[b := page[b] + page[next[b]]] == old(page)[b := old(page)[b] + npages + old(page)[next[b]]];
        page := page[b := page[b] + page[next[b]]];
        next := next[b := next[next[b]]];
      }
      runs := Freed(runs, i + 1, addr, npages);
    }

    /** rt_page_free. */
    method Free(addr: int, npages: nat)
      requires Valid() && addr > 0 && npages > 0 && NoneFree(runs, addr, npages)
      modifies this
      ensures Valid()
      ensures exists k :: Between(old(runs), k, addr, npages) && runs == Freed(old(runs), k, addr, npages)
      ensures forall p :: FreePage(runs, p) <==> FreePage(old(runs), p) || addr <= p < addr + npages
    {
      hide Proper, Linked, Freed, NoneFree, FreePage;
      var n := addr;
      var prev := HEAD;
      ghost var i := 0;
      Start(next, page, runs);
      var b := next[prev];
      while b != NULL
        invariant Valid() && unchanged(this)
        invariant 0 <= i <= |runs| && prev == Key(runs, i) && b == First(runs, i) && prev in next
        invariant i > 0 ==> End(runs[i - 1]) < addr
        decreases |runs| - i
      {
        Node(next, page, runs, i);
        Clear(runs, i, addr, npages);
        if b + page[b] == n {
          FreedIsProper(runs, i + 1, addr, npages);
          GrowRun(b, npages, i);
          return;
        }
        if b == n + npages {
          assert Between(runs, i, addr, npages);
          FreedIsProper(runs, i, addr, npages);
          AbsorbLinked(next, page, runs, i, addr, npages);
          page := page[n := page[b] + npages];
          next := next[n := next[b]];
          next := next[prev := n];
          runs := Freed(runs, i, addr, npages);
          return;
        }
        if b > n + npages {
          break;
        }
        prev := b;
        b := next[prev];
        i := i + 1;
      }
      if b == NULL { EndOfList(runs, i); }
      assert Between(runs, i, addr, npages);
      FreedIsProper(runs, i, addr, npages);
      InsertLinked(next, page, runs, i, addr, npages);
      page := page[n := npages];
      next := next[n := b];
      next := next[prev := n];
      runs := Freed(runs, i, addr, npages);
    }
  }

  /** With all runs before it too short, a run starts at the lowest page from which `n` pages are free. */
  lemma FitIsLowest(runs: Runs, i: int, n: int)
    requires Proper(runs) && 0 <= i < |runs| && n > 0 && forall j :: 0 <= j < i ==> runs[j].len < n
    ensures forall p :: p < runs[i].first ==> !AllFree(runs, p, n)
  {
    hide AllFree;
    forall p | p < runs[i].first
      ensures !AllFree(runs, p, n)
    {
      if AllFree(runs, p, n) {
        var k := OneRun(runs, p, n);
      }
    }
  }

  /** Freeing the pages again would restore the runs. */
  ghost predicate Round(before: Runs, after: Runs, b: int, n: int) {
    exists k :: Between(after, k, b, n) && Freed(after, k, b, n) == before
  }

  lemma Start(next: Fields, page: Fields, runs: Runs)
    requires Linked(next, page, runs)
    ensures HEAD in next && next[HEAD] == First(runs, 0) && Key(runs, 0) == HEAD
  {
    assert LinkAt(next, runs, 0);
  }

  lemma EndOfList(runs: Runs, i: int)
    requires Proper(runs) && 0 <= i <= |runs| && First(runs, i) == NULL
    ensures i == |runs|
  {
  }

  lemma FitIsFree(runs: Runs, i: int, n: int)
    requires 0 <= i < |runs| && runs[i].len >= n
    ensures AllFree(runs, runs[i].first, n) && !TooShort(runs, n)
  {
    forall q | runs[i].first <= q < runs[i].first + n
      ensures FreePage(runs, q)
    {
      assert runs[i] in runs && Covers(runs[i], q);
    }
  }

  lemma TakenWhole(runs: Runs, i: int)
    requires 0 <= i < |runs|
    ensures Taken(runs, i, runs[i].len) == runs[..i] + runs[i + 1..]
  {
  }

  /** Pages none of which is free lie before or behind each run. */
  lemma Clear(runs: Runs, i: int, addr: int, n: int)
    requires Proper(runs) && 0 <= i < |runs| && n > 0 && NoneFree(runs, addr, n)
    ensures addr + n <= runs[i].first || End(runs[i]) <= addr
    ensures End(runs[i]) == addr ==> Between(runs, i + 1, addr, n)
    ensures i + 1 < |runs| && End(runs[i]) <= addr ==> runs[i + 1].first != addr
  {
    ClearRun(runs, i, addr, n);
    if i + 1 < |runs| { ClearRun(runs, i + 1, addr, n); }
  }

  lemma ClearRun(runs: Runs, i: int, addr: int, n: int)
    requires Proper(runs) && 0 <= i < |runs| && n > 0 && NoneFree(runs, addr, n)
    ensures addr + n <= runs[i].first || End(runs[i]) <= addr
  {
    var p := if addr < runs[i].first then runs[i].first else addr;
    assert runs[i] in runs;
    assert Covers(runs[i], p) ==> FreePage(runs, p);
  }

  lemma GrowLinked(next: Fields, page: Fields, runs: Runs, i: int, n: int)
    requires Linked(next, page, runs) && Proper(runs) && 0 <= i < |runs| && n > 0
      && Between(runs, i + 1, End(runs[i]), n)
    ensures var b, r := runs[i].first, Freed(runs, i + 1, End(runs[i]), n);
      && b in page && b in next
      && (i + 1 < |runs| && runs[i + 1].first == End(runs[i]) + n ==>
            && next[b] == runs[i + 1].first && next[b] in next && next[b] in page && next[b] != b
            && Linked(next[b := next[next[b]]], page[b := page[b] + n + page[next[b]]], r))
      && (!(i + 1 < |runs| && runs[i + 1].first == End(runs[i]) + n) ==>
            next[b] != End(runs[i]) + n && Linked(next, page[b := page[b] + n], r))
  {
    Node(next, page, runs, i);
    var b, r := runs[i].first, Freed(runs, i + 1, End(runs[i]), n);
    if i + 1 < |runs| && runs[i + 1].first == End(runs[i]) + n {
      Node(next, page, runs, i + 1);
      RemoveLinked(next, page, runs, i + 1);
      var mid := runs[..i + 1] + runs[i + 2..];
      var x := Run(b, End(runs[i + 1]) - b);
      assert mid[..i] == runs[..i] && mid[i + 1..] == runs[i + 2..];
      assert r == mid[..i] + [x] + mid[i + 1..];
      Resized(next[b := next[next[b]]], page, mid, i, x.len);
    } else {
      var x := Run(b, runs[i].len + n);
      assert r == runs[..i] + [x] + runs[i + 1..];
      Resized(next, page, runs, i, x.len);
    }
  }

  /** Only the length of run `i` changes. */
  lemma Resized(next: Fields, page: Fields, runs: Runs, i: int, len: int)
    requires Linked(next, page, runs) && 0 <= i < |runs|
      && forall j :: 0 <= j < |runs| && j != i ==> runs[j].first != runs[i].first
    ensures Linked(next, page[runs[i].first := len], runs[..i] + [Run(runs[i].first, len)] + runs[i + 1..])
  {
    var r, page' := runs[..i] + [Run(runs[i].first, len)] + runs[i + 1..], page[runs[i].first := len];
    forall j | 0 <= j <= |r|
      ensures LinkAt(next, r, j)
    {
      assert LinkAt(next, runs, j);
      assert j > 0 ==> r[j - 1].first == runs[j - 1].first;
      assert j < |r| ==> r[j].first == runs[j].first;
    }
    forall j | 0 <= j < |r|
      ensures CountAt(page', r, j)
    {
      assert CountAt(page, runs, j);
      assert j != i ==> r[j] == runs[j];
    }
  }

  /** A new header in front of run `i`, which it swallows. */
  lemma AbsorbLinked(next: Fields, page: Fields, runs: Runs, i: int, addr: int, n: int)
    requires Linked(next, page, runs) && Proper(runs) && 0 <= i < |runs| && n > 0 && addr > 0
      && runs[i].first == addr + n
    requires i > 0 ==> End(runs[i - 1]) < addr
    ensures var b, r := runs[i].first, Freed(runs, i, addr, n);
      b in next && b in page && Linked(next[addr := next[b]][Key(runs, i) := addr], page[addr := page[b] + n], r)
  {
    Node(next, page, runs, i);
    var b, r := runs[i].first, Freed(runs, i, addr, n);
    var x := Run(addr, runs[i].len + n);
    assert r == runs[..i] + [x] + runs[i + 1..];
    Replaced(next, page, runs, i, x);
  }

  /** Run `i` gets another header, somewhere between its neighbours. */
  lemma Replaced(next: Fields, page: Fields, runs: Runs, i: int, x: Run)
    requires Linked(next, page, runs) && Proper(runs) && 0 <= i < |runs| && x.first > 0
    requires forall j :: 0 <= j < |runs| && j != i ==> runs[j].first != x.first
    ensures var b := runs[i].first;
      b in next && Linked(next[x.first := next[b]][Key(runs, i) := x.first], page[x.first := x.len],
        runs[..i] + [x] + runs[i + 1..])
  {
    Node(next, page, runs, i);
    var r, b := runs[..i] + [x] + runs[i + 1..], runs[i].first;
    var next', page' := next[x.first := next[b]][Key(runs, i) := x.first], page[x.first := x.len];
    forall j | 0 <= j <= |r|
      ensures LinkAt(next', r, j)
    {
      assert LinkAt(next, runs, j);
      assert j > 0 && j != i + 1 ==> r[j - 1] == runs[j - 1];
      assert j < |r| && j != i ==> r[j] == runs[j];
    }
    forall j | 0 <= j < |r|
      ensures CountAt(page', r, j)
    {
      assert CountAt(page, runs, j);
      assert j != i ==> r[j] == runs[j];
    }
  }

  /** A new run between two others. */
  lemma InsertLinked(next: Fields, page: Fields, runs: Runs, i: int, addr: int, n: int)
    requires Linked(next, page, runs) && Proper(runs) && 0 <= i <= |runs| && n > 0 && addr > 0
    requires i > 0 ==> End(runs[i - 1]) < addr
    requires i < |runs| ==> addr + n < runs[i].first
    ensures Linked(next[addr := First(runs, i)][Key(runs, i) := addr], page[addr := n], Freed(runs, i, addr, n))
  {
    var r, x := Freed(runs, i, addr, n), Run(addr, n);
    assert r == runs[..i] + [x] + runs[i..];
    var next', page' := next[addr := First(runs, i)][Key(runs, i) := addr], page[addr := n];
    forall j | 0 <= j < |runs|
      ensures runs[j].first != addr && (j < i ==> r[j] == runs[j]) && (j >= i ==> r[j + 1] == runs[j])
    {
      if j < i { assert runs[j].first <= runs[i - 1].first; }
    }
    forall j | 0 <= j <= |r|
      ensures LinkAt(next', r, j)
    {
      InsertLinkAt(next, runs, r, i, x, j);
    }
    forall j | 0 <= j < |r|
      ensures CountAt(page', r, j)
    {
      if j < i {
        assert CountAt(page, runs, j);
      } else if j > i {
        assert CountAt(page, runs, j - 1);
        assert r[j] == runs[j - 1];
      }
    }
  }

  /** The fields and targets after run `x` is put before run `i`. */
  lemma InsertKeys(runs: Runs, r: Runs, i: int, x: Run, j: int)
    requires 0 <= i <= |runs| && r == runs[..i] + [x] + runs[i..] && 0 <= j <= |r|
    ensures Key(r, j) == if j <= i then Key(runs, j) else if j == i + 1 then x.first else Key(runs, j - 1)
    ensures First(r, j) == if j < i then First(runs, j) else if j == i then x.first else First(runs, j - 1)
  {
    if j <= i {
      assert j > 0 ==> r[j - 1] == runs[j - 1];
      assert j < i ==> r[j] == runs[j];
    } else {
      assert j > i + 1 ==> r[j - 1] == runs[j - 2];
      assert j < |r| ==> r[j] == runs[j - 1];
    }
  }

  lemma KeysDiffer(runs: Runs, i: int, j: int)
    requires Proper(runs) && 0 <= i <= |runs| && 0 <= j <= |runs| && i != j
    ensures Key(runs, i) != Key(runs, j)
  {
    if 0 < i < j { assert End(runs[i - 1]) < runs[j - 1].first; }
    if 0 < j < i { assert End(runs[j - 1]) < runs[i - 1].first; }
  }

  lemma InsertLinkAt(next: Fields, runs: Runs, r: Runs, i: int, x: Run, j: int)
    requires (forall k :: 0 <= k <= |runs| ==> LinkAt(next, runs, k)) && Proper(runs) && 0 <= i <= |runs| && x.first > 0
    requires r == runs[..i] + [x] + runs[i..] && 0 <= j <= |r|
    requires forall k :: 0 <= k < |runs| ==> runs[k].first != x.first
    ensures LinkAt(next[x.first := First(runs, i)][Key(runs, i) := x.first], r, j)
  {
    hide Proper, First;
    InsertKeys(runs, r, i, x, j);
    assert Key(runs, i) != x.first;
    if j != i && j != i + 1 {
      var k := if j < i then j else j - 1;
      assert LinkAt(next, runs, k) && Key(runs, k) != x.first;
      KeysDiffer(runs, k, i);
    }
  }
}
