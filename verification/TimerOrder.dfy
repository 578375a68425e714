/**
 The order a timer list is kept in, by true deadline with ties in start order, and the 32-bit
 tick arithmetic that stands in for it.
 */
module TimerOrder {

  // ----------------------------------------------------------- 32-bit ticks

  const SPAN := 0x1_0000_0000
  /** RT_TICK_MAX / 2. */
  const HALF := 0x7fff_ffff

  type tick = x: int | 0 <= x < SPAN

  function Wrap(x: int): (t: tick) { x % SPAN }

  /** Unsigned subtraction. */
  function Sub(a: tick, b: tick): (d: tick) {
    if a >= b then a - b else a - b + SPAN
  }

  function Add(a: tick, b: tick): (s: tick) {
    if a + b < SPAN then a + b else a + b - SPAN
  }

  /** Subtracting wrapped values gives the true difference, wrapped once more. */
  lemma SubOfWrapped(x: int, y: int)
    requires -SPAN <= x - y < SPAN
    ensures Sub(Wrap(x), Wrap(y)) == if x >= y then x - y else if x - y == -SPAN then 0 else x - y + SPAN
  {
    var q, r := x / SPAN, y / SPAN;
    assert x == q * SPAN + Wrap(x) && y == r * SPAN + Wrap(y);
    assert x - y == (q - r) * SPAN + (Wrap(x) - Wrap(y));
    assert -1 <= q - r <= 1;
  }

  lemma AddOfWrapped(x: int, n: tick)
    ensures Add(Wrap(x), n) == Wrap(x + n)
  {
    var q := x / SPAN;
    assert x == q * SPAN + Wrap(x);
    if Wrap(x) + n < SPAN {
      assert x + n == q * SPAN + (Wrap(x) + n);
    } else {
      assert x + n == (q + 1) * SPAN + (Wrap(x) + n - SPAN);
    }
  }

  /** The comparison of the insertion scan, decided by the true deadlines. */
  lemma LaterIsBreak(x: int, y: int)
    requires -HALF <= x - y < HALF
    ensures x == y <==> Sub(Wrap(x), Wrap(y)) == 0
    ensures x > y <==> 0 < Sub(Wrap(x), Wrap(y)) < HALF
  {
    SubOfWrapped(x, y);
  }

  /** The comparison of the expiry check. */
  lemma ArrivedIsSmall(now: int, due: int)
    requires now - HALF < due < now + HALF
    ensures due <= now <==> Sub(Wrap(now), Wrap(due)) < HALF
  {
    SubOfWrapped(now, due);
  }

  // ------------------------------------------------------------------ order

  type Id = nat

  /** A started timer: its true deadline, and when it was started. */
  datatype Key = Key(due: int, stamp: int)

  type Keys = map<Id, Key>

  predicate Before(a: Key, b: Key) {
    a.due < b.due || (a.due == b.due && a.stamp < b.stamp)
  }

  ghost predicate Sorted(row: seq<Id>, keys: Keys) {
    && (forall i :: 0 <= i < |row| ==> row[i] in keys)
    && (forall i, j :: 0 <= i < j < |row| ==> Before(keys[row[i]], keys[row[j]]))
  }

  /** The row without timer `t`. */
  function Drop(row: seq<Id>, t: Id): (r: seq<Id>)
    ensures forall x :: x in r <==> x in row && x != t
  {
    if row == [] then []
    else if row[0] == t then Drop(row[1..], t)
    else [row[0]] + Drop(row[1..], t)
  }

  lemma SortedTail(row: seq<Id>, keys: Keys)
    requires Sorted(row, keys) && |row| > 0
    ensures Sorted(row[1..], keys) && forall x :: x in row[1..] ==> x in keys && Before(keys[row[0]], keys[x])
  {
  }

  lemma SortedCons(a: Id, s: seq<Id>, keys: Keys)
    requires Sorted(s, keys) && a in keys && forall x :: x in s ==> Before(keys[a], keys[x])
    ensures Sorted([a] + s, keys)
  {
  }

  lemma {:induction false} DropSorted(row: seq<Id>, keys: Keys, t: Id)
    requires Sorted(row, keys)
    ensures Sorted(Drop(row, t), keys)
  {
    if row != [] {
      SortedTail(row, keys);
      DropSorted(row[1..], keys, t);
      if row[0] != t {
        SortedCons(row[0], Drop(row[1..], t), keys);
      }
    }
  }

  lemma {:induction false} DropAbsent(row: seq<Id>, t: Id)
    requires t !in row
    ensures Drop(row, t) == row
  {
    if row != [] {
      DropAbsent(row[1..], t);
    }
  }

  /** The keys of timers outside the row do not matter. */
  lemma SortedFrame(row: seq<Id>, keys: Keys, t: Id, k: Key)
    requires Sorted(row, keys) && t !in row
    ensures Sorted(row, keys[t := k])
  {
  }

  /** Everything before position `k` is due by `d`, everything from it on is due later. */
  ghost predicate Cut(row: seq<Id>, keys: Keys, d: int, k: int) {
    && 0 <= k <= |row|
    && (forall i :: 0 <= i < k ==> row[i] in keys && keys[row[i]].due <= d)
    && (forall i :: k <= i < |row| ==> row[i] in keys && keys[row[i]].due > d)
  }

  lemma CutIsUnique(row: seq<Id>, keys: Keys, d: int, k: int, j: int)
    requires Cut(row, keys, d, k) && Cut(row, keys, d, j)
    ensures k == j
  {
    assert k < |row| ==> keys[row[k]].due > d;
    assert j < |row| ==> keys[row[j]].due > d;
  }

  /** A plain scan of the row for the first deadline past `d`. */
  ghost function LinearScan(row: seq<Id>, keys: Keys, d: int): (k: nat)
    requires Sorted(row, keys)
  {
    if row == [] || keys[row[0]].due > d then 0 else 1 + LinearScan(row[1..], keys, d)
  }

  lemma {:induction false} LinearScanCuts(row: seq<Id>, keys: Keys, d: int)
    requires Sorted(row, keys)
    ensures Cut(row, keys, d, LinearScan(row, keys, d))
  {
    if row != [] && keys[row[0]].due <= d {
      var k := LinearScan(row[1..], keys, d);
      LinearScanCuts(row[1..], keys, d);
      forall i | 0 <= i < |row|
        ensures if i < k + 1 then keys[row[i]].due <= d else keys[row[i]].due > d
      {
        if i > 0 { assert row[i] == row[1..][i - 1]; }
      }
    }
  }

  function InsertAt(row: seq<Id>, k: int, t: Id): (r: seq<Id>)
    requires 0 <= k <= |row|
  {
    row[..k] + [t] + row[k..]
  }

  lemma InsertedElems(row: seq<Id>, k: int, t: Id)
    requires 0 <= k <= |row|
    ensures forall x :: x in InsertAt(row, k, t) <==> x in row || x == t
  {
    assert row == row[..k] + row[k..];
  }

  /** A timer started last goes where its deadline cuts the row. */
  lemma InsertedSorted(row: seq<Id>, keys: Keys, t: Id, k: int)
    requires Sorted(row, keys) && t in keys && Cut(row, keys, keys[t].due, k)
    requires forall x :: x in row ==> keys[x].stamp < keys[t].stamp
    ensures Sorted(InsertAt(row, k, t), keys)
  {
    var r := InsertAt(row, k, t);
    forall i, j | 0 <= i < j < |r|
      ensures Before(keys[r[i]], keys[r[j]])
    {
      if i < k { assert r[i] == row[i] && row[i] in row; }
      if j > k { assert r[j] == row[j - 1]; }
      if i > k { assert r[i] == row[i - 1]; }
      if j < k { assert r[j] == row[j]; }
    }
  }

  /** A sorted row is determined by its elements. */
  lemma {:induction false} SortedIsUnique(a: seq<Id>, b: seq<Id>, keys: Keys)
    requires Sorted(a, keys) && Sorted(b, keys) && forall x :: x in a <==> x in b
    ensures a == b
  {
    assert |b| > 0 ==> b[0] in b;
    if a != [] {
      assert a[0] in b;
      SortedTail(a, keys);
      SortedTail(b, keys);
      assert b[0] in a;
      assert a[0] == b[0];
      forall x
        ensures x in a[1..] <==> x in b[1..]
      {
        assert x in a <==> x in b;
      }
      SortedIsUnique(a[1..], b[1..], keys);
    }
  }

  // -------------------------------------------------------------- skip rows

  /** Each row holds only timers of the row below it. */
  ghost predicate Nested(rows: seq<seq<Id>>) {
    forall l :: 0 <= l < |rows| - 1 ==> NestedAt(rows, l)
  }

  ghost predicate NestedAt(rows: seq<seq<Id>>, l: int)
    requires 0 <= l < |rows| - 1
  {
    forall x :: x in rows[l] ==> x in rows[l + 1]
  }

  /** A row is what is left of the row below after leaving some timers out. */
  ghost predicate Subsequence(a: seq<Id>, b: seq<Id>) {
    if a == [] then true
    else if b == [] then false
    else if a[0] == b[0] then Subsequence(a[1..], b[1..])
    else Subsequence(a, b[1..])
  }

  lemma {:induction false} ContainedIsSubsequence(a: seq<Id>, b: seq<Id>, keys: Keys)
    requires Sorted(a, keys) && Sorted(b, keys) && forall x :: x in a ==> x in b
    ensures Subsequence(a, b)
  {
    if a != [] {
      assert a[0] in b;
      SortedTail(b, keys);
      SortedTail(a, keys);
      if a[0] == b[0] {
        forall x | x in a[1..]
          ensures x in b[1..]
        {
          assert x in a;
        }
        ContainedIsSubsequence(a[1..], b[1..], keys);
      } else {
        forall x | x in a
          ensures x in b[1..]
        {
          assert Before(keys[b[0]], keys[a[0]]);
        }
        ContainedIsSubsequence(a, b[1..], keys);
      }
    }
  }

  /** Where a timer stands in a row. */
  function PositionOf(row: seq<Id>, t: Id): (k: nat)
    requires t in row
    ensures k < |row| && row[k] == t
  {
    if row[0] == t then 0 else 1 + PositionOf(row[1..], t)
  }

  /** Going one row down from a timer due by `d`: everything up to it there is due by `d` as well. */
  lemma BelowIsDue(row: seq<Id>, keys: Keys, d: int, j: int)
    requires Sorted(row, keys) && 0 <= j < |row| && keys[row[j]].due <= d
    ensures forall i :: 0 <= i <= j ==> keys[row[i]].due <= d
  {
  }
}
