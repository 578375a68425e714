/**
 Circular doubly linked lists over addresses: `fwd` and `bwd` hold the two link fields of every
 node. Every list of the kernel (`rtservice.h`), and the block and free rings of the heaps, is one.
 */
module Ring {
  import opened Sequences

  type Links = map<int, int>

  function Succ(r: seq<int>, i: int): (j: int)
    requires 0 <= i < |r|
  {
    if i + 1 < |r| then i + 1 else 0
  }

  function Pred(r: seq<int>, i: int): (j: int)
    requires 0 <= i < |r|
  {
    if i > 0 then i - 1 else |r| - 1
  }

  /** The links run through the nodes of `r` in order and back to the first. */
  ghost predicate Linked(fwd: Links, bwd: Links, r: seq<int>) {
    && |r| > 0 && Distinct(r)
    && (forall i :: 0 <= i < |r| ==> FwdAt(fwd, r, i))
    && (forall i :: 0 <= i < |r| ==> BwdAt(bwd, r, i))
  }

  ghost predicate FwdAt(fwd: Links, r: seq<int>, i: int)
    requires 0 <= i < |r|
  {
    r[i] in fwd && fwd[r[i]] == r[Succ(r, i)]
  }

  ghost predicate BwdAt(bwd: Links, r: seq<int>, i: int)
    requires 0 <= i < |r|
  {
    r[i] in bwd && bwd[r[i]] == r[Pred(r, i)]
  }

  /** `n->next->prev = n->prev`. */
  function UnlinkBwd(fwd: Links, bwd: Links, a: int): (b: Links)
    requires a in fwd && a in bwd
  {
    bwd[fwd[a] := bwd[a]]
  }

  /** `n->prev->next = n->next`. */
  function UnlinkFwd(fwd: Links, bwd: Links, a: int): (f: Links)
    requires a in fwd && a in bwd
  {
    fwd[bwd[a] := fwd[a]]
  }

  /** The forward links after inserting `n` behind `l`. */
  function LinkFwd(fwd: Links, l: int, n: int): (f: Links)
    requires l in fwd
  {
    fwd[n := fwd[l]][l := n]
  }

  /** The backward links after inserting `n` behind `l`. */
  function LinkBwd(fwd: Links, bwd: Links, l: int, n: int): (b: Links)
    requires l in fwd
  {
    bwd[n := l][fwd[l] := n]
  }

  function Without(r: seq<int>, k: int): (s: seq<int>)
    requires 0 <= k < |r|
  {
    r[..k] + r[k + 1..]
  }

  function With(r: seq<int>, k: int, n: int): (s: seq<int>)
    requires 0 <= k < |r|
  {
    r[..k + 1] + [n] + r[k + 1..]
  }

  /** Unlinking a node other than the first leaves the ring of the others. */
  lemma Unlinked(fwd: Links, bwd: Links, r: seq<int>, k: int)
    requires Linked(fwd, bwd, r) && 0 < k < |r|
    ensures r[k] in fwd && r[k] in bwd
    ensures Linked(UnlinkFwd(fwd, bwd, r[k]), UnlinkBwd(fwd, bwd, r[k]), Without(r, k))
  {
    assert FwdAt(fwd, r, k) && BwdAt(bwd, r, k);
    var s := Without(r, k);
    var f, b := UnlinkFwd(fwd, bwd, r[k]), UnlinkBwd(fwd, bwd, r[k]);
    forall i | 0 <= i < |s|
      ensures FwdAt(f, s, i) && BwdAt(b, s, i)
    {
      var j := if i < k then i else i + 1;
      assert FwdAt(fwd, r, j) && BwdAt(bwd, r, j);
    }
  }

  /** Inserting a new node behind node `k`. */
  lemma Inserted(fwd: Links, bwd: Links, r: seq<int>, k: int, n: int)
    requires Linked(fwd, bwd, r) && 0 <= k < |r| && n !in r
    ensures r[k] in fwd
    ensures Linked(LinkFwd(fwd, r[k], n), LinkBwd(fwd, bwd, r[k], n), With(r, k, n))
  {
    assert FwdAt(fwd, r, k);
    var s := With(r, k, n);
    var f, b := LinkFwd(fwd, r[k], n), LinkBwd(fwd, bwd, r[k], n);
    forall i | 0 <= i < |s|
      ensures FwdAt(f, s, i) && BwdAt(b, s, i)
    {
      if i != k + 1 {
        var j := if i <= k then i else i - 1;
        assert FwdAt(fwd, r, j) && BwdAt(bwd, r, j);
      }
    }
  }

  /** The links of one node. */
  lemma NodeAt(fwd: Links, bwd: Links, r: seq<int>, i: int)
    requires Linked(fwd, bwd, r) && 0 <= i < |r|
    ensures r[i] in fwd && fwd[r[i]] == r[if i + 1 < |r| then i + 1 else 0]
    ensures r[i] in bwd && bwd[r[i]] == r[if i > 0 then i - 1 else |r| - 1]
  {
    assert FwdAt(fwd, r, i) && BwdAt(bwd, r, i);
  }

  /** Where a node of the ring stands. */
  lemma IndexOf(r: seq<int>, a: int) returns (k: int)
    requires a in r
    ensures 0 <= k < |r| && r[k] == a
  {
    k :| 0 <= k < |r| && r[k] == a;
  }
}
