/**
 The lists of suspended threads of the IPC objects (`ipc.c`), in arrival or in priority order.
 */
module WaitList {
  import opened Sequences

  type Thread = nat

  /** Smaller numbers are more urgent. */
  type Priorities = Thread -> int

  datatype Order = Fifo | Prio

  /** Most urgent first. */
  ghost predicate ByUrgency(list: seq<Thread>, prio: Priorities) {
    forall i, j :: 0 <= i < j < |list| ==> prio(list[i]) <= prio(list[j])
  }

  /** How many threads at the front of the list are at least as urgent as `p`. */
  function Rank(list: seq<Thread>, prio: Priorities, p: int): (k: nat)
    ensures k <= |list| && (k < |list| ==> prio(list[k]) > p)
    ensures forall i :: 0 <= i < k ==> prio(list[i]) <= p
  {
    if list == [] || prio(list[0]) > p then 0 else 1 + Rank(list[1..], prio, p)
  }

  /** Where a newly suspended thread goes: to the end, or before the first less urgent thread. */
  function Slot(list: seq<Thread>, t: Thread, prio: Priorities, order: Order): (k: nat)
    ensures k <= |list|
  {
    match order
    case Fifo => |list|
    case Prio => Rank(list, prio, prio(t))
  }

  function Suspend(list: seq<Thread>, t: Thread, prio: Priorities, order: Order): (r: seq<Thread>)
    ensures forall x :: x in r <==> x in list || x == t
  {
    var k := Slot(list, t, prio, order);
    assert list == list[..k] + list[k..];
    list[..k] + [t] + list[k..]
  }

  lemma SuspendDistinct(list: seq<Thread>, t: Thread, prio: Priorities, order: Order)
    requires Distinct(list) && t !in list
    ensures Distinct(Suspend(list, t, prio, order))
  {
  }

  /** A list kept in priority order stays so. */
  lemma SuspendByUrgency(list: seq<Thread>, t: Thread, prio: Priorities)
    requires ByUrgency(list, prio)
    ensures ByUrgency(Suspend(list, t, prio, Prio), prio)
  {
    var k, r := Slot(list, t, prio, Prio), Suspend(list, t, prio, Prio);
    forall i, j | 0 <= i < j < |r|
      ensures prio(r[i]) <= prio(r[j])
    {
      if i < k { assert r[i] == list[i]; }
      if i > k { assert r[i] == list[i - 1]; }
      if j < k { assert r[j] == list[j]; }
      if j > k { assert r[j] == list[j - 1]; }
    }
  }

  /** The list without `t`. */
  function Remove(list: seq<Thread>, t: Thread): (r: seq<Thread>)
    ensures forall x :: x in r <==> x in list && x != t
  {
    if list == [] then []
    else if list[0] == t then Remove(list[1..], t)
    else [list[0]] + Remove(list[1..], t)
  }

  lemma {:induction false} RemoveDistinct(list: seq<Thread>, t: Thread)
    requires Distinct(list)
    ensures Distinct(Remove(list, t))
    ensures t !in list ==> Remove(list, t) == list
  {
    if list != [] {
      TailElems(list);
      RemoveDistinct(list[1..], t);
      assert list[0] !in Remove(list[1..], t);
    }
  }

  lemma TailElems(list: seq<Thread>)
    requires Distinct(list) && |list| > 0
    ensures Distinct(list[1..]) && forall x :: x in list[1..] <==> x in list && x != list[0]
  {
  }

  lemma ConsByUrgency(a: Thread, s: seq<Thread>, prio: Priorities)
    requires ByUrgency(s, prio) && forall x :: x in s ==> prio(a) <= prio(x)
    ensures ByUrgency([a] + s, prio)
  {
  }

  lemma TailByUrgency(list: seq<Thread>, prio: Priorities)
    requires ByUrgency(list, prio) && |list| > 0
    ensures ByUrgency(list[1..], prio) && forall x :: x in list[1..] ==> prio(list[0]) <= prio(x)
  {
  }

  lemma {:induction false} RemoveByUrgency(list: seq<Thread>, prio: Priorities, t: Thread)
    requires ByUrgency(list, prio)
    ensures ByUrgency(Remove(list, t), prio)
  {
    hide ByUrgency;
    if list != [] {
      TailByUrgency(list, prio);
      RemoveByUrgency(list[1..], prio, t);
      if list[0] != t {
        ConsByUrgency(list[0], Remove(list[1..], t), prio);
      }
    } else {
      NoneByUrgency(prio);
    }
  }

  lemma NoneByUrgency(prio: Priorities)
    ensures ByUrgency([], prio)
  {
  }

  lemma {:induction false} RankIsFirst(list: seq<Thread>, prio: Priorities, p: int, n: int)
    requires 0 <= n <= |list| && (n < |list| ==> prio(list[n]) > p) && forall i :: 0 <= i < n ==> prio(list[i]) <= p
    ensures Rank(list, prio, p) == n
  {
    var k := Rank(list, prio, p);
    assert n < |list| ==> !(n < k);
    assert k < |list| ==> !(k < n);
  }

  /** Where a suspended thread stands: last in arrival order, behind all that are as urgent in priority order. */
  lemma SuspendedWhere(list: seq<Thread>, t: Thread, prio: Priorities, order: Order)
    ensures order == Fifo ==> Suspend(list, t, prio, order) == list + [t]
    ensures order == Prio ==> exists k :: BehindEquals(list, prio, prio(t), k)
                                          && Suspend(list, t, prio, order) == list[..k] + [t] + list[k..]
  {
    if order == Fifo {
      assert list[..|list|] == list && list[|list|..] == [];
    } else {
      assert BehindEquals(list, prio, prio(t), Slot(list, t, prio, order));
    }
  }

  /** Place `k` is behind all threads that are as urgent as `p` and before a less urgent one. */
  ghost predicate BehindEquals(list: seq<Thread>, prio: Priorities, p: int, k: int) {
    && 0 <= k <= |list| && (forall i :: 0 <= i < k ==> prio(list[i]) <= p) && (k < |list| ==> prio(list[k]) > p)
  }

  /** Removing a thread leaves the others in their order. */
  lemma {:induction false} RemovedBetween(a: seq<Thread>, t: Thread, b: seq<Thread>)
    requires t !in a && t !in b
    ensures Remove(a + [t] + b, t) == a + b
  {
    if a == [] {
      assert a + [t] + b == [t] + b;
      RemoveAbsent(b, t);
    } else {
      assert (a + [t] + b)[1..] == a[1..] + [t] + b;
      RemovedBetween(a[1..], t, b);
      assert a + b == [a[0]] + (a[1..] + b);
    }
  }

  lemma {:induction false} RemoveAbsent(list: seq<Thread>, t: Thread)
    requires t !in list
    ensures Remove(list, t) == list
  {
    if list != [] { RemoveAbsent(list[1..], t); }
  }

  /** rt_ipc_list_suspend: walk the list to the place of `t`. */
  method Place(list: seq<Thread>, t: Thread, prio: Priorities, order: Order) returns (r: seq<Thread>)
    ensures r == Suspend(list, t, prio, order)
  {
    if order == Fifo {
      return list + [t];
    }
    var n := 0;
    while n < |list|
      invariant 0 <= n <= |list|
      invariant forall i :: 0 <= i < n ==> prio(list[i]) <= prio(t)
    {
      if prio(t) < prio(list[n]) {
        break;
      }
      n := n + 1;
    }
    RankIsFirst(list, prio, prio(t), n);
    r := list[..n] + [t] + list[n..];
  }
}
