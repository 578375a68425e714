/**
 The scheduler (`scheduler.c`, `thread.c`, `clock.c`): ready lists per priority with a bitmap of the
 non-empty ones in one or two levels, and round robin by time slices.
 */
module Scheduler {
  import opened ReadyBits
  import opened Sequences
  import opened WaitList

  datatype Stat = Init | Ready | Suspended

  type Lists = seq<seq<Thread>>
  type Stats = map<Thread, Stat>

  predicate IsReady(stat: Stats, t: Thread) { t in stat && stat[t] == Ready }

  // ----------------------------------------------------------------- bitmaps

  /** More than 32 priorities need a second level: a byte of eight priorities for each bit of the group. */
  predicate TwoLevels(max: int) { max > 32 }

  ghost predicate AnyBit(w: Word) { !NoneBelow(w, 32) }

  /** One level: a bit of the group for each non-empty list. */
  ghost predicate OneLevelBits(group: Word, lists: Lists) {
    && |lists| <= 32
    && (forall p :: 0 <= p < |lists| ==> (group[p] <==> lists[p] != []))
    && (forall p :: |lists| <= p < 32 ==> !group[p])
  }

  ghost predicate TableBits(table: seq<Word>, lists: Lists) {
    && |table| == 32 && |lists| <= 256
    && (forall p :: 0 <= p < |lists| ==> (table[p / 8][p % 8] <==> lists[p] != []))
    && (forall n, b :: 0 <= n < 32 && 0 <= b < 32 && table[n][b] ==> b < 8 && 8 * n + b < |lists|)
  }

  /** Two levels: a bit of a table byte for each non-empty list, a bit of the group for each non-zero byte. */
  ghost predicate TwoLevelBits(group: Word, table: seq<Word>, lists: Lists) {
    TableBits(table, lists) && forall n :: 0 <= n < 32 ==> (group[n] <==> AnyBit(table[n]))
  }

  ghost predicate Bits(group: Word, table: seq<Word>, lists: Lists) {
    if TwoLevels(|lists|) then TwoLevelBits(group, table, lists) else OneLevelBits(group, lists)
  }

  lemma EmptyBits(group: Word, table: seq<Word>, lists: Lists)
    requires |table| == 32 && |lists| <= 256 && NoneBelow(group, 32)
    requires forall n :: 0 <= n < 32 ==> NoneBelow(table[n], 32)
    requires forall p :: 0 <= p < |lists| ==> lists[p] == []
    ensures Bits(group, table, lists)
  {
  }

  /** What rt_schedule computes from the bitmaps. */
  function Highest(group: Word, table: seq<Word>, max: int): (p: int) {
    var n := Ffs(group) - 1;
    if TwoLevels(max) && 0 <= n < |table| then 8 * n + Ffs(table[n]) - 1 else n
  }

  ghost predicate FirstNonEmpty(lists: Lists, p: int) {
    0 <= p < |lists| && lists[p] != [] && forall q :: 0 <= q < p ==> lists[q] == []
  }

  /** The bitmaps lead to the lowest-numbered list that is not empty. */
  lemma HighestIsFirst(group: Word, table: seq<Word>, lists: Lists)
    requires Bits(group, table, lists) && exists p :: 0 <= p < |lists| && lists[p] != []
    ensures FirstNonEmpty(lists, Highest(group, table, |lists|))
  {
    var p :| 0 <= p < |lists| && lists[p] != [];
    FfsIsLowest(group);
    if TwoLevels(|lists|) {
      TwoLevelHighest(group, table, lists, p);
    } else {
      assert group[p];
    }
  }

  /** Priority `8 * n + b` is bit `b` of byte `n`. */
  lemma Split8(n: int, b: int)
    requires 0 <= b < 8
    ensures (8 * n + b) / 8 == n && (8 * n + b) % 8 == b
  {
  }

  lemma Before8(q: int, n: int, b: int)
    requires q < 8 * n + b && 0 <= b < 8
    ensures q / 8 < n || (q / 8 == n && q % 8 < b)
  {
  }

  lemma ListBit(table: seq<Word>, lists: Lists, n: int, b: int)
    requires TableBits(table, lists) && 0 <= n && 0 <= b < 8 && 8 * n + b < |lists|
    ensures n < 32 == |table| && (table[n][b] <==> lists[8 * n + b] != [])
  {
    Split8(n, b);
  }

  lemma TwoLevelHighest(group: Word, table: seq<Word>, lists: Lists, p: int)
    requires TwoLevelBits(group, table, lists) && 0 <= p < |lists| && lists[p] != []
    ensures var n := Ffs(group) - 1; 0 <= n < 32 && FirstNonEmpty(lists, 8 * n + Ffs(table[n]) - 1)
  {
    hide TableBits, Ffs;
    ListBit(table, lists, p / 8, p % 8);
    assert group[p / 8];
    FfsIsLowest(group);
    var n := Ffs(group) - 1;
    FfsIsLowest(table[n]);
    var b := Ffs(table[n]) - 1;
    BitInRange(table, lists, n, b);
    ListBit(table, lists, n, b);
    forall q | 0 <= q < 8 * n + b
      ensures lists[q] == []
    {
      ListBit(table, lists, q / 8, q % 8);
      Before8(q, n, b);
      assert q / 8 < n ==> !group[q / 8];
    }
  }

  lemma BitInRange(table: seq<Word>, lists: Lists, n: int, b: int)
    requires TableBits(table, lists) && 0 <= n < 32 && 0 <= b < 32 && table[n][b]
    ensures b < 8 && 8 * n + b < |lists|
  {
  }

  /** The masks of a thread of priority `p` are set. */
  function GroupWith(group: Word, max: int, p: int): (r: Word)
    requires 0 <= p < max <= 256
  {
    if TwoLevels(max) then group[p / 8 := true] else group[p := true]
  }

  function TableWith(table: seq<Word>, max: int, p: int, bit: bool): (r: seq<Word>)
    requires 0 <= p < max <= 256 && |table| == 32
  {
    if TwoLevels(max) then table[p / 8 := table[p / 8][p % 8 := bit]] else table
  }

  /** The group bit is cleared, with two levels only once the table byte is zero. */
  function GroupWithout(group: Word, table: seq<Word>, max: int, p: int): (r: Word)
    requires 0 <= p < max <= 256 && |table| == 32
  {
    if !TwoLevels(max) then group[p := false]
    else if Ffs(table[p / 8]) == 0 then group[p / 8 := false]
    else group
  }

  lemma BitsSet(group: Word, table: seq<Word>, lists: Lists, p: int, list: seq<Thread>)
    requires Bits(group, table, lists) && 0 <= p < |lists| <= 256 && |table| == 32 && list != []
    ensures Bits(GroupWith(group, |lists|, p), TableWith(table, |lists|, p, true), lists[p := list])
  {
    if TwoLevels(|lists|) {
      TableSet(table, lists, p, list, true);
      var table' := TableWith(table, |lists|, p, true);
      forall n | 0 <= n < 32
        ensures GroupWith(group, |lists|, p)[n] <==> AnyBit(table'[n])
      {
        if n == p / 8 {
          assert table'[n][p % 8];
        }
      }
    }
  }

  lemma TableSet(table: seq<Word>, lists: Lists, p: int, list: seq<Thread>, bit: bool)
    requires TableBits(table, lists) && 0 <= p < |lists| && (bit <==> list != [])
    ensures TableBits(table[p / 8 := table[p / 8][p % 8 := bit]], lists[p := list])
  {
    var w := table[p / 8][p % 8 := bit];
    var table', lists' := table[p / 8 := w], lists[p := list];
    forall q | 0 <= q < |lists'|
      ensures table'[q / 8][q % 8] <==> lists'[q] != []
    {
      if q != p {
        assert q / 8 == p / 8 ==> q % 8 != p % 8;
        assert table[q / 8][q % 8] <==> lists[q] != [];
      }
    }
  }

  lemma BitsCleared(group: Word, table: seq<Word>, lists: Lists, p: int)
    requires Bits(group, table, lists) && 0 <= p < |lists| <= 256 && |table| == 32
    ensures var table' := TableWith(table, |lists|, p, false);
      Bits(GroupWithout(group, table', |lists|, p), table', lists[p := []])
  {
    if TwoLevels(|lists|) {
      TableSet(table, lists, p, [], false);
      var table' := TableWith(table, |lists|, p, false);
      FfsIsLowest(table'[p / 8]);
      var group' := GroupWithout(group, table', |lists|, p);
      forall n | 0 <= n < 32
        ensures group'[n] <==> AnyBit(table'[n])
      {
        if n == p / 8 && AnyBit(table'[n]) {
          var b :| 0 <= b < 32 && table'[n][b];
          assert table[n][b];
        }
      }
    }
  }

  lemma BitsSame(group: Word, table: seq<Word>, lists: Lists, p: int, list: seq<Thread>)
    requires Bits(group, table, lists) && 0 <= p < |lists| && (list == [] <==> lists[p] == [])
    ensures Bits(group, table, lists[p := list])
  {
  }

  // ------------------------------------------------------------- ready lists

  /** The queued threads are each on the list of their priority, once, and on no other. */
  ghost predicate Placed(lists: Lists, queued: set<Thread>, prio: map<Thread, int>) {
    && (forall t :: t in queued ==> t in prio && 0 <= prio[t] < |lists| && t in lists[prio[t]])
    && (forall p, t :: 0 <= p < |lists| && t in lists[p] ==> t in queued && t in prio && prio[t] == p)
    && (forall p :: 0 <= p < |lists| ==> Distinct(lists[p]))
  }

  lemma Appended(lists: Lists, queued: set<Thread>, prio: map<Thread, int>, t: Thread)
    requires Placed(lists, queued, prio) && t !in queued && t in prio && 0 <= prio[t] < |lists|
    ensures Placed(lists[prio[t] := lists[prio[t]] + [t]], queued + {t}, prio)
  {
  }

  lemma Detached(lists: Lists, queued: set<Thread>, prio: map<Thread, int>, t: Thread)
    requires Placed(lists, queued, prio) && t in queued
    ensures Placed(lists[prio[t] := Remove(lists[prio[t]], t)], queued - {t}, prio)
  {
    RemoveDistinct(lists[prio[t]], t);
  }

  lemma OtherPriority(lists: Lists, queued: set<Thread>, prio: map<Thread, int>, t: Thread, p: int)
    requires Placed(lists, queued, prio) && t !in queued
    ensures Placed(lists, queued, prio[t := p])
  {
  }

  lemma Rotated(lists: Lists, queued: set<Thread>, prio: map<Thread, int>, t: Thread)
    requires Placed(lists, queued, prio) && t in queued
    ensures Placed(lists[prio[t] := Remove(lists[prio[t]], t) + [t]], queued, prio)
  {
    var p := prio[t];
    Detached(lists, queued, prio, t);
    var less := lists[p := Remove(lists[p], t)];
    Appended(less, queued - {t}, prio, t);
    assert less[p := less[p] + [t]] == lists[p := Remove(lists[p], t) + [t]];
    assert queued - {t} + {t} == queued;
  }

  /** `t` is the last thread of list `p` and on no other, and every list has its other threads in the order they had. */
  ghost predicate EndsOn(lists: Lists, lists': Lists, t: Thread, p: int) {
    && |lists'| == |lists| && 0 <= p < |lists'| && lists'[p] != [] && lists'[p][|lists'[p]| - 1] == t
    && (forall q :: 0 <= q < |lists| ==> Remove(lists'[q], t) == Remove(lists[q], t))
    && (forall q :: 0 <= q < |lists| && q != p ==> t !in lists'[q])
  }

  /** `t` is on no list, and every list has its other threads in the order they had. */
  ghost predicate OffAll(lists: Lists, lists': Lists, t: Thread) {
    |lists'| == |lists| && forall q :: 0 <= q < |lists| ==> lists'[q] == Remove(lists[q], t)
  }

  lemma DetachedOff(lists: Lists, queued: set<Thread>, prio: map<Thread, int>, t: Thread)
    requires Placed(lists, queued, prio) && t in queued
    ensures OffAll(lists, lists[prio[t] := Remove(lists[prio[t]], t)], t)
  {
    hide Remove;
    forall q | 0 <= q < |lists| && q != prio[t]
      ensures Remove(lists[q], t) == lists[q]
    {
      RemoveAbsent(lists[q], t);
    }
  }

  lemma AppendedEnds(lists: Lists, t: Thread, p: int)
    requires 0 <= p < |lists| && forall q :: 0 <= q < |lists| ==> t !in lists[q]
    ensures EndsOn(lists, lists[p := lists[p] + [t]], t, p)
  {
    hide Remove;
    RemoveAbsent(lists[p], t);
    assert lists[p] + [t] == lists[p] + [t] + [] && lists[p] + [] == lists[p];
    RemovedBetween(lists[p], t, []);
  }

  lemma UnlistedReady(lists: Lists, queued: set<Thread>, prio: map<Thread, int>, t: Thread)
    requires Placed(lists, queued, prio) && t !in queued
    ensures forall q :: 0 <= q < |lists| ==> t !in lists[q]
  {
  }

  lemma OffThenEnds(lists: Lists, mid: Lists, lists': Lists, t: Thread, p: int)
    requires OffAll(lists, mid, t) && EndsOn(mid, lists', t, p)
    ensures EndsOn(lists, lists', t, p)
  {
    hide Remove;
    forall q | 0 <= q < |lists|
      ensures Remove(lists'[q], t) == Remove(lists[q], t)
    {
      RemoveAbsent(mid[q], t);
    }
  }

  // ----------------------------------------------------------- suspend lists

  /** The suspend lists of all IPC objects. */
  type Waits = map<int, seq<Thread>>

  /** The listed threads are suspended, each on the one list that `at` says, once. */
  ghost predicate Waiting(waits: Waits, at: map<Thread, int>, stat: Stats) {
    && (forall t :: t in at ==> at[t] in waits && t in waits[at[t]] && t in stat && stat[t] == Suspended)
    && (forall id, t :: id in waits && t in waits[id] ==> t in at && at[t] == id)
    && (forall id :: id in waits ==> Distinct(waits[id]))
  }

  /** rt_list_remove of a thread's node, on whatever suspend list it is. */
  function Unlinked(waits: Waits, t: Thread): (r: Waits) {
    map id | id in waits :: Remove(waits[id], t)
  }

  /** Only the list the thread was on changes. */
  lemma UnlinkedIs(waits: Waits, at: map<Thread, int>, stat: Stats, t: Thread)
    requires Waiting(waits, at, stat)
    ensures t !in at ==> Unlinked(waits, t) == waits
    ensures t in at ==> at[t] in waits && Unlinked(waits, t) == waits[at[t] := Remove(waits[at[t]], t)]
  {
    hide Remove;
    forall id | id in waits && !(t in at && at[t] == id)
      ensures Remove(waits[id], t) == waits[id]
    {
      RemoveDistinct(waits[id], t);
    }
  }

  lemma WaitEnds(waits: Waits, at: map<Thread, int>, stat: Stats, t: Thread, to: Stat)
    requires Waiting(waits, at, stat)
    ensures Waiting(Unlinked(waits, t), at - {t}, stat[t := to])
  {
    hide Remove;
    var waits', at' := Unlinked(waits, t), at - {t};
    assert forall x :: x in at' <==> x in at && x != t;
    forall x | x in at'
      ensures at'[x] in waits' && x in waits'[at'[x]]
    {
      assert x in waits[at[x]] && x != t && waits'[at'[x]] == Remove(waits[at[x]], t);
    }
    forall id, x | id in waits' && x in waits'[id]
      ensures x in at' && at'[x] == id
    {
      assert x in waits[id] && x != t;
    }
    forall id | id in waits'
      ensures Distinct(waits'[id])
    {
      RemoveDistinct(waits[id], t);
    }
  }

  lemma WaitBegins(waits: Waits, at: map<Thread, int>, stat: Stats, t: Thread, id: int, prio: Priorities, order: Order)
    requires Waiting(waits, at, stat) && id in waits && t !in at && t in stat && stat[t] == Suspended
    ensures Waiting(waits[id := Suspend(waits[id], t, prio, order)], at[t := id], stat)
  {
    hide Suspend;
    assert t !in waits[id];
    SuspendDistinct(waits[id], t, prio, order);
  }

  /** A thread that is on no suspend list may change its state. */
  lemma WaitFrame(waits: Waits, at: map<Thread, int>, stat: Stats, t: Thread, to: Stat)
    requires Waiting(waits, at, stat) && t !in at
    ensures Waiting(waits, at, stat[t := to])
  {
  }

  lemma NotWaiting(waits: Waits, at: map<Thread, int>, stat: Stats, t: Thread)
    requires Waiting(waits, at, stat) && IsReady(stat, t)
    ensures forall x :: x in waits ==> t !in waits[x]
  {
  }

  lemma ReadyNotWaiting(waits: Waits, at: map<Thread, int>, stat: Stats, t: Thread)
    requires Waiting(waits, at, stat) && !(t in stat && stat[t] == Suspended)
    ensures t !in at
  {
  }

  /** The priorities as a function. */
  function Levels(prio: map<Thread, int>): (p: Priorities) {
    (t: Thread) => if t in prio then prio[t] else 0
  }

  // --------------------------------------------------- what a step does

  datatype State = State(lists: Lists, waits: Waits, stat: Stats, prio: map<Thread, int>, current: Thread)

  /** The steps of a run. */
  datatype Act =
    | Suspending(t: Thread)
    | SuspendingOn(t: Thread, id: int, order: Order)
    | Resuming(t: Thread)
    | TimingOut(t: Thread)
    | Starting(t: Thread, p: int)
    | Changing(t: Thread, p: int)
    | Yielding
    | Scheduling

  predicate Listable(s: State, t: Thread) { t in s.prio && 0 <= s.prio[t] < |s.lists| }

  ghost function Leave(s: State, t: Thread): (r: State)
    requires Listable(s, t)
  {
    s.(lists := s.lists[s.prio[t] := Remove(s.lists[s.prio[t]], t)])
  }

  ghost function Join(s: State, t: Thread): (r: State)
    requires Listable(s, t)
  {
    s.(lists := s.lists[s.prio[t] := s.lists[s.prio[t]] + [t]])
  }

  ghost function SuspendMove(s: State, t: Thread): (r: State) {
    if IsReady(s.stat, t) && Listable(s, t) then Leave(s, t).(stat := s.stat[t := Suspended]) else s
  }

  ghost function SuspendOnMove(s: State, t: Thread, id: int, order: Order): (r: State) {
    if IsReady(s.stat, t) && Listable(s, t) && id in s.waits then
      SuspendMove(s, t).(waits := s.waits[id := Suspend(s.waits[id], t, Levels(s.prio), order)])
    else s
  }

  ghost function ResumeMove(s: State, t: Thread): (r: State) {
    if t in s.stat && s.stat[t] == Suspended && Listable(s, t) then
      Join(s, t).(stat := s.stat[t := Ready], waits := Unlinked(s.waits, t))
    else s
  }

  ghost function StartMove(s: State, t: Thread, p: int): (r: State) {
    if t in s.stat && s.stat[t] == Init && 0 <= p < |s.lists| then
      Join(s.(prio := s.prio[t := p]), t).(stat := s.stat[t := Ready])
    else s
  }

  ghost function ChangeMove(s: State, t: Thread, p: int): (r: State) {
    if !(0 <= p < |s.lists|) then s
    else if IsReady(s.stat, t) && Listable(s, t) then Join(Leave(s, t).(prio := s.prio[t := p]), t)
    else s.(prio := s.prio[t := p])
  }

  /** The first thread of the lowest-numbered non-empty list from `p` on, or else `t`. */
  ghost function Lead(lists: Lists, p: nat, t: Thread): (r: Thread)
    requires p <= |lists|
    decreases |lists| - p
  {
    if p == |lists| then t else if lists[p] != [] then lists[p][0] else Lead(lists, p + 1, t)
  }

  lemma {:induction false} LeadIsFirst(lists: Lists, h: nat, p: nat, t: Thread)
    requires FirstNonEmpty(lists, h) && p <= h
    ensures Lead(lists, p, t) == lists[h][0]
    decreases h - p
  {
    if p < h { LeadIsFirst(lists, h, p + 1, t); }
  }

  lemma {:induction false} NoLead(lists: Lists, p: nat, t: Thread)
    requires p <= |lists| && forall q :: p <= q < |lists| ==> lists[q] == []
    ensures Lead(lists, p, t) == t
    decreases |lists| - p
  {
    if p < |lists| { NoLead(lists, p + 1, t); }
  }

  ghost function ScheduleMove(s: State, locked: bool): (r: State) {
    if locked then s else s.(current := Lead(s.lists, 0, s.current))
  }

  ghost function YieldMove(s: State, locked: bool): (r: State) {
    var t := s.current;
    if IsReady(s.stat, t) && Listable(s, t) && s.lists[s.prio[t]] != [t] then ScheduleMove(Join(Leave(s, t), t), locked)
      else s
  }

  /** The one thing a step does; a step the thread cannot take does nothing. */
  ghost function Next(s: State, act: Act, locked: bool): (r: State) {
    match act
    case Suspending(t) => SuspendMove(s, t)
    case SuspendingOn(t, id, order) => SuspendOnMove(s, t, id, order)
    case Resuming(t) => ResumeMove(s, t)
    case TimingOut(t) => ResumeMove(s, t)
    case Starting(t, p) => StartMove(s, t, p)
    case Changing(t, p) => ChangeMove(s, t, p)
    case Yielding => YieldMove(s, locked)
    case Scheduling => ScheduleMove(s, locked)
  }

  ghost function Traced(s: State, acts: seq<Act>, locked: bool): (r: State) {
    if acts == [] then s else Next(Traced(s, acts[..|acts| - 1], locked), acts[|acts| - 1], locked)
  }

  // ------------------------------------------------------- steps in a row

  /** What every reachable state keeps, with the ready threads and the suspend list of each. */
  ghost predicate Kept(s: State, queued: set<Thread>, at: map<Thread, int>) {
    && Placed(s.lists, queued, s.prio) && (forall t :: t in queued <==> IsReady(s.stat, t))
    && Waiting(s.waits, at, s.stat)
  }

  /**
   However a ready thread is suspended and resumed: in between it is on no ready list, and afterwards it is ready
   again, last of its priority, with all suspend lists, priorities and other threads as they were.
   */
  lemma ResumeUndoesSuspend(s: State, t: Thread, how: Act, back: Act, locked: bool, queued: set<Thread>,
                            at: map<Thread, int>)
    requires Kept(s, queued, at) && t in queued
    requires how == Suspending(t) || (how.SuspendingOn? && how.t == t && how.id in s.waits)
    requires back == Resuming(t) || back == TimingOut(t)
    ensures var mid := Next(s, how, locked); var r := Next(mid, back, locked);
      && OffAll(s.lists, mid.lists, t) && mid.stat == s.stat[t := Suspended]
      && (how.SuspendingOn? ==> how.id in mid.waits && t in mid.waits[how.id])
      && Listable(s, t) && EndsOn(s.lists, r.lists, t, s.prio[t]) && r.stat == s.stat[t := Ready]
      && r.waits == s.waits && r.prio == s.prio && r.current == s.current
  {
    hide Remove, Suspend, EndsOn, OffAll, Placed, Waiting;
    ReadyListed(s.lists, queued, s.prio, t);
    NotWaiting(s.waits, at, s.stat, t);
    DetachedOff(s.lists, queued, s.prio, t);
    var mid := Next(s, how, locked);
    var r := Next(mid, back, locked);
    OffMeansNone(s.lists, mid.lists, t);
    AppendedEnds(mid.lists, t, s.prio[t]);
    OffThenEnds(s.lists, mid.lists, r.lists, t, s.prio[t]);
    if how.SuspendingOn? {
      UnlinkedSuspend(s.waits, t, how.id, Levels(s.prio), how.order);
    } else {
      UnlinkedAbsent(s.waits, t);
    }
  }

  lemma OffMeansNone(lists: Lists, lists': Lists, t: Thread)
    requires OffAll(lists, lists', t)
    ensures forall q :: 0 <= q < |lists'| ==> t !in lists'[q]
  {
    hide Remove;
  }

  lemma UnlinkedAbsent(waits: Waits, t: Thread)
    requires forall id :: id in waits ==> t !in waits[id]
    ensures Unlinked(waits, t) == waits
  {
    hide Remove;
    forall id | id in waits
      ensures Remove(waits[id], t) == waits[id]
    {
      RemoveAbsent(waits[id], t);
    }
  }

  lemma UnlinkedSuspend(waits: Waits, t: Thread, id: int, prio: Priorities, order: Order)
    requires id in waits && forall x :: x in waits ==> t !in waits[x]
    ensures Unlinked(waits[id := Suspend(waits[id], t, prio, order)], t) == waits
  {
    var k := Slot(waits[id], t, prio, order);
    assert waits[id] == waits[id][..k] + waits[id][k..];
    RemovedBetween(waits[id][..k], t, waits[id][k..]);
    hide Remove, Suspend;
    forall x | x in waits && x != id
      ensures Remove(waits[x], t) == waits[x]
    {
      RemoveAbsent(waits[x], t);
    }
  }

  /** A ready thread made more urgent than all others runs at the next switch, unless the scheduler is locked. */
  lemma ChangedRuns(s: State, t: Thread, p: int, locked: bool, queued: set<Thread>, at: map<Thread, int>)
    requires Kept(s, queued, at) && t in queued && 0 <= p < |s.lists|
    requires forall q :: 0 <= q <= p ==> Remove(s.lists[q], t) == []
    ensures var r := Next(Next(s, Changing(t, p), locked), Scheduling, locked);
      r.current == (if locked then s.current else t) && EndsOn(s.lists, r.lists, t, p) && r.prio == s.prio[t := p]
  {
    hide Remove, Placed, Waiting, Lead, EndsOn, OffAll;
    ReadyListed(s.lists, queued, s.prio, t);
    DetachedOff(s.lists, queued, s.prio, t);
    var mid := s.lists[s.prio[t] := Remove(s.lists[s.prio[t]], t)];
    OffMeansNone(s.lists, mid, t);
    AppendedEnds(mid, t, p);
    OffThenEnds(s.lists, mid, mid[p := mid[p] + [t]], t, p);
    NoneBefore(s.lists, mid, t, p);
    LeadIsFirst(mid[p := mid[p] + [t]], p, 0, s.current);
  }

  lemma NoneBefore(lists: Lists, mid: Lists, t: Thread, p: int)
    requires OffAll(lists, mid, t) && 0 <= p < |lists| && forall q :: 0 <= q <= p ==> Remove(lists[q], t) == []
    ensures FirstNonEmpty(mid[p := mid[p] + [t]], p) && mid[p] + [t] == [t]
  {
    hide Remove;
  }

  /** So does a thread started at a priority above all others. */
  lemma StartedRuns(s: State, t: Thread, p: int, locked: bool)
    requires t in s.stat && s.stat[t] == Init && 0 <= p < |s.lists| && forall q :: 0 <= q <= p ==> s.lists[q] == []
    ensures var r := Next(Next(s, Starting(t, p), locked), Scheduling, locked);
      && r.current == (if locked then s.current else t) && r.lists == s.lists[p := [t]]
      && r.prio == s.prio[t := p] && r.stat == s.stat[t := Ready]
  {
    hide Lead;
    assert s.lists[p] + [t] == [t];
    LeadIsFirst(s.lists[p := [t]], p, 0, s.current);
  }

  /** The running thread yields to the next of its priority and goes behind them all. */
  lemma YieldGoesOn(s: State, p: int, queued: set<Thread>, at: map<Thread, int>)
    requires Kept(s, queued, at) && FirstNonEmpty(s.lists, p) && |s.lists[p]| >= 2 && s.current == s.lists[p][0]
    ensures var r := Next(s, Yielding, false);
      r.current == s.lists[p][1] && r.lists == s.lists[p := s.lists[p][1..] + [s.current]]
  {
    hide Remove, Placed, Waiting, Lead;
    var q := s.lists[p];
    ListFacts(s.lists, queued, s.prio, p);
    RemoveFirst(q);
    var turned := s.lists[p := q[1..] + [q[0]]];
    assert Listable(s, s.current) && IsReady(s.stat, s.current) && q != [q[0]];
    assert Join(Leave(s, s.current), s.current).lists == turned;
    assert FirstNonEmpty(turned, p);
    LeadIsFirst(turned, p, 0, s.current);
  }

  /** A list a thread's node can be on. */
  datatype Spot = ReadyList(p: int) | WaitList(id: int)

  ghost predicate On(s: State, t: Thread, x: Spot) {
    match x
    case ReadyList(p) => 0 <= p < |s.lists| && t in s.lists[p]
    case WaitList(id) => id in s.waits && t in s.waits[id]
  }

  class Kernel {
    var lists: Lists
    var waits: Waits
    var group: Word
    var table: seq<Word>
    var stat: Stats
    var prio: map<Thread, int>
    var remaining: Slices
    var current: Thread
    var lockNest: int
    /** init_tick of every thread. */
    const slice: Slices

    ghost var queued: set<Thread>
    /** The suspend list each thread is on, if any. */
    ghost var at: map<Thread, int>

    ghost predicate Valid()
      reads this
    {
      && 1 <= |lists| <= 256 && |table| == 32 && Bits(group, table, lists) && Placed(lists, queued, prio)
      && (forall t :: t in queued <==> IsReady(stat, t)) && Waiting(waits, at, stat)
    }

    ghost function Now(): (s: State)
      reads this`lists, this`waits, this`stat, this`prio, this`current
    {
      State(lists, waits, stat, prio, current)
    }

    /** Every thread is on at most one of all ready and suspend lists, and there at most once. */
    lemma OnOneList(t: Thread, x: Spot, y: Spot)
      requires Valid() && On(Now(), t, x) && On(Now(), t, y)
      ensures x == y
      ensures Distinct(if x.ReadyList? then lists[x.p] else waits[x.id])
      ensures x.ReadyList? <==> IsReady(stat, t)
    {
      hide Bits;
    }

    /** rt_system_scheduler_init. */
    constructor (max: int, slices: Slices, ids: set<int>, threads: set<Thread>)
      requires 1 <= max <= 256
      ensures Valid() && |lists| == max && queued == {} && slice == slices && remaining == slices && lockNest == 0
      ensures waits.Keys == ids && stat == map t | t in threads :: Init
    {
      lists := seq(max, p => []);
      group := seq(32, i => false);
      table := seq(32, i => seq(32, j => false));
      stat, prio, remaining, current, lockNest, slice, queued := map t | t in threads ::
        Init, map[], slices, 0, 0, slices, {};
      waits, at := map id | id in ids :: [], map[];
      new;
      hide Bits;
      EmptyBits(group, table, lists);
    }

    /** rt_schedule_insert_thread, but for the change of state. */
    method Append(t: Thread)
      requires 1 <= |lists| <= 256 && |table| == 32 && Bits(group, table, lists) && Placed(lists, queued, prio)
      requires t !in queued && t in prio && 0 <= prio[t] < |lists|
      modifies this`lists, this`group, this`table, this`queued
      ensures |table| == 32 && Bits(group, table, lists) && Placed(lists, queued, prio) && queued == old(queued) + {t}
      ensures lists == old(lists)[prio[t] := old(lists)[prio[t]] + [t]]
    {
      hide Bits, Placed;
      var p := prio[t];
      Appended(lists, queued, prio, t);
      BitsSet(group, table, lists, p, lists[p] + [t]);
      table := TableWith(table, |lists|, p, true);
      group := GroupWith(group, |lists|, p);
      lists := lists[p := lists[p] + [t]];
      queued := queued + {t};
    }

    /** rt_schedule_remove_thread. */
    method Detach(t: Thread)
      requires 1 <= |lists| <= 256 && |table| == 32 && Bits(group, table, lists) && Placed(lists, queued, prio)
        && t in queued
      modifies this`lists, this`group, this`table, this`queued
      ensures |table| == 32 && Bits(group, table, lists) && Placed(lists, queued, prio) && queued == old(queued) - {t}
      ensures t in prio && 0 <= prio[t] < |lists| == |old(lists)|
        && lists == old(lists)[prio[t] := Remove(old(lists)[prio[t]], t)]
    {
      hide Bits, Remove;
      var p := prio[t];
      Detached(lists, queued, prio, t);
      var rest := Remove(lists[p], t);
      if rest == [] {
        BitsCleared(group, table, lists, p);
        table := TableWith(table, |lists|, p, false);
        group := GroupWithout(group, table, |lists|, p);
      } else {
        assert lists[p] != [] by { assert rest[0] in rest; }
        BitsSame(group, table, lists, p, rest);
      }
      lists := lists[p := rest];
      queued := queued - {t};
    }

    /** rt_thread_suspend: whether the thread was ready. */
    method SuspendThread(t: Thread) returns (ok: bool)
      requires Valid()
      modifies this`lists, this`group, this`table, this`queued, this`waits, this`at, this`stat, this`prio
      ensures Valid() && ok == old(IsReady(stat, t)) && Now() == SuspendMove(old(Now()), t)
      ensures ok ==> queued == old(queued) - {t} && at == old(at) && t !in at && stat == old(stat)[t := Suspended]
      ensures ok ==> OffAll(old(lists), lists, t)
      ensures !ok ==> unchanged(this)
      ensures waits == old(waits) && prio == old(prio)
    {
      hide Bits, Placed, Remove, Waiting, OffAll;
      if !IsReady(stat, t) {
        return false;
      }
      ReadyNotWaiting(waits, at, stat, t);
      WaitFrame(waits, at, stat, t, Suspended);
      ReadyListed(lists, queued, prio, t);
      DetachedOff(lists, queued, prio, t);
      stat := stat[t := Suspended];
      Detach(t);
      return true;
    }

    /** rt_ipc_list_suspend of a ready thread. */
    method SuspendOn(t: Thread, id: int, order: Order)
      requires Valid() && IsReady(stat, t) && id in waits
      modifies this`lists, this`group, this`table, this`queued, this`waits, this`at, this`stat, this`prio
      ensures Valid() && Now() == SuspendOnMove(old(Now()), t, id, order)
      ensures stat == old(stat)[t := Suspended] && prio == old(prio) && OffAll(old(lists), lists, t)
      ensures waits == old(waits)[id := Suspend(old(waits)[id], t, Levels(prio), order)]
      ensures forall x :: x in waits && t in waits[x] ==> x == id
    {
      hide Bits, Placed, Remove, Waiting, Suspend, OffAll;
      NotWaiting(waits, at, stat, t);
      ReadyListed(lists, queued, prio, t);
      var _ := SuspendThread(t);
      WaitBegins(waits, at, stat, t, id, Levels(prio), order);
      var list := Place(waits[id], t, Levels(prio), order);
      waits := waits[id := list];
      at := at[t := id];
    }

    /** rt_thread_resume: the thread leaves its suspend list and becomes ready at the end of its ready list. */
    method ResumeThread(t: Thread) returns (ok: bool)
      requires Valid() && t in prio && 0 <= prio[t] < |lists|
      modifies this`lists, this`group, this`table, this`queued, this`waits, this`at, this`stat, this`prio
      ensures Valid() && ok == (t in old(stat) && old(stat)[t] == Suspended) && Now() == ResumeMove(old(Now()), t)
      ensures !ok ==> unchanged(this)
      ensures ok ==> queued == old(queued) + {t} && forall id :: id in waits ==> t !in waits[id]
      ensures ok ==> EndsOn(old(lists), lists, t, prio[t]) && stat == old(stat)[t := Ready] && prio == old(prio)
      ensures ok ==>
        waits.Keys == old(waits).Keys && forall id :: id in waits ==> waits[id] == Remove(old(waits)[id], t)
    {
      hide Bits, Placed, Waiting, EndsOn, Remove;
      if t !in stat || stat[t] != Suspended {
        return false;
      }
      UnlistedReady(lists, queued, prio, t);
      AppendedEnds(lists, t, prio[t]);
      WaitEnds(waits, at, stat, t, Ready);
      waits := Unlinked(waits, t);
      at := at - {t};
      stat := stat[t := Ready];
      Append(t);
      return true;
    }

    /** rt_thread_timeout, up to the scheduling. */
    method TimeoutThread(t: Thread)
      requires Valid() && t in stat && stat[t] == Suspended && t in prio && 0 <= prio[t] < |lists|
      modifies this`lists, this`group, this`table, this`queued, this`waits, this`at, this`stat, this`prio
      ensures Valid() && Now() == ResumeMove(old(Now()), t) && forall id :: id in waits ==> t !in waits[id]
      ensures EndsOn(old(lists), lists, t, prio[t]) && stat == old(stat)[t := Ready] && prio == old(prio)
      ensures waits.Keys == old(waits).Keys && forall id :: id in waits ==> waits[id] == Remove(old(waits)[id], t)
    {
      hide Bits, Placed, Waiting, EndsOn, Remove;
      UnlistedReady(lists, queued, prio, t);
      AppendedEnds(lists, t, prio[t]);
      WaitEnds(waits, at, stat, t, Ready);
      waits := Unlinked(waits, t);
      at := at - {t};
      stat := stat[t := Ready];
      Append(t);
    }

    /** rt_thread_startup. */
    method Startup(t: Thread, p: int)
      requires Valid() && t in stat && stat[t] == Init && 0 <= p < |lists|
      modifies this`lists, this`group, this`table, this`queued, this`waits, this`at, this`stat, this`prio
      ensures Valid() && Now() == StartMove(old(Now()), t, p)
      ensures prio == old(prio)[t := p] && stat == old(stat)[t := Ready] && waits == old(waits)
      ensures EndsOn(old(lists), lists, t, p)
    {
      hide Bits, Placed, Waiting, EndsOn, Remove;
      OtherPriority(lists, queued, prio, t, p);
      ReadyNotWaiting(waits, at, stat, t);
      WaitFrame(waits, at, stat, t, Suspended);
      UnlinkedIs(waits, at, stat[t := Suspended], t);
      prio := prio[t := p];
      stat := stat[t := Suspended];
      var _ := ResumeThread(t);
      assert stat == old(stat)[t := Ready];
    }

    /** rt_thread_control with RT_THREAD_CTRL_CHANGE_PRIORITY. */
    method ChangePriority(t: Thread, p: int)
      requires Valid() && 0 <= p < |lists|
      modifies this`lists, this`group, this`table, this`queued, this`waits, this`at, this`stat, this`prio
      ensures Valid() && Now() == ChangeMove(old(Now()), t, p) && queued == old(queued)
      ensures prio == old(prio)[t := p] && stat == old(stat) && waits == old(waits)
      ensures if IsReady(stat, t) then EndsOn(old(lists), lists, t, p) else lists == old(lists)
    {
      hide Bits, Placed, Remove, Waiting, EndsOn, OffAll;
      if IsReady(stat, t) {
        ReadyListed(lists, queued, prio, t);
        DetachedOff(lists, queued, prio, t);
        Detach(t);
        ghost var mid := lists;
        UnlistedReady(lists, queued, prio, t);
        AppendedEnds(lists, t, p);
        OtherPriority(lists, queued, prio, t, p);
        prio := prio[t := p];
        Append(t);
        OffThenEnds(old(lists), mid, lists, t, p);
      } else {
        OtherPriority(lists, queued, prio, t, p);
        prio := prio[t := p];
      }
    }

    /** rt_schedule. */
    method Schedule()
      requires Valid() && exists t :: t in queued
      modifies this`current
      ensures Now() == ScheduleMove(old(Now()), lockNest != 0)
      ensures lockNest == 0 ==>
        current in queued && FirstNonEmpty(lists, prio[current]) && current == lists[prio[current]][0]
    {
      hide Bits, Placed, IsReady, Highest, Waiting;
      if lockNest == 0 {
        ghost var t :| t in queued;
        SomeList(lists, queued, prio, t);
        HighestIsFirst(group, table, lists);
        var h := Highest(group, table, |lists|);
        ListFacts(lists, queued, prio, h);
        LeadIsFirst(lists, h, 0, current);
        var to := lists[h][0];
        if to != current {
          current := to;
        }
      }
    }

    /** rt_thread_yield. */
    method Yield()
      requires Valid() && exists t :: t in queued
      modifies this`lists, this`current
      ensures Valid() && Now() == YieldMove(old(Now()), lockNest != 0)
      ensures var t := old(current);
        if IsReady(stat, t) && old(lists)[prio[t]] != [t] then
          && lists == old(lists)[prio[t] := Remove(old(lists)[prio[t]], t) + [t]]
          && (lockNest == 0 ==>
            current in queued && FirstNonEmpty(lists, prio[current]) && current == lists[prio[current]][0])
        else unchanged(this)
    {
      hide Bits, Remove, FirstNonEmpty, Waiting, Lead;
      var t := current;
      if IsReady(stat, t) && lists[prio[t]] != [t] {
        Rotated(lists, queued, prio, t);
        BitsSame(group, table, lists, prio[t], Remove(lists[prio[t]], t) + [t]);
        lists := lists[prio[t] := Remove(lists[prio[t]], t) + [t]];
        assert Now() == Join(Leave(old(Now()), t), t) by {
          assert lists == Join(Leave(old(Now()), t), t).lists;
        }
        Schedule();
      }
    }

    /** A step of a run; one that cannot be taken is skipped, as is a switch with no thread ready. */
    method Step(act: Act)
      requires Valid()
      modifies this
      ensures Valid() && lockNest == old(lockNest) && Now() == Next(old(Now()), act, lockNest != 0)
    {
      hide Bits, Placed, Waiting, Remove, Suspend, Lead, FirstNonEmpty, Unlinked;
      match act
      case Suspending(t) =>
        if t in queued { ReadyListed(lists, queued, prio, t); }
        var _ := SuspendThread(t);
      case SuspendingOn(t, id, order) =>
        if IsReady(stat, t) && id in waits {
          SuspendOn(t, id, order);
        }
      case Resuming(t) =>
        if t in prio && 0 <= prio[t] < |lists| {
          var _ := ResumeThread(t);
        }
      case TimingOut(t) =>
        if t in stat && stat[t] == Suspended && t in prio && 0 <= prio[t] < |lists| {
          TimeoutThread(t);
        }
      case Starting(t, p) =>
        if t in stat && stat[t] == Init && 0 <= p < |lists| {
          Startup(t, p);
        }
      case Changing(t, p) =>
        if 0 <= p < |lists| {
          ChangePriority(t, p);
        }
      case Yielding =>
        SwitchOrNot();
        if exists p | 0 <= p < |lists| :: lists[p] != [] {
          Yield();
        }
      case Scheduling =>
        SwitchOrNot();
        if exists p | 0 <= p < |lists| :: lists[p] != [] {
          Schedule();
        }
    }

    /** Whether there is a thread to switch to. */
    lemma SwitchOrNot()
      requires Valid()
      ensures (exists p :: 0 <= p < |lists| && lists[p] != []) ==> exists t :: t in queued
      ensures !(exists p :: 0 <= p < |lists| && lists[p] != []) ==>
        Lead(lists, 0, current) == current && !IsReady(stat, current)
    {
      hide Bits, Waiting;
      if exists p :: 0 <= p < |lists| && lists[p] != [] {
        var p :| 0 <= p < |lists| && lists[p] != [];
        ListFacts(lists, queued, prio, p);
      } else {
        NoLead(lists, 0, current);
      }
    }

    /** Any interleaving of the steps is the specified run, and keeps every thread on one list at most. */
    method Run(acts: seq<Act>)
      requires Valid()
      modifies this
      ensures Valid() && Now() == Traced(old(Now()), acts, lockNest != 0)
      ensures forall t, x, y :: On(Now(), t, x) && On(Now(), t, y) ==> x == y
    {
      hide Bits, Placed, Waiting, Next, On;
      ghost var start := Now();
      for i := 0 to |acts|
        invariant Valid() && lockNest == old(lockNest) && Now() == Traced(start, acts[..i], lockNest != 0)
      {
        assert acts[..i + 1][..i] == acts[..i];
        Step(acts[i]);
      }
      assert acts[..|acts|] == acts;
      forall t, x, y | On(Now(), t, x) && On(Now(), t, y)
        ensures x == y
      {
        OnOneList(t, x, y);
      }
    }

    /**
     The most urgent ready threads are those of priority `p`, the first of them is running, and no thread is
     without ticks.
     */
    ghost predicate Robin(p: int)
      reads this
    {
      && Valid() && lockNest == 0 && FirstNonEmpty(lists, p) && current == lists[p][0]
      && Sliced(lists[p], remaining, slice)
    }

    /** At the end of its slice the running thread goes behind the others of its priority. */
    method EndSlice(ghost p: int)
      requires Robin(p)
      modifies this`lists, this`current
      ensures Robin(p) && lists == old(lists)[p := old(lists)[p][1..] + [old(lists)[p][0]]]
    {
      hide Bits, Remove, IsReady, Waiting, Placed, FirstNonEmpty, Sliced, YieldMove;
      FirstList(lists, p);
      ghost var q := lists[p];
      ListFacts(lists, queued, prio, p);
      RemoveFirst(q);
      TurnedOver(lists, remaining, slice, p);
      Yield();
      if q != [q[0]] {
        ReadyListed(lists, queued, prio, current);
        OneFirst(lists, p, prio[current]);
      }
    }

    /** The time slice part of rt_tick_increase. */
    method Tick(ghost p: int)
      requires Robin(p)
      modifies this`remaining, this`lists, this`current
      ensures Robin(p) && (lists[p], remaining) == TickStep(old(lists)[p], old(remaining), slice)
      ensures lists == old(lists)[p := lists[p]]
    {
      hide Bits, Placed, IsReady, Waiting;
      assert current in lists[p];
      assert lists[p := lists[p]] == lists;
      remaining := remaining[current := remaining[current] - 1];
      if remaining[current] == 0 {
        assert remaining[current := slice[current]] == old(remaining)[current := slice[current]];
        remaining := remaining[current := slice[current]];
        EndSlice(p);
      }
    }

    /** Ticks go by; the running thread is the first of the rotated list. */
    method RunTicks(n: nat, ghost p: int)
      requires Robin(p)
      modifies this`remaining, this`lists, this`current
      ensures Robin(p) && (lists[p], remaining) == Ticks(old(lists)[p], old(remaining), slice, n)
    {
      hide Bits, TickStep, Waiting;
      var i := 0;
      while i < n
        invariant 0 <= i <= n && Robin(p) && (lists[p], remaining) == Ticks(old(lists)[p], old(remaining), slice, i)
      {
        TicksAdd(old(lists)[p], old(remaining), slice, i, 1);
        OneTick(lists[p], remaining, slice);
        Tick(p);
        i := i + 1;
      }
    }

    /** Each of the most urgent threads runs after no more ticks than the slices of the others together. */
    method UntilTurn(k: nat, ghost p: int) returns (n: nat)
      requires Robin(p) && k < |lists[p]| && p == prio[current]
      modifies this`remaining, this`lists, this`current
      ensures Robin(p) && current == old(lists)[p][k] && n <= OtherSlices(old(lists)[p], slice, k)
      ensures (lists[p], remaining) == Ticks(old(lists)[p], old(remaining), slice, n)
    {
      hide Bits, Ticks, Waiting;
      var q := lists[prio[current]];
      BoundedWait(q, remaining, slice, k);
      TurnComes(q, remaining, slice, k);
      n := SumBefore(q, remaining, k);
      RunTicks(n, p);
    }
  }

  // ------------------------------------------------------------- round robin

  lemma ReadyListed(lists: Lists, queued: set<Thread>, prio: map<Thread, int>, t: Thread)
    requires Placed(lists, queued, prio) && t in queued
    ensures t in prio && 0 <= prio[t] < |lists|
  {
  }

  lemma SomeList(lists: Lists, queued: set<Thread>, prio: map<Thread, int>, t: Thread)
    requires Placed(lists, queued, prio) && t in queued
    ensures exists p :: 0 <= p < |lists| && lists[p] != []
  {
    assert t in lists[prio[t]];
  }

  lemma ListFacts(lists: Lists, queued: set<Thread>, prio: map<Thread, int>, p: int)
    requires Placed(lists, queued, prio) && 0 <= p < |lists| && lists[p] != []
    ensures Distinct(lists[p]) && lists[p][0] in queued && lists[p][0] in prio && prio[lists[p][0]] == p
  {
    assert lists[p][0] in lists[p];
  }

  lemma FirstList(lists: Lists, p: int)
    requires FirstNonEmpty(lists, p)
    ensures 0 <= p < |lists| && lists[p] != []
  {
  }

  lemma OneFirst(lists: Lists, p: int, q: int)
    requires FirstNonEmpty(lists, p) && FirstNonEmpty(lists, q)
    ensures p == q
  {
  }

  /** The first list is still the first when its first thread has gone to its end. */
  lemma TurnedOver(lists: Lists, rem: Slices, slice: Slices, p: int)
    requires FirstNonEmpty(lists, p) && Sliced(lists[p], rem, slice)
    ensures var q := lists[p][1..] + [lists[p][0]];
      && FirstNonEmpty(lists[p := q], p) && Sliced(q, rem, slice)
      && (lists[p] == [lists[p][0]] ==> lists[p := q] == lists)
  {
    var q := lists[p];
    TailElems(q);
    if q == [q[0]] {
      assert q[1..] + [q[0]] == q;
    }
  }

  lemma RemoveFirst(q: seq<Thread>)
    requires q != [] && Distinct(q)
    ensures Remove(q, q[0]) == q[1..]
  {
    TailElems(q);
    RemoveDistinct(q[1..], q[0]);
  }

  type Slices = map<Thread, int>

  /** The threads of a list all have some of their slice left. */
  ghost predicate Sliced(q: seq<Thread>, rem: Slices, slice: Slices) {
    Distinct(q) && forall t :: t in q ==> t in rem && t in slice && 1 <= rem[t] <= slice[t]
  }

  /** One tick: the first thread uses up a tick of its slice, and at its end goes behind the others. */
  ghost function TickStep(q: seq<Thread>, rem: Slices, slice: Slices): (r: (seq<Thread>, Slices))
    requires q != [] && Sliced(q, rem, slice)
    ensures Sliced(r.0, r.1, slice) && r.0 != []
  {
    var t := q[0];
    TailElems(q);
    if rem[t] > 1 then (q, rem[t := rem[t] - 1]) else (q[1..] + [t], rem[t := slice[t]])
  }

  ghost function Ticks(q: seq<Thread>, rem: Slices, slice: Slices, n: nat): (r: (seq<Thread>, Slices))
    requires q != [] && Sliced(q, rem, slice)
    ensures Sliced(r.0, r.1, slice) && r.0 != []
    decreases n
  {
    if n == 0 then (q, rem) else var s := TickStep(q, rem, slice); Ticks(s.0, s.1, slice, n - 1)
  }

  lemma {:induction false} TicksAdd(q: seq<Thread>, rem: Slices, slice: Slices, m: nat, n: nat)
    requires q != [] && Sliced(q, rem, slice)
    ensures var mid := Ticks(q, rem, slice, m); Ticks(q, rem, slice, m + n) == Ticks(mid.0, mid.1, slice, n)
    decreases m
  {
    if m > 0 {
      var s := TickStep(q, rem, slice);
      TicksAdd(s.0, s.1, slice, m - 1, n);
    }
  }

  /** After the rest of its slice the first thread is the last. */
  lemma {:induction false} SliceEnds(q: seq<Thread>, rem: Slices, slice: Slices)
    requires q != [] && Sliced(q, rem, slice)
    ensures Ticks(q, rem, slice, rem[q[0]]) == (q[1..] + [q[0]], rem[q[0] := slice[q[0]]])
    decreases rem[q[0]]
  {
    var t := q[0];
    if rem[t] > 1 {
      var less := rem[t := rem[t] - 1];
      assert Sliced(q, less, slice);
      SliceEnds(q, less, slice);
      assert less[t := slice[t]] == rem[t := slice[t]];
    }
  }

  /** The ticks left to the threads before position `k`. */
  ghost function TicksBefore(q: seq<Thread>, rem: Slices, k: nat): (n: int)
    requires k <= |q| && forall t :: t in q ==> t in rem
  {
    if k == 0 then 0 else rem[q[0]] + TicksBefore(q[1..], rem, k - 1)
  }

  lemma {:induction false} TicksBeforePositive(q: seq<Thread>, rem: Slices, k: nat)
    requires k <= |q| && forall t :: t in q ==> t in rem && rem[t] >= 1
    ensures TicksBefore(q, rem, k) >= 0
  {
    if k > 0 { TicksBeforePositive(q[1..], rem, k - 1); }
  }

  lemma {:induction false} TicksBeforeFrame(q: seq<Thread>, more: seq<Thread>, rem: Slices, rem': Slices, k: nat)
    requires k <= |q| && (forall t :: t in q + more ==> t in rem')
      && forall t :: t in q ==> t in rem && rem'[t] == rem[t]
    ensures TicksBefore(q + more, rem', k) == TicksBefore(q, rem, k)
    decreases k
  {
    if k > 0 {
      assert (q + more)[1..] == q[1..] + more;
      TicksBeforeFrame(q[1..], more, rem, rem', k - 1);
    }
  }

  lemma TicksNone(q: seq<Thread>, rem: Slices, slice: Slices)
    requires q != [] && Sliced(q, rem, slice)
    ensures Ticks(q, rem, slice, 0) == (q, rem)
  {
  }

  /** A thread's turn comes after exactly the ticks left to those before it. */
  lemma {:induction false} TurnComes(q: seq<Thread>, rem: Slices, slice: Slices, k: nat)
    requires Sliced(q, rem, slice) && k < |q|
    ensures TicksBefore(q, rem, k) >= 0 && Ticks(q, rem, slice, TicksBefore(q, rem, k)).0[0] == q[k]
    decreases k
  {
    hide Ticks, TickStep;
    TicksBeforePositive(q, rem, k);
    if k == 0 {
      TicksNone(q, rem, slice);
    } else {
      var t := q[0];
      var q', rem' := q[1..] + [t], rem[t := slice[t]];
      SliceEnds(q, rem, slice);
      TailElems(q);
      TicksBeforeFrame(q[1..], [t], rem, rem', k - 1);
      TurnComes(q', rem', slice, k - 1);
      TicksAdd(q, rem, slice, rem[t], TicksBefore(q', rem', k - 1));
    }
  }

  /** The slices of all threads of the list but the `k`-th. */
  ghost function OtherSlices(q: seq<Thread>, slice: Slices, k: nat): (n: int)
    requires k < |q| && forall t :: t in q ==> t in slice
  {
    TicksBefore(q, slice, |q|) - slice[q[k]]
  }

  /** No thread of the list waits longer than the slices of the others together. */
  lemma BoundedWait(q: seq<Thread>, rem: Slices, slice: Slices, k: nat)
    requires Sliced(q, rem, slice) && k < |q|
    ensures 0 <= TicksBefore(q, rem, k) <= OtherSlices(q, slice, k)
  {
    TicksBeforePositive(q, rem, k);
    NoMoreThanSlices(q, rem, slice, k);
    SplitSlices(q, slice, k);
  }

  lemma {:induction false} NoMoreThanSlices(q: seq<Thread>, rem: Slices, slice: Slices, k: nat)
    requires k <= |q| && forall t :: t in q ==> t in rem && t in slice && rem[t] <= slice[t]
    ensures TicksBefore(q, rem, k) <= TicksBefore(q, slice, k)
  {
    if k > 0 { NoMoreThanSlices(q[1..], rem, slice, k - 1); }
  }

  lemma {:induction false} SplitSlices(q: seq<Thread>, slice: Slices, k: nat)
    requires k < |q| && forall t :: t in q ==> t in slice && slice[t] >= 1
    ensures TicksBefore(q, slice, k) + slice[q[k]] <= TicksBefore(q, slice, |q|)
    decreases k
  {
    if k == 0 {
      TicksBeforePositive(q[1..], slice, |q| - 1);
    } else {
      SplitSlices(q[1..], slice, k - 1);
    }
  }

  lemma OneTick(q: seq<Thread>, rem: Slices, slice: Slices)
    requires q != [] && Sliced(q, rem, slice)
    ensures Ticks(q, rem, slice, 1) == TickStep(q, rem, slice)
  {
  }

  method SumBefore(q: seq<Thread>, rem: Slices, k: nat) returns (n: nat)
    requires k <= |q| && forall t :: t in q ==> t in rem && rem[t] >= 1
    ensures n == TicksBefore(q, rem, k)
  {
    n := 0;
    var i := k;
    assert q[k..] == q[k..];
    while i > 0
      invariant 0 <= i <= k && n == TicksBefore(q[i..], rem, k - i)
    {
      i := i - 1;
      assert q[i..][1..] == q[i + 1..];
      n := n + rem[q[i]];
    }
    assert q[0..] == q;
  }
}
