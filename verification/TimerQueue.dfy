/**
 The hard timer list (`timer.c`): a skip list of started timers ordered by a wrapping 32-bit
 comparison, and the check the clock interrupt runs on it.
 */
module TimerQueue {
  import opened TimerOrder

  /** What a timeout function may do to the list: start or stop a timer, its own or another. */
  datatype Command = StartTimer(id: Id) | StopTimer(id: Id)

  ghost function Ids(cmds: seq<Command>): (s: set<Id>) {
    set i | 0 <= i < |cmds| :: cmds[i].id
  }

  /** A timeout function starts timers only for a later tick. */
  ghost predicate Allowed(cmds: seq<Command>, init: map<Id, tick>) {
    forall i :: 0 <= i < |cmds| ==> cmds[i].StartTimer? ==> cmds[i].id in init && 1 <= init[cmds[i].id] < HALF
  }

  /** What some commands do to timer `t` in the end. */
  datatype Fate = Left | Started | Stopped

  function FateOf(cmds: seq<Command>, t: Id): (f: Fate) {
    if cmds == [] then Left
    else
      After(FateOf(cmds[..|cmds| - 1], t), cmds[|cmds| - 1], t)
  }

  /** What one more command makes of it. */
  function After(f: Fate, cmd: Command, t: Id): (r: Fate) {
    if cmd.id != t then f else if cmd.StartTimer? then Started else Stopped
  }

  lemma FateOneMore(cmds: seq<Command>, i: int, t: Id)
    requires 0 <= i < |cmds|
    ensures FateOf(cmds[..i + 1], t) == After(FateOf(cmds[..i], t), cmds[i], t)
  {
    assert cmds[..i + 1][..i] == cmds[..i];
  }

  /** Whether a timer is listed after its function ran: a periodic one unless stopped, another only if started. */
  predicate Relisted(f: Fate, periodic: bool) {
    if periodic then f != Stopped else f == Started
  }

  /** The state of the firing timer `t` while its function runs, after some commands. */
  ghost predicate OwnState(f: Fate, t: Id, wasActive: bool, row: seq<Id>, active: set<Id>, keys: Keys, due: int) {
    match f
    case Left => t !in row && (t in active <==> wasActive)
    case Started => t in row && t in active && t in keys && keys[t].due == due
    case Stopped => t !in row && t !in active
  }

  /** Only timers of `touched` may have changed between active and not. */
  ghost predicate SameActive(active: set<Id>, active': set<Id>, touched: set<Id>) {
    forall x :: x !in touched ==> (x in active <==> x in active')
  }

  /** All rows are sorted, and each holds only timers of the row below. */
  ghost predicate Rows(rows: seq<seq<Id>>, keys: Keys) {
    (forall l :: 0 <= l < |rows| ==> Sorted(rows[l], keys)) && Nested(rows)
  }

  /** Every listed timer's wrapped timeout stands for its deadline, which is near enough to compare. */
  ghost predicate Armed(row: seq<Id>, timeout: map<Id, tick>, keys: Keys, now: int, slack: int, clock: int) {
    forall x :: x in row ==>
      && x in keys && x in timeout && timeout[x] == Wrap(keys[x].due)
      && now - slack <= keys[x].due < now + HALF && keys[x].stamp < clock
  }

  /** Row `next` is `row` with `t` inserted where the deadline `d` cuts it. */
  ghost predicate InsertedIn(row: seq<Id>, next: seq<Id>, keys: Keys, d: int, t: Id) {
    exists k :: Cut(row, keys, d, k) && next == InsertAt(row, k, t)
  }

  lemma InsertedInElems(row: seq<Id>, next: seq<Id>, keys: Keys, d: int, t: Id)
    requires InsertedIn(row, next, keys, d, t)
    ensures forall x :: x in next <==> x in row || x == t
  {
    var k :| Cut(row, keys, d, k) && next == InsertAt(row, k, t);
    InsertedElems(row, k, t);
  }

  class Timers {
    const levels: nat
    /** RT_TIMER_SKIP_LIST_MASK + 1. */
    const base: nat

    /** Row `levels - 1` is the bottom row, which lists every started timer. */
    var rows: seq<seq<Id>>
    var rtTick: tick
    var randomNr: tick
    var timeout: map<Id, tick>
    var init: map<Id, tick>
    var periodic: set<Id>
    var activated: set<Id>

    /** True time, true deadlines, and the number of starts so far. */
    ghost var now: int
    ghost var keys: Keys
    ghost var clock: int
    /** How far behind the clock a listed deadline may be: one tick while the interrupt runs. */
    ghost var slack: int
    /** The timer whose timeout function is running. */
    ghost var firing: set<Id>

    ghost predicate Valid()
      reads this
    {
      ValidBut({})
    }

    /** Valid, but that a timer of `except` may be listed and not active whatever it is. */
    ghost predicate ValidBut(except: set<Id>)
      reads this
    {
      && levels >= 1 && |rows| == levels && base in {2, 4}
      && rtTick == Wrap(now) && 0 <= slack <= 1
      && Rows(rows, keys)
      && Armed(rows[levels - 1], timeout, keys, now, slack, clock)
      && (forall x :: x in activated ==> x in rows[levels - 1] || x in firing)
      && (forall x :: x in rows[levels - 1] && x !in activated && x !in except ==> x !in periodic)
    }

    /** Between interrupts. */
    ghost predicate Idle()
      reads this
    {
      Valid() && slack == 0 && firing == {}
    }

    ghost function Bottom(): (row: seq<Id>)
      requires |rows| == levels >= 1
      reads this`rows
    {
      rows[levels - 1]
    }

    constructor (levelCount: nat, maskPlusOne: nat, settings: map<Id, tick>, periodicTimers: set<Id>, tick0: tick,
                 random0: tick)
      requires levelCount >= 1 && maskPlusOne in {2, 4}
      ensures Idle() && Bottom() == [] && init == settings && periodic == periodicTimers && now == tick0
    {
      levels, base := levelCount, maskPlusOne;
      rows := seq(levelCount, i => []);
      rtTick, randomNr := tick0, random0;
      timeout, init, periodic, activated := map[], settings, periodicTimers, {};
      now, keys, clock, slack, firing := tick0, map[], 0, 0, {};
      new;
      assert forall l :: 0 <= l < |rows| ==> rows[l] == [];
    }

    /** _rt_timer_remove. */
    method Remove(t: Id)
      requires |rows| == levels
      modifies this`rows
      ensures |rows| == levels && forall l :: 0 <= l < levels ==> rows[l] == Drop(old(rows)[l], t)
    {
      for i := 0 to levels
        invariant |rows| == levels
        invariant forall l :: 0 <= l < i ==> rows[l] == Drop(old(rows)[l], t)
        invariant forall l :: i <= l < levels ==> rows[l] == old(rows)[l]
      {
        rows := rows[i := Drop(rows[i], t)];
      }
    }

    /** The descending search: where the rows are cut by the deadline `d`. */
    method Search(wrapped: tick, ghost d: int) returns (heads: seq<int>)
      requires levels >= 1 && |rows| == levels && Rows(rows, keys) && wrapped == Wrap(d)
      requires Comparable(rows[levels - 1], timeout, keys, d)
      ensures |heads| == levels && forall l :: 0 <= l < levels ==> Cut(rows[l], keys, d, heads[l])
      ensures heads[levels - 1] == LinearScan(rows[levels - 1], keys, d)
    {
      heads := [];
      var k, lvl := 0, 0;
      while lvl < levels
        invariant 0 <= lvl <= levels && |heads| == lvl
        invariant forall l :: 0 <= l < lvl ==> Cut(rows[l], keys, d, heads[l])
        invariant lvl < levels ==> 0 <= k <= |rows[lvl]| && forall i :: 0 <= i < k ==> keys[rows[lvl][i]].due <= d
      {
        k := ScanRow(lvl, k, wrapped, d);
        heads := heads + [k];
        if lvl + 1 < levels {
          assert NestedAt(rows, lvl);
          if k > 0 {
            var p := rows[lvl][k - 1];
            assert p in rows[lvl];
            k := PositionOf(rows[lvl + 1], p) + 1;
            BelowIsDue(rows[lvl + 1], keys, d, k - 1);
          }
        }
        lvl := lvl + 1;
      }
      LinearScanCuts(rows[levels - 1], keys, d);
      CutIsUnique(rows[levels - 1], keys, d, heads[levels - 1], LinearScan(rows[levels - 1], keys, d));
    }

    /** The scan of one row, from position `from` on. */
    method ScanRow(lvl: int, from: int, wrapped: tick, ghost d: int) returns (k: int)
      requires levels >= 1 && |rows| == levels && Rows(rows, keys) && wrapped == Wrap(d)
      requires Comparable(rows[levels - 1], timeout, keys, d)
      requires 0 <= lvl < levels && 0 <= from <= |rows[lvl]|
      requires forall i :: 0 <= i < from ==> keys[rows[lvl][i]].due <= d
      ensures Cut(rows[lvl], keys, d, k)
    {
      k := from;
      while k < |rows[lvl]|
        invariant from <= k <= |rows[lvl]|
        invariant forall i :: 0 <= i < k ==> keys[rows[lvl][i]].due <= d
      {
        var t := rows[lvl][k];
        InBottom(rows, lvl, t);
        LaterIsBreak(keys[t].due, d);
        if Sub(timeout[t], wrapped) == 0 {
          k := k + 1;
          continue;
        } else if Sub(timeout[t], wrapped) < HALF {
          SortedFrom(rows[lvl], keys, k);
          break;
        }
        k := k + 1;
      }
    }

    /** Link `t` into the bottom row and into as many rows above as the insert counter says. */
    method Link(t: Id, heads: seq<int>) returns (ghost from: int)
      requires levels >= 1 && |rows| == levels && base in {2, 4} && |heads| == levels
      requires forall l :: 0 <= l < levels ==> 0 <= heads[l] <= |rows[l]|
      modifies this`rows, this`randomNr
      ensures |rows| == levels && LinkedFrom(old(rows), rows, heads, t, from)
    {
      randomNr := Add(randomNr, 1);
      var test: int := randomNr;
      rows := rows[levels - 1 := InsertAt(rows[levels - 1], heads[levels - 1], t)];
      var lvl := 2;
      while lvl <= levels
        invariant 2 <= lvl <= levels + 1 && |rows| == levels
        invariant forall l :: 0 <= l < levels ==> rows[l] == if l < levels - lvl + 1 then old(rows)[l]
          else InsertAt(old(rows)[l], heads[l], t)
      {
        if test % base == 0 {
          rows := rows[levels - lvl := InsertAt(rows[levels - lvl], heads[levels - lvl], t)];
        } else {
          break;
        }
        test := test / base;
        lvl := lvl + 1;
      }
      from := levels - lvl + 1;
    }

    /** rt_timer_start. */
    method Start(t: Id)
      requires ValidBut({t}) && t in init && init[t] < HALF
      modifies this
      ensures Valid() && init == old(init) && periodic == old(periodic) && now == old(now) && slack == old(slack)
        && firing == old(firing)
      ensures activated == old(activated) + {t} && keys == old(keys)[t := Key(now + init[t], old(clock))]
        && clock == old(clock) + 1
      ensures InsertedIn(Drop(old(Bottom()), t), Bottom(), keys, now + init[t], t)
    {
      hide Rows, Sorted, Wrap, Add, Drop, Armed, InsertedIn;
      ghost var oldRows := rows;
      Remove(t);
      RowsDropped(oldRows, rows, keys, t);
      ArmedSubset(oldRows[levels - 1], rows[levels - 1], timeout, keys, now, slack, clock);
      activated := activated - {t};
      ghost var mid := rows[levels - 1];
      Insert(t);
      InsertedInElems(mid, rows[levels - 1], keys, now + init[t], t);
      activated := activated + {t};
    }

    /** Give `t` its timeout and put it where the search says. */
    method Insert(t: Id)
      requires levels >= 1 && |rows| == levels && base in {2, 4} && rtTick == Wrap(now) && 0 <= slack <= 1
      requires Rows(rows, keys) && Armed(rows[levels - 1], timeout, keys, now, slack, clock)
      requires t in init && init[t] < HALF && forall l :: 0 <= l < levels ==> t !in rows[l]
      modifies this`rows, this`randomNr, this`timeout, this`keys, this`clock
      ensures |rows| == levels && Rows(rows, keys) && Armed(rows[levels - 1], timeout, keys, now, slack, clock)
      ensures keys == old(keys)[t := Key(now + init[t], old(clock))] && clock == old(clock) + 1
      ensures InsertedIn(old(rows)[levels - 1], rows[levels - 1], keys, now + init[t], t)
    {
      hide Rows, Sorted, Cut, InsertAt, Wrap, Add, Armed, Comparable, LinkedFrom;
      ghost var d, mid := now + init[t], rows;
      AddOfWrapped(now, init[t]);
      RowsFrame(rows, keys, t, Key(d, clock));
      ArmedStarted(rows[levels - 1], timeout, keys, now, slack, clock, t, d);
      timeout := timeout[t := Add(rtTick, init[t])];
      keys := keys[t := Key(d, clock)];
      var heads := Search(timeout[t], d);
      CutBounds(rows, keys, d, heads);
      ghost var from := Link(t, heads);
      RowsInserted(mid, rows, keys, t, heads, from);
      BottomLinked(mid, rows, heads, t, from);
      clock := clock + 1;
      ArmedInserted(mid[levels - 1], rows[levels - 1], timeout, keys, now, slack, clock, t);
    }

    /** rt_timer_stop: refused if the timer is not active, even if it is listed. */
    method Stop(t: Id) returns (ok: bool)
      requires Valid()
      modifies this`rows, this`activated
      ensures Valid() && ok == (t in old(activated)) && activated == old(activated) - {t}
      ensures Bottom() == if ok then Drop(old(Bottom()), t) else old(Bottom())
    {
      hide Sorted, Drop;
      if t !in activated {
        return false;
      }
      ghost var oldRows := rows;
      Remove(t);
      RowsDropped(oldRows, rows, keys, t);
      activated := activated - {t};
      return true;
    }

    /** When `t` is due if it is started now. */
    ghost function DueOf(t: Id): (d: int)
      reads this`now, this`init
    {
      now + if t in init then init[t] else 0
    }

    /** One call that the timeout function of `t` makes; `moved` holds the timer acted on, unless a stop was refused. */
    method PerformOne(cmd: Command, ghost t: Id, ghost f: Fate, ghost wasActive: bool) returns (ghost moved: set<Id>)
      requires Valid() && firing == {t} && Allowed([cmd], init)
        && OwnState(f, t, wasActive, Bottom(), activated, keys, DueOf(t))
      modifies this
      ensures Valid() && init == old(init) && periodic == old(periodic) && now == old(now) && slack == old(slack)
        && firing == old(firing)
      ensures moved <= {cmd.id} && SameOthers(old(Bottom()), old(keys), Bottom(), keys, moved)
      ensures SameActive(old(activated), activated, moved) && LaterIn(Bottom(), keys, moved, now)
      ensures OwnState(After(f, cmd, t), t, wasActive, Bottom(), activated, keys, DueOf(t))
      ensures TookEffect(cmd, old(Bottom()), old(activated), Bottom(), activated, keys, moved, DueOf(cmd.id))
    {
      hide Rows, Sorted, Armed, InsertedIn, Drop, SameOthers, SameActive, LaterIn, OwnState, After, TookEffect;
      ghost var row, ks, active := Bottom(), keys, activated;
      assert [cmd][0] == cmd;
      match cmd
      case StartTimer(id) =>
        moved := {id};
        Start(id);
        OneStarted(row, ks, active, Bottom(), now, DueOf(id), keys[id], id, t, f, wasActive, DueOf(t));
      case StopTimer(id) =>
        var ok := Stop(id);
        moved := if ok then {id} else {};
        OneStopped(row, ks, active, now, DueOf(t), id, t, f, wasActive, DueOf(id));
    }

    /** The timeout function of `t` runs. */
    method Perform(cmds: seq<Command>, ghost t: Id) returns (ghost moved: set<Id>)
      requires Valid() && firing == {t} && Allowed(cmds, init) && t !in Bottom()
      modifies this
      ensures Valid() && init == old(init) && periodic == old(periodic) && now == old(now) && slack == old(slack)
        && firing == old(firing)
      ensures moved <= Ids(cmds) && SameOthers(old(Bottom()), old(keys), Bottom(), keys, moved)
      ensures SameActive(old(activated), activated, moved) && LaterIn(Bottom(), keys, moved, now)
      ensures OwnState(FateOf(cmds, t), t, t in old(activated), Bottom(), activated, keys, DueOf(t))
      ensures AllDone(cmds, old(Bottom()), old(activated), Bottom(), activated, keys, now, init, {})
    {
      hide Rows, Sorted, Armed, SameOthers, SameActive, Ids, LaterIn, OwnState, AllDone, TookEffect;
      NothingDone(Bottom(), activated, keys, now, init);
      IdsNone(cmds);
      SameOthersRefl(Bottom(), keys, activated, now);
      OwnLeft(t, Bottom(), activated, keys, DueOf(t));
      moved := {};
      for i := 0 to |cmds|
        invariant Valid() && init == old(init) && periodic == old(periodic) && now == old(now) && slack == old(slack)
          && firing == old(firing)
        invariant moved <= Ids(cmds[..i]) && SameOthers(old(Bottom()), old(keys), Bottom(), keys, moved)
        invariant SameActive(old(activated), activated, moved) && LaterIn(Bottom(), keys, moved, now)
        invariant OwnState(FateOf(cmds[..i], t), t, t in old(activated), Bottom(), activated, keys, DueOf(t))
        invariant AllDone(cmds[..i], old(Bottom()), old(activated), Bottom(), activated, keys, now, init, {})
      {
        ghost var row, ks, active := Bottom(), keys, activated;
        ghost var more := PerformOne(cmds[i], t, FateOf(cmds[..i], t), t in old(activated));
        IdsOneMore(cmds, i);
        FateOneMore(cmds, i, t);
        OneMoreDone(cmds, i, old(Bottom()), old(activated), row, active, ks, Bottom(), activated, keys, now, init,
          more);
        SameOthersThen(old(Bottom()), old(keys), row, ks, Bottom(), keys, moved, more);
        SameActiveThen(old(activated), active, activated, moved, more);
        LaterInThen(row, ks, Bottom(), keys, moved, more, now);
        moved := moved + more;
      }
      assert cmds[..|cmds|] == cmds;
    }

    /**
     Fire the first timer of the list: unlist it, run its timeout function, start it again if periodic and still
     active.
     */
    method Fire(t: Id, cmds: seq<Command>) returns (ghost moved: set<Id>)
      requires Valid() && firing == {} && |Bottom()| > 0 && Bottom()[0] == t
      requires Allowed(cmds, init) && (t in periodic ==> t in init && 1 <= init[t] < HALF)
      modifies this
      ensures Valid() && init == old(init) && periodic == old(periodic) && now == old(now) && slack == old(slack)
        && firing == {}
      ensures moved <= Ids(cmds) && SameOthers(old(Bottom()), old(keys), Bottom(), keys, moved + {t})
      ensures SameActive(old(activated), activated, moved + {t}) && LaterIn(Bottom(), keys, moved + {t}, now)
      ensures t in Bottom() <==> Relisted(FateOf(cmds, t), t in periodic)
      ensures t in Bottom() <==> if t in periodic then FateOf(cmds, t) != Stopped else FateOf(cmds, t) == Started
      ensures t in Bottom() ==> t in keys && t in init && keys[t].due == now + init[t]
      ensures t in activated <==> t in Bottom() && t in periodic
      ensures AllDone(cmds, old(Bottom()), old(activated), Bottom(), activated, keys, now, init, {t})
    {
      hide Rows, Sorted, Armed, SameOthers, SameActive, LaterIn, Ids, InsertedIn, Allowed, AllDone;
      ghost var row, ks, active := Bottom(), keys, activated;
      assert t in row;
      Unlist(t);
      ghost var row1 := Bottom();
      SameOthersUnlisted(row, ks, row1, t);
      moved := Perform(cmds, t);
      OwnStarted(cmds, t, init);
      ghost var row2, ks2 := Bottom(), keys;
      SameOthersFired(row, row1, ks, row2, ks2, moved, t);
      var again := t in periodic && t in activated;
      ghost var active2 := activated;
      firing := {};
      activated := activated - {t};
      if again {
        Start(t);
        InsertedInElems(Drop(row2, t), Bottom(), keys, now + init[t], t);
      }
      Rearmed(row, ks, row2, ks2, Bottom(), keys, moved, t, now);
      ActiveAgain(active, active2, activated, moved, t);
      DoneFired(cmds, row, row1, active, row2, active2, ks2, Bottom(), activated, keys, now, init, t);
    }

    /** Take the expired timer off the list; it stays activated while its function runs. */
    method Unlist(t: Id)
      requires Valid() && firing == {} && |Bottom()| > 0 && Bottom()[0] == t
      modifies this`rows, this`firing
      ensures Valid() && firing == {t} && Bottom() == Drop(old(Bottom()), t) && t !in Bottom()
    {
      hide Sorted, Drop;
      ghost var oldRows := rows;
      Remove(t);
      RowsDropped(oldRows, rows, keys, t);
      firing := {t};
    }

    /** rt_timer_check: the timers fired, in order, and those their functions acted on. */
    method Check(actions: map<Id, seq<Command>>) returns (fired: seq<Id>, ghost moved: set<Id>)
      requires Valid() && firing == {}
      requires forall t :: t in actions ==> Allowed(actions[t], init)
      requires forall t :: t in periodic ==> t in init && 1 <= init[t] < HALF
      modifies this
      ensures Valid() && init == old(init) && periodic == old(periodic) && now == old(now) && slack == old(slack)
        && firing == {}
      ensures moved <= Touched(actions, fired)
      ensures Drained(old(Bottom()), old(keys), Bottom(), keys, fired, moved, now)
      ensures Settled(Bottom(), keys, activated, fired, moved, now, init, periodic, actions)
      ensures forall x :: x in Bottom() ==> x in keys && keys[x].due > now
      ensures AllDone(AllCommands(actions, fired), old(Bottom()), old(activated), Bottom(), activated, keys, now, init,
                      Elems(fired))
    {
      hide Rows, Sorted, Ids, SameOthers, SameActive, LaterIn, Allowed, Drained, Settled, Touched, Relisted, AllDone,
           AllCommands, Elems;
      fired, moved := [], {};
      NothingDone(Bottom(), activated, keys, now, init);
      NoCommands(actions);
      ghost var active0 := activated;
      DrainedNone(Bottom(), keys, activated, now, init, periodic, actions);
      ghost var row0, keys0 := Bottom(), keys;
      while |rows[levels - 1]| > 0
        invariant Valid() && init == old(init) && periodic == old(periodic) && now == old(now) && slack == old(slack)
          && firing == {}
        invariant moved <= Touched(actions, fired)
        invariant Drained(row0, keys0, Bottom(), keys, fired, moved, now)
        invariant Settled(Bottom(), keys, activated, fired, moved, now, init, periodic, actions)
        invariant AllDone(AllCommands(actions, fired), row0, active0, Bottom(), activated, keys, now, init,
          Elems(fired))
        decreases Pending(row0, fired, moved)
      {
        var t := rows[levels - 1][0];
        assert t in Bottom();
        ArrivedIsSmall(now, keys[t].due);
        if Sub(rtTick, timeout[t]) < HALF {
          ghost var row, ks, active := Bottom(), keys, activated;
          var cmds := ActionsOf(actions, t);
          RowsAt(rows, keys, levels - 1);
          PendingHead(row0, keys0, row, ks, fired, moved, now);
          AllowedOf(actions, init, t);
          ghost var more := Fire(t, cmds);
          assert more - {t} + {t} == more + {t};
          DrainedOneMore(row0, keys0, row, ks, Bottom(), keys, fired, moved, t, more - {t}, now);
          SettledOneMore(row, ks, active, Bottom(), keys, activated, fired, moved, t, more - {t}, now, init, periodic,
            actions);
          TouchedOneMore(actions, fired, t, moved, more);
          DoneThen(AllCommands(actions, fired), cmds, row0, active0, row, active, ks, Bottom(), activated, keys, now,
            init,
            Elems(fired), t, more);
          CommandsOneMore(actions, fired, t);
          fired, moved := fired + [t], moved + (more - {t});
        } else {
          RowsAt(rows, keys, levels - 1);
          LaterFrom(rows[levels - 1], keys, now);
          break;
        }
      }
    }

    /** The timer part of rt_tick_increase: one tick passes and what is due fires. */
    method Tick(actions: map<Id, seq<Command>>) returns (fired: seq<Id>, ghost moved: set<Id>)
      requires Idle()
      requires forall t :: t in actions ==> Allowed(actions[t], init)
      requires forall t :: t in periodic ==> t in init && 1 <= init[t] < HALF
      modifies this
      ensures Idle() && now == old(now) + 1 && init == old(init) && periodic == old(periodic)
      ensures moved <= Touched(actions, fired) && FiresDue(old(Bottom()), old(keys), now, fired, moved)
      ensures Drained(old(Bottom()), old(keys), Bottom(), keys, fired, moved, now)
      ensures Settled(Bottom(), keys, activated, fired, moved, now, init, periodic, actions)
      ensures forall x :: x in Bottom() ==> x in keys && keys[x].due > now
      ensures AllDone(AllCommands(actions, fired), old(Bottom()), old(activated), Bottom(), activated, keys, now, init,
                      Elems(fired))
    {
      hide Rows, Drained, FiresDue, Touched, Settled, AllDone, AllCommands, Elems;
      ghost var row, ks := Bottom(), keys;
      RowsAt(rows, keys, levels - 1);
      AddOfWrapped(now, 1);
      now := now + 1;
      rtTick := Add(rtTick, 1);
      slack := 1;
      fired, moved := Check(actions);
      DrainedAll(row, ks, Bottom(), keys, fired, moved, now);
      slack := 0;
    }
  }

  /** Timer `t` was put into the rows from `from` down at the given positions. */
  ghost predicate LinkedFrom(mid: seq<seq<Id>>, rows: seq<seq<Id>>, heads: seq<int>, t: Id, from: int) {
    && |rows| == |mid| == |heads| && 0 <= from < |mid|
    && (forall l :: 0 <= l < |mid| ==> 0 <= heads[l] <= |mid[l]|)
    && (forall l :: 0 <= l < |mid| ==> rows[l] == if l < from then mid[l] else InsertAt(mid[l], heads[l], t))
  }

  /** Deadlines and timeouts the 32-bit comparison orders correctly against `d`. */
  ghost predicate Comparable(row: seq<Id>, timeout: map<Id, tick>, keys: Keys, d: int) {
    forall x :: x in row ==>
      x in keys && x in timeout && timeout[x] == Wrap(keys[x].due) && -HALF <= keys[x].due - d < HALF
  }

  lemma {:induction false} InBottom(rows: seq<seq<Id>>, l: int, x: Id)
    requires Nested(rows) && 0 <= l < |rows| && x in rows[l]
    ensures x in rows[|rows| - 1]
    decreases |rows| - l
  {
    if l + 1 < |rows| {
      assert NestedAt(rows, l);
      InBottom(rows, l + 1, x);
    }
  }

  /** Each row is a subsequence of the row below it. */
  lemma RowsAreSubsequences(rows: seq<seq<Id>>, keys: Keys, l: int)
    requires Rows(rows, keys) && 0 <= l < |rows| - 1
    ensures Subsequence(rows[l], rows[l + 1])
  {
    assert NestedAt(rows, l);
    ContainedIsSubsequence(rows[l], rows[l + 1], keys);
  }

  lemma SortedFrom(row: seq<Id>, keys: Keys, k: int)
    requires Sorted(row, keys) && 0 <= k < |row|
    ensures forall i :: k <= i < |row| ==> keys[row[i]].due >= keys[row[k]].due
  {
  }

  lemma RowsDropped(rows: seq<seq<Id>>, rows': seq<seq<Id>>, keys: Keys, t: Id)
    requires Rows(rows, keys) && |rows'| == |rows| && forall l :: 0 <= l < |rows| ==> rows'[l] == Drop(rows[l], t)
    ensures Rows(rows', keys) && forall l :: 0 <= l < |rows| ==> t !in rows'[l]
  {
    forall l | 0 <= l < |rows|
      ensures Sorted(rows'[l], keys)
    {
      DropSorted(rows[l], keys, t);
    }
    forall l | 0 <= l < |rows| - 1
      ensures NestedAt(rows', l)
    {
      assert NestedAt(rows, l);
    }
  }

  /** Timers outside `touched` are listed as before and with the same key. */
  ghost predicate SameOthers(row: seq<Id>, keys: Keys, row': seq<Id>, keys': Keys, touched: set<Id>) {
    forall x :: x !in touched ==> (x in row <==> x in row') && (x in keys ==> x in keys' && keys'[x] == keys[x])
  }

  /** Listed timers of `touched` are due in the future. */
  ghost predicate LaterIn(row: seq<Id>, keys: Keys, touched: set<Id>, now: int) {
    forall x :: x in row && x in touched ==> x in keys && keys[x].due > now
  }

  // ------------------------------------------------- what commands come to

  /** A start lists the timer and makes it active; a stop of an active timer unlists it, and another is refused. */
  ghost predicate TookEffect(cmd: Command, row: seq<Id>, active: set<Id>, row': seq<Id>, active': set<Id>, keys': Keys,
                             moved: set<Id>, due: int) {
    var x := cmd.id;
    && (cmd.StartTimer? ==> x in row' && x in active' && x in keys' && keys'[x].due == due)
    && (cmd.StopTimer? ==> x !in active' && (if x in active then x !in row' else moved == {}))
  }

  /** What has become of timer `x`, from the list `row0` on: left alone, started, or stopped if it could be. */
  ghost predicate DoneTo(f: Fate, x: Id, row0: seq<Id>, active0: set<Id>, row: seq<Id>, active: set<Id>, keys: Keys,
                         due: int) {
    match f
    case Left => (x in row <==> x in row0) && (x in active <==> x in active0)
    case Started => x in row && x in active && x in keys && keys[x].due == due
    case Stopped => x !in active && (x in row ==> x in row0 && x !in active0)
  }

  ghost function Due(now: int, init: map<Id, tick>, x: Id): (d: int) {
    now + if x in init then init[x] else 0
  }

  /** Every timer but those of `except` is as the last of the commands on it says. */
  ghost predicate AllDone(cmds: seq<Command>, row0: seq<Id>, active0: set<Id>, row: seq<Id>, active: set<Id>,
                          keys: Keys,
                          now: int, init: map<Id, tick>, except: set<Id>) {
    forall x :: x !in except ==> DoneTo(FateOf(cmds, x), x, row0, active0, row, active, keys, Due(now, init, x))
  }

  lemma NothingDone(row: seq<Id>, active: set<Id>, keys: Keys, now: int, init: map<Id, tick>)
    ensures AllDone([], row, active, row, active, keys, now, init, {})
  {
  }

  lemma OneMoreDone(cmds: seq<Command>, i: int, row0: seq<Id>, active0: set<Id>, row: seq<Id>, active: set<Id>,
                    keys: Keys,
                    row': seq<Id>, active': set<Id>, keys': Keys, now: int, init: map<Id, tick>, moved: set<Id>)
    requires 0 <= i < |cmds| && AllDone(cmds[..i], row0, active0, row, active, keys, now, init, {})
    requires moved <= {cmds[i].id} && SameOthers(row, keys, row', keys', moved) && SameActive(active, active', moved)
    requires TookEffect(cmds[i], row, active, row', active', keys', moved, Due(now, init, cmds[i].id))
    ensures AllDone(cmds[..i + 1], row0, active0, row', active', keys', now, init, {})
  {
    forall x
      ensures DoneTo(FateOf(cmds[..i + 1], x), x, row0, active0, row', active', keys', Due(now, init, x))
    {
      FateOneMore(cmds, i, x);
      assert DoneTo(FateOf(cmds[..i], x), x, row0, active0, row, active, keys, Due(now, init, x));
    }
  }

  lemma DoneFired(cmds: seq<Command>, row: seq<Id>, row1: seq<Id>, active: set<Id>, row2: seq<Id>, active2: set<Id>,
                  keys2: Keys, row3: seq<Id>, active3: set<Id>, keys3: Keys, now: int, init: map<Id, tick>, t: Id)
    requires AllDone(cmds, row1, active, row2, active2, keys2, now, init, {}) && row1 == Drop(row, t)
    requires forall x :: x != t ==> (x in row3 <==> x in row2) && (x in keys2 ==> x in keys3 && keys3[x] == keys2[x])
    requires forall x :: x != t ==> (x in active3 <==> x in active2)
    ensures AllDone(cmds, row, active, row3, active3, keys3, now, init, {t})
  {
    forall x | x != t
      ensures DoneTo(FateOf(cmds, x), x, row, active, row3, active3, keys3, Due(now, init, x))
    {
      assert DoneTo(FateOf(cmds, x), x, row1, active, row2, active2, keys2, Due(now, init, x));
    }
  }

  /** Of commands in two parts, the second decides unless it leaves the timer alone. */
  lemma {:induction false} FateThen(a: seq<Command>, b: seq<Command>, x: Id)
    ensures FateOf(a + b, x) == if FateOf(b, x) == Left then FateOf(a, x) else FateOf(b, x)
    ensures FateOf(b, x) == Left <==> x !in Ids(b)
    decreases b
  {
    if b == [] {
      assert a + b == a;
    } else {
      var n := |b| - 1;
      FateThen(a, b[..n], x);
      assert (a + b)[..|a| + n] == a + b[..n] && (a + b)[|a| + n] == b[n];
      assert x in Ids(b) <==> x in Ids(b[..n]) || x == b[n].id by {
        if x in Ids(b) {
          var i :| 0 <= i < |b| && b[i].id == x;
          assert i < n ==> b[..n][i].id == x;
        }
        if x in Ids(b[..n]) {
          var i :| 0 <= i < n && b[..n][i].id == x;
          assert b[i].id == x;
        }
      }
    }
  }

  lemma DoneThen(a: seq<Command>, b: seq<Command>, row0: seq<Id>, active0: set<Id>, row: seq<Id>, active: set<Id>,
                 keys: Keys, row': seq<Id>, active': set<Id>, keys': Keys, now: int, init: map<Id, tick>,
                   except: set<Id>,
                 t: Id, moved: set<Id>)
    requires AllDone(a, row0, active0, row, active, keys, now, init, except)
    requires AllDone(b, row, active, row', active', keys', now, init, {t})
    requires moved <= Ids(b) && SameOthers(row, keys, row', keys', moved + {t})
    ensures AllDone(a + b, row0, active0, row', active', keys', now, init, except + {t})
  {
    hide FateOf, Ids;
    forall x | x !in except + {t}
      ensures DoneTo(FateOf(a + b, x), x, row0, active0, row', active', keys', Due(now, init, x))
    {
      FateThen(a, b, x);
      assert DoneTo(FateOf(a, x), x, row0, active0, row, active, keys, Due(now, init, x));
      assert DoneTo(FateOf(b, x), x, row, active, row', active', keys', Due(now, init, x));
    }
  }

  ghost function Elems(s: seq<Id>): (r: set<Id>) { set x | x in s }

  /** The commands of the timeout functions of `fired`, one after the other. */
  ghost function AllCommands(actions: map<Id, seq<Command>>, fired: seq<Id>): (r: seq<Command>) {
    if fired == [] then []
    else AllCommands(actions, fired[..|fired| - 1]) + ActionsOf(actions, fired[|fired| - 1])
  }

  lemma NoCommands(actions: map<Id, seq<Command>>)
    ensures AllCommands(actions, []) == [] && Elems([]) == {}
  {
  }

  lemma CommandsOneMore(actions: map<Id, seq<Command>>, fired: seq<Id>, t: Id)
    ensures AllCommands(actions, fired + [t]) == AllCommands(actions, fired) + ActionsOf(actions, t)
    ensures Elems(fired + [t]) == Elems(fired) + {t}
  {
    assert (fired + [t])[..|fired|] == fired;
  }

  /** What starting `id` does to the list, the active timers and the timer `t` that fires. */
  lemma OneStarted(row: seq<Id>, keys: Keys, active: set<Id>, row': seq<Id>, now: int, due: int, k: Key, id: Id,
                   t: Id, f: Fate, wasActive: bool, d: int)
    requires InsertedIn(Drop(row, id), row', keys[id := k], due, id) && k.due == due > now
    requires OwnState(f, t, wasActive, row, active, keys, d) && (id == t ==> d == due)
    ensures SameOthers(row, keys, row', keys[id := k], {id}) && SameActive(active, active + {id}, {id})
    ensures LaterIn(row', keys[id := k], {id}, now)
    ensures TookEffect(StartTimer(id), row, active, row', active + {id}, keys[id := k], {id}, due)
    ensures OwnState(After(f, StartTimer(id), t), t, wasActive, row', active + {id}, keys[id := k], d)
  {
    hide InsertedIn;
    InsertedInElems(Drop(row, id), row', keys[id := k], due, id);
  }

  /** What stopping `id` does: nothing if it is not active. */
  lemma OneStopped(row: seq<Id>, keys: Keys, active: set<Id>, now: int, due: int, id: Id, t: Id, f: Fate,
                   wasActive: bool, d: int)
    requires OwnState(f, t, wasActive, row, active, keys, due)
    ensures var ok := id in active;
      var row', moved := if ok then Drop(row, id) else row, if ok then {id} else {};
      && SameOthers(row, keys, row', keys, moved) && SameActive(active, active - {id}, moved)
      && LaterIn(row', keys, moved, now) && TookEffect(StopTimer(id), row, active, row', active - {id}, keys, moved, d)
      && OwnState(After(f, StopTimer(id), t), t, wasActive, row', active - {id}, keys, due)
  {
  }

  lemma LaterInThen(row: seq<Id>, keys: Keys, row': seq<Id>, keys': Keys, touched: set<Id>, more: set<Id>, now: int)
    requires LaterIn(row, keys, touched, now) && SameOthers(row, keys, row', keys', more)
      && LaterIn(row', keys', more, now)
    ensures LaterIn(row', keys', touched + more, now)
  {
  }

  lemma SameOthersRefl(row: seq<Id>, keys: Keys, active: set<Id>, now: int)
    ensures SameOthers(row, keys, row, keys, {}) && LaterIn(row, keys, {}, now) && SameActive(active, active, {})
  {
  }

  lemma SameActiveThen(a: set<Id>, b: set<Id>, c: set<Id>, touched: set<Id>, more: set<Id>)
    requires SameActive(a, b, touched) && SameActive(b, c, more)
    ensures SameActive(a, c, touched + more)
  {
  }

  lemma OwnLeft(t: Id, row: seq<Id>, active: set<Id>, keys: Keys, due: int)
    requires t !in row
    ensures OwnState(Left, t, t in active, row, active, keys, due)
  {
  }

  lemma ActiveAgain(a: set<Id>, b: set<Id>, c: set<Id>, moved: set<Id>, t: Id)
    requires SameActive(a, b, moved) && forall x :: x != t ==> (x in b <==> x in c)
    ensures SameActive(a, c, moved + {t})
  {
  }

  /** A timer that its function starts has an init tick. */
  lemma {:induction false} OwnStarted(cmds: seq<Command>, t: Id, init: map<Id, tick>)
    requires Allowed(cmds, init)
    ensures FateOf(cmds, t) == Started ==> t in init && 1 <= init[t] < HALF
  {
    if cmds != [] {
      OwnStarted(cmds[..|cmds| - 1], t, init);
    }
  }

  lemma IdsNone(cmds: seq<Command>)
    ensures Ids(cmds[..0]) == {}
  {
  }

  lemma SameOthersUnlisted(row: seq<Id>, keys: Keys, row': seq<Id>, t: Id)
    requires row' == Drop(row, t)
    ensures SameOthers(row, keys, row', keys, {t}) && t !in row'
  {
  }

  lemma SameOthersFired(row: seq<Id>, row1: seq<Id>, keys: Keys, row2: seq<Id>, keys2: Keys, touched: set<Id>, t: Id)
    requires SameOthers(row, keys, row1, keys, {t}) && SameOthers(row1, keys, row2, keys2, touched)
    ensures SameOthers(row, keys, row2, keys2, touched + {t})
  {
  }

  lemma Rearmed(row: seq<Id>, keys: Keys, row2: seq<Id>, keys2: Keys, row3: seq<Id>, keys3: Keys, touched: set<Id>,
                t: Id, now: int)
    requires SameOthers(row, keys, row2, keys2, touched + {t}) && LaterIn(row2, keys2, touched, now)
    requires forall x :: x != t ==> (x in row3 <==> x in row2) && (x in keys2 ==> x in keys3 && keys3[x] == keys2[x])
    requires t in row3 ==> t in keys3 && keys3[t].due > now
    ensures SameOthers(row, keys, row3, keys3, touched + {t}) && LaterIn(row3, keys3, touched + {t}, now)
  {
  }

  function ActionsOf(actions: map<Id, seq<Command>>, t: Id): (cmds: seq<Command>) {
    if t in actions then actions[t] else []
  }

  /** The timers the timeout functions of `fired` call start or stop on, other than their own. */
  ghost function Touched(actions: map<Id, seq<Command>>, fired: seq<Id>): (s: set<Id>) {
    if fired == [] then {}
    else
      var t := fired[|fired| - 1];
      Touched(actions, fired[..|fired| - 1]) + (Ids(ActionsOf(actions, t)) - {t})
  }

  lemma TouchedOneMore(actions: map<Id, seq<Command>>, fired: seq<Id>, t: Id, moved: set<Id>, more: set<Id>)
    requires moved <= Touched(actions, fired) && more <= Ids(ActionsOf(actions, t))
    ensures moved + (more - {t}) <= Touched(actions, fired + [t])
  {
    assert (fired + [t])[..|fired|] == fired;
  }

  lemma AllowedOf(actions: map<Id, seq<Command>>, init: map<Id, tick>, t: Id)
    requires forall x :: x in actions ==> Allowed(actions[x], init)
    ensures Allowed(ActionsOf(actions, t), init)
  {
  }

  /** The timers still to fire. */
  ghost function Pending(row0: seq<Id>, fired: seq<Id>, touched: set<Id>): (s: set<Id>) {
    set x | x in row0 && x !in fired && x !in touched
  }

  /**
   How far a check got, from the list `row0`: the timers fired were due and come in order of their
   keys; what is listed and due was listed from the start, is untouched and comes after all those
   fired; whatever was neither touched nor fired is listed as it was.
   */
  ghost predicate Drained(row0: seq<Id>, keys0: Keys, row: seq<Id>, keys: Keys, fired: seq<Id>, touched: set<Id>,
                          now: int) {
    && Sorted(fired, keys0)
    && (forall x :: x in fired ==> x in row0 && x in keys0 && keys0[x].due <= now)
    && (forall x :: x in row ==> x in keys && (keys[x].due <= now ==> x in Pending(row0, fired, touched)))
    && (forall x :: x in Pending(row0, fired, touched) ==> x in row && x in keys && x in keys0 && keys[x] == keys0[x])
    && (forall x, y :: x in fired && y in Pending(row0, fired, touched) ==> Before(keys0[x], keys0[y]))
    && (forall x :: x in row ==> x in row0 || x in touched)
  }

  /**
   What became of the fired timers that no other function acted on: such a timer is listed again, for its next
   period, exactly if it is periodic and did not stop itself or is not and started itself; it is active exactly
   if it is listed and periodic.
   */
  ghost predicate Settled(row: seq<Id>, keys: Keys, active: set<Id>, fired: seq<Id>, touched: set<Id>, now: int,
                          init: map<Id, tick>, periodic: set<Id>, actions: map<Id, seq<Command>>) {
    forall x :: x in fired && x !in touched ==>
      && (x in row <==> Relisted(FateOf(ActionsOf(actions, x), x), x in periodic))
      && (x in row ==> x in init && x in keys && keys[x].due == now + init[x])
      && (x in active <==> x in row && x in periodic)
  }

  lemma DrainedNone(row: seq<Id>, keys: Keys, active: set<Id>, now: int, init: map<Id, tick>, periodic: set<Id>,
                    actions: map<Id, seq<Command>>)
    requires forall x :: x in row ==> x in keys
    ensures Drained(row, keys, row, keys, [], {}, now)
      && Settled(row, keys, active, [], {}, now, init, periodic, actions)
  {
  }

  lemma RowsAt(rows: seq<seq<Id>>, keys: Keys, l: int)
    requires Rows(rows, keys) && 0 <= l < |rows|
    ensures Sorted(rows[l], keys)
  {
  }

  lemma LaterFrom(row: seq<Id>, keys: Keys, now: int)
    requires Sorted(row, keys) && |row| > 0 && keys[row[0]].due > now
    ensures forall x :: x in row ==> x in keys && keys[x].due > now
  {
    SortedFrom(row, keys, 0);
  }

  lemma PendingHead(row0: seq<Id>, keys0: Keys, row: seq<Id>, keys: Keys, fired: seq<Id>, touched: set<Id>, now: int)
    requires Drained(row0, keys0, row, keys, fired, touched, now)
    requires Sorted(row, keys) && |row| > 0 && keys[row[0]].due <= now
    ensures row[0] in Pending(row0, fired, touched) && row[0] in keys0 && keys0[row[0]].due <= now
    ensures forall y :: y in Pending(row0, fired, touched) && y != row[0] ==>
      y in keys0 && Before(keys0[row[0]], keys0[y])
  {
    assert row[0] in row;
    SortedTail(row, keys);
    forall y | y in Pending(row0, fired, touched) && y != row[0]
      ensures y in keys0 && Before(keys0[row[0]], keys0[y])
    {
      assert y in row;
      assert y in row[1..];
    }
  }

  lemma DrainedOneMore(row0: seq<Id>, keys0: Keys, row: seq<Id>, keys: Keys, row': seq<Id>, keys': Keys, fired: seq<Id>,
                       touched: set<Id>, t: Id, ids: set<Id>, now: int)
    requires Drained(row0, keys0, row, keys, fired, touched, now)
    requires t in Pending(row0, fired, touched) && t in keys0 && keys0[t].due <= now
    requires forall y :: y in Pending(row0, fired, touched) && y != t ==> y in keys0 && Before(keys0[t], keys0[y])
    requires SameOthers(row, keys, row', keys', ids + {t}) && LaterIn(row', keys', ids + {t}, now)
    ensures Drained(row0, keys0, row', keys', fired + [t], touched + ids, now)
    ensures Pending(row0, fired + [t], touched + ids) < Pending(row0, fired, touched)
  {
    var fired', touched' := fired + [t], touched + ids;
    assert forall x :: x in fired' <==> x in fired || x == t;
    assert forall x :: x in Pending(row0, fired', touched') ==>
      x in Pending(row0, fired, touched) && x != t && x !in ids;
  }

  lemma SettledOneMore(row: seq<Id>, keys: Keys, active: set<Id>, row': seq<Id>, keys': Keys, active': set<Id>,
                       fired: seq<Id>,
                       touched: set<Id>, t: Id, ids: set<Id>, now: int, init: map<Id, tick>, periodic: set<Id>,
                       actions: map<Id, seq<Command>>)
    requires Settled(row, keys, active, fired, touched, now, init, periodic, actions) && t !in fired
    requires SameOthers(row, keys, row', keys', ids + {t}) && SameActive(active, active', ids + {t})
    requires t in row' <==> Relisted(FateOf(ActionsOf(actions, t), t), t in periodic)
    requires t in row' ==> t in init && t in keys' && keys'[t].due == now + init[t]
    requires t in active' <==> t in row' && t in periodic
    ensures Settled(row', keys', active', fired + [t], touched + ids, now, init, periodic, actions)
  {
    hide Relisted, FateOf;
  }

  /**
   The timers due by `now` fire in the order of their deadlines, ties in start order, except those
   a timeout function stopped or restarted first; with none of these, exactly the due prefix fires.
   */
  ghost predicate FiresDue(row0: seq<Id>, keys0: Keys, now: int, fired: seq<Id>, touched: set<Id>) {
    && Sorted(fired, keys0)
    && (forall x :: x in fired ==> x in row0 && keys0[x].due <= now)
    && (forall x :: x in row0 && x in keys0 && keys0[x].due <= now ==> x in fired || x in touched)
    && (touched == {} ==> exists n :: Cut(row0, keys0, now, n) && fired == row0[..n])
  }

  lemma {:induction false} CutExists(row: seq<Id>, keys: Keys, d: int) returns (n: int)
    requires Sorted(row, keys)
    ensures Cut(row, keys, d, n) && Sorted(row[..n], keys)
  {
    n := 0;
    while n < |row| && keys[row[n]].due <= d
      invariant 0 <= n <= |row| && forall i :: 0 <= i < n ==> keys[row[i]].due <= d
    {
      n := n + 1;
    }
  }

  /** Once nothing due is listed any more, everything that was due has fired or been touched. */
  lemma DrainedAll(row0: seq<Id>, keys0: Keys, row: seq<Id>, keys: Keys, fired: seq<Id>, touched: set<Id>, now: int)
    requires Drained(row0, keys0, row, keys, fired, touched, now) && Sorted(row0, keys0)
    requires forall x :: x in row ==> x in keys && keys[x].due > now
    ensures FiresDue(row0, keys0, now, fired, touched)
  {
    forall x | x in row0 && x in keys0 && keys0[x].due <= now
      ensures x in fired || x in touched
    {
      assert x in Pending(row0, fired, touched) <==> x !in fired && x !in touched;
    }
    if touched == {} {
      var n := CutExists(row0, keys0, now);
      forall x
        ensures x in fired <==> x in row0[..n]
      {
        assert row0 == row0[..n] + row0[n..];
      }
      SortedIsUnique(fired, row0[..n], keys0);
    }
  }

  lemma SameOthersThen(a: seq<Id>, k: Keys, b: seq<Id>, l: Keys, c: seq<Id>, m: Keys, touched: set<Id>, more: set<Id>)
    requires SameOthers(a, k, b, l, touched) && SameOthers(b, l, c, m, more)
    ensures SameOthers(a, k, c, m, touched + more)
  {
  }

  lemma IdsOneMore(cmds: seq<Command>, i: int)
    requires 0 <= i < |cmds|
    ensures Ids(cmds[..i + 1]) == Ids(cmds[..i]) + {cmds[i].id}
  {
    var a, b := cmds[..i], cmds[..i + 1];
    assert b[i] == cmds[i];
    forall x | x in Ids(a)
      ensures x in Ids(b)
    {
      var j :| 0 <= j < |a| && a[j].id == x;
      assert b[j].id == x;
    }
  }

  lemma ArmedSubset(row: seq<Id>, row': seq<Id>, timeout: map<Id, tick>, keys: Keys, now: int, slack: int, clock: int)
    requires Armed(row, timeout, keys, now, slack, clock) && forall x :: x in row' ==> x in row
    ensures Armed(row', timeout, keys, now, slack, clock)
  {
  }

  /** A timeout of less than half the tick range from now can be compared with all listed ones. */
  lemma ArmedStarted(row: seq<Id>, timeout: map<Id, tick>, keys: Keys, now: int, slack: int, clock: int, t: Id, d: int)
    requires Armed(row, timeout, keys, now, slack, clock) && t !in row && now <= d < now + HALF && 0 <= slack <= 1
    ensures var timeout', keys' := timeout[t := Wrap(d)], keys[t := Key(d, clock)];
      && Armed(row, timeout', keys', now, slack, clock) && Comparable(row, timeout', keys', d)
      && (forall x :: x in row ==> keys'[x].stamp < clock)
  {
  }

  lemma ArmedInserted(row: seq<Id>, row': seq<Id>, timeout: map<Id, tick>, keys: Keys, now: int, slack: int, clock: int,
                      t: Id)
    requires Armed(row, timeout, keys, now, slack, clock - 1) && forall x :: x in row' ==> x in row || x == t
    requires t in keys && t in timeout && timeout[t] == Wrap(keys[t].due) && keys[t].stamp < clock
    requires now - slack <= keys[t].due < now + HALF
    ensures Armed(row', timeout, keys, now, slack, clock)
  {
  }

  lemma CutBounds(rows: seq<seq<Id>>, keys: Keys, d: int, heads: seq<int>)
    requires |heads| == |rows| && forall l :: 0 <= l < |rows| ==> Cut(rows[l], keys, d, heads[l])
    ensures forall l :: 0 <= l < |rows| ==> 0 <= heads[l] <= |rows[l]|
  {
  }

  lemma BottomLinked(mid: seq<seq<Id>>, rows: seq<seq<Id>>, heads: seq<int>, t: Id, from: int)
    requires LinkedFrom(mid, rows, heads, t, from)
    ensures var b := |mid| - 1;
      rows[b] == InsertAt(mid[b], heads[b], t) && forall x :: x in rows[b] <==> x in mid[b] || x == t
  {
    InsertedElems(mid[|mid| - 1], heads[|mid| - 1], t);
  }

  lemma RowsFrame(rows: seq<seq<Id>>, keys: Keys, t: Id, k: Key)
    requires Rows(rows, keys) && forall l :: 0 <= l < |rows| ==> t !in rows[l]
    ensures Rows(rows, keys[t := k])
  {
    forall l | 0 <= l < |rows|
      ensures Sorted(rows[l], keys[t := k])
    {
      SortedFrame(rows[l], keys, t, k);
    }
  }

  /** Inserting the latest timer at the cuts of the lower rows keeps the rows sorted and nested. */
  lemma RowsInserted(mid: seq<seq<Id>>, rows: seq<seq<Id>>, keys: Keys, t: Id, heads: seq<int>, from: int)
    requires Rows(mid, keys) && LinkedFrom(mid, rows, heads, t, from) && t in keys
    requires forall x :: x in mid[|mid| - 1] ==> keys[x].stamp < keys[t].stamp
    requires forall l :: 0 <= l < |mid| ==> Cut(mid[l], keys, keys[t].due, heads[l])
    ensures Rows(rows, keys)
  {
    forall l | 0 <= l < |rows|
      ensures Sorted(rows[l], keys)
    {
      if l >= from {
        forall x | x in mid[l]
          ensures keys[x].stamp < keys[t].stamp
        {
          InBottom(mid, l, x);
        }
        InsertedSorted(mid[l], keys, t, heads[l]);
      }
    }
    forall l | 0 <= l < |rows| - 1
      ensures NestedAt(rows, l)
    {
      assert NestedAt(mid, l);
      InsertedElems(mid[l], heads[l], t);
      InsertedElems(mid[l + 1], heads[l + 1], t);
    }
  }

  /**
   A one-shot timer whose function starts it again: it is listed but not active, and stopping it is refused, so it
   stays listed and will fire once more.
   */
  method OneShotRestarts(levels: nat, base: nat, tick0: tick, random0: tick) returns (q: Timers, ok: bool)
    requires levels >= 1 && base in {2, 4}
    ensures fresh(q) && q.Valid() && q.Bottom() == [0] && 0 !in q.activated && !ok
  {
    q := new Timers(levels, base, map[0 := 1], {}, tick0, random0);
    q.Start(0);
    FirstListed(q.Bottom(), q.keys, q.now + 1);
    var actions := map[0 := [StartTimer(0)]];
    var fired;
    ghost var moved;
    ghost var row, ks := q.Bottom(), q.keys;
    fired, moved := q.Tick(actions);
    OnlyItself(row, ks, q.now, fired, moved, actions);
    FateOfOne(StartTimer(0));
    ListedAlone(row, ks, q.Bottom(), q.keys, fired, moved, q.now);
    ok := q.Stop(0);
  }

  lemma FirstListed(row: seq<Id>, keys: Keys, d: int)
    requires InsertedIn(Drop([], 0), row, keys, d, 0)
    ensures row == [0]
  {
    var k :| Cut(Drop([], 0), keys, d, k) && row == InsertAt(Drop([], 0), k, 0);
  }

  lemma FateOfOne(cmd: Command)
    ensures FateOf([cmd], cmd.id) == After(Left, cmd, cmd.id)
  {
    assert [cmd][..0] == [];
  }

  lemma {:induction false} TouchedSelf(actions: map<Id, seq<Command>>, fired: seq<Id>)
    requires actions == map[0 := [StartTimer(0)]] && forall i :: 0 <= i < |fired| ==> fired[i] == 0
    ensures Touched(actions, fired) == {}
  {
    if fired != [] {
      TouchedSelf(actions, fired[..|fired| - 1]);
      assert Ids([StartTimer(0)]) == {0} by { assert [StartTimer(0)][0].id == 0; }
    }
  }

  lemma OnlyItself(row: seq<Id>, keys: Keys, now: int, fired: seq<Id>, moved: set<Id>, actions: map<Id, seq<Command>>)
    requires row == [0] && 0 in keys && keys[0].due <= now && FiresDue(row, keys, now, fired, moved)
    requires moved <= Touched(actions, fired) && actions == map[0 := [StartTimer(0)]]
    ensures 0 in fired && moved == {}
  {
    forall i | 0 <= i < |fired|
      ensures fired[i] == 0
    {
      assert fired[i] in fired;
    }
    TouchedSelf(actions, fired);
    assert 0 in row;
  }

  lemma ListedAlone(row0: seq<Id>, keys0: Keys, row: seq<Id>, keys: Keys, fired: seq<Id>, moved: set<Id>, now: int)
    requires row0 == [0] && Drained(row0, keys0, row, keys, fired, moved, now) && moved == {} && 0 in row
      && Sorted(row, keys)
    ensures row == [0]
  {
    forall i | 0 <= i < |row|
      ensures row[i] == 0
    {
      assert row[i] in row;
    }
    if |row| >= 2 { SortedPair(row, keys); }
  }

  lemma SortedPair(row: seq<Id>, keys: Keys)
    requires Sorted(row, keys) && |row| >= 2
    ensures row[0] != row[1]
  {
  }
}
