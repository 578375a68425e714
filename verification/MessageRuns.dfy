/**
 Whole runs of a message queue: every event keeps the nodes and threads in order, what a send links is
 what it was called with, and what a receive returns is what it took.
 */
module MessageRuns {
  import opened MessageQueue
  import opened Sequences
  import opened WaitList
  import opened Words

  // ------------------------------------------------- every event keeps order

  lemma AcquireGood(v: View, max: nat, msgSize: nat, t: Thread, message: Message, urgent: bool)
    requires Good(v, max, msgSize) && RoleIn(v.role, t) == Outside
    ensures Good(AcquireMove(v, t, message, urgent, msgSize).next, max, msgSize)
  {
    hide Good, Shift;
    if |message| <= msgSize && v.free != [] {
      var n := v.free[0];
      assert n in v.free;
      GoodPlaces(v, max, msgSize, n);
      ShiftFront(v.free);
      ShiftPush(v.queued, n);
      NodeMove(v, max, msgSize, t, Reserved(n, message, urgent), n, Held(t), v.free[1..], v.queued);
    }
  }

  lemma CopyInGood(v: View, max: nat, msgSize: nat, t: Thread)
    requires Good(v, max, msgSize) && RoleIn(v.role, t).Reserved?
    ensures var r := RoleIn(v.role, t); Good(CopyInMove(v, t, r.node, r.message, r.urgent).next, max, msgSize)
  {
    hide Good;
    var r := RoleIn(v.role, t);
    GoodHolder(v, max, msgSize, t, r.node);
    var m := r.message + v.data[r.node][|r.message|..];
    DataMove(v, max, msgSize, t, Filled(r.node, r.message, r.urgent), r.node, m);
  }

  lemma LinkGood(v: View, max: nat, msgSize: nat, t: Thread)
    requires Good(v, max, msgSize) && RoleIn(v.role, t).Filled?
    ensures var r := RoleIn(v.role, t); Good(LinkMove(v, t, r.node, r.urgent).next, max, msgSize)
  {
    hide Good, Shift;
    var r := RoleIn(v.role, t);
    var queued := if r.urgent then [r.node] + v.queued else v.queued + [r.node];
    QueueMove(v, max, msgSize, t, r.node, queued);
    var linked := v.(role := v.role[t := Outside], place := v.place[r.node := Queued], queued := queued);
    if v.waiting != [] {
      var w := v.waiting[0];
      assert w in v.waiting;
      GoodThread(linked, max, msgSize, w);
      WaitingFront(v.waiting);
      ThreadMove(linked, max, msgSize, w, Woken, v.waiting[1..], v.woken + {w}, v.error);
    }
  }

  lemma RecvGood(v: View, max: nat, msgSize: nat, t: Thread, wait: bool, again: bool, prio: Priorities, order: Order)
    requires Good(v, max, msgSize) && RoleIn(v.role, t) == Outside
    ensures Good(RecvMove(v, t, wait, again, prio, order).next, max, msgSize)
  {
    hide Good, Shift, Suspend;
    GoodThread(v, max, msgSize, t);
    if v.queued != [] {
      UnlinkMove(v, max, msgSize, t);
    } else if wait {
      ShiftWait(v.waiting, t, prio, order);
      ThreadMove(v, max, msgSize, t, Waiting, Suspend(v.waiting, t, prio, order), v.woken, v.error[t := EOk]);
    } else if again {
      ShiftNone(v.waiting, t);
      ThreadMove(v, max, msgSize, t, Outside, v.waiting, v.woken, v.error[t := ETimeout]);
    }
  }

  lemma WokenGood(v: View, max: nat, msgSize: nat, t: Thread)
    requires Good(v, max, msgSize) && (RoleIn(v.role, t) == Woken || RoleIn(v.role, t) == Failing)
    ensures Good(v.(role := v.role[t := Outside], woken := v.woken - {t}), max, msgSize)
  {
    hide Good, Shift;
    GoodThread(v, max, msgSize, t);
    ShiftNone(v.waiting, t);
    ThreadMove(v, max, msgSize, t, Outside, v.waiting, v.woken - {t}, v.error);
  }

  lemma CopiedGood(v: View, max: nat, msgSize: nat, t: Thread)
    requires Good(v, max, msgSize) && RoleIn(v.role, t).Taken?
    ensures Good(v.(role := v.role[t := Copied(RoleIn(v.role, t).node)]), max, msgSize)
  {
    hide Good;
    var n := RoleIn(v.role, t).node;
    GoodHolder(v, max, msgSize, t, n);
    DataMove(v, max, msgSize, t, Copied(n), n, v.data[n]);
    assert v.data[n := v.data[n]] == v.data;
  }

  lemma BackGood(v: View, max: nat, msgSize: nat, t: Thread)
    requires Good(v, max, msgSize) && RoleIn(v.role, t).Copied?
    ensures var n := RoleIn(v.role, t).node;
      Good(v.(role := v.role[t := Outside], place := v.place[n := Free], free := [n] + v.free), max, msgSize)
  {
    hide Good, Shift;
    var n := RoleIn(v.role, t).node;
    GoodHolder(v, max, msgSize, t, n);
    GoodPlaces(v, max, msgSize, n);
    ShiftPush(v.queued, n);
    ShiftPush(v.free, n);
    NodeMove(v, max, msgSize, t, Outside, n, Free, [n] + v.free, v.queued);
  }

  lemma AdvanceGood(v: View, max: nat, msgSize: nat, t: Thread, wait: bool, size: nat, prio: Priorities, order: Order)
    requires Good(v, max, msgSize)
    ensures Good(AdvanceMove(v, t, wait, size, prio, msgSize, order).next, max, msgSize)
  {
    hide Good, CopyInMove, LinkMove, RecvMove;
    match RoleIn(v.role, t)
    case Reserved(_, _, _) => CopyInGood(v, max, msgSize, t);
    case Filled(_, _, _) => LinkGood(v, max, msgSize, t);
    case Woken =>
      WokenGood(v, max, msgSize, t);
      RecvGood(v.(role := v.role[t := Outside], woken := v.woken - {t}), max, msgSize, t, wait, true, prio, order);
    case Taken(_, _) => CopiedGood(v, max, msgSize, t);
    case Copied(_) => BackGood(v, max, msgSize, t);
    case Failing =>
      WokenGood(v, max, msgSize, t);
      GoodThread(v, max, msgSize, t);
      assert v.woken - {t} == v.woken;
    case _ =>
  }

  lemma {:induction false} DismissGood(v: View, max: nat, msgSize: nat)
    requires Good(v, max, msgSize)
    ensures Good(DismissedAll(v), max, msgSize)
    decreases |v.waiting|
  {
    hide Good, Shift;
    if v.waiting != [] {
      var w := v.waiting[0];
      assert w in v.waiting;
      GoodThread(v, max, msgSize, w);
      WaitingFront(v.waiting);
      assert v.woken - {w} == v.woken;
      ThreadMove(v, max, msgSize, w, Failing, v.waiting[1..], v.woken, v.error[w := EError]);
      DismissGood(v.(waiting := v.waiting[1..], role := v.role[w := Failing], error := v.error[w := EError]), max,
        msgSize);
    }
  }

  lemma {:induction false} DiscardGood(v: View, max: nat, msgSize: nat)
    requires Good(v, max, msgSize)
    ensures Good(DiscardedAll(v), max, msgSize)
    decreases |v.queued|
  {
    hide Good;
    if v.queued != [] {
      var n := v.queued[0];
      DiscardMove(v, max, msgSize);
      DiscardGood(v.(place := v.place[n := Free], free := [n] + v.free, queued := v.queued[1..]), max, msgSize);
    }
  }

  lemma ExpiryGood(v: View, max: nat, msgSize: nat, t: Thread)
    requires Good(v, max, msgSize) && RoleIn(v.role, t) == Waiting
    ensures Good(v.(waiting := Remove(v.waiting, t), role := v.role[t := Failing], error := v.error[t := ETimeout]),
                 max, msgSize)
  {
    hide Good, Shift, Remove;
    GoodThread(v, max, msgSize, t);
    ShiftGone(v.waiting, t);
    assert v.woken - {t} == v.woken;
    ThreadMove(v, max, msgSize, t, Failing, Remove(v.waiting, t), v.woken, v.error[t := ETimeout]);
  }

  /** Every event keeps every node in one place and every thread in one role. */
  lemma NextGood(v: View, ev: Event, max: nat, msgSize: nat, prio: Priorities, order: Order)
    requires Good(v, max, msgSize)
    ensures Good(Next(v, ev, prio, msgSize, order).next, max, msgSize)
  {
    hide Good, AcquireMove, RecvMove, AdvanceMove, DismissedAll, DiscardedAll, Remove;
    match ev
    case SendCall(t, message, urgent) =>
      if RoleIn(v.role, t) == Outside { AcquireGood(v, max, msgSize, t, message, urgent); }
    case RecvCall(t, wait) =>
      if RoleIn(v.role, t) == Outside { RecvGood(v, max, msgSize, t, wait, false, prio, order); }
    case NextStep(t, wait, size) => AdvanceGood(v, max, msgSize, t, wait, size, prio, order);
    case Expiry(t) =>
      if RoleIn(v.role, t) == Waiting { ExpiryGood(v, max, msgSize, t); }
    case ResetCall =>
      DismissGood(v, max, msgSize);
      DiscardGood(DismissedAll(v), max, msgSize);
  }

  // ------------------------------------------------- what a send was called with

  /** The last send a thread has begun: its message and whether it is urgent. */
  datatype Sends = NoSend | Sends(message: Message, urgent: bool)

  ghost function Begun(v: View, ev: Event, t: Thread, before: Sends): (r: Sends) {
    if ev.SendCall? && ev.t == t && RoleIn(v.role, t) == Outside then Sends(ev.message, ev.urgent) else before
  }

  ghost function LastBegun(v: View, evs: seq<Event>, prios: seq<Priorities>, msgSize: nat, order: Order,
                           t: Thread): (r: Sends)
    requires |prios| == |evs|
    decreases evs
  {
    if evs == [] then NoSend
    else
      var n := |evs| - 1;
      Begun(Traced(v, evs[..n], prios[..n], msgSize, order).last, evs[n], t,
            LastBegun(v, evs[..n], prios[..n], msgSize, order, t))
  }

  /** A thread that has a node for a send still knows what it was called with. */
  ghost predicate Carries(v: View, t: Thread, b: Sends) {
    match RoleIn(v.role, t)
    case Reserved(_, m, urgent) => b == Sends(m, urgent)
    case Filled(_, m, urgent) => b == Sends(m, urgent)
    case _ => true
  }

  /** `out` links a message that begins with that of `b`, at the end that `b` says. */
  ghost predicate Enters(out: Out, b: Sends) {
    b.Sends? && out.Did? && match out.op
      case Append(m) => !b.urgent && b.message <= m
      case Prepend(m) => b.urgent && b.message <= m
      case _ => false
  }

  ghost predicate IsLink(out: Out) { out.Did? && (out.op.Append? || out.op.Prepend?) }

  lemma LinkCarries(v: View, max: nat, msgSize: nat, x: Thread, t: Thread, b: Sends)
    requires Good(v, max, msgSize) && RoleIn(v.role, x).Filled? && Carries(v, t, b)
    ensures var r := RoleIn(v.role, x); var m := LinkMove(v, x, r.node, r.urgent);
      Carries(m.next, t, b) && IsLink(m.out) && (x == t ==> Enters(m.out, b))
  {
    hide Good;
    GoodHolder(v, max, msgSize, x, RoleIn(v.role, x).node);
  }

  lemma AdvanceCarries(v: View, max: nat, msgSize: nat, x: Thread, wait: bool, size: nat, prio: Priorities,
                       order: Order,
                       t: Thread, b: Sends)
    requires Good(v, max, msgSize) && Carries(v, t, b)
    ensures var m := AdvanceMove(v, x, wait, size, prio, msgSize, order);
      Carries(m.next, t, b) && (IsLink(m.out) && x == t ==> Enters(m.out, b))
  {
    hide Good, LinkMove, CopyInMove, RecvMove;
    match RoleIn(v.role, x)
    case Reserved(_, _, _) =>
      CopyInCarries(v, x, t, b);
    case Filled(_, _, _) =>
      LinkCarries(v, max, msgSize, x, t, b);
    case Woken =>
      RecvCarries(v.(role := v.role[x := Outside], woken := v.woken - {x}), x, wait, true, prio, order, t, b);
    case _ =>
  }

  lemma CopyInCarries(v: View, x: Thread, t: Thread, b: Sends)
    requires RoleIn(v.role, x).Reserved? && Carries(v, t, b)
    ensures var r := RoleIn(v.role, x); var m := CopyInMove(v, x, r.node, r.message, r.urgent);
      Carries(m.next, t, b) && m.out == Silent
  {
  }

  lemma RecvCarries(v: View, x: Thread, wait: bool, again: bool, prio: Priorities, order: Order, t: Thread, b: Sends)
    requires Carries(v, t, b)
    ensures var m := RecvMove(v, x, wait, again, prio, order); Carries(m.next, t, b) && !IsLink(m.out)
  {
    hide Suspend;
  }

  lemma NextCarries(v: View, ev: Event, max: nat, msgSize: nat, prio: Priorities, order: Order, t: Thread, b: Sends)
    requires Good(v, max, msgSize) && Carries(v, t, b)
    ensures var m, b' := Next(v, ev, prio, msgSize, order), Begun(v, ev, t, b);
      && Carries(m.next, t, b') && (IsLink(m.out) ==> ev.NextStep?)
      && (IsLink(m.out) && ev.t == t ==> Enters(m.out, b'))
  {
    hide Good, AdvanceMove, RecvMove, Remove, DismissedAll, DiscardedAll;
    match ev
    case SendCall(_, _, _) =>
    case RecvCall(x, wait) => RecvCarries(v, x, wait, false, prio, order, t, b);
    case NextStep(x, wait, size) => AdvanceCarries(v, max, msgSize, x, wait, size, prio, order, t, b);
    case Expiry(_) =>
    case ResetCall =>
      DismissedAt(v, t);
      DiscardedAt(DismissedAll(v), 0);
  }

  lemma {:induction false} RunCarries(v: View, evs: seq<Event>, prios: seq<Priorities>, max: nat, msgSize: nat,
                                      order: Order, t: Thread)
    requires |prios| == |evs| && Good(v, max, msgSize) && RoleIn(v.role, t) == Outside
    ensures var r := Traced(v, evs, prios, msgSize, order).last;
      Good(r, max, msgSize) && Carries(r, t, LastBegun(v, evs, prios, msgSize, order, t))
    decreases evs
  {
    hide Next, Good;
    if evs != [] {
      var n := |evs| - 1;
      RunCarries(v, evs[..n], prios[..n], max, msgSize, order, t);
      var before := Traced(v, evs[..n], prios[..n], msgSize, order).last;
      NextGood(before, evs[n], max, msgSize, prios[n], order);
      NextCarries(before, evs[n], max, msgSize, prios[n], order, t,
        LastBegun(v, evs[..n], prios[..n], msgSize, order, t));
    }
  }

  /**
   Over every run, whatever enters the queue was sent: the step that links it belongs to a thread whose last send was
   for a message it begins with, and it enters at the front exactly if that send was urgent.
   */
  lemma LinkedIsSent(v: View, evs: seq<Event>, prios: seq<Priorities>, max: nat, msgSize: nat, order: Order, k: nat)
    requires |prios| == |evs| && Good(v, max, msgSize) && k < |evs|
    ensures var out := Traced(v, evs[..k + 1], prios[..k + 1], msgSize, order).outs[k];
      IsLink(out) ==> evs[k].NextStep? && (RoleIn(v.role, evs[k].t) == Outside ==>
        Enters(out, LastBegun(v, evs[..k + 1], prios[..k + 1], msgSize, order, evs[k].t)))
  {
    hide Next, Good, Enters, Carries;
    var a, pa := evs[..k + 1], prios[..k + 1];
    assert a[..k] == evs[..k] && pa[..k] == prios[..k];
    var out := Traced(v, a, pa, msgSize, order).outs[k];
    var before := Traced(v, evs[..k], prios[..k], msgSize, order).last;
    if IsLink(out) {
      RunGood(v, evs[..k], prios[..k], max, msgSize, order);
      OnlyStepsLink(before, evs[k], max, msgSize, prios[k], order);
      var t := evs[k].t;
      if RoleIn(v.role, t) == Outside {
        RunCarries(v, evs[..k], prios[..k], max, msgSize, order, t);
        NextCarries(before, evs[k], max, msgSize, prios[k], order, t,
                    LastBegun(v, evs[..k], prios[..k], msgSize, order, t));
      }
    }
  }

  lemma {:induction false} RunGood(v: View, evs: seq<Event>, prios: seq<Priorities>, max: nat, msgSize: nat,
                                   order: Order)
    requires |prios| == |evs| && Good(v, max, msgSize)
    ensures Good(Traced(v, evs, prios, msgSize, order).last, max, msgSize)
    decreases evs
  {
    hide Next, Good;
    if evs != [] {
      var n := |evs| - 1;
      RunGood(v, evs[..n], prios[..n], max, msgSize, order);
      NextGood(Traced(v, evs[..n], prios[..n], msgSize, order).last, evs[n], max, msgSize, prios[n], order);
    }
  }

  lemma OnlyStepsLink(v: View, ev: Event, max: nat, msgSize: nat, prio: Priorities, order: Order)
    requires IsLink(Next(v, ev, prio, msgSize, order).out)
    ensures ev.NextStep?
  {
    hide AdvanceMove, Suspend, Remove, DismissedAll, DiscardedAll;
  }

  // ------------------------------------------------- what a receive has taken

  /** The last message a thread has taken out of the queue. */
  datatype Takes = NoTake | Takes(message: Message)

  ghost function Popped(ev: Event, out: Out, t: Thread, before: Takes): (r: Takes) {
    if (ev.RecvCall? || ev.NextStep?) && ev.t == t && out.Did? && out.op.Pop? then Takes(out.op.m) else before
  }

  ghost function LastPopped(evs: seq<Event>, outs: seq<Out>, t: Thread): (r: Takes)
    requires |outs| == |evs|
    decreases evs
  {
    if evs == [] then NoTake
    else
      var n := |evs| - 1;
      Popped(evs[n], outs[n], t, LastPopped(evs[..n], outs[..n], t))
  }

  ghost predicate HasTaken(v: View, t: Thread, b: Takes) {
    RoleIn(v.role, t).Taken? ==> b == Takes(RoleIn(v.role, t).message)
  }

  /** `out` fills a buffer of at most `size` bytes with the start of the message of `b`. */
  ghost predicate Gives(out: Out, b: Takes, size: nat) {
    && b.Takes? && out.Gave? && out.buffer <= b.message && |out.buffer| <= size
    && (|out.buffer| == size || out.buffer == b.message)
  }

  lemma RecvTaken(v: View, max: nat, msgSize: nat, x: Thread, wait: bool, again: bool, prio: Priorities, order: Order,
                  t: Thread, b: Takes)
    requires Good(v, max, msgSize) && HasTaken(v, t, b)
    ensures var m := RecvMove(v, x, wait, again, prio, order);
      && (x != t ==> HasTaken(m.next, t, b)) && !m.out.Gave?
      && (x == t ==> HasTaken(m.next, t, if m.out.Did? && m.out.op.Pop? then Takes(m.out.op.m) else b))
  {
    hide Good, Suspend;
    QueuedHaveData(v, max, msgSize);
  }

  lemma CopyInTaken(v: View, x: Thread, t: Thread, b: Takes)
    requires RoleIn(v.role, x).Reserved? && HasTaken(v, t, b)
    ensures var r := RoleIn(v.role, x); var m := CopyInMove(v, x, r.node, r.message, r.urgent);
      HasTaken(m.next, t, b) && m.out == Silent
  {
  }

  lemma LinkTaken(v: View, x: Thread, t: Thread, b: Takes)
    requires RoleIn(v.role, x).Filled? && RoleIn(v.role, x).node in v.data && HasTaken(v, t, b)
    ensures var r := RoleIn(v.role, x); var m := LinkMove(v, x, r.node, r.urgent);
      HasTaken(m.next, t, b) && IsLink(m.out)
  {
  }

  lemma AdvanceTaken(v: View, max: nat, msgSize: nat, x: Thread, wait: bool, size: nat, prio: Priorities, order: Order,
                     t: Thread, b: Takes)
    requires Good(v, max, msgSize) && HasTaken(v, t, b)
    ensures var m := AdvanceMove(v, x, wait, size, prio, msgSize, order);
      && HasTaken(m.next, t, Popped(NextStep(x, wait, size), m.out, t, b))
      && (m.out.Gave? ==> m.out.t == x && (x == t ==> Gives(m.out, b, size)))
  {
    hide Good, RecvMove, LinkMove, CopyInMove;
    match RoleIn(v.role, x)
    case Reserved(_, _, _) =>
      CopyInTaken(v, x, t, b);
    case Woken =>
      WokenGood(v, max, msgSize, x);
      RecvTaken(v.(role := v.role[x := Outside], woken := v.woken - {x}), max, msgSize, x, wait, true, prio, order, t,
        b);
    case Filled(n, _, _) =>
      GoodHolder(v, max, msgSize, x, n);
      LinkTaken(v, x, t, b);
    case Taken(n, _) =>
      GoodHolder(v, max, msgSize, x, n);
    case _ =>
  }

  lemma NextTaken(v: View, ev: Event, max: nat, msgSize: nat, prio: Priorities, order: Order, t: Thread, b: Takes)
    requires Good(v, max, msgSize) && HasTaken(v, t, b)
    ensures var m := Next(v, ev, prio, msgSize, order);
      && HasTaken(m.next, t, Popped(ev, m.out, t, b)) && (m.out.Gave? ==> ev.NextStep? && m.out.t == ev.t)
      && (m.out.Gave? && ev.t == t ==> Gives(m.out, b, ev.size))
  {
    hide Good, AdvanceMove, RecvMove, Remove, DismissedAll, DiscardedAll;
    match ev
    case SendCall(_, _, _) =>
    case RecvCall(x, wait) =>
      RecvTaken(v, max, msgSize, x, wait, false, prio, order, t, b);
    case NextStep(x, wait, size) =>
      AdvanceTaken(v, max, msgSize, x, wait, size, prio, order, t, b);
    case Expiry(_) =>
    case ResetCall =>
      DismissedAt(v, t);
      DiscardedAt(DismissedAll(v), 0);
  }

  lemma {:induction false} RunTaken(v: View, evs: seq<Event>, prios: seq<Priorities>, max: nat, msgSize: nat,
                                    order: Order, t: Thread)
    requires |prios| == |evs| && Good(v, max, msgSize) && RoleIn(v.role, t) == Outside
    ensures var r := Traced(v, evs, prios, msgSize, order);
      Good(r.last, max, msgSize) && HasTaken(r.last, t, LastPopped(evs, r.outs, t))
    decreases evs
  {
    hide Next, Good, Popped;
    if evs != [] {
      var n := |evs| - 1;
      RunTaken(v, evs[..n], prios[..n], max, msgSize, order, t);
      var before, r := Traced(v, evs[..n], prios[..n], msgSize, order), Traced(v, evs, prios, msgSize, order);
      assert r.outs[..n] == before.outs;
      NextGood(before.last, evs[n], max, msgSize, prios[n], order);
      NextTaken(before.last, evs[n], max, msgSize, prios[n], order, t, LastPopped(evs[..n], before.outs, t));
    }
  }

  /** Over every run, a buffer is filled with the start of the very message its thread took off the queue. */
  lemma GivenIsTaken(v: View, evs: seq<Event>, prios: seq<Priorities>, max: nat, msgSize: nat, order: Order, k: nat)
    requires |prios| == |evs| && Good(v, max, msgSize) && k < |evs|
    ensures var outs := Traced(v, evs[..k + 1], prios[..k + 1], msgSize, order).outs;
      outs[k].Gave? ==> evs[k].NextStep? && outs[k].t == evs[k].t && (RoleIn(v.role, evs[k].t) == Outside ==>
        Gives(outs[k], LastPopped(evs[..k], outs[..k], evs[k].t), evs[k].size))
  {
    hide Next, Good, Gives, HasTaken, LastPopped;
    var a, pa := evs[..k + 1], prios[..k + 1];
    assert a[..k] == evs[..k] && pa[..k] == prios[..k];
    var before, r := Traced(v, evs[..k], prios[..k], msgSize, order), Traced(v, a, pa, msgSize, order);
    assert r.outs[..k] == before.outs;
    if r.outs[k].Gave? {
      RunGood(v, evs[..k], prios[..k], max, msgSize, order);
      OnlyStepsGive(before.last, evs[k], msgSize, prios[k], order);
      var t := evs[k].t;
      if RoleIn(v.role, t) == Outside {
        RunTaken(v, evs[..k], prios[..k], max, msgSize, order, t);
        NextTaken(before.last, evs[k], max, msgSize, prios[k], order, t, LastPopped(evs[..k], before.outs, t));
      }
    }
  }

  lemma OnlyStepsGive(v: View, ev: Event, msgSize: nat, prio: Priorities, order: Order)
    requires Next(v, ev, prio, msgSize, order).out.Gave?
    ensures ev.NextStep? && Next(v, ev, prio, msgSize, order).out.t == ev.t
  {
    hide Suspend, Remove, DismissedAll, DiscardedAll;
  }

  // ------------------------------------------------------- steps in a row

  /** A send with a free node: two steps out of sight, and then the message is in the queue. */
  lemma SendRuns(v: View, t: Thread, message: Message, urgent: bool, max: nat, msgSize: nat, prio: Priorities,
                 order: Order, wait: bool, size: nat)
    requires Good(v, max, msgSize) && RoleIn(v.role, t) == Outside && v.free != [] && |message| <= msgSize
    ensures var n := v.free[0];
      var a := Next(v, SendCall(t, message, urgent), prio, msgSize, order);
      var b := Next(a.next, NextStep(t, wait, size), prio, msgSize, order);
      var c := Next(b.next, NextStep(t, wait, size), prio, msgSize, order);
      && a.out == Silent && b.out == Silent && Enters(c.out, Sends(message, urgent))
      && c.next.free == v.free[1..] && c.next.queued == (if urgent then [n] + v.queued else v.queued + [n])
      && RoleIn(c.next.role, t) == Outside
      && (v.waiting != [] ==> RoleIn(c.next.role, v.waiting[0]) == Woken && c.next.waiting == v.waiting[1..])
  {
    hide Good, Next, Enters;
    var n := v.free[0];
    assert n in v.free;
    GoodPlaces(v, max, msgSize, n);
    if v.waiting != [] {
      assert v.waiting[0] in v.waiting;
      GoodThread(v, max, msgSize, v.waiting[0]);
    }
    SendBegins(v, t, message, urgent, prio, msgSize, order);
    var a := Next(v, SendCall(t, message, urgent), prio, msgSize, order);
    SendGoesOn(a.next, t, prio, msgSize, order, wait, size);
    var b := Next(a.next, NextStep(t, wait, size), prio, msgSize, order);
    SendGoesOn(b.next, t, prio, msgSize, order, wait, size);
    Entered(message, v.data[n][|message|..], urgent);
  }

  lemma SendBegins(v: View, t: Thread, message: Message, urgent: bool, prio: Priorities, msgSize: nat, order: Order)
    requires RoleIn(v.role, t) == Outside
    ensures Next(v, SendCall(t, message, urgent), prio, msgSize, order) == AcquireMove(v, t, message, urgent, msgSize)
  {
    hide AcquireMove;
  }

  lemma SendGoesOn(v: View, t: Thread, prio: Priorities, msgSize: nat, order: Order, wait: bool, size: nat)
    ensures var r := RoleIn(v.role, t); var m := Next(v, NextStep(t, wait, size), prio, msgSize, order);
      && (r.Reserved? ==> m == CopyInMove(v, t, r.node, r.message, r.urgent))
      && (r.Filled? ==> m == LinkMove(v, t, r.node, r.urgent))
  {
    hide CopyInMove, LinkMove, RecvMove;
  }

  lemma Entered(message: Message, rest: Message, urgent: bool)
    ensures Enters(Did(if urgent then Prepend(message + rest) else Append(message + rest)), Sends(message, urgent))
  {
  }

  /** A receive from a queue that is not empty: the front message comes out, and its node is free again. */
  lemma ReceiveRuns(v: View, t: Thread, max: nat, msgSize: nat, prio: Priorities, order: Order, wait: bool, size: nat)
    requires Good(v, max, msgSize) && RoleIn(v.role, t) == Outside && v.queued != []
    ensures var n := v.queued[0];
      var a := Next(v, RecvCall(t, wait), prio, msgSize, order);
      var b := Next(a.next, NextStep(t, wait, size), prio, msgSize, order);
      var c := Next(b.next, NextStep(t, wait, size), prio, msgSize, order);
      && n in v.data && a.out == Did(Pop(v.data[n])) && Gives(b.out, Takes(v.data[n]), size)
      && c.out == Returned(t, EOk) && c.next.queued == v.queued[1..] && c.next.free == [n] + v.free
      && RoleIn(c.next.role, t) == Outside && c.next.data == v.data
  {
    hide Good;
    var n := v.queued[0];
    assert n in v.queued;
    GoodPlaces(v, max, msgSize, n);
    var a := Next(v, RecvCall(t, wait), prio, msgSize, order);
    assert RoleIn(a.next.role, t) == Taken(n, v.data[n]);
    var b := Next(a.next, NextStep(t, wait, size), prio, msgSize, order);
    assert RoleIn(b.next.role, t) == Copied(n);
  }

  /**
   A woken receiver takes the front message if there is one; if not it waits again, or gives up if no time is left.
   */
  lemma WokenRuns(v: View, t: Thread, max: nat, msgSize: nat, prio: Priorities, order: Order, wait: bool, size: nat)
    requires Good(v, max, msgSize) && RoleIn(v.role, t) == Woken
    ensures var a := Next(v, NextStep(t, wait, size), prio, msgSize, order);
      && t !in a.next.woken
      && (v.queued != [] ==>
            var n := v.queued[0];
            n in v.data && a.out == Did(Pop(v.data[n])) && RoleIn(a.next.role, t) == Taken(n, v.data[n])
            && a.next.queued == v.queued[1..])
      && (v.queued == [] && wait ==> a.out == Silent && RoleIn(a.next.role, t) == Waiting && t in a.next.waiting)
      && (v.queued == [] && !wait ==> a.out == Returned(t, ETimeout) && RoleIn(a.next.role, t) == Outside)
  {
    hide Good, Suspend;
    QueuedHaveData(v, max, msgSize);
  }

  /** A receive that times out returns the timeout, and the queue is as it was. */
  lemma TimedOutReturns(v: View, t: Thread, max: nat, msgSize: nat, prio: Priorities, order: Order, wait: bool,
                        size: nat)
    requires RoleIn(v.role, t) == Waiting
    ensures var a := Next(v, Expiry(t), prio, msgSize, order);
      var b := Next(a.next, NextStep(t, wait, size), prio, msgSize, order);
      && a.out == Silent && b.out == Returned(t, ETimeout) && RoleIn(b.next.role, t) == Outside
      && b.next.queued == v.queued && b.next.waiting == Remove(v.waiting, t) && b.next.data == v.data
  {
    hide Remove;
  }

  /** After a reset every receiver that waited returns an error. */
  lemma ResetReturns(v: View, t: Thread, msgSize: nat, prio: Priorities, order: Order, wait: bool, size: nat)
    requires t in v.waiting
    ensures var a := Next(v, ResetCall, prio, msgSize, order);
      var b := Next(a.next, NextStep(t, wait, size), prio, msgSize, order);
      a.out == Did(Clear) && a.next.queued == [] && b.out == Returned(t, EError) && RoleIn(b.next.role, t) == Outside
  {
    hide DismissedAll, DiscardedAll;
    ResetPlaces(v);
  }
}
