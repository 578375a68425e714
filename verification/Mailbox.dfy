/**
 Mailboxes (`ipc.c`): a bounded ring of mails with receivers and senders suspended on it. Each
 method is one stretch of code run with interrupts disabled, so a run is any sequence of calls.
 */
module Mailbox {
  import opened Sequences
  import opened WaitList
  import opened Words

  datatype Error = EOk | EError | ETimeout | EFull

  /** How a stretch ended: the call returned, or the thread was suspended in it. */
  datatype Outcome = Returned(error: Error) | Suspended

  /** Where a thread is with respect to the mailbox. */
  datatype Role =
    | Outside
    | Receiving   // suspended in a receive
    | Sending     // suspended in a send
    | WokenReceiver
    | WokenSender // resumed by a partner, has not run yet
    | Failing     // resumed by a timeout or a reset, has not run yet

  /** The steps of a run: a call begins, a resumed thread runs on, a timer expires, a reset. */
  datatype Event =
    | SendCall(t: Thread, value: word, wait: bool)
    | RecvCall(t: Thread, wait: bool)
    | Resume(t: Thread, wait: bool)
    | Expiry(t: Thread)
    | ResetCall

  type RoleMap = map<Thread, Role>

  function RoleIn(role: RoleMap, t: Thread): (r: Role) {
    if t in role then role[t] else Outside
  }

  /** Every thread is in the one list or set its role says. */
  ghost predicate Partition(role: RoleMap, r: seq<Thread>, s: seq<Thread>, wr: set<Thread>, ws: set<Thread>) {
    && (forall t :: t in r <==> RoleIn(role, t) == Receiving)
    && (forall t :: t in s <==> RoleIn(role, t) == Sending)
    && (forall t :: t in wr <==> RoleIn(role, t) == WokenReceiver)
    && (forall t :: t in ws <==> RoleIn(role, t) == WokenSender)
    && Distinct(r) && Distinct(s)
  }

  ghost predicate ShiftSet(s: set<Thread>, s': set<Thread>, t: Thread, holds: bool) {
    s' == if holds then s + {t} else s - {t}
  }

  lemma PartitionMoved(role: RoleMap, t: Thread, to: Role, r: seq<Thread>, s: seq<Thread>, wr: set<Thread>,
                       ws: set<Thread>,
                       r': seq<Thread>, s': seq<Thread>, wr': set<Thread>, ws': set<Thread>)
    requires Partition(role, r, s, wr, ws)
    requires Shift(r, r', t, to == Receiving) && Shift(s, s', t, to == Sending)
    requires ShiftSet(wr, wr', t, to == WokenReceiver) && ShiftSet(ws, ws', t, to == WokenSender)
    ensures Partition(role[t := to], r', s', wr', ws')
  {
    forall x
      ensures RoleIn(role[t := to], x) == if x == t then to else RoleIn(role, x)
    {
    }
  }

  lemma WhoIsWhere(role: RoleMap, r: seq<Thread>, s: seq<Thread>, wr: set<Thread>, ws: set<Thread>, t: Thread)
    requires Partition(role, r, s, wr, ws)
    ensures t in r <==> RoleIn(role, t) == Receiving
    ensures t in s <==> RoleIn(role, t) == Sending
    ensures t in wr <==> RoleIn(role, t) == WokenReceiver
    ensures t in ws <==> RoleIn(role, t) == WokenSender
    ensures Distinct(r) && Distinct(s)
    ensures (t !in wr ==> ShiftSet(wr, wr, t, false)) && (t !in ws ==> ShiftSet(ws, ws, t, false))
  {
  }

  /** Two maps agree on everything but `t`. */
  ghost predicate SameElse<V>(m: map<Thread, V>, m': map<Thread, V>, t: Thread) {
    m - {t} == m' - {t}
  }

  lemma SameUpdated<V>(m: map<Thread, V>, t: Thread, v: V)
    ensures SameElse(m, m, t) && SameElse(m, m[t := v], t)
  {
  }

  lemma Less(s: set<Thread>, t: Thread)
    ensures |s - {t}| == |s| - if t in s then 1 else 0
  {
    if t !in s { assert s - {t} == s; }
  }

  /** What the error number and the argument of a thread are in its role. */
  ghost predicate FlagAt(r: Role, error: map<Thread, Error>, outgoing: map<Thread, word>, t: Thread) {
    match r
    case Outside => true
    case Failing => t in error && error[t] != EOk
    case Receiving => t in error && error[t] == EOk
    case WokenReceiver => t in error && error[t] == EOk
    case Sending => t in error && error[t] == EOk && t in outgoing
    case WokenSender => t in error && error[t] == EOk && t in outgoing
  }

  ghost predicate FlagsOf(role: RoleMap, error: map<Thread, Error>, outgoing: map<Thread, word>) {
    forall t :: FlagAt(RoleIn(role, t), error, outgoing, t)
  }

  lemma FlagsMoved(role: RoleMap, t: Thread, to: Role, e: map<Thread, Error>, o: map<Thread, word>,
                   e': map<Thread, Error>, o': map<Thread, word>)
    requires FlagsOf(role, e, o) && SameElse(e, e', t) && SameElse(o, o', t) && FlagAt(to, e', o', t)
    ensures FlagsOf(role[t := to], e', o')
  {
    var role' := role[t := to];
    forall x
      ensures FlagAt(RoleIn(role', x), e', o', x)
    {
      assert FlagAt(RoleIn(role, x), e, o, x);
      assert x != t ==>
        (x in e <==> x in e - {t}) && (x in e' <==> x in e' - {t}) && (x in o <==> x in o - {t})
        && (x in o' <==> x in o' - {t});
      assert x != t && x in e ==> (e - {t})[x] == (e' - {t})[x];
    }
  }

  lemma SameRole(role: RoleMap, t: Thread, error: map<Thread, Error>, outgoing: map<Thread, word>)
    requires RoleIn(role, t) == Outside && FlagsOf(role[t := Outside], error, outgoing)
    ensures FlagsOf(role, error, outgoing)
  {
    forall x
      ensures FlagAt(RoleIn(role, x), error, outgoing, x)
    {
      assert RoleIn(role[t := Outside], x) == RoleIn(role, x);
    }
  }

  lemma FlagOf(role: RoleMap, error: map<Thread, Error>, outgoing: map<Thread, word>, t: Thread)
    requires FlagsOf(role, error, outgoing)
    ensures FlagAt(RoleIn(role, t), error, outgoing, t)
  {
  }

  lemma NotListed(role: RoleMap, r: seq<Thread>, s: seq<Thread>, wr: set<Thread>, ws: set<Thread>, t: Thread)
    requires Partition(role, r, s, wr, ws) && RoleIn(role, t) == Outside
    ensures r != [] ==> r[0] != t
    ensures s != [] ==> s[0] != t
  {
    assert r != [] ==> r[0] in r;
    assert s != [] ==> s[0] in s;
  }

  lemma ShiftAway(list: seq<Thread>)
    requires Distinct(list) && |list| > 0
    ensures Shift(list, list[1..], list[0], false)
  {
    TailElems(list);
  }

  lemma ShiftIn(list: seq<Thread>, t: Thread, prio: Priorities, order: Order)
    requires Distinct(list) && t !in list
    ensures Shift(list, Suspend(list, t, prio, order), t, true)
  {
    SuspendDistinct(list, t, prio, order);
  }

  lemma ShiftOut(list: seq<Thread>, t: Thread)
    requires Distinct(list)
    ensures Shift(list, Remove(list, t), t, false) && (Remove(list, t) != [] ==> list != [])
  {
    RemoveDistinct(list, t);
  }

  lemma TimeoutShifts(role: RoleMap, r: seq<Thread>, s: seq<Thread>, wr: set<Thread>, ws: set<Thread>, t: Thread)
    requires Partition(role, r, s, wr, ws) && (RoleIn(role, t) == Receiving || RoleIn(role, t) == Sending)
    ensures Shift(r, Remove(r, t), t, false) && Shift(s, Remove(s, t), t, false)
    ensures (Remove(r, t) != [] ==> r != []) && (Remove(s, t) != [] ==> s != [])
    ensures ShiftSet(wr, wr, t, false) && ShiftSet(ws, ws, t, false)
  {
    ShiftOut(r, t);
    ShiftOut(s, t);
  }

  lemma ShiftNot(list: seq<Thread>, t: Thread)
    requires Distinct(list) && t !in list
    ensures Shift(list, list, t, false)
  {
  }

  /** The place of the `k`-th mail in a ring of `size` that starts at `out`. */
  function Wrapped(out: int, k: int, size: int): (i: int) {
    if out + k < size then out + k else out + k - size
  }

  /** The `n` mails of a ring from `out` on. */
  ghost function Stored(p: seq<word>, out: int, n: int): (s: seq<word>)
    requires 0 <= n <= |p| && 0 <= out && (out < |p| || |p| == 0)
    ensures |s| == n
    decreases n
  {
    if n == 0 then [] else [p[out]] + Stored(p, Wrapped(out, 1, |p|), n - 1)
  }

  /** A mail written behind the last one is appended. */
  lemma {:induction false} StoredPut(p: seq<word>, out: int, n: int, v: word)
    requires 0 <= n < |p| && 0 <= out < |p|
    ensures Stored(p[Wrapped(out, n, |p|) := v], out, n + 1) == Stored(p, out, n) + [v]
    decreases n
  {
    var i := Wrapped(out, n, |p|);
    var p' := p[i := v];
    if n == 0 {
      assert Stored(p', Wrapped(out, 1, |p|), 0) == [];
    } else {
      var next := Wrapped(out, 1, |p|);
      assert Wrapped(next, n - 1, |p|) == i && i != out;
      StoredPut(p, next, n - 1, v);
      assert Stored(p', out, n + 1) == [p[out]] + (Stored(p, next, n - 1) + [v]);
      assert Stored(p, out, n) == [p[out]] + Stored(p, next, n - 1);
    }
  }

  // --------------------------------------------------- what a step does

  /** What a mailbox holds and who waits on it, wherever its ring stands. */
  datatype State = State(
    mails: seq<word>, receivers: seq<Thread>, senders: seq<Thread>, role: RoleMap, error: map<Thread, Error>,
      outgoing: map<Thread, word>)

  /** What is seen of a step: a mail accepted or delivered, a call that returns an error, a reset, or nothing. */
  datatype Out = Silent | Accepted(t: Thread, mail: word) | Delivered(t: Thread, mail: word) | Refused(t: Thread,
    error: Error) | Emptied

  datatype Move = Move(next: State, out: Out)

  /** `t` tries to send: the mail goes behind the others and the first receiver is woken, or `t` waits or gives up. */
  function SendMove(s: State, t: Thread, value: word, wait: bool, prio: Priorities, size: nat,
                    order: Order): (r: Move) {
    if |s.mails| < size then
      var stored := s.(mails := s.mails + [value]);
      Move(if s.receivers == [] then stored
           else stored.(receivers := s.receivers[1..], role := s.role[s.receivers[0] := WokenReceiver]),
           Accepted(t, value))
    else if wait then
      Move(s.(senders := Suspend(s.senders, t, prio, order), role := s.role[t := Sending],
              error := s.error[t := EOk], outgoing := s.outgoing[t := value]),
           Silent)
    else Move(s, Refused(t, EFull))
  }

  /**
   `t` tries to receive: it takes the oldest mail and the first sender is woken, or `t` waits or gives up; only a
   thread that has waited before notes the timeout as its error.
   */
  function RecvMove(s: State, t: Thread, wait: bool, again: bool, prio: Priorities, order: Order): (r: Move) {
    if |s.mails| > 0 then
      var taken := s.(mails := s.mails[1..]);
      Move(if s.senders == [] then taken
           else taken.(senders := s.senders[1..], role := s.role[s.senders[0] := WokenSender]),
           Delivered(t, s.mails[0]))
    else if wait then
      Move(s.(receivers := Suspend(s.receivers, t, prio, order), role := s.role[t := Receiving],
        error := s.error[t := EOk]), Silent)
    else Move(if again then s.(error := s.error[t := ETimeout]) else s, Refused(t, ETimeout))
  }

  lemma SendCases(s: State, t: Thread, value: word, wait: bool, prio: Priorities, size: nat, order: Order)
    ensures var r := SendMove(s, t, value, wait, prio, size, order).next; var all := s.mails + [value];
      && (|s.mails| < size && s.receivers == [] ==> r == State(all, [], s.senders, s.role, s.error, s.outgoing))
      && (|s.mails| < size && s.receivers != [] ==>
            r == State(all, s.receivers[1..], s.senders, s.role[s.receivers[0] := WokenReceiver], s.error, s.outgoing))
      && (|s.mails| >= size && wait ==>
            r == State(s.mails, s.receivers, Suspend(s.senders, t, prio, order), s.role[t := Sending],
              s.error[t := EOk], s.outgoing[t := value]))
      && (|s.mails| >= size && !wait ==> r == s)
  {
  }

  lemma RecvCases(s: State, t: Thread, wait: bool, again: bool, prio: Priorities, order: Order)
    ensures var r := RecvMove(s, t, wait, again, prio, order).next;
      && (|s.mails| > 0 && s.senders == [] ==> r == State(s.mails[1..], s.receivers, [], s.role, s.error, s.outgoing))
      && (|s.mails| > 0 && s.senders != [] ==>
            r == State(s.mails[1..], s.receivers, s.senders[1..], s.role[s.senders[0] := WokenSender], s.error,
              s.outgoing))
      && (|s.mails| == 0 && wait ==>
            r == State(s.mails, Suspend(s.receivers, t, prio, order), s.senders, s.role[t := Receiving],
              s.error[t := EOk], s.outgoing))
      && (|s.mails| == 0 && !wait && again ==>
        r == State(s.mails, s.receivers, s.senders, s.role, s.error[t := ETimeout], s.outgoing))
      && (|s.mails| == 0 && !wait && !again ==> r == s)
  {
  }

  /** A resumed thread runs on in its call, from where it was suspended. */
  function ResumeMove(s: State, t: Thread, wait: bool, prio: Priorities, size: nat, order: Order): (r: Move) {
    var out := s.(role := s.role[t := Outside]);
    match RoleIn(s.role, t)
    case WokenSender => if t in s.outgoing then SendMove(out, t, s.outgoing[t], wait, prio, size, order)
      else Move(s, Silent)
    case WokenReceiver => RecvMove(out, t, wait, true, prio, order)
    case Failing => if t in s.error then Move(out, Refused(t, s.error[t])) else Move(s, Silent)
    case _ => Move(s, Silent)
  }

  /** The threads of a list are resumed with an error. */
  function Failed(role: RoleMap, list: seq<Thread>): (r: RoleMap) {
    if list == [] then role else Failed(role, list[..|list| - 1])[list[|list| - 1] := Failing]
  }

  function Faulted(error: map<Thread, Error>, list: seq<Thread>): (r: map<Thread, Error>) {
    if list == [] then error else Faulted(error, list[..|list| - 1])[list[|list| - 1] := EError]
  }

  lemma FailedNone(role: RoleMap, error: map<Thread, Error>)
    ensures Failed(role, []) == role && Faulted(error, []) == error
  {
  }

  lemma {:induction false} FailedAt(role: RoleMap, error: map<Thread, Error>, list: seq<Thread>, t: Thread)
    ensures RoleIn(Failed(role, list), t) == if t in list then Failing else RoleIn(role, t)
    ensures t in Faulted(error, list) <==> t in list || t in error
    ensures t in Faulted(error, list) ==> Faulted(error, list)[t] == if t in list then EError else error[t]
    decreases list
  {
    if list != [] {
      var n := |list| - 1;
      FailedAt(role, error, list[..n], t);
      assert list == list[..n] + [list[n]];
    }
  }

  /** Of two lists dismissed one after the other, every thread is resumed with an error, and no other thread. */
  lemma FailedAll(role: RoleMap, error: map<Thread, Error>, a: seq<Thread>, b: seq<Thread>)
    ensures var r, e := Failed(Failed(role, a), b), Faulted(Faulted(error, a), b);
      forall t :: var gone := t in a || t in b;
        && RoleIn(r, t) == (if gone then Failing else RoleIn(role, t)) && (t in e <==> gone || t in error)
        && (t in e ==> e[t] == if gone then EError else error[t])
  {
    hide Failed, Faulted;
    var r, e := Failed(Failed(role, a), b), Faulted(Faulted(error, a), b);
    forall t
      ensures var gone := t in a || t in b;
        && RoleIn(r, t) == (if gone then Failing else RoleIn(role, t)) && (t in e <==> gone || t in error)
        && (t in e ==> e[t] == if gone then EError else error[t])
    {
      FailedAt(role, error, a, t);
      FailedAt(Failed(role, a), Faulted(error, a), b, t);
    }
  }

  function Tail<T>(s: seq<T>): (r: seq<T>) { if s == [] then [] else s[1..] }

  lemma FirstAndRest(s: seq<word>)
    ensures s != [] ==> s == [s[0]] + s[1..]
  {
  }

  lemma FailedOneMore(role: RoleMap, error: map<Thread, Error>, list: seq<Thread>, t: Thread)
    ensures Failed(role, list + [t]) == Failed(role, list)[t := Failing]
      && Faulted(error, list + [t]) == Faulted(error, list)[t := EError]
  {
    assert (list + [t])[..|list|] == list;
  }

  function ResetMove(s: State): (r: Move) {
    Move(State([], [], [], Failed(Failed(s.role, s.receivers), s.senders),
      Faulted(Faulted(s.error, s.receivers), s.senders), s.outgoing), Emptied)
  }

  /** The one thing an event does; a step the thread cannot take does nothing. */
  function Next(s: State, ev: Event, prio: Priorities, size: nat, order: Order): (r: Move) {
    match ev
    case SendCall(t, value, wait) => if RoleIn(s.role, t) == Outside then SendMove(s, t, value, wait, prio, size, order)
      else Move(s, Silent)
    case RecvCall(t, wait) => if RoleIn(s.role, t) == Outside then RecvMove(s, t, wait, false, prio, order)
      else Move(s, Silent)
    case Resume(t, wait) => ResumeMove(s, t, wait, prio, size, order)
    case Expiry(t) =>
      if RoleIn(s.role, t) == Receiving || RoleIn(s.role, t) == Sending then
        Move(s.(receivers := Remove(s.receivers, t), senders := Remove(s.senders, t), role := s.role[t := Failing],
          error := s.error[t := ETimeout]), Silent)
      else Move(s, Silent)
    case ResetCall => ResetMove(s)
  }

  datatype Trace = Trace(last: State, outs: seq<Out>)

  /** What some events do one after the other, each at the priorities of its moment. */
  function Traced(s: State, evs: seq<Event>, prios: seq<Priorities>, size: nat, order: Order): (r: Trace)
    requires |prios| == |evs|
    ensures |r.outs| == |evs|
  {
    if evs == [] then Trace(s, [])
    else
      var n := |evs| - 1;
      var before := Traced(s, evs[..n], prios[..n], size, order);
      var move := Next(before.last, evs[n], prios[n], size, order);
      Trace(move.next, before.outs + [move.out])
  }

  // ------------------------------------------------------ a bounded FIFO

  /** The mails after an output: what is accepted goes to the end, what is delivered comes from the front. */
  ghost predicate Flows(q: seq<word>, out: Out, q': seq<word>) {
    match out
    case Accepted(_, v) => q' == q + [v]
    case Delivered(_, v) => q == [v] + q'
    case Emptied => q' == []
    case _ => q' == q
  }

  lemma NextFlows(s: State, ev: Event, prio: Priorities, size: nat, order: Order)
    ensures var m := Next(s, ev, prio, size, order);
      Flows(s.mails, m.out, m.next.mails) && (|s.mails| <= size ==> |m.next.mails| <= size)
        && (m.out == Emptied <==> ev == ResetCall)
  {
    hide SendMove, RecvMove, Failed, Faulted, Remove;
    match ev
    case SendCall(t, value, wait) =>
      SendFlows(s, t, value, wait, prio, size, order);
    case RecvCall(t, wait) =>
      RecvFlows(s, t, wait, false, prio, order);
    case Resume(t, wait) =>
      var out := s.(role := s.role[t := Outside]);
      if t in s.outgoing { SendFlows(out, t, s.outgoing[t], wait, prio, size, order); }
      RecvFlows(out, t, wait, true, prio, order);
    case Expiry(t) =>
    case ResetCall =>
  }

  lemma SendFlows(s: State, t: Thread, value: word, wait: bool, prio: Priorities, size: nat, order: Order)
    ensures var m := SendMove(s, t, value, wait, prio, size, order);
      Flows(s.mails, m.out, m.next.mails) && (|s.mails| <= size ==> |m.next.mails| <= size) && m.out != Emptied
  {
    hide Suspend;
  }

  lemma RecvFlows(s: State, t: Thread, wait: bool, again: bool, prio: Priorities, order: Order)
    ensures var m := RecvMove(s, t, wait, again, prio, order);
      Flows(s.mails, m.out, m.next.mails) && |m.next.mails| <= |s.mails| && m.out != Emptied
  {
    hide Suspend;
  }

  ghost function AcceptedIn(outs: seq<Out>): (r: seq<word>) {
    if outs == [] then []
    else AcceptedIn(outs[..|outs| - 1]) + match outs[|outs| - 1] { case Accepted(_, v) => [v] case _ => [] }
  }

  ghost function DeliveredIn(outs: seq<Out>): (r: seq<word>) {
    if outs == [] then []
    else DeliveredIn(outs[..|outs| - 1]) + match outs[|outs| - 1] { case Delivered(_, v) => [v] case _ => [] }
  }

  /** Without a reset, the mails that were there and those accepted come out in that order, none lost or duplicated. */
  lemma {:induction false} TraceIsFifo(s: State, evs: seq<Event>, prios: seq<Priorities>, size: nat, order: Order)
    requires |prios| == |evs| && ResetCall !in evs
    ensures var r := Traced(s, evs, prios, size, order);
      s.mails + AcceptedIn(r.outs) == DeliveredIn(r.outs) + r.last.mails
    decreases evs
  {
    hide Next;
    if evs != [] {
      var n := |evs| - 1;
      TraceIsFifo(s, evs[..n], prios[..n], size, order);
      var before, r := Traced(s, evs[..n], prios[..n], size, order), Traced(s, evs, prios, size, order);
      NextFlows(before.last, evs[n], prios[n], size, order);
      assert r.outs[..n] == before.outs;
      FifoOneMore(s.mails, before.outs, before.last.mails, r.outs[n], r.last.mails);
    }
  }

  lemma FifoOneMore(q: seq<word>, outs: seq<Out>, mid: seq<word>, out: Out, q': seq<word>)
    requires q + AcceptedIn(outs) == DeliveredIn(outs) + mid && Flows(mid, out, q') && out != Emptied
    ensures q + AcceptedIn(outs + [out]) == DeliveredIn(outs + [out]) + q'
  {
    assert (outs + [out])[..|outs|] == outs;
    assert AcceptedIn(outs) + [] == AcceptedIn(outs) && DeliveredIn(outs) + [] == DeliveredIn(outs);
    match out
    case Accepted(_, v) =>
      assert q + (AcceptedIn(outs) + [v]) == (q + AcceptedIn(outs)) + [v];
      assert DeliveredIn(outs) + (mid + [v]) == (DeliveredIn(outs) + mid) + [v];
    case Delivered(_, v) =>
      assert DeliveredIn(outs) + ([v] + q') == (DeliveredIn(outs) + [v]) + q';
    case _ =>
  }

  /** A run in two parts. */
  lemma {:induction false} TraceThen(s: State, a: seq<Event>, pa: seq<Priorities>, b: seq<Event>, pb: seq<Priorities>,
                                     size: nat, order: Order)
    requires |pa| == |a| && |pb| == |b|
    ensures var m := Traced(s, a, pa, size, order); var r := Traced(m.last, b, pb, size, order);
      Traced(s, a + b, pa + pb, size, order) == Trace(r.last, m.outs + r.outs)
    decreases b
  {
    hide Next;
    if b == [] {
      assert a + b == a && pa + pb == pa;
    } else {
      var n := |b| - 1;
      TraceThen(s, a, pa, b[..n], pb[..n], size, order);
      assert (a + b)[..|a| + n] == a + b[..n] && (pa + pb)[..|a| + n] == pa + pb[..n];
      assert (a + b)[|a| + n] == b[n] && (pa + pb)[|a| + n] == pb[n];
    }
  }

  /** With resets: since the last one, the mails accepted come out in order, starting from none. */
  lemma FifoSinceReset(s: State, a: seq<Event>, pa: seq<Priorities>, p: Priorities, b: seq<Event>, pb: seq<Priorities>,
                       size: nat, order: Order)
    requires |pa| == |a| && |pb| == |b| && ResetCall !in b
    ensures var r := Traced(s, a + [ResetCall] + b, pa + [p] + pb, size, order);
      AcceptedIn(r.outs[|a| + 1..]) == DeliveredIn(r.outs[|a| + 1..]) + r.last.mails
  {
    hide Next;
    var c, pc := a + [ResetCall], pa + [p];
    assert c[..|a|] == a && pc[..|a|] == pa;
    var m := Traced(s, c, pc, size, order);
    NextFlows(Traced(s, a, pa, size, order).last, ResetCall, p, size, order);
    TraceThen(s, c, pc, b, pb, size, order);
    TraceIsFifo(m.last, b, pb, size, order);
    assert m.last.mails == [];
    assert (m.outs + Traced(m.last, b, pb, size, order).outs)[|a| + 1..] == Traced(m.last, b, pb, size, order).outs;
    assert [] + AcceptedIn(Traced(m.last, b, pb, size, order).outs)
      == AcceptedIn(Traced(m.last, b, pb, size, order).outs);
  }

  // ------------------------------------------------------- whose mail it is

  /** The threads on the lists are those suspended, each once. */
  ghost predicate Listed(s: State) {
    && (forall t :: t in s.receivers <==> RoleIn(s.role, t) == Receiving)
    && (forall t :: t in s.senders <==> RoleIn(s.role, t) == Sending)
    && Distinct(s.receivers) && Distinct(s.senders)
  }

  /** What `t` sends, if anything: the value of the last send it has begun. */
  datatype Sends = NoSend | Sends(value: word)

  ghost function Begun(s: State, ev: Event, t: Thread, before: Sends): (r: Sends) {
    if ev.SendCall? && ev.t == t && RoleIn(s.role, t) == Outside then Sends(ev.value) else before
  }

  ghost function LastBegun(s: State, evs: seq<Event>, prios: seq<Priorities>, size: nat, order: Order,
                           t: Thread): (r: Sends)
    requires |prios| == |evs|
    decreases evs
  {
    if evs == [] then NoSend
    else
      var n := |evs| - 1;
      Begun(Traced(s, evs[..n], prios[..n], size, order).last, evs[n], t,
            LastBegun(s, evs[..n], prios[..n], size, order, t))
  }

  /** A thread inside a send still has the value it began with. */
  ghost predicate Carries(s: State, t: Thread, x: Sends) {
    RoleIn(s.role, t) == Sending || RoleIn(s.role, t) == WokenSender ==> t in s.outgoing && x == Sends(s.outgoing[t])
  }

  lemma SendListed(s: State, x: Thread, value: word, wait: bool, prio: Priorities, size: nat, order: Order)
    requires Listed(s) && RoleIn(s.role, x) == Outside
    ensures Listed(SendMove(s, x, value, wait, prio, size, order).next)
  {
    hide Suspend;
    if |s.mails| < size {
      if s.receivers != [] { FirstListed(s.receivers); }
    } else {
      SuspendDistinct(s.senders, x, prio, order);
    }
  }

  lemma RecvListed(s: State, x: Thread, wait: bool, again: bool, prio: Priorities, order: Order)
    requires Listed(s) && RoleIn(s.role, x) == Outside
    ensures Listed(RecvMove(s, x, wait, again, prio, order).next)
  {
    hide Suspend;
    if |s.mails| > 0 {
      if s.senders != [] { FirstListed(s.senders); }
    } else {
      SuspendDistinct(s.receivers, x, prio, order);
    }
  }

  lemma FirstListed(list: seq<Thread>)
    requires list != [] && Distinct(list)
    ensures list[0] in list && Distinct(list[1..]) && forall x :: x in list[1..] <==> x in list && x != list[0]
  {
    TailElems(list);
  }

  lemma OutListed(s: State, x: Thread)
    requires Listed(s) && RoleIn(s.role, x) != Receiving && RoleIn(s.role, x) != Sending
    ensures Listed(s.(role := s.role[x := Outside]))
  {
    hide Distinct;
  }

  lemma ExpiryListed(s: State, x: Thread)
    requires Listed(s)
    ensures Listed(s.(receivers := Remove(s.receivers, x), senders := Remove(s.senders, x),
      role := s.role[x := Failing],
                      error := s.error[x := ETimeout]))
  {
    hide Remove, Distinct;
    RemoveDistinct(s.receivers, x);
    RemoveDistinct(s.senders, x);
  }

  lemma ResetListed(s: State)
    requires Listed(s)
    ensures Listed(ResetMove(s).next)
  {
    hide Failed, Faulted;
    FailedAll(s.role, s.error, s.receivers, s.senders);
  }

  lemma NextListed(s: State, ev: Event, prio: Priorities, size: nat, order: Order)
    requires Listed(s)
    ensures Listed(Next(s, ev, prio, size, order).next)
  {
    hide SendMove, RecvMove, ResetMove, Remove, Listed;
    match ev
    case SendCall(x, value, wait) =>
      if RoleIn(s.role, x) == Outside { SendListed(s, x, value, wait, prio, size, order); }
    case RecvCall(x, wait) =>
      if RoleIn(s.role, x) == Outside { RecvListed(s, x, wait, false, prio, order); }
    case Resume(x, wait) =>
      var out := s.(role := s.role[x := Outside]);
      if RoleIn(s.role, x) != Receiving && RoleIn(s.role, x) != Sending {
        OutListed(s, x);
        if x in s.outgoing { SendListed(out, x, s.outgoing[x], wait, prio, size, order); }
        RecvListed(out, x, wait, true, prio, order);
      }
    case Expiry(x) =>
      ExpiryListed(s, x);
    case ResetCall =>
      ResetListed(s);
  }

  lemma SendCarries(s: State, x: Thread, value: word, wait: bool, prio: Priorities, size: nat, order: Order, t: Thread,
                    b: Sends)
    requires Listed(s) && RoleIn(s.role, x) == Outside && Carries(s, t, b) && (x == t ==> b == Sends(value))
    ensures var m := SendMove(s, x, value, wait, prio, size, order);
      Carries(m.next, t, b) && (m.out.Accepted? && m.out.t == t ==> b == Sends(m.out.mail))
  {
    hide Suspend, Distinct;
    assert s.receivers != [] ==> s.receivers[0] in s.receivers;
  }

  lemma RecvCarries(s: State, x: Thread, wait: bool, again: bool, prio: Priorities, order: Order, t: Thread, b: Sends)
    requires Listed(s) && RoleIn(s.role, x) == Outside && Carries(s, t, b)
    ensures var m := RecvMove(s, x, wait, again, prio, order); Carries(m.next, t, b) && !m.out.Accepted?
  {
    hide Suspend, Distinct;
    assert s.senders != [] ==> s.senders[0] in s.senders;
  }

  lemma NextCarries(s: State, ev: Event, prio: Priorities, size: nat, order: Order, t: Thread, b: Sends)
    requires Listed(s) && Carries(s, t, b)
    ensures var m, b' := Next(s, ev, prio, size, order), Begun(s, ev, t, b);
      Carries(m.next, t, b') && (m.out.Accepted? && m.out.t == t ==> b' == Sends(m.out.mail))
  {
    hide SendMove, RecvMove, Failed, Faulted, Remove, Listed;
    var b' := Begun(s, ev, t, b);
    match ev
    case SendCall(x, value, wait) =>
      if RoleIn(s.role, x) == Outside { SendCarries(s, x, value, wait, prio, size, order, t, b'); }
    case RecvCall(x, wait) =>
      if RoleIn(s.role, x) == Outside { RecvCarries(s, x, wait, false, prio, order, t, b); }
    case Resume(x, wait) =>
      var out := s.(role := s.role[x := Outside]);
      if RoleIn(s.role, x) == WokenSender && x in s.outgoing {
        OutListed(s, x);
        SendCarries(out, x, s.outgoing[x], wait, prio, size, order, t, b);
      } else if RoleIn(s.role, x) == WokenReceiver {
        OutListed(s, x);
        RecvCarries(out, x, wait, true, prio, order, t, b);
      }
    case Expiry(x) =>
    case ResetCall =>
      FailedAll(s.role, s.error, s.receivers, s.senders);
  }

  lemma {:induction false} RunCarries(s: State, evs: seq<Event>, prios: seq<Priorities>, size: nat, order: Order,
                                      t: Thread)
    requires |prios| == |evs| && Listed(s) && RoleIn(s.role, t) == Outside
    ensures var r := Traced(s, evs, prios, size, order).last;
      Listed(r) && Carries(r, t, LastBegun(s, evs, prios, size, order, t))
    decreases evs
  {
    hide Next, Listed;
    if evs != [] {
      var n := |evs| - 1;
      RunCarries(s, evs[..n], prios[..n], size, order, t);
      var before := Traced(s, evs[..n], prios[..n], size, order).last;
      NextListed(before, evs[n], prios[n], size, order);
      NextCarries(before, evs[n], prios[n], size, order, t, LastBegun(s, evs[..n], prios[..n], size, order, t));
    }
  }

  /** Over every run, what is accepted from a thread is the value it was last called with, however long it waited. */
  lemma AcceptedIsSent(s: State, evs: seq<Event>, prios: seq<Priorities>, size: nat, order: Order, k: nat)
    requires |prios| == |evs| && Listed(s) && k < |evs|
    ensures var r := Traced(s, evs[..k + 1], prios[..k + 1], size, order);
      r.outs[k].Accepted? && RoleIn(s.role, r.outs[k].t) == Outside ==>
        LastBegun(s, evs[..k + 1], prios[..k + 1], size, order, r.outs[k].t) == Sends(r.outs[k].mail)
  {
    hide Next, Listed;
    var a, pa := evs[..k + 1], prios[..k + 1];
    assert a[..k] == evs[..k] && pa[..k] == prios[..k];
    var r := Traced(s, a, pa, size, order);
    if r.outs[k].Accepted? && RoleIn(s.role, r.outs[k].t) == Outside {
      var t := r.outs[k].t;
      RunCarries(s, evs[..k], prios[..k], size, order, t);
      var before := Traced(s, evs[..k], prios[..k], size, order).last;
      NextCarries(before, evs[k], prios[k], size, order, t, LastBegun(s, evs[..k], prios[..k], size, order, t));
    }
  }

  // ------------------------------------------------------- steps in a row

  /** A mail sent to an empty mailbox goes to the first thread that waits for one. */
  lemma SendThenReceive(s: State, t: Thread, value: word, wait: bool, prio: Priorities, size: nat, order: Order)
    requires Listed(s) && s.mails == [] && s.receivers != [] && size > 0 && RoleIn(s.role, t) == Outside
    ensures var w := s.receivers[0];
      var a := Next(s, SendCall(t, value, wait), prio, size, order);
        var b := Next(a.next, Resume(w, wait), prio, size, order);
      && a.out == Accepted(t, value) && b.out == Delivered(w, value) && b.next.mails == []
      && b.next.receivers == s.receivers[1..] && RoleIn(b.next.role, w) == Outside
  {
    hide Suspend, Distinct;
    var w := s.receivers[0];
    assert w in s.receivers;
    assert s.mails + [value] == [value] && [value][1..] == [];
    var c := s.(mails := [value], receivers := s.receivers[1..], role := s.role[w := WokenReceiver][w := Outside]);
    assert s.senders != [] ==> s.senders[0] in s.senders;
    RecvCases(c, w, wait, true, prio, order);
  }

  /** A mail taken from a full mailbox makes room for the one the first waiting sender has. */
  lemma ReceiveThenSend(s: State, t: Thread, wait: bool, prio: Priorities, size: nat, order: Order)
    requires Listed(s) && |s.mails| == size > 0 && s.senders != [] && RoleIn(s.role, t) == Outside
    requires s.senders[0] in s.outgoing
    ensures var w := s.senders[0];
      var a := Next(s, RecvCall(t, wait), prio, size, order); var b := Next(a.next, Resume(w, wait), prio, size, order);
      && a.out == Delivered(t, s.mails[0]) && b.out == Accepted(w, s.outgoing[w])
      && b.next.mails == s.mails[1..] + [s.outgoing[w]] && b.next.senders == s.senders[1..]
      && RoleIn(b.next.role, w) == Outside
  {
    hide Suspend, Distinct;
    var w := s.senders[0];
    assert w in s.senders;
    assert s.receivers != [] ==> s.receivers[0] in s.receivers;
  }

  /** A call that times out returns the timeout; the mails stay, and the thread is off its list. */
  lemma TimedOutReturns(s: State, t: Thread, wait: bool, prio: Priorities, size: nat, order: Order)
    requires RoleIn(s.role, t) == Receiving || RoleIn(s.role, t) == Sending
    ensures var a := Next(s, Expiry(t), prio, size, order); var b := Next(a.next, Resume(t, wait), prio, size, order);
      && a.out == Silent && b.out == Refused(t, ETimeout) && b.next.mails == s.mails
      && RoleIn(b.next.role, t) == Outside
      && b.next.receivers == Remove(s.receivers, t) && b.next.senders == Remove(s.senders, t)
  {
    hide Remove;
  }

  /** After a reset every thread that waited returns an error. */
  lemma ResetReturns(s: State, t: Thread, wait: bool, prio: Priorities, size: nat, order: Order)
    requires t in s.receivers || t in s.senders
    ensures var a := Next(s, ResetCall, prio, size, order); var b := Next(a.next, Resume(t, wait), prio, size, order);
      a.out == Emptied && a.next.mails == [] && b.out == Refused(t, EError) && RoleIn(b.next.role, t) == Outside
  {
    hide Failed, Faulted;
    FailedAll(s.role, s.error, s.receivers, s.senders);
  }

  class Box {
    const size: nat
    const order: Order
    const pool: array<word>
    var entry: nat
    var inOffset: nat
    var outOffset: nat
    /** The suspended receivers and senders. */
    var receivers: seq<Thread>
    var senders: seq<Thread>
    var error: map<Thread, Error>
    /** The mail each thread inside a send has as its argument. */
    var outgoing: map<Thread, word>
    /** How far each thread is in its call. */
    var role: RoleMap

    /** Threads resumed by a partner that have not run yet. */
    ghost var wokenReceivers: set<Thread>
    ghost var wokenSenders: set<Thread>

    function RoleOf(t: Thread): (r: Role)
      reads this`role
    {
      RoleIn(role, t)
    }

    ghost predicate Ring()
      reads this`entry, this`inOffset, this`outOffset
    {
      && pool.Length == size && entry <= size && inOffset == Wrapped(outOffset, entry, size)
      && (outOffset < size || (size == 0 && outOffset == 0))
    }

    /** The stored mails, oldest first. */
    ghost function Contents(): (s: seq<word>)
      requires Ring()
      ensures |s| == entry
      reads this`entry, this`inOffset, this`outOffset, pool
    {
      Stored(pool[..], outOffset, entry)
    }

    ghost function Now(): (s: State)
      requires Ring()
      reads this`entry, this`inOffset, this`outOffset, pool, this`receivers, this`senders, this`role, this`error,
        this`outgoing
    {
      State(Contents(), receivers, senders, role, error, outgoing)
    }

    ghost predicate Roles()
      reads this`role, this`receivers, this`senders, this`wokenReceivers, this`wokenSenders
    {
      Partition(role, receivers, senders, wokenReceivers, wokenSenders)
    }

    /** Record that `t` is now `to`. */
    method Turn(t: Thread, to: Role, ghost wr: set<Thread>, ghost ws: set<Thread>,
                ghost r: seq<Thread>, ghost s: seq<Thread>, ghost e: map<Thread, Error>, ghost o: map<Thread, word>)
      requires Partition(role, r, s, wokenReceivers, wokenSenders)
      requires FlagsOf(role, e, o) && SameElse(e, error, t) && SameElse(o, outgoing, t)
        && FlagAt(to, error, outgoing, t)
      requires Shift(r, receivers, t, to == Receiving) && Shift(s, senders, t, to == Sending)
      requires ShiftSet(wokenReceivers, wr, t, to == WokenReceiver) && ShiftSet(wokenSenders, ws, t, to == WokenSender)
      modifies this`role, this`wokenReceivers, this`wokenSenders
      ensures Roles() && Flags() && role == old(role)[t := to] && wokenReceivers == wr && wokenSenders == ws
    {
      hide Partition, Shift, FlagsOf, SameElse, ShiftSet, FlagAt;
      FlagsMoved(role, t, to, e, o, error, outgoing);
      PartitionMoved(role, t, to, r, s, wokenReceivers, wokenSenders, receivers, senders, wr, ws);
      role, wokenReceivers, wokenSenders := role[t := to], wr, ws;
    }

    ghost predicate Flags()
      reads this`role, this`error, this`outgoing
    {
      FlagsOf(role, error, outgoing)
    }

    /** While threads wait, everything they wait for is already promised to woken ones. */
    ghost predicate NoLostWakeup()
      reads this
    {
      && (receivers != [] ==> entry <= |wokenReceivers|)
      && (senders != [] ==> size - entry <= |wokenSenders|)
    }

    ghost predicate Valid()
      reads this, pool
    {
      Ring() && Roles() && Flags() && NoLostWakeup()
    }

    /** A woken thread has begun to run: one wakeup fewer is outstanding. */
    ghost predicate Running(t: Thread, receiver: bool, sender: bool)
      reads this, pool
    {
      && Ring() && Roles() && Flags() && RoleOf(t) == Outside
      && (receivers != [] ==> entry <= |wokenReceivers| + if receiver then 1 else 0)
      && (senders != [] ==> size - entry <= |wokenSenders| + if sender then 1 else 0)
    }

    /** rt_mb_init. */
    constructor (n: nat, o: Order)
      ensures Valid() && fresh(pool) && size == n && order == o && Now() == State([], [], [], map[], map[], map[])
    {
      size, order := n, o;
      pool := new word[n];
      entry, inOffset, outOffset := 0, 0, 0;
      receivers, senders, error, outgoing := [], [], map[], map[];
      role, wokenReceivers, wokenSenders := map[], {}, {};
    }

    // ------------------------------------------------------------ the ring

    /** Store a mail at the in-offset. */
    method Put(value: word)
      requires Ring() && entry < size
      modifies pool, this`inOffset, this`entry
      ensures Ring() && entry == old(entry) + 1 && Contents() == old(Contents()) + [value]
    {
      StoredPut(pool[..], outOffset, entry, value);
      assert pool[..][inOffset := value] == pool[..inOffset] + [value] + pool[inOffset + 1..];
      pool[inOffset] := value;
      inOffset := inOffset + 1;
      if inOffset >= size {
        inOffset := 0;
      }
      entry := entry + 1;
    }

    /** Take the mail at the out-offset. */
    method Get() returns (value: word)
      requires Ring() && entry > 0
      modifies this`outOffset, this`entry
      ensures Ring() && entry == old(entry) - 1 && old(Contents()) == [value] + Contents()
    {
      value := pool[outOffset];
      outOffset := outOffset + 1;
      if outOffset >= size {
        outOffset := 0;
      }
      entry := entry - 1;
    }

    // ------------------------------------------------------------- wakeups

    /** rt_ipc_list_resume on the receivers. */
    method WakeReceiver()
      requires Roles() && Flags() && receivers != []
      modifies this`receivers, this`role, this`wokenReceivers, this`wokenSenders
      ensures Roles() && Flags() && receivers == old(receivers)[1..]
      ensures wokenReceivers == old(wokenReceivers) + {old(receivers)[0]}
        && |wokenReceivers| == |old(wokenReceivers)| + 1 && wokenSenders == old(wokenSenders)
      ensures role == old(role)[old(receivers)[0] := WokenReceiver]
    {
      hide Partition, Shift, FlagsOf, Distinct;
      ghost var r, s, e, o := receivers, senders, error, outgoing;
      var t := receivers[0];
      WhoIsWhere(role, r, s, wokenReceivers, wokenSenders, t);
      FlagOf(role, e, o, t);
      ShiftAway(r);
      ShiftNot(s, t);
      receivers := receivers[1..];
      Turn(t, WokenReceiver, wokenReceivers + {t}, wokenSenders, r, s, e, o);
    }

    /** rt_ipc_list_resume on the senders. */
    method WakeSender()
      requires Roles() && Flags() && senders != []
      modifies this`senders, this`role, this`wokenReceivers, this`wokenSenders
      ensures Roles() && Flags() && senders == old(senders)[1..]
      ensures wokenSenders == old(wokenSenders) + {old(senders)[0]} && |wokenSenders| == |old(wokenSenders)| + 1
        && wokenReceivers == old(wokenReceivers)
      ensures role == old(role)[old(senders)[0] := WokenSender]
    {
      hide Partition, Shift, FlagsOf, Distinct;
      ghost var r, s, e, o := receivers, senders, error, outgoing;
      var t := senders[0];
      WhoIsWhere(role, r, s, wokenReceivers, wokenSenders, t);
      FlagOf(role, e, o, t);
      ShiftAway(s);
      ShiftNot(r, t);
      senders := senders[1..];
      Turn(t, WokenSender, wokenReceivers, wokenSenders + {t}, r, s, e, o);
    }

    // ---------------------------------------------------------------- send

    /** Store a mail and wake the first receiver, if one waits. */
    method Deposit(value: word)
      requires Ring() && entry < size && Roles() && Flags()
      modifies pool, this`inOffset, this`entry, this`receivers, this`role, this`wokenReceivers, this`wokenSenders
      ensures Ring() && Roles() && Flags() && entry == old(entry) + 1 && Contents() == old(Contents()) + [value]
      ensures old(receivers) == [] ==>
        receivers == [] && role == old(role) && wokenReceivers == old(wokenReceivers)
          && wokenSenders == old(wokenSenders)
      ensures old(receivers) != [] ==>
        && receivers == old(receivers)[1..] && role == old(role)[old(receivers)[0] := WokenReceiver]
        && |wokenReceivers| == |old(wokenReceivers)| + 1 && wokenSenders == old(wokenSenders)
    {
      hide Partition, FlagsOf, Contents, Wrapped;
      Put(value);
      if receivers != [] {
        WakeReceiver();
      }
    }

    /** The loop of rt_mb_send_wait from one interrupt-disable to the next enable. */
    method SendLocked(t: Thread, value: word, wait: bool, prio: Priorities, ghost woken: bool) returns (o: Outcome)
      requires Running(t, false, woken)
      modifies this, pool
      ensures Valid() && o == if old(entry) < size then Returned(EOk) else if wait then Suspended else Returned(EFull)
      ensures Now() == SendMove(old(Now()), t, value, wait, prio, size, order).next
    {
      hide Partition, FlagsOf, Contents, Suspend, SendMove, Wrapped;
      NotListed(role, receivers, senders, wokenReceivers, wokenSenders, t);
      SendCases(Now(), t, value, wait, prio, size, order);
      if entry == size {
        if !wait {
          return Returned(EFull);
        }
        SuspendSender(t, value, prio);
        return Suspended;
      }
      Deposit(value);
      return Returned(EOk);
    }

    method SuspendSender(t: Thread, value: word, prio: Priorities)
      requires Roles() && Flags() && RoleOf(t) == Outside
      modifies this`error, this`senders, this`role, this`outgoing, this`wokenReceivers, this`wokenSenders
      ensures wokenReceivers == old(wokenReceivers) && wokenSenders == old(wokenSenders)
      ensures Roles() && Flags() && senders == Suspend(old(senders), t, prio, order) && role == old(role)[t := Sending]
      ensures error == old(error)[t := EOk] && outgoing == old(outgoing)[t := value]
    {
      hide Partition, Shift, ShiftSet, FlagsOf, Distinct, Suspend, SameElse;
      ghost var r, s, e, o := receivers, senders, error, outgoing;
      WhoIsWhere(role, r, s, wokenReceivers, wokenSenders, t);
      ShiftIn(s, t, prio, order);
      ShiftNot(r, t);
      SameUpdated(error, t, EOk);
      SameUpdated(outgoing, t, value);
      error := error[t := EOk];
      outgoing := outgoing[t := value];
      senders := Place(senders, t, prio, order);
      Turn(t, Sending, wokenReceivers, wokenSenders, r, s, e, o);
    }

    /** rt_mb_send_wait, up to its return or first suspension. */
    method Send(t: Thread, value: word, wait: bool, prio: Priorities) returns (o: Outcome)
      requires Valid() && RoleOf(t) == Outside
      modifies this, pool
      ensures Valid() && o == if old(entry) < size then Returned(EOk) else if wait then Suspended else Returned(EFull)
      ensures Now() == SendMove(old(Now()), t, value, wait, prio, size, order).next
      ensures old(entry) < size ==>
        && Contents() == old(Contents()) + [value] && senders == old(senders) && outgoing == old(outgoing)
        && error == old(error) && receivers == Tail(old(receivers))
        && role == (if old(receivers) == [] then old(role) else old(role)[old(receivers)[0] := WokenReceiver])
      ensures old(entry) == size && wait ==>
        && Contents() == old(Contents()) && receivers == old(receivers)
        && senders == Suspend(old(senders), t, prio, order)
        && role == old(role)[t := Sending] && error == old(error)[t := EOk] && outgoing == old(outgoing)[t := value]
      ensures old(entry) == size && !wait ==> Now() == old(Now())
    {
      hide Roles, Flags, Contents, Suspend, SendMove, Wrapped;
      SendCases(Now(), t, value, wait, prio, size, order);
      o := SendLocked(t, value, wait, prio, false);
    }

    /** A resumed thread begins to run. */
    method Begin(t: Thread)
      requires Roles() && Flags() && RoleOf(t) != Receiving && RoleOf(t) != Sending
      modifies this`role, this`wokenReceivers, this`wokenSenders
      ensures Roles() && Flags() && role == old(role)[t := Outside]
      ensures wokenReceivers == old(wokenReceivers) - {t} && wokenSenders == old(wokenSenders) - {t}
      ensures |wokenReceivers| == |old(wokenReceivers)| - if old(RoleOf(t)) == WokenReceiver then 1 else 0
      ensures |wokenSenders| == |old(wokenSenders)| - if old(RoleOf(t)) == WokenSender then 1 else 0
    {
      hide Partition, Shift, FlagsOf, Distinct, SameElse;
      WhoIsWhere(role, receivers, senders, wokenReceivers, wokenSenders, t);
      ShiftNot(receivers, t);
      ShiftNot(senders, t);
      SameUpdated(error, t, EOk);
      SameUpdated(outgoing, t, 0);
      Less(wokenReceivers, t);
      Less(wokenSenders, t);
      Turn(t, Outside, wokenReceivers - {t}, wokenSenders - {t}, receivers, senders, error, outgoing);
    }

    /** A woken sender runs on: it sends its mail now or waits again; `wait` says whether time is left. */
    method SendAgain(t: Thread, wait: bool, prio: Priorities) returns (o: Outcome)
      requires Valid() && RoleOf(t) == WokenSender
      modifies this, pool
      ensures Valid() && o == if old(entry) < size then Returned(EOk) else if wait then Suspended else Returned(EFull)
      ensures t in old(outgoing)
        && Now() == SendMove(old(Now()).(role := old(role)[t := Outside]), t, old(outgoing)[t], wait, prio, size,
        order).next
      ensures old(entry) < size ==>
        && Contents() == old(Contents()) + [old(outgoing)[t]] && senders == old(senders) && outgoing == old(outgoing)
        && error == old(error) && receivers == Tail(old(receivers))
        && role == (if old(receivers) == [] then old(role)[t := Outside]
          else old(role)[t := Outside][old(receivers)[0] := WokenReceiver])
      ensures old(entry) == size && wait ==>
        && Contents() == old(Contents()) && receivers == old(receivers)
        && senders == Suspend(old(senders), t, prio, order)
        && role == old(role)[t := Outside][t := Sending] && error == old(error)[t := EOk]
        && outgoing == old(outgoing)[t := old(outgoing)[t]]
      ensures old(entry) == size && !wait ==> Now() == old(Now()).(role := old(role)[t := Outside])
    {
      hide Contents, Partition, Shift, FlagsOf, Distinct, SendMove, Suspend, Wrapped;
      ghost var s := Now().(role := role[t := Outside]);
      FlagOf(role, error, outgoing, t);
      Begin(t);
      SendCases(s, t, outgoing[t], wait, prio, size, order);
      o := SendLocked(t, outgoing[t], wait, prio, true);
    }

    // ------------------------------------------------------------- receive

    /** Take the oldest mail and wake the first sender, if one waits. */
    method Collect() returns (value: word)
      requires Ring() && entry > 0 && Roles() && Flags()
      modifies this`outOffset, this`entry, this`senders, this`role, this`wokenReceivers, this`wokenSenders
      ensures Ring() && Roles() && Flags() && entry == old(entry) - 1 && old(Contents()) == [value] + Contents()
      ensures old(senders) == [] ==>
        senders == [] && role == old(role) && wokenReceivers == old(wokenReceivers) && wokenSenders == old(wokenSenders)
      ensures old(senders) != [] ==>
        && senders == old(senders)[1..] && role == old(role)[old(senders)[0] := WokenSender]
        && |wokenSenders| == |old(wokenSenders)| + 1 && wokenReceivers == old(wokenReceivers)
    {
      hide Partition, FlagsOf, Contents, Wrapped;
      value := Get();
      if senders != [] {
        WakeSender();
      }
    }

    /** The loop of rt_mb_recv from one interrupt-disable to the next enable. */
    method RecvLocked(t: Thread, wait: bool, again: bool, prio: Priorities) returns (o: Outcome, value: word)
      requires Running(t, again, false)
      modifies this
      ensures Valid() && o == if old(entry) > 0 then Returned(EOk) else if wait then Suspended else Returned(ETimeout)
      ensures old(entry) > 0 ==> value == old(Contents())[0]
      ensures Now() == RecvMove(old(Now()), t, wait, again, prio, order).next
    {
      hide Partition, FlagsOf, Contents, Suspend, RecvMove, Wrapped;
      NotListed(role, receivers, senders, wokenReceivers, wokenSenders, t);
      RecvCases(Now(), t, wait, again, prio, order);
      value := 0;
      if entry == 0 {
        if !wait {
          if again {
            GiveUp(t);
          }
          return Returned(ETimeout), value;
        }
        SuspendReceiver(t, prio);
        return Suspended, value;
      }
      value := Collect();
      return Returned(EOk), value;
    }

    /** A receiver out of time notes that. */
    method GiveUp(t: Thread)
      requires Flags() && RoleOf(t) == Outside
      modifies this`error
      ensures Flags() && error == old(error)[t := ETimeout]
    {
      hide FlagsOf;
      FlagsMoved(role, t, Outside, error, outgoing, error[t := ETimeout], outgoing);
      SameRole(role, t, error[t := ETimeout], outgoing);
      error := error[t := ETimeout];
    }

    method SuspendReceiver(t: Thread, prio: Priorities)
      requires Roles() && Flags() && RoleOf(t) == Outside
      modifies this`error, this`receivers, this`role, this`wokenReceivers, this`wokenSenders
      ensures wokenReceivers == old(wokenReceivers) && wokenSenders == old(wokenSenders)
      ensures Roles() && Flags() && receivers == Suspend(old(receivers), t, prio, order)
        && role == old(role)[t := Receiving]
      ensures error == old(error)[t := EOk]
    {
      hide Partition, Shift, ShiftSet, FlagsOf, Distinct, Suspend;
      ghost var r, s, e, o := receivers, senders, error, outgoing;
      WhoIsWhere(role, r, s, wokenReceivers, wokenSenders, t);
      ShiftIn(r, t, prio, order);
      ShiftNot(s, t);
      error := error[t := EOk];
      receivers := Place(receivers, t, prio, order);
      Turn(t, Receiving, wokenReceivers, wokenSenders, r, s, e, o);
    }

    /** rt_mb_recv, up to its return or first suspension. */
    method Recv(t: Thread, wait: bool, prio: Priorities) returns (o: Outcome, value: word)
      requires Valid() && RoleOf(t) == Outside
      modifies this
      ensures Valid() && o == if old(entry) > 0 then Returned(EOk) else if wait then Suspended else Returned(ETimeout)
      ensures old(entry) > 0 ==> value == old(Contents())[0]
      ensures Now() == RecvMove(old(Now()), t, wait, false, prio, order).next
      ensures old(entry) > 0 ==>
        && old(Contents()) == [value] + Contents() && receivers == old(receivers) && outgoing == old(outgoing)
        && error == old(error) && senders == Tail(old(senders))
        && role == (if old(senders) == [] then old(role) else old(role)[old(senders)[0] := WokenSender])
      ensures old(entry) == 0 && wait ==>
        && entry == 0 && senders == old(senders) && receivers == Suspend(old(receivers), t, prio, order)
        && role == old(role)[t := Receiving] && error == old(error)[t := EOk] && outgoing == old(outgoing)
      ensures old(entry) == 0 && !wait ==>
        && entry == 0 && receivers == old(receivers) && senders == old(senders) && role == old(role)
        && error == old(error) && outgoing == old(outgoing)
    {
      hide Roles, Flags, Contents, Suspend, RecvMove, Wrapped;
      RecvCases(Now(), t, wait, false, prio, order);
      FirstAndRest(Contents());
      o, value := RecvLocked(t, wait, false, prio);
    }

    /** A woken receiver runs on: it takes a mail, if there still is one, or waits again. */
    method RecvAgain(t: Thread, wait: bool, prio: Priorities) returns (o: Outcome, value: word)
      requires Valid() && RoleOf(t) == WokenReceiver
      modifies this
      ensures Valid() && o == if old(entry) > 0 then Returned(EOk) else if wait then Suspended else Returned(ETimeout)
      ensures old(entry) > 0 ==> value == old(Contents())[0]
      ensures Now() == RecvMove(old(Now()).(role := old(role)[t := Outside]), t, wait, true, prio, order).next
      ensures old(entry) > 0 ==>
        && old(Contents()) == [value] + Contents() && receivers == old(receivers) && outgoing == old(outgoing)
        && error == old(error) && senders == Tail(old(senders))
        && role == (if old(senders) == [] then old(role)[t := Outside]
          else old(role)[t := Outside][old(senders)[0] := WokenSender])
      ensures old(entry) == 0 && wait ==>
        && entry == 0 && senders == old(senders) && receivers == Suspend(old(receivers), t, prio, order)
        && role == old(role)[t := Outside][t := Receiving] && error == old(error)[t := EOk] && outgoing == old(outgoing)
      ensures old(entry) == 0 && !wait ==>
        && entry == 0 && receivers == old(receivers) && senders == old(senders) && role == old(role)[t := Outside]
        && error == old(error)[t := ETimeout] && outgoing == old(outgoing)
    {
      hide Contents, Partition, Shift, FlagsOf, Distinct, RecvMove, Suspend, Wrapped;
      ghost var s := Now().(role := role[t := Outside]);
      RecvCases(s, t, wait, true, prio, order);
      FirstAndRest(Contents());
      Begin(t);
      o, value := RecvLocked(t, wait, true, prio);
    }

    // --------------------------------------------------- timeout and reset

    /** Take `t` off the list it is suspended on, with an error. */
    method Expire(t: Thread)
      requires Roles() && Flags() && (RoleOf(t) == Receiving || RoleOf(t) == Sending)
      modifies this`error, this`receivers, this`senders, this`role, this`wokenReceivers, this`wokenSenders
      ensures Roles() && Flags() && role == old(role)[t := Failing] && error == old(error)[t := ETimeout]
      ensures receivers == Remove(old(receivers), t) && senders == Remove(old(senders), t)
      ensures wokenReceivers == old(wokenReceivers) && wokenSenders == old(wokenSenders)
    {
      hide Partition, Shift, ShiftSet, FlagsOf, Remove;
      ghost var r, s, e, o := receivers, senders, error, outgoing;
      FlagOf(role, e, o, t);
      TimeoutShifts(role, r, s, wokenReceivers, wokenSenders, t);
      error := error[t := ETimeout];
      receivers, senders := Remove(receivers, t), Remove(senders, t);
      Turn(t, Failing, wokenReceivers, wokenSenders, r, s, e, o);
    }

    /** rt_thread_timeout of a thread suspended on the mailbox. */
    method Timeout(t: Thread)
      requires Valid() && (RoleOf(t) == Receiving || RoleOf(t) == Sending)
      modifies this`error, this`receivers, this`senders, this`role, this`wokenReceivers, this`wokenSenders
      ensures Valid() && role == old(role)[t := Failing] && error == old(error)[t := ETimeout]
      ensures receivers == Remove(old(receivers), t) && senders == Remove(old(senders), t)
    {
      hide Partition, FlagsOf, Remove;
      TimeoutShifts(role, receivers, senders, wokenReceivers, wokenSenders, t);
      Expire(t);
    }

    /** A thread resumed with an error returns it. */
    method Fail(t: Thread) returns (o: Outcome)
      requires Valid() && RoleOf(t) == Failing
      modifies this`role, this`wokenReceivers, this`wokenSenders
      ensures Valid() && t in error && o == Returned(error[t]) && error[t] != EOk && role == old(role)[t := Outside]
    {
      hide Stored, Partition, FlagsOf;
      FlagOf(role, error, outgoing, t);
      o := Returned(error[t]);
      Begin(t);
    }

    /** rt_ipc_list_resume_all on the receivers. */
    method DismissReceivers()
      requires Roles() && Flags()
      modifies this`error, this`receivers, this`role, this`wokenReceivers, this`wokenSenders
      ensures Roles() && Flags() && wokenReceivers == old(wokenReceivers) && wokenSenders == old(wokenSenders)
        && receivers == []
      ensures role == Failed(old(role), old(receivers)) && error == Faulted(old(error), old(receivers))
    {
      hide Partition, Shift, ShiftSet, FlagsOf, Distinct, Failed, Faulted, SameElse;
      FailedNone(role, error);
      ghost var gone: seq<Thread> := [];
      while receivers != []
        invariant Roles() && Flags() && wokenReceivers == old(wokenReceivers) && wokenSenders == old(wokenSenders)
          && old(receivers) == gone + receivers
        invariant role == Failed(old(role), gone) && error == Faulted(old(error), gone)
        decreases |receivers|
      {
        ghost var r, s, e, o := receivers, senders, error, outgoing;
        var t := receivers[0];
        WhoIsWhere(role, r, s, wokenReceivers, wokenSenders, t);
        FlagOf(role, e, o, t);
        ShiftAway(receivers);
        SameUpdated(error, t, EError);
        SameUpdated(outgoing, t, 0);
        ShiftNot(senders, t);
        FailedOneMore(old(role), old(error), gone, t);
        gone := gone + [t];
        error := error[t := EError];
        receivers := receivers[1..];
        Turn(t, Failing, wokenReceivers, wokenSenders, r, s, e, o);
      }
      assert gone == old(receivers);
    }

    /** rt_ipc_list_resume_all on the senders. */
    method DismissSenders()
      requires Roles() && Flags()
      modifies this`error, this`senders, this`role, this`wokenReceivers, this`wokenSenders
      ensures Roles() && Flags() && wokenReceivers == old(wokenReceivers) && wokenSenders == old(wokenSenders)
        && senders == []
      ensures role == Failed(old(role), old(senders)) && error == Faulted(old(error), old(senders))
    {
      hide Partition, Shift, ShiftSet, FlagsOf, Distinct, Failed, Faulted, SameElse;
      FailedNone(role, error);
      ghost var gone: seq<Thread> := [];
      while senders != []
        invariant Roles() && Flags() && wokenReceivers == old(wokenReceivers) && wokenSenders == old(wokenSenders)
          && old(senders) == gone + senders
        invariant role == Failed(old(role), gone) && error == Faulted(old(error), gone)
        decreases |senders|
      {
        ghost var r, s, e, o := receivers, senders, error, outgoing;
        var t := senders[0];
        WhoIsWhere(role, r, s, wokenReceivers, wokenSenders, t);
        FlagOf(role, e, o, t);
        ShiftAway(senders);
        SameUpdated(error, t, EError);
        SameUpdated(outgoing, t, 0);
        ShiftNot(receivers, t);
        FailedOneMore(old(role), old(error), gone, t);
        gone := gone + [t];
        error := error[t := EError];
        senders := senders[1..];
        Turn(t, Failing, wokenReceivers, wokenSenders, r, s, e, o);
      }
      assert gone == old(senders);
    }

    /** rt_mb_control with RT_IPC_CMD_RESET. */
    method Reset()
      requires Valid()
      modifies this
      ensures Valid() && Now() == ResetMove(old(Now())).next
      ensures Contents() == [] && receivers == [] && senders == [] && outgoing == old(outgoing)
      ensures forall t :: t in old(receivers) || t in old(senders) ==>
        RoleOf(t) == Failing && t in error && error[t] == EError
      ensures forall t :: t !in old(receivers) && t !in old(senders) ==>
        RoleOf(t) == old(RoleOf(t)) && (t in error <==> t in old(error)) && (t in error ==> error[t] == old(error)[t])
    {
      hide Roles, Flags, Failed, Faulted;
      FailedAll(role, error, receivers, senders);
      DismissReceivers();
      DismissSenders();
      entry, inOffset, outOffset := 0, 0, 0;
    }

    // --------------------------------------------------------------- runs

    /** One step of a run; a step the thread cannot take is skipped. */
    method Step(ev: Event, prio: Priorities) returns (out: Out)
      requires Valid()
      modifies this, pool
      ensures Valid() && Move(Now(), out) == Next(old(Now()), ev, prio, size, order)
    {
      hide Partition, FlagsOf, Stored, Remove, Suspend;
      out := Silent;
      match ev
      case SendCall(t, value, wait) =>
        if RoleOf(t) == Outside {
          var o := Send(t, value, wait, prio);
          out := if o == Suspended then Silent else if o.error == EOk then Accepted(t, value) else Refused(t, o.error);
        }
      case RecvCall(t, wait) =>
        if RoleOf(t) == Outside {
          var o, value := Recv(t, wait, prio);
          out := if o == Suspended then Silent else if o.error == EOk then Delivered(t, value) else Refused(t, o.error);
        }
      case Resume(t, wait) =>
        out := RunOn(t, wait, prio);
      case Expiry(t) =>
        if RoleOf(t) == Receiving || RoleOf(t) == Sending {
          Timeout(t);
        }
      case ResetCall =>
        Reset();
        out := Emptied;
    }

    /** A resumed thread continues its call. */
    method RunOn(t: Thread, wait: bool, prio: Priorities) returns (out: Out)
      requires Valid()
      modifies this, pool
      ensures Valid() && Move(Now(), out) == ResumeMove(old(Now()), t, wait, prio, size, order)
    {
      hide Partition, Stored, Suspend;
      out := Silent;
      if RoleOf(t) == WokenSender {
        FlagOf(role, error, outgoing, t);
        var value := outgoing[t];
        var o := SendAgain(t, wait, prio);
        out := if o == Suspended then Silent else if o.error == EOk then Accepted(t, value) else Refused(t, o.error);
      } else if RoleOf(t) == WokenReceiver {
        var o, value := RecvAgain(t, wait, prio);
        out := if o == Suspended then Silent else if o.error == EOk then Delivered(t, value) else Refused(t, o.error);
      } else if RoleOf(t) == Failing {
        var o := Fail(t);
        out := Refused(t, o.error);
      }
    }

    /**
     Any interleaving of calls, resumptions, timeouts and resets keeps the mailbox valid and is, event by
     event, the specified run; without a reset it is a bounded FIFO.
     */
    method Run(evs: seq<Event>, prios: seq<Priorities>) returns (outs: seq<Out>)
      requires Valid() && |prios| == |evs|
      modifies this, pool
      ensures Valid() && entry <= size && Trace(Now(), outs) == Traced(old(Now()), evs, prios, size, order)
      ensures ResetCall !in evs ==> old(Contents()) + AcceptedIn(outs) == DeliveredIn(outs) + Contents()
    {
      hide Partition, FlagsOf, Stored, Next;
      outs := [];
      ghost var start := Now();
      for i := 0 to |evs|
        invariant Valid() && Trace(Now(), outs) == Traced(start, evs[..i], prios[..i], size, order)
      {
        assert evs[..i + 1][..i] == evs[..i] && prios[..i + 1][..i] == prios[..i];
        var out := Step(evs[i], prios[i]);
        outs := outs + [out];
      }
      assert evs[..|evs|] == evs && prios[..|evs|] == prios;
      if ResetCall !in evs {
        TraceIsFifo(start, evs, prios, size, order);
      }
    }

    /** With no wakeup outstanding, a receiver waits only on an empty mailbox, a sender only on a full one. */
    lemma QuietMeansBlocked()
      requires Valid() && wokenReceivers == {} && wokenSenders == {}
      ensures receivers != [] ==> entry == 0
      ensures senders != [] ==> entry == size
      ensures receivers != [] && senders != [] ==> size == 0
    {
    }
  }
}
