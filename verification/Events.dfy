/**
 Event sets (`ipc.c`): threads wait for all or any of some bits, a send walks over them and may
 clear bits as it goes. Each method is one stretch run with interrupts disabled.
 */
module Events {
  import opened Sequences
  import opened WaitList

  datatype Error = EOk | EError | ETimeout

  /** A 32-bit event mask, as the set of its bit numbers. */
  type Bit = b: int | 0 <= b < 32
  type Bits = set<Bit>

  /** What a thread waits for: all of the bits or any of them, to be cleared when received or not. */
  datatype Want = Want(bits: Bits, all: bool, clear: bool)

  type Wants = map<Thread, Want>

  predicate Satisfied(w: Want, flags: Bits) {
    if w.all then w.bits * flags == w.bits else w.bits * flags != {}
  }

  /** The event set after `w` was received from it. */
  function Received(w: Want, flags: Bits): (r: Bits) {
    if w.clear then flags - w.bits * flags else flags
  }

  /** All the bits are set, or one of them is. */
  lemma SatisfiedMeans(w: Want, flags: Bits)
    ensures Satisfied(w, flags) <==> if w.all then w.bits <= flags else exists b :: b in w.bits && b in flags
  {
    if w.all {
      assert w.bits * flags == w.bits ==> w.bits <= flags;
      assert w.bits <= flags ==> w.bits * flags == w.bits;
    } else {
      assert forall b :: b in w.bits && b in flags <==> b in w.bits * flags;
      assert w.bits * flags != {} ==> exists b :: b in w.bits * flags;
    }
  }

  /** Losing bits satisfies nobody. */
  lemma ShrinkUnsatisfied(w: Want, flags: Bits, less: Bits)
    requires less <= flags && !Satisfied(w, flags)
    ensures !Satisfied(w, less)
  {
    if w.all {
      assert w.bits * less == w.bits ==> w.bits <= flags;
    } else {
      assert w.bits * less <= w.bits * flags;
    }
  }

  /** The event set and the threads still waiting after a walk over `waiting`. */
  ghost function Sweep(flags: Bits, waiting: seq<Thread>, want: Wants): (r: (Bits, seq<Thread>))
    requires forall t :: t in waiting ==> t in want
    decreases |waiting|
  {
    if waiting == [] then (flags, [])
    else if Satisfied(want[waiting[0]], flags) then Sweep(Received(want[waiting[0]], flags), waiting[1..], want)
    else var rest := Sweep(flags, waiting[1..], want); (rest.0, [waiting[0]] + rest.1)
  }

  ghost predicate AllUnsatisfied(list: seq<Thread>, want: Wants, flags: Bits) {
    forall t :: t in list ==> t in want && !Satisfied(want[t], flags)
  }

  /** No thread that is still waiting after the walk could have been satisfied by the set it left. */
  lemma {:induction false} SweepUnsatisfied(flags: Bits, waiting: seq<Thread>, want: Wants)
    requires forall t :: t in waiting ==> t in want
    ensures AllUnsatisfied(Sweep(flags, waiting, want).1, want, Sweep(flags, waiting, want).0)
    ensures Sweep(flags, waiting, want).0 <= flags
    ensures forall t :: t in Sweep(flags, waiting, want).1 ==> t in waiting
    decreases |waiting|
  {
    if waiting != [] {
      var w := want[waiting[0]];
      if Satisfied(w, flags) {
        SweepUnsatisfied(Received(w, flags), waiting[1..], want);
      } else {
        SweepUnsatisfied(flags, waiting[1..], want);
        ShrinkUnsatisfied(w, flags, Sweep(flags, waiting, want).0);
      }
    }
  }

  /** The walk goes from front to back: who comes first has first choice, and those left over keep their order. */
  lemma {:induction false} SweepInOrder(flags: Bits, a: seq<Thread>, b: seq<Thread>, want: Wants)
    requires forall t :: t in a + b ==> t in want
    ensures (forall t :: t in a ==> t in want) && forall t :: t in b ==> t in want
    ensures var first := Sweep(flags, a, want); var second := Sweep(first.0, b, want);
      Sweep(flags, a + b, want) == (second.0, first.1 + second.1)
    decreases |a|
  {
    assert forall t :: t in a || t in b ==> t in a + b;
    if a == [] {
      assert a + b == b && [] + Sweep(flags, b, want).1 == Sweep(flags, b, want).1;
    } else {
      assert (a + b)[1..] == a[1..] + b && forall t :: t in a[1..] + b ==> t in a + b;
      var w := want[a[0]];
      SweepInOrder(if Satisfied(w, flags) then Received(w, flags) else flags, a[1..], b, want);
      if !Satisfied(w, flags) {
        var first := Sweep(flags, a[1..], want);
        var second := Sweep(first.0, b, want);
        assert [a[0]] + (first.1 + second.1) == ([a[0]] + first.1) + second.1;
      }
    }
  }

  /** Only the threads walked over matter. */
  lemma {:induction false} SweepFrame(flags: Bits, waiting: seq<Thread>, want: Wants, want': Wants)
    requires forall t :: t in waiting ==> t in want && t in want' && want'[t] == want[t]
    ensures Sweep(flags, waiting, want') == Sweep(flags, waiting, want)
    decreases |waiting|
  {
    if waiting != [] {
      var w := want[waiting[0]];
      SweepFrame(if Satisfied(w, flags) then Received(w, flags) else flags, waiting[1..], want, want');
    }
  }

  datatype Role = Running | Waiting | Woken | Failing

  type RoleMap = map<Thread, Role>

  function RoleIn(role: RoleMap, t: Thread): (r: Role) {
    if t in role then role[t] else Running
  }

  /** Threads are listed, and have an error number, as their role says. */
  ghost predicate Placed(role: RoleMap, waiting: seq<Thread>, error: map<Thread, Error>) {
    && (forall t :: t in waiting <==> RoleIn(role, t) == Waiting)
    && (forall t :: RoleIn(role, t) == Waiting || RoleIn(role, t) == Woken ==> t in error && error[t] == EOk)
    && (forall t :: RoleIn(role, t) == Failing ==> t in error && error[t] != EOk)
    && Distinct(waiting)
  }

  /** A woken thread asked for something the set then had, and has been told just those bits. */
  ghost predicate Told(role: RoleMap, want: Wants, asked: Wants, seen: map<Thread, Bits>) {
    forall t :: RoleIn(role, t) == Woken ==>
      t in want && t in asked && t in seen && Satisfied(asked[t], seen[t]) && want[t].bits == asked[t].bits * seen[t]
  }

  /** The steps of a run. */
  datatype Happening =
    | SendCall(bits: Bits)
    | RecvCall(t: Thread, w: Want, wait: bool)
    | Resume(t: Thread)
    | Expiry(t: Thread)
    | ResetCall

  // --------------------------------------------------- what a step does

  /** The event set, and the threads and their requests. */
  datatype State = State(flags: Bits, waiting: seq<Thread>, want: Wants, error: map<Thread, Error>, role: RoleMap)

  /** What is seen of a step: a receive reports bits, a call fails, or nothing. */
  datatype Out = Silent | Got(t: Thread, bits: Bits) | Refused(t: Thread, error: Error) | BadSend

  datatype Move = Move(next: State, out: Out)

  /**
   The request of `t` is met: it is told the bits it asked for that are set, they go if it wants that, and it is
   woken.
   */
  ghost function Met(s: State, t: Thread): (r: State)
    requires t in s.want
  {
    var w := s.want[t];
    s.(flags := Received(w, s.flags), want := s.want[t := w.(bits := w.bits * s.flags)], role := s.role[t := Woken])
  }

  /** The walk of a send: threads of `todo` are met, one after the other, or kept behind those of `kept`. */
  ghost function Swept(s: State, todo: seq<Thread>, kept: seq<Thread>): (r: State)
    decreases |todo|
  {
    if todo == [] then s.(waiting := kept)
    else
      var t := todo[0];
      if t in s.want && Satisfied(s.want[t], s.flags) then Swept(Met(s, t), todo[1..], kept)
      else Swept(s, todo[1..], kept + [t])
  }

  ghost function SendMove(s: State, bits: Bits): (r: Move) {
    if bits == {} then Move(s, BadSend) else Move(Swept(s.(flags := s.flags + bits), s.waiting, []), Silent)
  }

  ghost function RecvMove(s: State, t: Thread, w: Want, wait: bool, prio: Priorities, order: Order): (r: Move) {
    if w.bits == {} then Move(s, Refused(t, EError))
    else if Satisfied(w, s.flags) then
      Move(s.(flags := Received(w, s.flags), error := s.error[t := EOk]), Got(t, w.bits * s.flags))
    else if wait then
      Move(s.(waiting := Suspend(s.waiting, t, prio, order), want := s.want[t := w], error := s.error[t := EOk],
        role := s.role[t := Waiting]), Silent)
    else Move(s.(error := s.error[t := ETimeout]), Refused(t, ETimeout))
  }

  ghost function ResumeMove(s: State, t: Thread): (r: Move) {
    var out := s.(role := s.role[t := Running]);
    match RoleIn(s.role, t)
    case Woken => Move(out, if t in s.want then Got(t, s.want[t].bits) else Silent)
    case Failing => Move(out, if t in s.error then Refused(t, s.error[t]) else Silent)
    case _ => Move(s, Silent)
  }

  /** All waiting threads are resumed with an error. */
  ghost function DismissedAll(s: State): (r: State)
    decreases |s.waiting|
  {
    if s.waiting == [] then s
    else
      var t := s.waiting[0];
      DismissedAll(s.(waiting := s.waiting[1..], error := s.error[t := EError], role := s.role[t := Failing]))
  }

  lemma {:induction false} DismissedFails(s: State, t: Thread)
    requires t in s.waiting || (RoleIn(s.role, t) == Failing && t in s.error && s.error[t] == EError)
    ensures var r := DismissedAll(s); RoleIn(r.role, t) == Failing && t in r.error && r.error[t] == EError
    decreases |s.waiting|
  {
    if s.waiting != [] {
      var w := s.waiting[0];
      DismissedFails(s.(waiting := s.waiting[1..], error := s.error[w := EError], role := s.role[w := Failing]), t);
    }
  }

  /** The one thing a happening does; a step the thread cannot take does nothing. */
  ghost function Next(s: State, ev: Happening, prio: Priorities, order: Order): (r: Move) {
    match ev
    case SendCall(bits) => SendMove(s, bits)
    case RecvCall(t, w, wait) => if RoleIn(s.role, t) == Running then RecvMove(s, t, w, wait, prio, order)
      else Move(s, Silent)
    case Resume(t) => ResumeMove(s, t)
    case Expiry(t) =>
      if RoleIn(s.role, t) == Waiting then
        Move(s.(waiting := Remove(s.waiting, t), error := s.error[t := ETimeout], role := s.role[t := Failing]), Silent)
      else Move(s, Silent)
    case ResetCall => Move(DismissedAll(s).(flags := {}), Silent)
  }

  datatype Trace = Trace(last: State, outs: seq<Out>)

  /** What some happenings do one after the other, each at the priorities of its moment. */
  ghost function Traced(s: State, evs: seq<Happening>, prios: seq<Priorities>, order: Order): (r: Trace)
    requires |prios| == |evs|
    ensures |r.outs| == |evs|
  {
    if evs == [] then Trace(s, [])
    else
      var n := |evs| - 1;
      var before := Traced(s, evs[..n], prios[..n], order);
      var move := Next(before.last, evs[n], prios[n], order);
      Trace(move.next, before.outs + [move.out])
  }

  // ------------------------------------------------------- what was asked for

  /** The threads on the list are those suspended, each once. */
  ghost predicate Listed(s: State) {
    (forall t :: t in s.waiting <==> RoleIn(s.role, t) == Waiting) && Distinct(s.waiting)
  }

  /** The last receive a thread has begun. */
  datatype Asks = NoAsk | Asks(w: Want)

  ghost function Begun(s: State, ev: Happening, t: Thread, before: Asks): (r: Asks) {
    if ev.RecvCall? && ev.t == t && RoleIn(s.role, t) == Running then Asks(ev.w) else before
  }

  ghost function LastBegun(s: State, evs: seq<Happening>, prios: seq<Priorities>, order: Order, t: Thread): (r: Asks)
    requires |prios| == |evs|
    decreases evs
  {
    if evs == [] then NoAsk
    else
      var n := |evs| - 1;
      Begun(Traced(s, evs[..n], prios[..n], order).last, evs[n], t, LastBegun(s, evs[..n], prios[..n], order, t))
  }

  /** The bits reported answer the request: some that were asked for, and all of them if all were. */
  ghost predicate Answers(bits: Bits, b: Asks) {
    b.Asks? && bits != {} && bits <= b.w.bits && (b.w.all ==> bits == b.w.bits)
  }

  ghost predicate Carries(s: State, t: Thread, b: Asks) {
    && (RoleIn(s.role, t) == Waiting ==> t in s.want && b == Asks(s.want[t]) && s.want[t].bits != {})
    && (RoleIn(s.role, t) == Woken ==> t in s.want && Answers(s.want[t].bits, b))
  }

  /** The walk meets only threads that wait, so each keeps the request it came with until it is met. */
  lemma {:induction false} SweptCarries(s: State, todo: seq<Thread>, kept: seq<Thread>, t: Thread, b: Asks)
    requires (forall x :: x in todo || x in kept <==> RoleIn(s.role, x) == Waiting) && Distinct(kept + todo)
    requires Carries(s, t, b)
    ensures var r := Swept(s, todo, kept); Listed(r) && Carries(r, t, b)
    decreases |todo|
  {
    if todo == [] {
      assert kept + todo == kept;
    } else {
      var x, rest := todo[0], todo[1..];
      FirstOfTodo(kept, todo);
      if x in s.want && Satisfied(s.want[x], s.flags) {
        SweptCarries(Met(s, x), rest, kept, t, b);
      } else {
        SweptCarries(s, rest, kept + [x], t, b);
      }
    }
  }

  lemma FirstOfTodo(kept: seq<Thread>, todo: seq<Thread>)
    requires todo != [] && Distinct(kept + todo)
    ensures var x, rest := todo[0], todo[1..];
      && x !in rest && x !in kept && Distinct(kept + rest) && Distinct(kept + [x] + rest)
      && forall y :: y in todo <==> y == x || y in rest
  {
    var x, rest := todo[0], todo[1..];
    assert kept + todo == kept + [x] + rest && todo == [x] + rest;
    assert (kept + todo)[|kept|] == x;
    forall i | 0 <= i < |rest|
      ensures rest[i] != x
    {
      assert (kept + todo)[|kept| + 1 + i] == rest[i];
    }
    forall i | 0 <= i < |kept|
      ensures kept[i] != x
    {
      assert (kept + todo)[i] == kept[i];
    }
    forall i, j | 0 <= i < j < |kept + rest|
      ensures (kept + rest)[i] != (kept + rest)[j]
    {
      var i', j' := if i < |kept| then i else i + 1, if j < |kept| then j else j + 1;
      assert (kept + todo)[i'] == (kept + rest)[i] && (kept + todo)[j'] == (kept + rest)[j];
    }
  }

  lemma {:induction false} DismissedListed(s: State, t: Thread, b: Asks)
    requires Listed(s) && Carries(s, t, b)
    ensures Listed(DismissedAll(s)) && Carries(DismissedAll(s), t, b)
    decreases |s.waiting|
  {
    if s.waiting != [] {
      var x := s.waiting[0];
      TailElems(s.waiting);
      DismissedListed(s.(waiting := s.waiting[1..], error := s.error[x := EError], role := s.role[x := Failing]), t, b);
    }
  }

  lemma RecvListed(s: State, x: Thread, w: Want, wait: bool, prio: Priorities, order: Order, t: Thread, b: Asks)
    requires Listed(s) && RoleIn(s.role, x) == Running && Carries(s, t, b) && (x == t ==> b == Asks(w))
    ensures var m := RecvMove(s, x, w, wait, prio, order);
      Listed(m.next) && Carries(m.next, t, b) && (m.out.Got? && m.out.t == t ==> Answers(m.out.bits, b))
  {
    hide Suspend;
    SuspendDistinct(s.waiting, x, prio, order);
  }

  lemma ExpiryListed(s: State, x: Thread, t: Thread, b: Asks)
    requires Listed(s) && Carries(s, t, b)
    ensures var r := s.(waiting := Remove(s.waiting, x), error := s.error[x := ETimeout], role := s.role[x := Failing]);
      Listed(r) && Carries(r, t, b)
  {
    hide Remove;
    RemoveDistinct(s.waiting, x);
  }

  lemma ResumeListed(s: State, x: Thread, t: Thread, b: Asks)
    requires Listed(s) && Carries(s, t, b)
    ensures var m := ResumeMove(s, x);
      Listed(m.next) && Carries(m.next, t, b) && (m.out.Got? && m.out.t == t ==> Answers(m.out.bits, b))
  {
  }

  lemma NextCarries(s: State, ev: Happening, prio: Priorities, order: Order, t: Thread, b: Asks)
    requires Listed(s) && Carries(s, t, b)
    ensures var m, b' := Next(s, ev, prio, order), Begun(s, ev, t, b);
      Listed(m.next) && Carries(m.next, t, b') && (m.out.Got? && m.out.t == t ==> Answers(m.out.bits, b'))
  {
    hide RecvMove, ResumeMove, Swept, DismissedAll, Remove, Distinct, Answers;
    match ev
    case SendCall(bits) =>
      assert [] + s.waiting == s.waiting;
      SweptCarries(s.(flags := s.flags + bits), s.waiting, [], t, b);
    case RecvCall(x, w, wait) =>
      if RoleIn(s.role, x) == Running { RecvListed(s, x, w, wait, prio, order, t, Begun(s, ev, t, b)); }
    case Resume(x) => ResumeListed(s, x, t, b);
    case Expiry(x) => ExpiryListed(s, x, t, b);
    case ResetCall => DismissedListed(s, t, b);
  }

  lemma {:induction false} RunCarries(s: State, evs: seq<Happening>, prios: seq<Priorities>, order: Order, t: Thread)
    requires |prios| == |evs| && Listed(s) && RoleIn(s.role, t) == Running
    ensures var r := Traced(s, evs, prios, order).last; Listed(r) && Carries(r, t, LastBegun(s, evs, prios, order, t))
    decreases evs
  {
    hide Next, Listed;
    if evs != [] {
      var n := |evs| - 1;
      RunCarries(s, evs[..n], prios[..n], order, t);
      NextCarries(Traced(s, evs[..n], prios[..n], order).last, evs[n], prios[n], order, t,
                  LastBegun(s, evs[..n], prios[..n], order, t));
    }
  }

  /** Over every run, the bits a receive reports answer what that thread last asked for. */
  lemma ReportedIsAsked(s: State, evs: seq<Happening>, prios: seq<Priorities>, order: Order, k: nat)
    requires |prios| == |evs| && Listed(s) && k < |evs|
    ensures var out := Traced(s, evs[..k + 1], prios[..k + 1], order).outs[k];
      out.Got? && RoleIn(s.role, out.t) == Running ==>
        Answers(out.bits, LastBegun(s, evs[..k + 1], prios[..k + 1], order, out.t))
  {
    hide Next, Listed, Answers;
    var a, pa := evs[..k + 1], prios[..k + 1];
    assert a[..k] == evs[..k] && pa[..k] == prios[..k];
    var out := Traced(s, a, pa, order).outs[k];
    if out.Got? && RoleIn(s.role, out.t) == Running {
      RunCarries(s, evs[..k], prios[..k], order, out.t);
      NextCarries(Traced(s, evs[..k], prios[..k], order).last, evs[k], prios[k], order, out.t,
                  LastBegun(s, evs[..k], prios[..k], order, out.t));
    }
  }

  // ------------------------------------------------------- steps in a row

  /** A send that satisfies the first waiting thread: its receive then reports what it asked for and is set. */
  lemma SendLetsGo(s: State, bits: Bits, prio: Priorities, order: Order)
    requires Listed(s) && bits != {} && s.waiting != [] && s.waiting[0] in s.want
    requires Satisfied(s.want[s.waiting[0]], s.flags + bits)
    ensures var t := s.waiting[0]; var a := Next(s, SendCall(bits), prio, order);
      var b := Next(a.next, Resume(t), prio, order);
      && a.out == Silent && b.out == Got(t, s.want[t].bits * (s.flags + bits)) && RoleIn(b.next.role, t) == Running
      && t !in b.next.waiting
  {
    var t, all := s.waiting[0], s.(flags := s.flags + bits);
    TailElems(s.waiting);
    assert t !in s.waiting[1..];
    SweptLeaves(Met(all, t), s.waiting[1..], [], t);
  }

  /** The walk does not touch a thread that is not on it. */
  lemma {:induction false} SweptLeaves(s: State, todo: seq<Thread>, kept: seq<Thread>, t: Thread)
    requires t !in todo && t !in kept && t in s.want
    ensures var r := Swept(s, todo, kept);
      t in r.want && r.want[t] == s.want[t] && RoleIn(r.role, t) == RoleIn(s.role, t) && t !in r.waiting
    decreases |todo|
  {
    if todo != [] {
      var x := todo[0];
      assert x in todo && forall y :: y in todo[1..] ==> y in todo;
      if x in s.want && Satisfied(s.want[x], s.flags) {
        SweptLeaves(Met(s, x), todo[1..], kept, t);
      } else {
        SweptLeaves(s, todo[1..], kept + [x], t);
      }
    }
  }

  /** A receive that times out returns the timeout, and the events are as they were. */
  lemma TimedOutReturns(s: State, t: Thread, prio: Priorities, order: Order)
    requires RoleIn(s.role, t) == Waiting
    ensures var a := Next(s, Expiry(t), prio, order); var b := Next(a.next, Resume(t), prio, order);
      && a.out == Silent && b.out == Refused(t, ETimeout) && RoleIn(b.next.role, t) == Running
      && b.next.flags == s.flags && b.next.waiting == Remove(s.waiting, t)
  {
    hide Remove;
  }

  /** After a reset no event is set, and every thread that waited returns an error. */
  lemma ResetReturns(s: State, t: Thread, prio: Priorities, order: Order)
    requires t in s.waiting
    ensures var a := Next(s, ResetCall, prio, order); var b := Next(a.next, Resume(t), prio, order);
      a.next.flags == {} && b.out == Refused(t, EError) && RoleIn(b.next.role, t) == Running
  {
    hide DismissedAll;
    DismissedFails(s, t);
  }

  class Event {
    const order: Order
    var flags: Bits
    var waiting: seq<Thread>
    /** The event_set and event_info of every thread. */
    var want: Wants
    var error: map<Thread, Error>
    var role: RoleMap

    /** What each thread asked for, and the event set that satisfied it. */
    ghost var asked: Wants
    ghost var seen: map<Thread, Bits>

    ghost function Now(): (s: State)
      reads this`flags, this`waiting, this`want, this`error, this`role
    {
      State(flags, waiting, want, error, role)
    }

    ghost predicate Valid()
      reads this
    {
      && Placed(role, waiting, error) && Told(role, want, asked, seen)
      && AllUnsatisfied(waiting, want, flags)
      && Asked(waiting, want, asked)
    }

    /** rt_event_init. */
    constructor (o: Order)
      ensures Valid() && order == o && Now() == State({}, [], map[], map[], map[])
    {
      order, flags, waiting, want, error, role := o, {}, [], map[], map[], map[];
      asked, seen := map[], map[];
    }

    /** The stored request of `t` is met: note what it gets, clear it if asked to, and resume the thread. */
    method Satisfy(n: int)
      requires 0 <= n < |waiting| && Placed(role, waiting, error) && Told(role, want, asked, seen)
      requires var t := waiting[n]; t in want && t in asked && asked[t] == want[t] && Satisfied(want[t], flags)
      modifies this`seen, this`want, this`flags, this`waiting, this`role
      ensures Placed(role, waiting, error) && Told(role, want, asked, seen)
      ensures waiting == old(waiting)[..n] + old(waiting)[n + 1..] && seen == old(seen)[old(waiting)[n] := old(flags)]
      ensures var t := old(waiting)[n];
        && flags == Received(old(want)[t], old(flags)) && role == old(role)[t := Woken] && t !in waiting
        && flags == (if old(want)[t].clear then old(flags) - old(want)[t].bits else old(flags))
        && want == old(want)[t := old(want)[t].(bits := old(want)[t].bits * old(flags))]
    {
      hide Placed, Told;
      var t := waiting[n];
      WokenPlaced(role, waiting, error, n);
      WokenTold(role, want, asked, seen, t, flags);
      seen := seen[t := flags];
      if !want[t].all {
        want := want[t := want[t].(bits := want[t].bits * flags)];
      } else {
        assert want[t := want[t].(bits := want[t].bits * flags)] == want;
      }
      if want[t].clear {
        flags := flags - want[t].bits;
      }
      waiting := waiting[..n] + waiting[n + 1..];
      role := role[t := Woken];
    }

    /** rt_event_send. */
    method Send(bits: Bits) returns (e: Error)
      requires Valid()
      modifies this
      ensures Valid() && e == if bits == {} then EError else EOk
      ensures bits == {} ==> unchanged(this)
      ensures bits != {} ==> (flags, waiting) == Sweep(old(flags) + bits, old(waiting), old(want))
      ensures Move(Now(), if e == EOk then Silent else BadSend) == SendMove(old(Now()), bits)
      ensures forall t :: t in old(waiting) && t !in waiting ==> RoleIn(role, t) == Woken
    {
      hide Placed, Told, Sweep, Walked, AllUnsatisfied, Swept, Satisfied, Received;
      if bits == {} {
        return EError;
      }
      flags := flags + bits;
      ghost var flags0, want0, list := flags, want, waiting;
      ListedWants(waiting, want, old(flags));
      WalkStart(flags, waiting, want);
      ghost var start := Now();
      assert waiting[0..] == waiting && waiting[..0] == [];
      var n := 0;
      while n < |waiting|
        invariant 0 <= n <= |waiting|
        invariant Placed(role, waiting, error) && Told(role, want, asked, seen)
        invariant Swept(Now(), waiting[n..], waiting[..n]) == Swept(start, list, [])
        invariant Asked(waiting, want, asked) && Asked(waiting, want, want0)
        invariant Walked(flags0, list, flags, waiting, n, want0)
        invariant forall t :: t in list ==> t in waiting || RoleIn(role, t) == Woken
        decreases |waiting| - n
      {
        ghost var before := Now();
        var t := waiting[n];
        assert t in waiting;
        if Satisfied(want[t], flags) {
          WalkWake(flags0, list, flags, waiting, n, want0);
          WithoutNth(waiting, n);
          SweptWake(Now(), waiting, n);
          Satisfy(n);
          SweptSame(Now(), Met(before, t), waiting[n..], waiting[..n]);
        } else {
          SweptKeep(Now(), waiting, n);
          WalkKeep(flags0, list, flags, waiting, n, want0);
          n := n + 1;
        }
      }
      SweptEnd(Now());
      WalkEnd(flags0, list, flags, waiting, want0);
      SweepUnsatisfied(flags0, list, want0);
      AllUnsatisfiedFrame(waiting, want0, want, flags);
      return EOk;
    }

    /** A receiver clears the bits it asked for, if it asked for that. */
    method Clear(w: Want)
      requires Valid()
      modifies this`flags
      ensures Valid() && flags == Received(w, old(flags))
    {
      hide Placed, Told, AllUnsatisfied, Asked;
      if w.clear {
        LessUnsatisfied(waiting, want, flags, flags - w.bits);
        flags := flags - w.bits;
      }
    }

    /** A receiver stores its request and waits. */
    method Await(t: Thread, w: Want, prio: Priorities)
      requires Valid() && RoleIn(role, t) == Running && t in error && error[t] == EOk && !Satisfied(w, flags)
      modifies this`want, this`asked, this`waiting, this`role
      ensures Valid() && want == old(want)[t := w] && asked == old(asked)[t := w]
      ensures waiting == Suspend(old(waiting), t, prio, order) && role == old(role)[t := Waiting]
    {
      hide Placed, Told, AllUnsatisfied, Asked, Suspend, Satisfied;
      SuspendedPlaced(role, waiting, error, t, prio, order);
      SuspendedTold(role, want, asked, seen, t, w);
      SuspendedWants(waiting, want, asked, flags, t, w, prio, order);
      want, asked := want[t := w], asked[t := w];
      waiting := Place(waiting, t, prio, order);
      role := role[t := Waiting];
    }

    /** The stretch of rt_event_recv up to its return or suspension. */
    method Recv(t: Thread, w: Want, wait: bool, prio: Priorities) returns (e: Error, recved: Bits)
      requires Valid() && RoleIn(role, t) == Running
      modifies this
      ensures Valid()
      ensures w.bits == {} ==> e == EError && unchanged(this)
      ensures w.bits != {} && Satisfied(w, old(flags)) ==>
        e == EOk && RoleIn(role, t) == Running && recved == w.bits * old(flags) && waiting == old(waiting)
        && flags == if w.clear then old(flags) - recved else old(flags)
      ensures w.bits != {} && !Satisfied(w, old(flags)) ==>
        && e == (if wait then EOk else ETimeout) && flags == old(flags) && recved == {}
        && RoleIn(role, t) == (if wait then Waiting else Running)
        && waiting == (if wait then Suspend(old(waiting), t, prio, order) else old(waiting))
        && (wait ==> t in want && want[t] == w)
      ensures w.bits != {} ==> (Satisfied(w, old(flags)) <==>
        if w.all then w.bits <= old(flags) else exists b :: b in w.bits && b in old(flags))
      ensures Now() == RecvMove(old(Now()), t, w, wait, prio, order).next
    {
      hide Placed, Told, AllUnsatisfied, Suspend, Asked;
      SatisfiedMeans(w, flags);
      recved := {};
      if w.bits == {} {
        return EError, recved;
      }
      RunningError(role, waiting, error, t, EOk);
      error := error[t := EOk];
      if Satisfied(w, flags) {
        recved := flags * w.bits;
        Clear(w);
        return EOk, recved;
      } else if !wait {
        RunningError(role, waiting, error, t, ETimeout);
        error := error[t := ETimeout];
        return ETimeout, recved;
      }
      Await(t, w, prio);
      return EOk, recved;
    }

    /** A woken receiver returns the bits it asked for that were there when it was satisfied. */
    method FinishRecv(t: Thread) returns (e: Error, recved: Bits)
      requires Valid() && RoleIn(role, t) == Woken
      modifies this`role
      ensures Valid() && e == EOk && role == old(role)[t := Running] && t in want && recved == want[t].bits
      ensures t in asked && t in seen && Satisfied(asked[t], seen[t]) && recved == asked[t].bits * seen[t]
      ensures if asked[t].all then recved == asked[t].bits <= seen[t] else recved != {}
    {
      hide AllUnsatisfied, Placed;
      Finished(role, waiting, error, want, asked, seen, t);
      e, recved := error[t], want[t].bits;
      role := role[t := Running];
    }

    /** rt_thread_timeout of a thread suspended on the event. */
    method Timeout(t: Thread)
      requires Valid() && RoleIn(role, t) == Waiting
      modifies this`waiting, this`error, this`role
      ensures Valid() && role == old(role)[t := Failing] && waiting == Remove(old(waiting), t)
        && error == old(error)[t := ETimeout]
    {
      hide AllUnsatisfied, Placed, Told, Remove;
      Dropped(role, waiting, error, want, asked, seen, flags, t, ETimeout);
      error := error[t := ETimeout];
      waiting := Remove(waiting, t);
      role := role[t := Failing];
    }

    /** A thread resumed with an error returns it. */
    method Fail(t: Thread) returns (e: Error)
      requires Valid() && RoleIn(role, t) == Failing
      modifies this`role
      ensures Valid() && role == old(role)[t := Running] && t in error && e == error[t] && e != EOk
    {
      hide AllUnsatisfied, Placed, Told;
      Returned(role, waiting, error, want, asked, seen, t);
      e := error[t];
      role := role[t := Running];
    }

    /** Resume the first waiting thread with an error. */
    method DismissOne()
      requires Valid() && waiting != []
      modifies this`waiting, this`error, this`role
      ensures Valid() && waiting == old(waiting)[1..]
      ensures var t := old(waiting)[0]; error == old(error)[t := EError] && role == old(role)[t := Failing]
    {
      hide AllUnsatisfied, Placed, Told;
      var t := waiting[0];
      FirstDropped(role, waiting, error, want, asked, seen, flags);
      error := error[t := EError];
      waiting := waiting[1..];
      role := role[t := Failing];
    }

    /** rt_event_control with RT_IPC_CMD_RESET. */
    method Reset()
      requires Valid()
      modifies this
      ensures Valid() && flags == {} && waiting == [] && Now() == DismissedAll(old(Now())).(flags := {})
      ensures forall t :: t in old(waiting) ==> RoleIn(role, t) == Failing && t in error && error[t] == EError
    {
      hide AllUnsatisfied, Placed, Told;
      while waiting != []
        invariant Valid() && DismissedAll(Now()) == DismissedAll(old(Now()))
        decreases |waiting|
      {
        DismissOne();
      }
      forall t | t in old(waiting)
        ensures RoleIn(role, t) == Failing && t in error && error[t] == EError
      {
        DismissedFails(old(Now()), t);
      }
      LessUnsatisfied(waiting, want, flags, {});
      flags := {};
    }

    // --------------------------------------------------------------- runs

    /** One step of a run; a step the thread cannot take is skipped. */
    method Step(ev: Happening, prio: Priorities) returns (out: Out)
      requires Valid()
      modifies this
      ensures Valid() && Move(Now(), out) == Next(old(Now()), ev, prio, order)
    {
      hide AllUnsatisfied, Placed, Told, Remove, Suspend, Sweep, Swept, DismissedAll;
      out := Silent;
      match ev
      case SendCall(bits) =>
        var e := Send(bits);
        out := if e == EOk then Silent else BadSend;
      case RecvCall(t, w, wait) =>
        if RoleIn(role, t) == Running {
          var e, recved := Recv(t, w, wait, prio);
          out := if e != EOk then Refused(t, e) else if RoleIn(role, t) == Waiting then Silent else Got(t, recved);
        }
      case Resume(t) =>
        if RoleIn(role, t) == Woken {
          var _, recved := FinishRecv(t);
          out := Got(t, recved);
        } else if RoleIn(role, t) == Failing {
          var e := Fail(t);
          out := Refused(t, e);
        }
      case Expiry(t) =>
        if RoleIn(role, t) == Waiting { Timeout(t); }
      case ResetCall => Reset();
    }

    /** Any interleaving is the specified run, and after it nobody waits for something the event set has. */
    method Run(evs: seq<Happening>, prios: seq<Priorities>) returns (outs: seq<Out>)
      requires Valid() && |prios| == |evs|
      modifies this
      ensures Valid() && AllUnsatisfied(waiting, want, flags)
        && Trace(Now(), outs) == Traced(old(Now()), evs, prios, order)
    {
      hide AllUnsatisfied, Placed, Told, Next;
      outs := [];
      ghost var start := Now();
      for i := 0 to |evs|
        invariant Valid() && Trace(Now(), outs) == Traced(start, evs[..i], prios[..i], order)
      {
        assert evs[..i + 1][..i] == evs[..i] && prios[..i + 1][..i] == prios[..i];
        var out := Step(evs[i], prios[i]);
        outs := outs + [out];
      }
      assert evs[..|evs|] == evs && prios[..|evs|] == prios;
    }
  }

  lemma SweptWake(s: State, list: seq<Thread>, n: int)
    requires 0 <= n < |list| && list[n] in s.want && Satisfied(s.want[list[n]], s.flags)
    ensures var rest := list[..n] + list[n + 1..];
      Swept(s, list[n..], list[..n]) == Swept(Met(s, list[n]), rest[n..], rest[..n])
  {
    var rest := list[..n] + list[n + 1..];
    assert list[n..][1..] == rest[n..] && list[..n] == rest[..n];
  }

  lemma SweptKeep(s: State, list: seq<Thread>, n: int)
    requires 0 <= n < |list| && list[n] in s.want && !Satisfied(s.want[list[n]], s.flags)
    ensures Swept(s, list[n..], list[..n]) == Swept(s, list[n + 1..], list[..n + 1])
  {
    assert list[n..][1..] == list[n + 1..] && list[..n] + [list[n]] == list[..n + 1];
  }

  lemma SweptEnd(s: State)
    ensures Swept(s, s.waiting[|s.waiting|..], s.waiting[..|s.waiting|]) == s
  {
    assert s.waiting[..|s.waiting|] == s.waiting;
  }

  /** The list of the state walked over does not matter. */
  lemma {:induction false} SweptSame(s: State, s': State, todo: seq<Thread>, kept: seq<Thread>)
    requires s' == s.(waiting := s'.waiting)
    ensures Swept(s, todo, kept) == Swept(s', todo, kept)
    decreases |todo|
  {
    if todo != [] {
      var t := todo[0];
      if t in s.want && Satisfied(s.want[t], s.flags) {
        SweptSame(Met(s, t), Met(s', t), todo[1..], kept);
      } else {
        SweptSame(s, s', todo[1..], kept + [t]);
      }
    }
  }

  /** Threads of the list want in `want` what they asked for. */
  ghost predicate Asked(list: seq<Thread>, want: Wants, asked: Wants) {
    forall t :: t in list ==> t in asked && t in want && asked[t] == want[t]
  }

  lemma ListedWants(list: seq<Thread>, want: Wants, flags: Bits)
    requires AllUnsatisfied(list, want, flags)
    ensures forall t :: t in list ==> t in want
  {
  }

  lemma AllUnsatisfiedFrame(list: seq<Thread>, want: Wants, want': Wants, flags: Bits)
    requires AllUnsatisfied(list, want, flags) && Asked(list, want', want)
    ensures AllUnsatisfied(list, want', flags)
  {
  }

  /** The walk from `flags0` over `list` has come to position `n`. */
  ghost predicate Walked(flags0: Bits, list: seq<Thread>, flags: Bits, waiting: seq<Thread>, n: int, want: Wants) {
    && 0 <= n <= |waiting| && (forall t :: t in list ==> t in want) && (forall t :: t in waiting ==> t in want)
    && (forall t :: t in waiting[n..] ==> t in want)
    && var rest := Sweep(flags, waiting[n..], want);
       Sweep(flags0, list, want) == (rest.0, waiting[..n] + rest.1)
  }

  lemma WalkStart(flags: Bits, list: seq<Thread>, want: Wants)
    requires forall t :: t in list ==> t in want
    ensures Walked(flags, list, flags, list, 0, want)
  {
    assert list[0..] == list && list[..0] == [];
    assert [] + Sweep(flags, list, want).1 == Sweep(flags, list, want).1;
  }

  lemma WalkKeep(flags0: Bits, list: seq<Thread>, flags: Bits, waiting: seq<Thread>, n: int, want: Wants)
    requires Walked(flags0, list, flags, waiting, n, want) && n < |waiting| && !Satisfied(want[waiting[n]], flags)
    ensures Walked(flags0, list, flags, waiting, n + 1, want)
  {
    var rem := waiting[n..];
    assert rem[0] == waiting[n] && rem[1..] == waiting[n + 1..] && waiting[..n + 1] == waiting[..n] + [waiting[n]];
    var rest := Sweep(flags, waiting[n + 1..], want);
    assert waiting[..n] + ([waiting[n]] + rest.1) == waiting[..n + 1] + rest.1;
  }

  lemma WalkWake(flags0: Bits, list: seq<Thread>, flags: Bits, waiting: seq<Thread>, n: int, want: Wants)
    requires Walked(flags0, list, flags, waiting, n, want) && n < |waiting| && Satisfied(want[waiting[n]], flags)
    ensures Walked(flags0, list, Received(want[waiting[n]], flags), waiting[..n] + waiting[n + 1..], n, want)
  {
    var rem, next := waiting[n..], waiting[..n] + waiting[n + 1..];
    assert rem[0] == waiting[n] && rem[1..] == waiting[n + 1..] && next[n..] == waiting[n + 1..]
      && next[..n] == waiting[..n];
  }

  lemma WalkEnd(flags0: Bits, list: seq<Thread>, flags: Bits, waiting: seq<Thread>, want: Wants)
    requires Walked(flags0, list, flags, waiting, |waiting|, want)
    ensures Sweep(flags0, list, want) == (flags, waiting)
  {
    assert waiting[|waiting|..] == [] && waiting[..|waiting|] + [] == waiting;
  }

  lemma WithoutNth(list: seq<Thread>, n: int)
    requires 0 <= n < |list|
    ensures forall t :: t in list[..n] + list[n + 1..] ==> t in list
    ensures forall t :: t in list ==> t in list[..n] + list[n + 1..] || t == list[n]
  {
    assert list == list[..n] + [list[n]] + list[n + 1..];
  }

  lemma WokenPlaced(role: RoleMap, waiting: seq<Thread>, error: map<Thread, Error>, n: int)
    requires Placed(role, waiting, error) && 0 <= n < |waiting|
    ensures Placed(role[waiting[n] := Woken], waiting[..n] + waiting[n + 1..], error)
    ensures waiting[n] !in waiting[..n] + waiting[n + 1..]
  {
    var t, role' := waiting[n], role[waiting[n] := Woken];
    WithoutNth(waiting, n);
    assert t in waiting && t !in waiting[..n] + waiting[n + 1..];
    assert forall x :: RoleIn(role', x) == if x == t then Woken else RoleIn(role, x);
  }

  lemma WokenTold(role: RoleMap, want: Wants, asked: Wants, seen: map<Thread, Bits>, t: Thread, flags: Bits)
    requires Told(role, want, asked, seen) && t in want && t in asked && asked[t] == want[t]
      && Satisfied(want[t], flags)
    ensures Told(role[t := Woken], want[t := want[t].(bits := want[t].bits * flags)], asked, seen[t := flags])
  {
    var role' := role[t := Woken];
    assert forall x :: RoleIn(role', x) == if x == t then Woken else RoleIn(role, x);
  }

  lemma RunningError(role: RoleMap, waiting: seq<Thread>, error: map<Thread, Error>, t: Thread, e: Error)
    requires Placed(role, waiting, error) && RoleIn(role, t) == Running
    ensures Placed(role, waiting, error[t := e])
  {
  }

  lemma LessUnsatisfied(list: seq<Thread>, want: Wants, flags: Bits, less: Bits)
    requires AllUnsatisfied(list, want, flags) && less <= flags
    ensures AllUnsatisfied(list, want, less)
  {
    forall t | t in list
      ensures !Satisfied(want[t], less)
    {
      ShrinkUnsatisfied(want[t], flags, less);
    }
  }

  lemma SuspendedPlaced(role: RoleMap, waiting: seq<Thread>, error: map<Thread, Error>, t: Thread, prio: Priorities,
                        order: Order)
    requires Placed(role, waiting, error) && RoleIn(role, t) == Running && t in error && error[t] == EOk
    ensures Placed(role[t := Waiting], Suspend(waiting, t, prio, order), error)
  {
    var role' := role[t := Waiting];
    assert forall x :: RoleIn(role', x) == if x == t then Waiting else RoleIn(role, x);
    SuspendDistinct(waiting, t, prio, order);
  }

  lemma SuspendedTold(role: RoleMap, want: Wants, asked: Wants, seen: map<Thread, Bits>, t: Thread, w: Want)
    requires Told(role, want, asked, seen)
    ensures Told(role[t := Waiting], want[t := w], asked[t := w], seen)
  {
    var role' := role[t := Waiting];
    assert forall x :: RoleIn(role', x) == if x == t then Waiting else RoleIn(role, x);
  }

  lemma SuspendedWants(waiting: seq<Thread>, want: Wants, asked: Wants, flags: Bits, t: Thread, w: Want,
                       prio: Priorities, order: Order)
    requires AllUnsatisfied(waiting, want, flags) && Asked(waiting, want, asked) && !Satisfied(w, flags)
    ensures AllUnsatisfied(Suspend(waiting, t, prio, order), want[t := w], flags)
    ensures Asked(Suspend(waiting, t, prio, order), want[t := w], asked[t := w])
  {
    hide Satisfied;
  }

  lemma Finished(role: RoleMap, waiting: seq<Thread>, error: map<Thread, Error>, want: Wants, asked: Wants,
                 seen: map<Thread, Bits>, t: Thread)
    requires Placed(role, waiting, error) && Told(role, want, asked, seen) && RoleIn(role, t) == Woken
    ensures t in error && error[t] == EOk && Placed(role[t := Running], waiting, error)
      && Told(role[t := Running], want, asked, seen)
  {
    var role' := role[t := Running];
    assert forall x :: RoleIn(role', x) == if x == t then Running else RoleIn(role, x);
  }

  lemma Returned(role: RoleMap, waiting: seq<Thread>, error: map<Thread, Error>, want: Wants, asked: Wants,
                 seen: map<Thread, Bits>, t: Thread)
    requires Placed(role, waiting, error) && Told(role, want, asked, seen) && RoleIn(role, t) == Failing
    ensures t in error && error[t] != EOk && Placed(role[t := Running], waiting, error)
      && Told(role[t := Running], want, asked, seen)
  {
    var role' := role[t := Running];
    assert forall x :: RoleIn(role', x) == if x == t then Running else RoleIn(role, x);
  }

  /** A waiting thread leaves with an error. */
  lemma Dropped(role: RoleMap, waiting: seq<Thread>, error: map<Thread, Error>, want: Wants, asked: Wants,
                seen: map<Thread, Bits>,
                flags: Bits, t: Thread, e: Error)
    requires Placed(role, waiting, error) && Told(role, want, asked, seen) && AllUnsatisfied(waiting, want, flags)
    requires RoleIn(role, t) == Waiting && e != EOk
    ensures Placed(role[t := Failing], Remove(waiting, t), error[t := e]) && Told(role[t := Failing], want, asked, seen)
    ensures AllUnsatisfied(Remove(waiting, t), want, flags)
  {
    var role' := role[t := Failing];
    assert forall x :: RoleIn(role', x) == if x == t then Failing else RoleIn(role, x);
    RemoveDistinct(waiting, t);
  }

  lemma FirstDropped(role: RoleMap, waiting: seq<Thread>, error: map<Thread, Error>, want: Wants, asked: Wants,
                     seen: map<Thread, Bits>, flags: Bits)
    requires Placed(role, waiting, error) && Told(role, want, asked, seen) && AllUnsatisfied(waiting, want, flags)
      && waiting != []
    ensures var t := waiting[0];
      && Placed(role[t := Failing], waiting[1..], error[t := EError]) && Told(role[t := Failing], want, asked, seen)
      && AllUnsatisfied(waiting[1..], want, flags)
  {
    var t := waiting[0];
    assert t in waiting && Distinct(waiting);
    TailElems(waiting);
    var role' := role[t := Failing];
    assert forall x :: RoleIn(role', x) == if x == t then Failing else RoleIn(role, x);
  }
}
