/**
 Message queues (`ipc.c`): nodes linked through a free chain and a queue chain, taken out of both
 while a message is copied with interrupts enabled. Each method is one stretch between interrupt
 changes, so a run is any sequence of calls.
 */
module MessageQueue {
  import opened Sequences
  import opened WaitList
  import opened Words

  type Node = nat
  type Message = seq<byte>

  const NULL: Node := 0

  datatype Error = EOk | EError | ETimeout | EFull

  /** How far a thread is in its call. */
  datatype Role =
    | Outside
    | Waiting                                           // suspended in a receive
    | Woken                                             // resumed by a sender, has not run yet
    | Failing                                           // resumed by a timeout or a reset
    | Reserved(node: Node, message: Message, urgent: bool)  // has a free node, has not copied yet
    | Filled(node: Node, message: Message, urgent: bool)    // has copied its message in
    | Taken(node: Node, message: Message)                // has unlinked the front node
    | Copied(node: Node)                                // has copied the message out

  /** Where a node is. */
  datatype Place = Nowhere | Free | Queued | Held(owner: Thread)

  type RoleMap = map<Thread, Role>
  type PlaceMap = map<Node, Place>
  type Links = map<Node, Node>

  function RoleIn(role: RoleMap, t: Thread): (r: Role) {
    if t in role then role[t] else Outside
  }

  ghost function PlaceIn(place: PlaceMap, n: Node): (p: Place) {
    if n in place then place[n] else Nowhere
  }

  predicate Holds(r: Role, n: Node) {
    (r.Reserved? || r.Filled? || r.Taken? || r.Copied?) && r.node == n
  }

  // ------------------------------------------------------------------ chains

  /** From `h` on, the links run through the nodes of `s` and end in NULL. */
  ghost predicate Chain(next: Links, h: Node, s: seq<Node>)
    decreases s
  {
    if s == [] then h == NULL
    else h == s[0] && h != NULL && h in next && Chain(next, next[h], s[1..])
  }

  lemma {:induction false} ChainFrame(next: Links, h: Node, s: seq<Node>, n: Node, v: Node)
    requires Chain(next, h, s) && n !in s
    ensures Chain(next[n := v], h, s)
    decreases s
  {
    if s != [] {
      ChainFrame(next, next[h], s[1..], n, v);
    }
  }

  /** Linking a node behind the last one. */
  lemma {:induction false} ChainAppend(next: Links, h: Node, s: seq<Node>, n: Node)
    requires Chain(next, h, s) && |s| > 0 && Distinct(s) && n !in s && n != NULL && n in next && next[n] == NULL
    ensures Chain(next[s[|s| - 1] := n], h, s + [n])
    decreases s
  {
    var last := s[|s| - 1];
    var next' := next[last := n];
    if |s| == 1 {
      assert (s + [n])[1..] == [n] && Chain(next', n, [n]) by { assert [n][1..] == []; }
    } else {
      assert h != last && Distinct(s[1..]);
      ChainAppend(next, next[h], s[1..], n);
      assert (s + [n])[1..] == s[1..] + [n];
    }
  }

  // ------------------------------------------------------------------ places

  /** The free and the queued nodes are those marked so, once each, and the pool has `max` nodes. */
  ghost predicate Placed(place: PlaceMap, free: seq<Node>, queued: seq<Node>, max: nat) {
    && (forall n: Node :: n in free <==> PlaceIn(place, n) == Free)
    && (forall n: Node :: n in queued <==> PlaceIn(place, n) == Queued)
    && (forall n: Node :: PlaceIn(place, n) != Nowhere <==> 1 <= n <= max)
    && Distinct(free) && Distinct(queued)
  }

  lemma PlacedMoved(place: PlaceMap, n: Node, to: Place, free: seq<Node>, queued: seq<Node>, free': seq<Node>,
                    queued': seq<Node>, max: nat)
    requires Placed(place, free, queued, max) && 1 <= n <= max && to != Nowhere
    requires Shift(free, free', n, to == Free) && Shift(queued, queued', n, to == Queued)
    ensures Placed(place[n := to], free', queued', max)
  {
    var place' := place[n := to];
    assert forall x: Node :: PlaceIn(place', x) == if x == n then to else PlaceIn(place, x);
    assert forall x: Node :: x in free' <==> PlaceIn(place', x) == Free;
    assert forall x: Node :: x in queued' <==> PlaceIn(place', x) == Queued;
    assert forall x: Node :: PlaceIn(place', x) != Nowhere <==> 1 <= x <= max;
  }

  lemma WhereIs(place: PlaceMap, free: seq<Node>, queued: seq<Node>, max: nat, n: Node)
    requires Placed(place, free, queued, max)
    ensures n in free <==> PlaceIn(place, n) == Free
    ensures n in queued <==> PlaceIn(place, n) == Queued
    ensures PlaceIn(place, n) != Nowhere <==> 1 <= n <= max
    ensures Distinct(free) && Distinct(queued)
  {
  }

  lemma ShiftFront(s: seq<Node>)
    requires Distinct(s) && |s| > 0
    ensures Shift(s, s[1..], s[0], false)
  {
  }

  lemma ShiftPush(s: seq<Node>, n: Node)
    requires Distinct(s) && n !in s
    ensures Shift(s, [n] + s, n, true) && Shift(s, s + [n], n, true) && Shift(s, s, n, false)
  {
  }

  // ----------------------------------------------------------------- threads

  /** A node is held by the one thread whose call has it. */
  ghost predicate Holders(role: RoleMap, place: PlaceMap) {
    forall t, n :: PlaceIn(place, n) == Held(t) <==> Holds(RoleIn(role, t), n)
  }

  lemma HoldersMoved(role: RoleMap, place: PlaceMap, t: Thread, n: Node, to: Role, at: Place)
    requires Holders(role, place) && (Holds(RoleIn(role, t), n) || (forall m :: !Holds(RoleIn(role, t), m)))
    requires PlaceIn(place, n).Held? ==> PlaceIn(place, n).owner == t
    requires if at.Held? then at.owner == t && Holds(to, n) else forall m :: !Holds(to, m)
    ensures Holders(role[t := to], place[n := at])
  {
    var role', place' := role[t := to], place[n := at];
    forall u, m
      ensures PlaceIn(place', m) == Held(u) <==> Holds(RoleIn(role', u), m)
    {
      assert PlaceIn(place, m) == Held(u) <==> Holds(RoleIn(role, u), m);
    }
  }

  /** What the threads and the nodes of a queue are at. */
  datatype View = View(
    role: RoleMap, waiting: seq<Thread>, woken: set<Thread>, error: map<Thread, Error>,
    place: PlaceMap, free: seq<Node>, queued: seq<Node>, data: map<Node, Message>)

  ghost predicate Listed(role: RoleMap, waiting: seq<Thread>, woken: set<Thread>) {
    && (forall t :: t in waiting <==> RoleIn(role, t) == Waiting)
    && (forall t :: t in woken <==> RoleIn(role, t) == Woken)
    && Distinct(waiting)
  }

  ghost predicate FlagAt(r: Role, error: map<Thread, Error>, t: Thread) {
    && (r == Waiting || r == Woken ==> t in error && error[t] == EOk)
    && (r == Failing ==> t in error && error[t] != EOk)
  }

  ghost predicate Flags(role: RoleMap, error: map<Thread, Error>) {
    forall t :: FlagAt(RoleIn(role, t), error, t)
  }

  /** A copied-in message is in its node, and an unlinked node still holds what it held. */
  ghost predicate DataAt(r: Role, data: map<Node, Message>, msgSize: nat) {
    match r
    case Reserved(n, m, _) => |m| <= msgSize
    case Filled(n, m, _) => n in data && |m| <= |data[n]| && data[n][..|m|] == m
    case Taken(n, m) => n in data && data[n] == m
    case _ => true
  }

  ghost predicate DataOf(role: RoleMap, data: map<Node, Message>, max: nat, msgSize: nat) {
    && (forall t :: DataAt(RoleIn(role, t), data, msgSize))
    && (forall n: Node :: 1 <= n <= max ==> n in data && |data[n]| == msgSize)
  }

  /** The free and the queue chain run through their nodes, and the tail is the last of the queue. */
  ghost predicate Linked(next: Links, freeHead: Node, head: Node, tail: Node, free: seq<Node>, queued: seq<Node>) {
    && Chain(next, freeHead, free) && Chain(next, head, queued)
    && tail == (if queued == [] then NULL else queued[|queued| - 1])
  }

  ghost predicate Good(v: View, max: nat, msgSize: nat) {
    && Listed(v.role, v.waiting, v.woken) && Flags(v.role, v.error)
    && Placed(v.place, v.free, v.queued, max) && Holders(v.role, v.place) && DataOf(v.role, v.data, max, msgSize)
  }

  predicate HasNode(r: Role) { r.Reserved? || r.Filled? || r.Taken? || r.Copied? }

  // ---- moves of threads

  lemma ListedMoved(role: RoleMap, waiting: seq<Thread>, woken: set<Thread>, t: Thread, to: Role, waiting': seq<Thread>,
                    woken': set<Thread>)
    requires Listed(role, waiting, woken)
    requires Shift(waiting, waiting', t, to == Waiting) && woken' == if to == Woken then woken + {t} else woken - {t}
    ensures Listed(role[t := to], waiting', woken')
  {
    forall x
      ensures RoleIn(role[t := to], x) == if x == t then to else RoleIn(role, x)
    {
    }
  }

  lemma FlagsMoved(role: RoleMap, error: map<Thread, Error>, t: Thread, to: Role, error': map<Thread, Error>)
    requires Flags(role, error) && FlagAt(to, error', t)
      && forall x :: x != t && x in error ==> x in error' && error'[x] == error[x]
    ensures Flags(role[t := to], error')
  {
    var role' := role[t := to];
    forall x
      ensures FlagAt(RoleIn(role', x), error', x)
    {
      assert FlagAt(RoleIn(role, x), error, x);
    }
  }

  lemma DataFrame(role: RoleMap, data: map<Node, Message>, max: nat, msgSize: nat, t: Thread, to: Role)
    requires DataOf(role, data, max, msgSize) && DataAt(to, data, msgSize)
    ensures DataOf(role[t := to], data, max, msgSize)
  {
    var role' := role[t := to];
    forall x
      ensures DataAt(RoleIn(role', x), data, msgSize)
    {
      assert DataAt(RoleIn(role, x), data, msgSize);
    }
  }

  /** The holder of a node writes it. */
  lemma DataWritten(role: RoleMap, place: PlaceMap, data: map<Node, Message>, max: nat, msgSize: nat, t: Thread,
                    n: Node, m: Message, to: Role)
    requires DataOf(role, data, max, msgSize) && Holders(role, place) && PlaceIn(place, n) == Held(t) && |m| == msgSize
    requires DataAt(to, data[n := m], msgSize)
    ensures DataOf(role[t := to], data[n := m], max, msgSize)
  {
    var role', data' := role[t := to], data[n := m];
    forall x
      ensures DataAt(RoleIn(role', x), data', msgSize)
    {
      assert DataAt(RoleIn(role, x), data, msgSize);
      assert x != t ==> !Holds(RoleIn(role, x), n);
    }
  }

  /** A thread without a node changes its role. */
  lemma ThreadMove(v: View, max: nat, msgSize: nat, t: Thread, to: Role, waiting: seq<Thread>, woken: set<Thread>,
                   error: map<Thread, Error>)
    requires Good(v, max, msgSize) && !HasNode(RoleIn(v.role, t)) && !HasNode(to)
    requires Shift(v.waiting, waiting, t, to == Waiting) && woken == if to == Woken then v.woken + {t}
      else v.woken - {t}
    requires FlagAt(to, error, t) && forall x :: x != t && x in v.error ==> x in error && error[x] == v.error[x]
    ensures Good(v.(role := v.role[t := to], waiting := waiting, woken := woken, error := error), max, msgSize)
  {
    hide Listed, Flags, Placed, Shift, DataOf, FlagAt, Holders;
    ListedMoved(v.role, v.waiting, v.woken, t, to, waiting, woken);
    FlagsMoved(v.role, v.error, t, to, error);
    DataFrame(v.role, v.data, max, msgSize, t, to);
    HoldersFrame(v.role, v.place, t, to);
  }

  lemma HoldersFrame(role: RoleMap, place: PlaceMap, t: Thread, to: Role)
    requires Holders(role, place) && !HasNode(RoleIn(role, t)) && !HasNode(to)
    ensures Holders(role[t := to], place)
  {
    var role' := role[t := to];
    forall u, m
      ensures PlaceIn(place, m) == Held(u) <==> Holds(RoleIn(role', u), m)
    {
      assert PlaceIn(place, m) == Held(u) <==> Holds(RoleIn(role, u), m);
    }
  }

  /** A running thread takes, fills or gives up node `n`. */
  lemma NodeMove(v: View, max: nat, msgSize: nat, t: Thread, to: Role, n: Node, at: Place, free: seq<Node>,
                 queued: seq<Node>)
    requires Good(v, max, msgSize) && 1 <= n <= max && at != Nowhere
    requires RoleIn(v.role, t) == Outside || (HasNode(RoleIn(v.role, t)) && RoleIn(v.role, t).node == n)
    requires to == Outside || HasNode(to)
    requires if HasNode(RoleIn(v.role, t)) then true else !PlaceIn(v.place, n).Held?
    requires if HasNode(to) then to.node == n && at == Held(t) else !at.Held?
    requires Shift(v.free, free, n, at == Free) && Shift(v.queued, queued, n, at == Queued)
    requires DataAt(to, v.data, msgSize)
    ensures Good(v.(role := v.role[t := to], place := v.place[n := at], free := free, queued := queued), max, msgSize)
  {
    hide Placed, Shift, DataOf, Listed, Flags;
    NotWaiting(v, t);
    ListedMoved(v.role, v.waiting, v.woken, t, to, v.waiting, v.woken);
    FlagsMoved(v.role, v.error, t, to, v.error);
    PlacedMoved(v.place, n, at, v.free, v.queued, free, queued, max);
    DataFrame(v.role, v.data, max, msgSize, t, to);
    assert HasNode(RoleIn(v.role, t)) ==> Holds(RoleIn(v.role, t), n);
    HoldersMoved(v.role, v.place, t, n, to, at);
  }

  lemma NotWaiting(v: View, t: Thread)
    requires Listed(v.role, v.waiting, v.woken) && (RoleIn(v.role, t) == Outside || HasNode(RoleIn(v.role, t)))
    ensures t !in v.waiting && t !in v.woken && Shift(v.waiting, v.waiting, t, false) && v.woken - {t} == v.woken
  {
  }

  /** The holder of node `n` copies a message into it. */
  lemma DataMove(v: View, max: nat, msgSize: nat, t: Thread, to: Role, n: Node, m: Message)
    requires Good(v, max, msgSize) && Holds(RoleIn(v.role, t), n) && Holds(to, n) && |m| == msgSize
    requires DataAt(to, v.data[n := m], msgSize)
    ensures Good(v.(role := v.role[t := to], data := v.data[n := m]), max, msgSize)
  {
    hide Placed, DataOf, Listed, Flags;
    NotWaiting(v, t);
    ListedMoved(v.role, v.waiting, v.woken, t, to, v.waiting, v.woken);
    FlagsMoved(v.role, v.error, t, to, v.error);
    assert PlaceIn(v.place, n) == Held(t);
    DataWritten(v.role, v.place, v.data, max, msgSize, t, n, m, to);
    HoldersMoved(v.role, v.place, t, n, to, Held(t));
    assert v.place[n := Held(t)] == v.place;
  }

  /** The messages of some nodes, in order. */
  ghost function MessagesOf(nodes: seq<Node>, data: map<Node, Message>): (s: seq<Message>)
    requires forall n :: n in nodes ==> n in data
    ensures |s| == |nodes|
  {
    if nodes == [] then [] else [data[nodes[0]]] + MessagesOf(nodes[1..], data)
  }

  lemma {:induction false} MessagesAppend(a: seq<Node>, b: seq<Node>, data: map<Node, Message>)
    requires (forall n :: n in a ==> n in data) && (forall n :: n in b ==> n in data)
    ensures MessagesOf(a + b, data) == MessagesOf(a, data) + MessagesOf(b, data)
  {
    if a == [] {
      assert a + b == b;
    } else {
      assert (a + b)[1..] == a[1..] + b;
      MessagesAppend(a[1..], b, data);
    }
  }

  lemma {:induction false} MessagesFrame(nodes: seq<Node>, data: map<Node, Message>, n: Node, m: Message)
    requires n !in nodes && forall x :: x in nodes ==> x in data
    ensures MessagesOf(nodes, data[n := m]) == MessagesOf(nodes, data)
  {
    if nodes != [] {
      MessagesFrame(nodes[1..], data, n, m);
    }
  }

  lemma QueuedHaveData(v: View, max: nat, msgSize: nat)
    requires Good(v, max, msgSize)
    ensures forall n :: n in v.queued ==> n in v.data && |v.data[n]| == msgSize
  {
    forall n | n in v.queued
      ensures n in v.data && |v.data[n]| == msgSize
    {
      WhereIs(v.place, v.free, v.queued, max, n);
    }
  }

  /** The steps of a run. */
  datatype Event =
    | SendCall(t: Thread, message: Message, urgent: bool)
    | RecvCall(t: Thread, wait: bool)
    | NextStep(t: Thread, wait: bool, size: nat)
    | Expiry(t: Thread)
    | ResetCall

  /** What a step does to the queue seen as a deque. */
  datatype Op = Append(m: Message) | Prepend(m: Message) | Pop(m: Message) | Clear

  /** Doing `log` on the deque `q` leads to `q'`; a pop gives the front message. */
  ghost predicate Refines(q: seq<Message>, log: seq<Op>, q': seq<Message>)
    decreases log
  {
    if log == [] then q == q'
    else match log[0]
      case Append(m) => Refines(q + [m], log[1..], q')
      case Prepend(m) => Refines([m] + q, log[1..], q')
      case Pop(m) => q != [] && q[0] == m && Refines(q[1..], log[1..], q')
      case Clear => Refines([], log[1..], q')
  }

  lemma RefinesNone(q: seq<Message>)
    ensures OpsIn([]) == [] && Refines(q, [], q)
  {
  }

  lemma {:induction false} RefinesThen(q: seq<Message>, log: seq<Op>, mid: seq<Message>, more: seq<Op>,
                                       q': seq<Message>)
    requires Refines(q, log, mid) && Refines(mid, more, q')
    ensures Refines(q, log + more, q')
    decreases log
  {
    if log == [] {
      assert log + more == more;
    } else {
      assert (log + more)[1..] == log[1..] + more;
      match log[0]
      case Append(m) => RefinesThen(q + [m], log[1..], mid, more, q');
      case Prepend(m) => RefinesThen([m] + q, log[1..], mid, more, q');
      case Pop(m) => RefinesThen(q[1..], log[1..], mid, more, q');
      case Clear => RefinesThen([], log[1..], mid, more, q');
    }
  }

  // --------------------------------------------------- what a step does

  /** What is seen of a step: it changes the deque, a buffer is filled, a call returns, or nothing. */
  datatype Out = Silent | Did(op: Op) | Gave(t: Thread, buffer: Message) | Returned(t: Thread, error: Error)

  datatype Move = Move(next: View, out: Out)

  /** A send begins: it takes the first free node. */
  ghost function AcquireMove(v: View, t: Thread, message: Message, urgent: bool, msgSize: nat): (r: Move) {
    if |message| > msgSize then Move(v, Returned(t, EError))
    else if v.free == [] then Move(v, Returned(t, EFull))
    else
      var n := v.free[0];
      Move(v.(role := v.role[t := Reserved(n, message, urgent)], place := v.place[n := Held(t)], free := v.free[1..]),
        Silent)
  }

  /** The message overwrites the start of the node; what lies behind it stays. */
  ghost function CopyInMove(v: View, t: Thread, n: Node, message: Message, urgent: bool): (r: Move) {
    if n in v.data && |message| <= |v.data[n]| then
      Move(v.(role := v.role[t := Filled(n, message, urgent)], data := v.data[n := message + v.data[n][|message|..]]),
        Silent)
    else Move(v, Silent)
  }

  /** The node enters the queue, at its front if urgent, and the first receiver is woken. */
  ghost function LinkMove(v: View, t: Thread, n: Node, urgent: bool): (r: Move) {
    var linked := v.(role := v.role[t := Outside], place := v.place[n := Queued], queued := if urgent then
      [n] + v.queued else v.queued + [n]);
    Move(if v.waiting == [] then linked else WokenFirst(linked),
         if n !in v.data then Silent else Did(if urgent then Prepend(v.data[n]) else Append(v.data[n])))
  }

  ghost function WokenFirst(v: View): (r: View)
    requires v.waiting != []
  {
    var w := v.waiting[0];
    v.(waiting := v.waiting[1..], role := v.role[w := Woken], woken := v.woken + {w})
  }

  /**
   `t` tries to receive: it takes the front node, or waits or gives up; only a thread that has waited before notes
   the timeout as its error.
   */
  ghost function RecvMove(v: View, t: Thread, wait: bool, again: bool, prio: Priorities, order: Order): (r: Move) {
    if v.queued != [] then
      var n := v.queued[0];
      if n !in v.data then Move(v, Silent)
      else Move(v.(role := v.role[t := Taken(n, v.data[n])], place := v.place[n := Held(t)], queued := v.queued[1..]),
        Did(Pop(v.data[n])))
    else if wait then
      Move(v.(waiting := Suspend(v.waiting, t, prio, order), role := v.role[t := Waiting], error := v.error[t := EOk]),
        Silent)
    else Move(if again then v.(role := v.role[t := Outside], error := v.error[t := ETimeout])
      else v, Returned(t, ETimeout))
  }

  /** A thread inside a call makes its next step. */
  ghost function AdvanceMove(v: View, t: Thread, wait: bool, size: nat, prio: Priorities, msgSize: nat,
                             order: Order): (r: Move) {
    match RoleIn(v.role, t)
    case Reserved(n, m, urgent) => CopyInMove(v, t, n, m, urgent)
    case Filled(n, _, urgent) => LinkMove(v, t, n, urgent)
    case Woken => RecvMove(v.(role := v.role[t := Outside], woken := v.woken - {t}), t, wait, true, prio, order)
    case Taken(n, m) =>
      Move(v.(role := v.role[t := Copied(n)]), if |m| == msgSize then Gave(t, m[..Smaller(size, msgSize)]) else Silent)
    case Copied(n) =>
      Move(v.(role := v.role[t := Outside], place := v.place[n := Free], free := [n] + v.free), Returned(t, EOk))
    case Failing => Move(v.(role := v.role[t := Outside]), if t in v.error then Returned(t, v.error[t]) else Silent)
    case _ => Move(v, Silent)
  }

  function Smaller(a: nat, b: nat): (r: nat) { if a > b then b else a }

  /** All waiting receivers are resumed with an error, first to last. */
  ghost function DismissedAll(v: View): (r: View)
    decreases |v.waiting|
  {
    if v.waiting == [] then v
    else
      var w := v.waiting[0];
      DismissedAll(v.(waiting := v.waiting[1..], role := v.role[w := Failing], error := v.error[w := EError]))
  }

  /** All queued nodes go to the free chain, front to back. */
  ghost function DiscardedAll(v: View): (r: View)
    decreases |v.queued|
  {
    if v.queued == [] then v
    else
      var n := v.queued[0];
      DiscardedAll(v.(place := v.place[n := Free], free := [n] + v.free, queued := v.queued[1..]))
  }

  lemma {:induction false} DismissedAt(v: View, t: Thread)
    ensures var r := DismissedAll(v); var gone := t in v.waiting;
      && r.waiting == [] && r.woken == v.woken && r.place == v.place && r.free == v.free && r.queued == v.queued
      && r.data == v.data && RoleIn(r.role, t) == (if gone then Failing else RoleIn(v.role, t))
      && (t in r.error <==> gone || t in v.error)
      && (t in r.error ==> r.error[t] == if gone then EError else v.error[t])
    decreases |v.waiting|
  {
    if v.waiting != [] {
      var w := v.waiting[0];
      assert v.waiting == [w] + v.waiting[1..];
      DismissedAt(v.(waiting := v.waiting[1..], role := v.role[w := Failing], error := v.error[w := EError]), t);
    }
  }

  lemma {:induction false} DiscardedAt(v: View, n: Node)
    ensures var r := DiscardedAll(v);
      && r.queued == [] && r.role == v.role && r.waiting == v.waiting && r.woken == v.woken && r.error == v.error
      && r.data == v.data && PlaceIn(r.place, n) == (if n in v.queued then Free else PlaceIn(v.place, n))
    decreases |v.queued|
  {
    if v.queued != [] {
      var x := v.queued[0];
      assert v.queued == [x] + v.queued[1..];
      DiscardedAt(v.(place := v.place[x := Free], free := [x] + v.free, queued := v.queued[1..]), n);
    }
  }

  /** After a reset: who waited returns an error, what was queued is free, and nothing else has changed. */
  lemma ResetPlaces(v: View)
    ensures var r := DiscardedAll(DismissedAll(v));
      && r.waiting == [] && r.queued == [] && r.data == v.data && r.woken == v.woken
      && (forall t :: t in v.waiting ==> RoleIn(r.role, t) == Failing && t in r.error && r.error[t] == EError)
      && (forall t :: t !in v.waiting ==> RoleIn(r.role, t) == RoleIn(v.role, t) && (t in r.error <==> t in v.error)
                                          && (t in r.error ==> r.error[t] == v.error[t]))
      && (forall n :: PlaceIn(r.place, n) == if n in v.queued then Free else PlaceIn(v.place, n))
  {
    hide DismissedAll, DiscardedAll, RoleIn, PlaceIn;
    var d := DismissedAll(v);
    var r := DiscardedAll(d);
    DismissedAt(v, 0);
    DiscardedAt(d, 0);
    forall t
      ensures var gone := t in v.waiting;
        && RoleIn(r.role, t) == (if gone then Failing else RoleIn(v.role, t))
        && (t in r.error <==> gone || t in v.error)
        && (t in r.error ==> r.error[t] == if gone then EError else v.error[t])
    {
      DismissedAt(v, t);
    }
    forall n
      ensures PlaceIn(r.place, n) == if n in v.queued then Free else PlaceIn(v.place, n)
    {
      DiscardedAt(d, n);
    }
  }

  /** The one thing an event does; a step the thread cannot take does nothing. */
  ghost function Next(v: View, ev: Event, prio: Priorities, msgSize: nat, order: Order): (r: Move) {
    match ev
    case SendCall(t, message, urgent) =>
      if RoleIn(v.role, t) == Outside then AcquireMove(v, t, message, urgent, msgSize) else Move(v, Silent)
    case RecvCall(t, wait) => if RoleIn(v.role, t) == Outside then RecvMove(v, t, wait, false, prio, order)
      else Move(v, Silent)
    case NextStep(t, wait, size) => AdvanceMove(v, t, wait, size, prio, msgSize, order)
    case Expiry(t) =>
      if RoleIn(v.role, t) == Waiting then
        Move(v.(waiting := Remove(v.waiting, t), role := v.role[t := Failing], error := v.error[t := ETimeout]), Silent)
      else Move(v, Silent)
    case ResetCall => Move(DiscardedAll(DismissedAll(v)), Did(Clear))
  }

  datatype Trace = Trace(last: View, outs: seq<Out>)

  /** What some events do one after the other, each at the priorities of its moment. */
  ghost function Traced(v: View, evs: seq<Event>, prios: seq<Priorities>, msgSize: nat, order: Order): (r: Trace)
    requires |prios| == |evs|
    ensures |r.outs| == |evs|
  {
    if evs == [] then Trace(v, [])
    else
      var n := |evs| - 1;
      var before := Traced(v, evs[..n], prios[..n], msgSize, order);
      var move := Next(before.last, evs[n], prios[n], msgSize, order);
      Trace(move.next, before.outs + [move.out])
  }

  ghost function OpsOf(out: Out): (r: seq<Op>) {
    if out.Did? then [out.op] else []
  }

  /** What the outputs of a run do to the deque. */
  ghost function OpsIn(outs: seq<Out>): (r: seq<Op>) {
    if outs == [] then [] else OpsIn(outs[..|outs| - 1]) + OpsOf(outs[|outs| - 1])
  }

  lemma OpsOneMore(outs: seq<Out>, out: Out)
    ensures OpsIn(outs + [out]) == OpsIn(outs) + OpsOf(out)
  {
    assert (outs + [out])[..|outs|] == outs;
  }

  class Queue {
    const max: nat
    const msgSize: nat
    const order: Order

    var next: Links
    var data: map<Node, Message>
    var freeHead: Node
    var head: Node
    var tail: Node
    var entry: nat
    var waiting: seq<Thread>
    var error: map<Thread, Error>
    var role: RoleMap

    ghost var woken: set<Thread>
    ghost var place: PlaceMap
    ghost var free: seq<Node>
    ghost var queued: seq<Node>

    ghost function V(): (v: View)
      reads this`role, this`waiting, this`woken, this`error, this`place, this`free, this`queued, this`data
    {
      View(role, waiting, woken, error, place, free, queued, data)
    }

    ghost predicate Chains()
      reads this`next, this`freeHead, this`head, this`tail, this`entry, this`free, this`queued
    {
      Linked(next, freeHead, head, tail, free, queued) && entry == |queued|
    }

    ghost predicate Valid()
      reads this
    {
      Good(V(), max, msgSize) && Chains() && (waiting != [] ==> entry <= |woken|)
    }

    /** The queued messages, front first. */
    ghost function Messages(): (s: seq<Message>)
      requires Valid()
      reads this
    {
      QueuedHaveData(V(), max, msgSize);
      MessagesOf(queued, data)
    }

    function RoleOf(t: Thread): (r: Role)
      reads this`role
    {
      RoleIn(role, t)
    }

    /** rt_mq_init: all nodes of the pool go to the free chain. */
    constructor (count: nat, size: nat, o: Order, pool: map<Node, Message>)
      requires forall n: Node :: 1 <= n <= count ==> n in pool && |pool[n]| == size
      ensures Valid() && max == count && msgSize == size && order == o && |free| == count
      ensures role == map[] && waiting == [] && woken == {} && queued == [] && data == pool
    {
      max, msgSize, order := count, size, o;
      next, data, freeHead, head, tail, entry := map[], pool, NULL, NULL, NULL, 0;
      waiting, error, role := [], map[], map[];
      woken, place, free, queued := {}, map[], [], [];
      new;
      hide Placed, NoneHeld, Good, Linked;
      StartEmpty();
      AddAll();
      GoodStart(place, free, data, max, msgSize);
    }

    /** The loop of rt_mq_init: the nodes go to the free chain one by one. */
    method AddAll()
      requires Linked(next, freeHead, NULL, NULL, free, []) && free == [] && Placed(place, free, [], 0)
        && NoneHeld(place)
      modifies this`next, this`freeHead, this`free, this`place
      ensures Linked(next, freeHead, NULL, NULL, free, []) && |free| == max && Placed(place, free, [], max)
        && NoneHeld(place)
    {
      hide Placed, NoneHeld, Linked;
      var temp := 0;
      while temp < max
        invariant 0 <= temp <= max && |free| == temp
        invariant Linked(next, freeHead, NULL, NULL, free, []) && Placed(place, free, [], temp) && NoneHeld(place)
      {
        AddFree(temp + 1);
        temp := temp + 1;
      }
    }

    method AddFree(node: Node)
      requires node > 0 && Linked(next, freeHead, NULL, NULL, free, []) && Placed(place, free, [], node - 1)
        && NoneHeld(place)
      modifies this`next, this`freeHead, this`free, this`place
      ensures Linked(next, freeHead, NULL, NULL, free, []) && Placed(place, free, [], node) && NoneHeld(place)
      ensures free == [node] + old(free)
    {
      hide Placed, NoneHeld, Linked;
      FreshNode(place, free, node - 1);
      FreeLinked(next, freeHead, NULL, NULL, free, [], node);
      next := next[node := freeHead];
      freeHead := node;
      place, free := place[node := Free], [node] + free;
    }

    // ------------------------------------------------------------------ send

    /** rt_mq_send and rt_mq_urgent up to the copy: take a node off the free chain. */
    method Acquire(t: Thread, message: Message, urgent: bool) returns (e: Error)
      requires Valid() && RoleOf(t) == Outside
      modifies this
      ensures Valid() && Messages() == old(Messages())
      ensures e == if |message| > msgSize then EError else if old(free) == [] then EFull else EOk
      ensures if e == EOk then role == old(role)[t := Reserved(old(freeHead), message, urgent)] else unchanged(this)
      ensures e == EOk ==>
        old(free)[0] == old(freeHead) && free == old(free)[1..] && place == old(place)[old(freeHead) := Held(t)]
      ensures queued == old(queued) && waiting == old(waiting) && data == old(data) && error == old(error)
      ensures Move(V(), if e == EOk then Silent else Returned(t, e))
        == AcquireMove(old(V()), t, message, urgent, msgSize)
    {
      hide Good, Shift, MessagesOf, Linked;
      EmptyWhenNull(next, freeHead, head, tail, free, queued);
      if |message| > msgSize {
        return EError;
      }
      var msg := freeHead;
      if msg == NULL {
        return EFull;
      }
      FreeTaken(next, freeHead, head, tail, free, queued);
      GoodPlaces(V(), max, msgSize, msg);
      ShiftFront(free);
      ShiftPush(queued, msg);
      NodeMove(V(), max, msgSize, t, Reserved(msg, message, urgent), msg, Held(t), free[1..], queued);
      freeHead := next[msg];
      role := role[t := Reserved(msg, message, urgent)];
      place, free := place[msg := Held(t)], free[1..];
      return EOk;
    }

    /** The copy into the node, with interrupts enabled. */
    method CopyIn(t: Thread)
      requires Valid() && RoleOf(t).Reserved?
      modifies this`data, this`role
      ensures Valid() && Messages() == old(Messages())
      ensures var r := old(RoleOf(t)); Move(V(), Silent) == CopyInMove(old(V()), t, r.node, r.message, r.urgent)
      ensures var r := old(RoleOf(t));
        && role == old(role)[t := Filled(r.node, r.message, r.urgent)]
        && r.node in data && |r.message| <= |data[r.node]| && data[r.node][..|r.message|] == r.message
        && r.node in old(data) && |data[r.node]| == |old(data)[r.node]|
        && data[r.node][|r.message|..] == old(data)[r.node][|r.message|..]
        && data == old(data)[r.node := data[r.node]]
    {
      hide Good, Linked;
      var r := RoleOf(t);
      var msg := r.node;
      GoodHolder(V(), max, msgSize, t, msg);
      var m := r.message + data[msg][|r.message|..];
      DataMove(V(), max, msgSize, t, Filled(msg, r.message, r.urgent), msg, m);
      QueuedHaveData(V(), max, msgSize);
      MessagesFrame(queued, data, msg, m);
      data := data[msg := m];
      role := role[t := Filled(msg, r.message, r.urgent)];
    }

    /** Resume the first waiting receiver. */
    method Wake()
      requires Good(V(), max, msgSize) && waiting != []
      modifies this`waiting, this`role, this`woken
      ensures Good(V(), max, msgSize) && waiting == old(waiting)[1..] && |woken| == |old(woken)| + 1
      ensures woken == old(woken) + {old(waiting)[0]} && role == old(role)[old(waiting)[0] := Woken]
    {
      hide Shift;
      var t := waiting[0];
      GoodThread(V(), max, msgSize, t);
      WaitingFront(waiting);
      ThreadMove(V(), max, msgSize, t, Woken, waiting[1..], woken + {t}, error);
      waiting := waiting[1..];
      role := role[t := Woken];
      woken := woken + {t};
    }

    /** Put the filled node behind the tail. */
    method LinkTail(t: Thread, msg: Node)
      requires Good(V(), max, msgSize) && Chains() && RoleOf(t).Filled? && RoleOf(t).node == msg
      modifies this`next, this`tail, this`head, this`entry, this`role, this`place, this`queued
      ensures Good(V(), max, msgSize) && Chains()
      ensures queued == old(queued) + [msg] && role == old(role)[t := Outside] && place == old(place)[msg := Queued]
    {
      hide Good, Linked, Distinct;
      QueueMove(V(), max, msgSize, t, msg, queued + [msg]);
      ChainBehind(msg);
      entry := entry + 1;
      role := role[t := Outside];
      place, queued := place[msg := Queued], queued + [msg];
    }

    /** The links of a node put behind the tail. */
    method ChainBehind(msg: Node)
      requires Linked(next, freeHead, head, tail, free, queued) && Distinct(queued)
      requires msg != NULL && msg !in free && msg !in queued && forall n :: n in queued ==> n !in free
      modifies this`next, this`tail, this`head
      ensures Linked(next, freeHead, head, tail, free, queued + [msg])
    {
      hide Linked, Distinct;
      TailLinked(next, freeHead, head, tail, free, queued, msg);
      next := next[msg := NULL];
      if tail != NULL {
        next := next[tail := msg];
      }
      tail := msg;
      if head == NULL {
        head := msg;
      }
    }

    /** The links of a node put before the head. */
    method ChainBefore(msg: Node)
      requires Linked(next, freeHead, head, tail, free, queued) && msg != NULL && msg !in free && msg !in queued
      modifies this`next, this`tail, this`head
      ensures Linked(next, freeHead, head, tail, free, [msg] + queued)
    {
      hide Linked;
      HeadLinked(next, freeHead, head, tail, free, queued, msg);
      next := next[msg := head];
      head := msg;
      if tail == NULL {
        tail := msg;
      }
    }

    /** Put the filled node before the head. */
    method LinkHead(t: Thread, msg: Node)
      requires Good(V(), max, msgSize) && Chains() && RoleOf(t).Filled? && RoleOf(t).node == msg
      modifies this`next, this`tail, this`head, this`entry, this`role, this`place, this`queued
      ensures Good(V(), max, msgSize) && Chains()
      ensures queued == [msg] + old(queued) && role == old(role)[t := Outside] && place == old(place)[msg := Queued]
    {
      hide Good, Linked, Distinct;
      QueueMove(V(), max, msgSize, t, msg, [msg] + queued);
      ChainBefore(msg);
      entry := entry + 1;
      role := role[t := Outside];
      place, queued := place[msg := Queued], [msg] + queued;
    }

    /** The end of a send: link the filled node and wake a receiver. */
    method LinkUp(t: Thread)
      requires Valid() && RoleOf(t).Filled?
      modifies this
      ensures Valid() && data == old(data) && old(RoleOf(t)).node in data
      ensures var r := old(RoleOf(t)); var m := data[r.node];
        |r.message| <= |m| && m[..|r.message|] == r.message && Messages() == if r.urgent then [m] + old(Messages())
          else old(Messages()) + [m]
      ensures var r := old(RoleOf(t)); V() == LinkMove(old(V()), t, r.node, r.urgent).next
      ensures free == old(free) && error == old(error) && place == old(place)[old(RoleOf(t)).node := Queued]
      ensures if old(waiting) == [] then waiting == [] && woken == old(woken) && role == old(role)[t := Outside]
              else waiting == old(waiting)[1..] && woken == old(woken) + {old(waiting)[0]}
                   && role == old(role)[t := Outside][old(waiting)[0] := Woken]
    {
      hide Good, Linked, MessagesOf, Holds, DataAt;
      var r := RoleOf(t);
      ghost var q := queued;
      LinkedMessages(V(), max, msgSize, t);
      if r.urgent {
        LinkHead(t, r.node);
      } else {
        LinkTail(t, r.node);
      }
      if waiting != [] {
        OtherWaits(V(), max, msgSize, t);
        Wake();
      }
    }

    // --------------------------------------------------------------- receive

    /** The links once the front node is out of the queue. */
    method ChainWithout()
      requires Linked(next, freeHead, head, tail, free, queued) && Distinct(queued) && queued != []
      modifies this`head, this`tail
      ensures old(head) == queued[0] && Linked(next, freeHead, head, tail, free, queued[1..])
    {
      hide Linked, Distinct;
      FrontUnlinked(next, freeHead, head, tail, free, queued);
      var msg := head;
      head := next[msg];
      if tail == msg {
        tail := NULL;
      }
    }

    /** Take the front node out of the queue. */
    method Unlink(t: Thread)
      requires Good(V(), max, msgSize) && Chains() && RoleOf(t) == Outside && entry > 0
      modifies this`head, this`tail, this`entry, this`role, this`place, this`queued
      ensures Good(V(), max, msgSize) && Chains() && queued == old(queued)[1..]
      ensures var n := old(queued)[0];
        n in data && role == old(role)[t := Taken(n, data[n])] && place == old(place)[n := Held(t)]
    {
      hide Good, Linked, Distinct;
      var msg := head;
      UnlinkMove(V(), max, msgSize, t);
      ChainWithout();
      entry := entry - 1;
      role := role[t := Taken(msg, data[msg])];
      place, queued := place[msg := Held(t)], queued[1..];
    }

    /** Return from an empty queue after having waited. */
    method GiveUp(t: Thread)
      requires Good(V(), max, msgSize) && RoleOf(t) == Outside
      modifies this`error, this`role
      ensures Good(V(), max, msgSize) && role == old(role)[t := Outside] && error == old(error)[t := ETimeout]
    {
      hide Good, Shift;
      GoodThread(V(), max, msgSize, t);
      ShiftNone(waiting, t);
      ThreadMove(V(), max, msgSize, t, Outside, waiting, woken, error[t := ETimeout]);
      error, role := error[t := ETimeout], role[t := Outside];
    }

    /** Suspend a receiver. */
    method WaitForMessage(t: Thread, prio: Priorities)
      requires Good(V(), max, msgSize) && RoleOf(t) == Outside
      modifies this`error, this`role, this`waiting
      ensures Good(V(), max, msgSize) && role == old(role)[t := Waiting]
        && waiting == Suspend(old(waiting), t, prio, order) && error == old(error)[t := EOk]
    {
      hide Good, Shift, Suspend;
      GoodThread(V(), max, msgSize, t);
      ShiftWait(waiting, t, prio, order);
      ThreadMove(V(), max, msgSize, t, Waiting, Suspend(waiting, t, prio, order), woken, error[t := EOk]);
      error := error[t := EOk];
      waiting := WaitList.Place(waiting, t, prio, order);
      role := role[t := Waiting];
    }

    /** The loop of rt_mq_recv from one interrupt-disable to the next enable. */
    method RecvLocked(t: Thread, wait: bool, again: bool, prio: Priorities) returns (e: Error)
      requires Good(V(), max, msgSize) && Chains() && RoleOf(t) == Outside
      requires waiting != [] ==> entry <= |woken| + if again then 1 else 0
      modifies this
      ensures Valid() && data == old(data) && e == if old(entry) > 0 || wait then EOk else ETimeout
      ensures old(entry) > 0 ==>
        queued == old(queued)[1..] && old(queued)[0] in data && RoleOf(t) == Taken(old(queued)[0], data[old(queued)[0]])
      ensures old(entry) == 0 ==> queued == old(queued) && !RoleOf(t).Taken?
      ensures V() == RecvMove(old(V()), t, wait, again, prio, order).next
    {
      hide Good, Linked, Suspend;
      if entry == 0 {
        if !wait {
          if again {
            GiveUp(t);
          }
          return ETimeout;
        }
        WaitForMessage(t, prio);
        return EOk;
      }
      Unlink(t);
      return EOk;
    }

    /** rt_mq_recv, up to the copy, its return or first suspension. */
    method Recv(t: Thread, wait: bool, prio: Priorities) returns (e: Error)
      requires Valid() && RoleOf(t) == Outside
      modifies this
      ensures Valid() && e == if old(entry) > 0 || wait then EOk else ETimeout
      ensures old(entry) > 0 ==> RoleOf(t).Taken? && old(Messages()) == [RoleOf(t).message] + Messages()
      ensures old(entry) == 0 ==> Messages() == old(Messages()) && !RoleOf(t).Taken?
      ensures V() == RecvMove(old(V()), t, wait, false, prio, order).next
      ensures data == old(data) && free == old(free)
      ensures old(entry) > 0 ==>
        && waiting == old(waiting) && error == old(error) && place == old(place)[old(queued)[0] := Held(t)]
        && old(queued)[0] in data && role == old(role)[t := Taken(old(queued)[0], data[old(queued)[0]])]
      ensures old(entry) == 0 && wait ==>
        && waiting == Suspend(old(waiting), t, prio, order) && error == old(error)[t := EOk]
        && role == old(role)[t := Waiting] && place == old(place)
      ensures old(entry) == 0 && !wait ==>
        waiting == old(waiting) && error == old(error) && role == old(role) && place == old(place)
    {
      hide Good, Linked, Suspend;
      QueuedHaveData(V(), max, msgSize);
      e := RecvLocked(t, wait, false, prio);
    }

    /** A woken receiver runs on: it takes the front message, if there still is one, or waits again. */
    method RecvAgain(t: Thread, wait: bool, prio: Priorities) returns (e: Error)
      requires Valid() && RoleOf(t) == Woken
      modifies this
      ensures Valid() && e == if old(entry) > 0 || wait then EOk else ETimeout
      ensures old(entry) > 0 ==> RoleOf(t).Taken? && old(Messages()) == [RoleOf(t).message] + Messages()
      ensures old(entry) == 0 ==> Messages() == old(Messages()) && !RoleOf(t).Taken?
      ensures V() == RecvMove(old(V()).(role := old(role)[t := Outside], woken := old(woken) - {t}), t, wait, true,
        prio, order).next
      ensures data == old(data) && free == old(free)
      ensures old(entry) > 0 ==>
        && waiting == old(waiting) && error == old(error) && place == old(place)[old(queued)[0] := Held(t)]
        && old(queued)[0] in data && role == old(role)[t := Outside][t := Taken(old(queued)[0], data[old(queued)[0]])]
      ensures old(entry) == 0 && wait ==>
        && waiting == Suspend(old(waiting), t, prio, order) && error == old(error)[t := EOk]
        && role == old(role)[t := Outside][t := Waiting] && place == old(place)
      ensures old(entry) == 0 && !wait ==>
        waiting == old(waiting) && error == old(error)[t := ETimeout] && role == old(role)[t := Outside][t := Outside]
          && place == old(place)
    {
      hide Good, Linked, Shift, Suspend;
      QueuedHaveData(V(), max, msgSize);
      GoodThread(V(), max, msgSize, t);
      ShiftNone(waiting, t);
      ThreadMove(V(), max, msgSize, t, Outside, waiting, woken - {t}, error);
      role := role[t := Outside];
      woken := woken - {t};
      e := RecvLocked(t, wait, true, prio);
    }

    /** The copy out of the node, with interrupts enabled: at most `size` bytes of the message taken. */
    method CopyOut(t: Thread, size: nat) returns (buffer: Message)
      requires Valid() && RoleOf(t).Taken?
      modifies this`role
      ensures Valid() && Messages() == old(Messages()) && role == old(role)[t := Copied(old(RoleOf(t)).node)]
      ensures |old(RoleOf(t)).message| == msgSize && buffer == old(RoleOf(t)).message[..Smaller(size, msgSize)]
      ensures |buffer| <= size && |buffer| <= msgSize && (|buffer| == size || |buffer| == msgSize)
    {
      hide Good, Linked;
      var msg := RoleOf(t).node;
      GoodHolder(V(), max, msgSize, t, msg);
      buffer := data[msg][..if size > msgSize then msgSize else size];
      DataMove(V(), max, msgSize, t, Copied(msg), msg, data[msg]);
      assert data[msg := data[msg]] == data;
      QueuedHaveData(V(), max, msgSize);
      role := role[t := Copied(msg)];
    }

    /** The end of a receive: the node goes back to the free chain. */
    method GiveBack(t: Thread)
      requires Valid() && RoleOf(t).Copied?
      modifies this
      ensures Valid() && Messages() == old(Messages())
      ensures var n := old(RoleOf(t)).node;
        V() == old(V()).(role := old(role)[t := Outside], place := old(place)[n := Free], free := [n] + old(free))
    {
      hide Good, Linked, Shift, MessagesOf;
      var msg := RoleOf(t).node;
      GoodHolder(V(), max, msgSize, t, msg);
      GoodPlaces(V(), max, msgSize, msg);
      ShiftPush(queued, msg);
      ShiftPush(free, msg);
      NodeMove(V(), max, msgSize, t, Outside, msg, Free, [msg] + free, queued);
      FreeLinked(next, freeHead, head, tail, free, queued, msg);
      next := next[msg := freeHead];
      freeHead := msg;
      role := role[t := Outside];
      place, free := place[msg := Free], [msg] + free;
    }

    // ---------------------------------------------------- timeout and reset

    /** rt_thread_timeout of a thread suspended on the queue. */
    method Timeout(t: Thread)
      requires Valid() && RoleOf(t) == Waiting
      modifies this`waiting, this`error, this`role
      ensures Valid() && Messages() == old(Messages())
      ensures role == old(role)[t := Failing] && error == old(error)[t := ETimeout]
        && waiting == Remove(old(waiting), t)
    {
      hide Good, Linked, Chains, MessagesOf, Remove;
      Expire(t);
    }

    method Expire(t: Thread)
      requires Good(V(), max, msgSize) && RoleOf(t) == Waiting
      modifies this`waiting, this`error, this`role
      ensures Good(V(), max, msgSize) && (waiting != [] ==> old(waiting) != [])
      ensures role == old(role)[t := Failing] && error == old(error)[t := ETimeout]
        && waiting == Remove(old(waiting), t)
    {
      hide Good, Shift, Remove;
      GoodThread(V(), max, msgSize, t);
      ShiftGone(waiting, t);
      ThreadMove(V(), max, msgSize, t, Failing, Remove(waiting, t), woken, error[t := ETimeout]);
      error := error[t := ETimeout];
      waiting := Remove(waiting, t);
      role := role[t := Failing];
    }

    /** A thread resumed with an error returns it. */
    method Fail(t: Thread) returns (e: Error)
      requires Valid() && RoleOf(t) == Failing
      modifies this`role
      ensures Valid() && Messages() == old(Messages()) && t in error && e == error[t] && e != EOk
        && role == old(role)[t := Outside]
    {
      hide Good, Linked, Shift, MessagesOf;
      GoodThread(V(), max, msgSize, t);
      e := error[t];
      ShiftNone(waiting, t);
      ThreadMove(V(), max, msgSize, t, Outside, waiting, woken, error);
      role := role[t := Outside];
    }

    /** Resume the first waiting receiver with an error. */
    method DismissOne()
      requires Good(V(), max, msgSize) && waiting != []
      modifies this`waiting, this`error, this`role
      ensures Good(V(), max, msgSize) && waiting == old(waiting)[1..]
      ensures var t := old(waiting)[0]; role == old(role)[t := Failing] && error == old(error)[t := EError]
    {
      hide Good, Shift;
      var t := waiting[0];
      GoodThread(V(), max, msgSize, t);
      WaitingFront(waiting);
      ThreadMove(V(), max, msgSize, t, Failing, waiting[1..], woken, error[t := EError]);
      error := error[t := EError];
      waiting := waiting[1..];
      role := role[t := Failing];
    }

    /** rt_ipc_list_resume_all. */
    method DismissAll()
      requires Good(V(), max, msgSize)
      modifies this`waiting, this`error, this`role
      ensures Good(V(), max, msgSize) && waiting == [] && V() == DismissedAll(old(V()))
    {
      hide Good;
      while waiting != []
        invariant Good(V(), max, msgSize) && DismissedAll(V()) == DismissedAll(old(V()))
        decreases |waiting|
      {
        DismissOne();
      }
    }

    /** Move the front node of the queue to the free chain. */
    method Discard()
      requires Good(V(), max, msgSize) && Linked(next, freeHead, head, tail, free, queued) && head != NULL
      modifies this`next, this`freeHead, this`head, this`tail, this`place, this`free, this`queued
      ensures Good(V(), max, msgSize) && Linked(next, freeHead, head, tail, free, queued)
      ensures old(queued) != [] && queued == old(queued)[1..] && free == [old(queued)[0]] + old(free)
        && place == old(place)[old(queued)[0] := Free]
    {
      hide Good, Distinct, Linked;
      var msg := head;
      EmptyWhenNull(next, freeHead, head, tail, free, queued);
      DiscardMove(V(), max, msgSize);
      ChainWithout();
      FreeLinked(next, freeHead, head, tail, free, queued[1..], msg);
      next := next[msg := freeHead];
      freeHead := msg;
      place, free, queued := place[msg := Free], [msg] + free, queued[1..];
    }

    method DiscardAll()
      requires Good(V(), max, msgSize) && Linked(next, freeHead, head, tail, free, queued)
      modifies this`next, this`freeHead, this`head, this`tail, this`place, this`free, this`queued
      ensures Good(V(), max, msgSize) && Linked(next, freeHead, head, tail, free, queued)
      ensures tail == NULL && queued == [] && V() == DiscardedAll(old(V()))
    {
      hide Good, Linked;
      EmptyWhenNull(next, freeHead, head, tail, free, queued);
      while head != NULL
        invariant DiscardedAll(V()) == DiscardedAll(old(V())) && Good(V(), max, msgSize)
        invariant Linked(next, freeHead, head, tail, free, queued)
        decreases |queued|
      {
        Discard();
      }
      EmptyWhenNull(next, freeHead, head, tail, free, queued);
    }

    /** rt_mq_control with RT_IPC_CMD_RESET. */
    method Reset()
      requires Valid()
      modifies this
      ensures Valid() && Messages() == [] && waiting == [] && V() == DiscardedAll(DismissedAll(old(V())))
      ensures forall t :: t in old(waiting) ==> RoleOf(t) == Failing && t in error && error[t] == EError
      ensures forall t :: t !in old(waiting) ==>
        RoleOf(t) == old(RoleOf(t)) && (t in error <==> t in old(error)) && (t in error ==> error[t] == old(error)[t])
      ensures data == old(data)
      ensures forall n :: PlaceIn(place, n) == if n in old(queued) then Free else PlaceIn(old(place), n)
    {
      hide Good, Linked, DismissedAll, DiscardedAll;
      ResetPlaces(V());
      DismissAll();
      DiscardAll();
      entry := 0;
    }

    // ----------------------------------------------------------------- runs

    /** A thread inside a call makes its next step. */
    method Advance(t: Thread, wait: bool, size: nat, prio: Priorities) returns (out: Out)
      requires Valid()
      modifies this
      ensures Valid() && Move(V(), out) == AdvanceMove(old(V()), t, wait, size, prio, msgSize, order)
      ensures Refines(old(Messages()), OpsOf(out), Messages())
    {
      hide Good, Linked, MessagesOf, Suspend, Remove;
      out := Silent;
      match RoleOf(t)
      case Reserved(_, _, _) =>
        CopyIn(t);
      case Filled(n, m, urgent) =>
        LinkUp(t);
        out := Did(if urgent then Prepend(data[n]) else Append(data[n]));
      case Woken =>
        var e := RecvAgain(t, wait, prio);
        out := if e != EOk then Returned(t, e) else if RoleOf(t).Taken? then Did(Pop(RoleOf(t).message)) else Silent;
      case Taken(_, _) =>
        var buffer := CopyOut(t, size);
        out := Gave(t, buffer);
      case Copied(_) =>
        GiveBack(t);
        out := Returned(t, EOk);
      case Failing =>
        var e := Fail(t);
        out := Returned(t, e);
      case Outside =>
      case Waiting =>
    }

    /** One step of a run; a step the thread cannot take is skipped. */
    method Step(ev: Event, prio: Priorities) returns (out: Out)
      requires Valid()
      modifies this
      ensures Valid() && Move(V(), out) == Next(old(V()), ev, prio, msgSize, order)
      ensures Refines(old(Messages()), OpsOf(out), Messages())
    {
      hide Good, Linked, MessagesOf, Suspend, Remove, AdvanceMove, DismissedAll, DiscardedAll;
      out := Silent;
      match ev
      case SendCall(t, message, urgent) =>
        if RoleOf(t) == Outside {
          var e := Acquire(t, message, urgent);
          out := if e == EOk then Silent else Returned(t, e);
        }
      case RecvCall(t, wait) =>
        if RoleOf(t) == Outside {
          var e := Recv(t, wait, prio);
          out := if e != EOk then Returned(t, e) else if RoleOf(t).Taken? then Did(Pop(RoleOf(t).message)) else Silent;
        }
      case NextStep(t, wait, size) =>
        out := Advance(t, wait, size, prio);
      case Expiry(t) =>
        if RoleOf(t) == Waiting {
          Timeout(t);
        }
      case ResetCall =>
        Reset();
        out := Did(Clear);
    }

    /** Any interleaving keeps the queue valid, is the specified run event by event, and runs a deque. */
    method Run(evs: seq<Event>, prios: seq<Priorities>) returns (outs: seq<Out>)
      requires Valid() && |prios| == |evs|
      modifies this
      ensures Valid() && Trace(V(), outs) == Traced(old(V()), evs, prios, msgSize, order)
      ensures Refines(old(Messages()), OpsIn(outs), Messages())
    {
      hide Good, Linked, MessagesOf, Refines, Next, OpsIn;
      outs := [];
      ghost var v := V();
      RefinesNone(Messages());
      for i := 0 to |evs|
        invariant Valid() && Refines(old(Messages()), OpsIn(outs), Messages())
        invariant Trace(V(), outs) == Traced(v, evs[..i], prios[..i], msgSize, order)
      {
        assert evs[..i + 1][..i] == evs[..i] && prios[..i + 1][..i] == prios[..i];
        ghost var mid := Messages();
        var out := Step(evs[i], prios[i]);
        RefinesThen(old(Messages()), OpsIn(outs), mid, OpsOf(out), Messages());
        OpsOneMore(outs, out);
        outs := outs + [out];
      }
      assert evs[..|evs|] == evs && prios[..|evs|] == prios;
    }

    /** With no wakeup outstanding, a receiver waits only on an empty queue. */
    lemma QuietMeansEmpty()
      requires Valid() && woken == {} && waiting != []
      ensures Messages() == []
    {
      assert entry == 0;
    }
  }

  lemma GoodPlaces(v: View, max: nat, msgSize: nat, n: Node)
    requires Good(v, max, msgSize)
    ensures n in v.free <==> PlaceIn(v.place, n) == Free
    ensures n in v.queued <==> PlaceIn(v.place, n) == Queued
    ensures PlaceIn(v.place, n) != Nowhere <==> 1 <= n <= max
    ensures Distinct(v.free) && Distinct(v.queued)
    ensures 1 <= n <= max ==> n in v.data && |v.data[n]| == msgSize
  {
  }

  lemma GoodHolder(v: View, max: nat, msgSize: nat, t: Thread, n: Node)
    requires Good(v, max, msgSize) && Holds(RoleIn(v.role, t), n)
    ensures PlaceIn(v.place, n) == Held(t) && n !in v.free && n !in v.queued && 1 <= n <= max
    ensures n in v.data && |v.data[n]| == msgSize && DataAt(RoleIn(v.role, t), v.data, msgSize)
  {
    GoodPlaces(v, max, msgSize, n);
  }

  lemma GoodThread(v: View, max: nat, msgSize: nat, t: Thread)
    requires Good(v, max, msgSize)
    ensures t in v.waiting <==> RoleIn(v.role, t) == Waiting
    ensures t in v.woken <==> RoleIn(v.role, t) == Woken
    ensures Distinct(v.waiting) && FlagAt(RoleIn(v.role, t), v.error, t)
  {
  }

  lemma WaitingFront(waiting: seq<Thread>)
    requires Distinct(waiting) && |waiting| > 0
    ensures Shift(waiting, waiting[1..], waiting[0], false)
  {
    TailElems(waiting);
  }

  lemma FreeNotQueued(v: View, max: nat, msgSize: nat)
    requires Good(v, max, msgSize)
    ensures forall n :: n in v.queued ==> n !in v.free
  {
    forall n | n in v.queued
      ensures n !in v.free
    {
      GoodPlaces(v, max, msgSize, n);
    }
  }

  /** A filled node is queued. */
  lemma QueueMove(v: View, max: nat, msgSize: nat, t: Thread, msg: Node, queued: seq<Node>)
    requires Good(v, max, msgSize) && RoleIn(v.role, t).Filled? && RoleIn(v.role, t).node == msg
    requires queued == v.queued + [msg] || queued == [msg] + v.queued
    ensures Good(v.(role := v.role[t := Outside], place := v.place[msg := Queued], queued := queued), max, msgSize)
    ensures msg != NULL && msg !in v.free && msg !in v.queued && Distinct(v.queued)
    ensures forall n :: n in v.queued ==> n !in v.free
  {
    hide Good, Shift;
    GoodHolder(v, max, msgSize, t, msg);
    GoodPlaces(v, max, msgSize, msg);
    ShiftPush(v.queued, msg);
    ShiftPush(v.free, msg);
    NodeMove(v, max, msgSize, t, Outside, msg, Queued, v.free, queued);
    FreeNotQueued(v, max, msgSize);
  }

  /** The chains after linking `msg` behind the tail. */
  lemma Appended(next: Links, freeHead: Node, free: seq<Node>, head: Node, queued: seq<Node>, msg: Node)
    requires Chain(next, freeHead, free) && Chain(next, head, queued) && Distinct(queued)
    requires msg != NULL && msg !in free && msg !in queued && forall n :: n in queued ==> n !in free
    ensures var n1 := next[msg := NULL];
      && (queued == [] ==> head == NULL && Chain(n1, msg, queued + [msg]) && Chain(n1, freeHead, free))
      && (queued != [] ==> head != NULL && Chain(n1[queued[|queued| - 1] := msg], head, queued + [msg])
                           && Chain(n1[queued[|queued| - 1] := msg], freeHead, free) && queued[|queued| - 1] != NULL)
  {
    var n1 := next[msg := NULL];
    ChainFrame(next, freeHead, free, msg, NULL);
    ChainFrame(next, head, queued, msg, NULL);
    if queued == [] {
      assert [msg][1..] == [];
    } else {
      var last := queued[|queued| - 1];
      assert last in queued;
      ChainAppend(n1, head, queued, msg);
      ChainFrame(n1, freeHead, free, last, msg);
      ChainNotNull(next, head, queued, last);
    }
  }

  lemma {:induction false} ChainNotNull(next: Links, h: Node, s: seq<Node>, n: Node)
    requires Chain(next, h, s) && n in s
    ensures n != NULL && n in next
    decreases s
  {
    if n != s[0] {
      ChainNotNull(next, next[h], s[1..], n);
    }
  }

  /** The chains after linking `msg` before the head. */
  lemma Prepended(next: Links, freeHead: Node, free: seq<Node>, head: Node, queued: seq<Node>, msg: Node)
    requires Chain(next, freeHead, free) && Chain(next, head, queued) && msg != NULL && msg !in free && msg !in queued
    ensures Chain(next[msg := head], msg, [msg] + queued) && Chain(next[msg := head], freeHead, free)
    ensures queued != [] ==> queued[|queued| - 1] != NULL
  {
    ChainFrame(next, freeHead, free, msg, head);
    ChainFrame(next, head, queued, msg, head);
    assert ([msg] + queued)[1..] == queued;
    if queued != [] {
      ChainNotNull(next, head, queued, queued[|queued| - 1]);
    }
  }

  lemma TailLinked(next: Links, freeHead: Node, head: Node, tail: Node, free: seq<Node>, queued: seq<Node>, msg: Node)
    requires Linked(next, freeHead, head, tail, free, queued) && Distinct(queued)
    requires msg != NULL && msg !in free && msg !in queued && forall n :: n in queued ==> n !in free
    ensures var n1 := next[msg := NULL]; var n2 := if tail != NULL then n1[tail := msg] else n1;
      Linked(n2, freeHead, if head == NULL then msg else head, msg, free, queued + [msg])
  {
    hide Chain;
    Appended(next, freeHead, free, head, queued, msg);
  }

  lemma HeadLinked(next: Links, freeHead: Node, head: Node, tail: Node, free: seq<Node>, queued: seq<Node>, msg: Node)
    requires Linked(next, freeHead, head, tail, free, queued) && msg != NULL && msg !in free && msg !in queued
    ensures Linked(next[msg := head], freeHead, msg, if tail == NULL then msg else tail, free, [msg] + queued)
  {
    hide Chain;
    Prepended(next, freeHead, free, head, queued, msg);
  }

  /** The front node is out of the queue, and on no chain yet. */
  lemma FrontUnlinked(next: Links, freeHead: Node, head: Node, tail: Node, free: seq<Node>, queued: seq<Node>)
    requires Linked(next, freeHead, head, tail, free, queued) && Distinct(queued) && queued != []
    ensures head == queued[0] && head in next
    ensures Linked(next, freeHead, next[head], if tail == head then NULL else tail, free, queued[1..])
  {
    ChainFront(next, head, queued);
    LastOfTail(queued);
    hide Chain;
  }

  lemma FreeLinked(next: Links, freeHead: Node, head: Node, tail: Node, free: seq<Node>, queued: seq<Node>, msg: Node)
    requires Linked(next, freeHead, head, tail, free, queued) && msg != NULL && msg !in free && msg !in queued
    ensures Linked(next[msg := freeHead], msg, head, tail, [msg] + free, queued)
  {
    hide Chain;
    Prepended(next, head, queued, freeHead, free, msg);
  }

  lemma FreeTaken(next: Links, freeHead: Node, head: Node, tail: Node, free: seq<Node>, queued: seq<Node>)
    requires Linked(next, freeHead, head, tail, free, queued) && freeHead != NULL
    ensures free != [] && freeHead == free[0] && freeHead in next
      && Linked(next, next[freeHead], head, tail, free[1..], queued)
  {
    ChainFront(next, freeHead, free);
    hide Chain;
  }

  lemma EmptyWhenNull(next: Links, freeHead: Node, head: Node, tail: Node, free: seq<Node>, queued: seq<Node>)
    requires Linked(next, freeHead, head, tail, free, queued)
    ensures (freeHead == NULL <==> free == []) && (head == NULL <==> queued == []) && (queued == [] ==> tail == NULL)
  {
    ChainNull(next, freeHead, free);
    ChainNull(next, head, queued);
  }

  /** The front node is taken out. */
  lemma UnlinkMove(v: View, max: nat, msgSize: nat, t: Thread)
    requires Good(v, max, msgSize) && RoleIn(v.role, t) == Outside && v.queued != []
    ensures var n := v.queued[0];
      && n in v.data && Distinct(v.queued)
      && Good(v.(role := v.role[t := Taken(n, v.data[n])], place := v.place[n := Held(t)], queued := v.queued[1..]),
        max, msgSize)
  {
    hide Good, Shift;
    var n := v.queued[0];
    GoodPlaces(v, max, msgSize, n);
    ShiftFront(v.queued);
    ShiftPush(v.free, n);
    NodeMove(v, max, msgSize, t, Taken(n, v.data[n]), n, Held(t), v.free, v.queued[1..]);
  }

  lemma ChainFront(next: Links, h: Node, s: seq<Node>)
    requires Chain(next, h, s) && (s != [] || h != NULL)
    ensures s != [] && h == s[0] && h != NULL && h in next && Chain(next, next[h], s[1..])
  {
  }

  /** What the queue holds once the message of `t` is linked at either end. */
  lemma LinkedMessages(v: View, max: nat, msgSize: nat, t: Thread)
    requires Good(v, max, msgSize) && RoleIn(v.role, t).Filled?
    ensures var r, q := RoleIn(v.role, t), v.queued;
      && r.node in v.data && |r.message| <= |v.data[r.node]| && v.data[r.node][..|r.message|] == r.message
      && (forall n :: n in q ==> n in v.data)
      && MessagesOf(q + [r.node], v.data) == MessagesOf(q, v.data) + [v.data[r.node]]
      && MessagesOf([r.node] + q, v.data) == [v.data[r.node]] + MessagesOf(q, v.data)
  {
    hide Good;
    var r := RoleIn(v.role, t);
    GoodHolder(v, max, msgSize, t, r.node);
    QueuedHaveData(v, max, msgSize);
    MessagesAppend(v.queued, [r.node], v.data);
    MessagesAppend([r.node], v.queued, v.data);
  }

  lemma OtherWaits(v: View, max: nat, msgSize: nat, t: Thread)
    requires Good(v, max, msgSize) && RoleIn(v.role, t) == Outside && v.waiting != []
    ensures v.waiting[0] != t
  {
    assert v.waiting[0] in v.waiting;
  }

  lemma LastOfTail(queued: seq<Node>)
    requires |queued| > 0 && Distinct(queued)
    ensures queued[|queued| - 1] == queued[0] <==> queued[1..] == []
  {
  }

  lemma ShiftNone(waiting: seq<Thread>, t: Thread)
    requires Distinct(waiting) && t !in waiting
    ensures Shift(waiting, waiting, t, false)
  {
  }

  lemma ShiftWait(waiting: seq<Thread>, t: Thread, prio: Priorities, order: Order)
    requires Distinct(waiting) && t !in waiting
    ensures Shift(waiting, Suspend(waiting, t, prio, order), t, true)
  {
    SuspendDistinct(waiting, t, prio, order);
  }

  lemma ChainNull(next: Links, h: Node, s: seq<Node>)
    requires Chain(next, h, s)
    ensures h == NULL <==> s == []
  {
  }

  ghost predicate NoneHeld(place: PlaceMap) {
    forall n: Node :: !PlaceIn(place, n).Held?
  }

  lemma StartEmpty()
    ensures Placed(map[], [], [], 0) && NoneHeld(map[]) && Linked(map[], NULL, NULL, NULL, [], [])
  {
  }

  lemma GoodStart(place: PlaceMap, free: seq<Node>, data: map<Node, Message>, max: nat, msgSize: nat)
    requires Placed(place, free, [], max) && NoneHeld(place)
    requires forall n: Node :: 1 <= n <= max ==> n in data && |data[n]| == msgSize
    ensures Good(View(map[], [], {}, map[], place, free, [], data), max, msgSize)
  {
    var role: RoleMap := map[];
    assert forall t, n :: PlaceIn(place, n) == Held(t) <==> Holds(RoleIn(role, t), n);
  }

  lemma FreshNode(place: PlaceMap, free: seq<Node>, count: nat)
    requires Placed(place, free, [], count) && NoneHeld(place)
    ensures Placed(place[count + 1 := Free], [count + 1] + free, [], count + 1) && count + 1 !in free
    ensures NoneHeld(place[count + 1 := Free])
  {
    var node := count + 1;
    var place' := place[node := Free];
    assert forall x: Node :: PlaceIn(place', x) == if x == node then Free else PlaceIn(place, x);
    assert forall x: Node :: x in [node] + free <==> PlaceIn(place', x) == Free;
    assert forall x: Node :: PlaceIn(place', x) != Nowhere <==> 1 <= x <= node;
    assert node !in free;
    assert Distinct([node] + free);
    assert forall x: Node :: x in [] <==> PlaceIn(place', x) == Queued;
  }

  lemma ShiftGone(waiting: seq<Thread>, t: Thread)
    requires Distinct(waiting)
    ensures Shift(waiting, Remove(waiting, t), t, false) && (Remove(waiting, t) != [] ==> waiting != [])
  {
    RemoveDistinct(waiting, t);
  }

  /** The front node goes to the free chain. */
  lemma DiscardMove(v: View, max: nat, msgSize: nat)
    requires Good(v, max, msgSize) && v.queued != []
    ensures var n := v.queued[0];
      && Distinct(v.queued) && n !in v.free && n !in v.queued[1..]
      && Good(v.(place := v.place[n := Free], free := [n] + v.free, queued := v.queued[1..]), max, msgSize)
  {
    hide Shift, Listed, Flags, DataOf;
    var n := v.queued[0];
    WhereIs(v.place, v.free, v.queued, max, n);
    ShiftFront(v.queued);
    ShiftPush(v.free, n);
    PlacedMoved(v.place, n, Free, v.free, v.queued, [n] + v.free, v.queued[1..], max);
    Unheld(v.role, v.place, n);
    assert n !in v.queued[1..] by { assert Shift(v.queued, v.queued[1..], n, false); }
  }

  lemma Unheld(role: RoleMap, place: PlaceMap, n: Node)
    requires Holders(role, place) && !PlaceIn(place, n).Held?
    ensures Holders(role, place[n := Free])
  {
    var place' := place[n := Free];
    forall u, m
      ensures PlaceIn(place', m) == Held(u) <==> Holds(RoleIn(role, u), m)
    {
      assert PlaceIn(place, m) == Held(u) <==> Holds(RoleIn(role, u), m);
    }
  }
}
