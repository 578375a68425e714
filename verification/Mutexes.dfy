/**
 Mutexes with priority inheritance (`ipc.c`): take, release with handover, and timeout, over any
 number of mutexes and threads. Each method is one stretch run with interrupts disabled.
 */
module Mutexes {
  import opened Sequences
  import opened WaitList

  type Id = nat

  datatype Owner = Nobody | By(t: Thread)

  datatype Error = EOk | EError | ETimeout

  datatype Mutex = Mutex(value: int, hold: int, owner: Owner, original: int, waiting: seq<Thread>, order: Order)

  type MutexMap = map<Id, Mutex>

  /** How far a thread is in a take: suspended, resumed as the new owner, or resumed by a timeout. */
  datatype Role = Running | Blocked(id: Id) | Handed(id: Id) | Failing(id: Id)

  type RoleMap = map<Thread, Role>

  function RoleIn(role: RoleMap, t: Thread): (r: Role) {
    if t in role then role[t] else Running
  }

  /** The priorities with that of `t` changed. */
  function With(prio: Priorities, t: Thread, p: int): (r: Priorities)
    ensures r(t) == p && forall x :: x != t ==> r(x) == prio(x)
  {
    (x: Thread) => if x == t then p else prio(x)
  }

  // ----------------------------------------------------------- mutual exclusion

  /** Free with nobody waiting, or held by someone who does not wait for it. */
  ghost predicate Sound(m: Mutex) {
    && Distinct(m.waiting)
    && (m.owner == Nobody ==> m.value == 1 && m.hold == 0 && m.waiting == [] && m.original == 0xff)
    && (m.owner != Nobody ==> m.value == 0 && 1 <= m.hold <= 255 && m.owner.t !in m.waiting)
  }

  /** The role of a thread says what it is to every mutex. */
  ghost predicate Placed(st: MutexMap, role: RoleMap) {
    && (forall t, id :: id in st ==> (t in st[id].waiting <==> RoleIn(role, t) == Blocked(id)))
    && (forall t, id :: RoleIn(role, t) == Handed(id) ==> id in st && st[id].owner == By(t))
    && (forall t, id :: RoleIn(role, t) == Failing(id) ==> id in st && st[id].owner != By(t))
    && (forall t, id :: RoleIn(role, t) == Blocked(id) ==> id in st)
  }

  ghost predicate Flags(role: RoleMap, error: map<Thread, Error>) {
    && (forall t :: RoleIn(role, t).Blocked? || RoleIn(role, t).Handed? ==> t in error && error[t] == EOk)
    && (forall t :: RoleIn(role, t).Failing? ==> t in error && error[t] == ETimeout)
  }

  ghost predicate AllSound(st: MutexMap) {
    forall id :: id in st ==> Sound(st[id])
  }

  // -------------------------------------------------------- priority inheritance

  ghost predicate Owns(st: MutexMap, t: Thread) {
    exists id :: id in st && st[id].owner == By(t)
  }

  /** The owner is at least as urgent as everyone waiting, and its own priority is on record. */
  ghost predicate Boosted(m: Mutex, prio: Priorities, own: Priorities) {
    && m.order == Prio && ByUrgency(m.waiting, prio)
    && (m.owner != Nobody ==> m.original == own(m.owner.t) && forall w :: w in m.waiting ==> prio(m.owner.t) <= prio(w))
  }

  ghost predicate AllBoosted(st: MutexMap, prio: Priorities, own: Priorities) {
    forall id :: id in st ==> Boosted(st[id], prio, own)
  }

  /** No thread owns two mutexes. */
  ghost predicate OneEach(st: MutexMap) {
    forall a, b :: a in st && b in st && st[a].owner != Nobody && st[a].owner == st[b].owner ==> a == b
  }

  /** No owner waits. */
  ghost predicate OwnersRun(st: MutexMap) {
    forall a, b :: a in st && b in st && st[a].owner != Nobody ==> st[a].owner.t !in st[b].waiting
  }

  ghost predicate AtOwn(st: MutexMap, prio: Priorities, own: Priorities) {
    forall t :: !Owns(st, t) ==> prio(t) == own(t)
  }

  /** Threads own at most one mutex and wait for none while they do; others run at their own priority. */
  ghost predicate Inherits(st: MutexMap, prio: Priorities, own: Priorities) {
    AllBoosted(st, prio, own) && OneEach(st) && OwnersRun(st) && AtOwn(st, prio, own)
  }

  datatype Event =
    | TakeCall(t: Thread, id: Id, wait: bool)
    | ReleaseCall(t: Thread, id: Id)
    | Expiry(t: Thread)
    | Resume(t: Thread)

  /** Taking `id` would give `t` a second mutex. */
  predicate OwnsOther(st: MutexMap, t: Thread, id: Id)
    requires id in st
  {
    (exists x | x in st :: st[x].owner == By(t)) && st[id].owner != By(t)
  }

  // --------------------------------------------------- what a step does

  /** The mutexes, and the threads with their priorities. */
  datatype State = State(st: MutexMap, prio: Priorities, error: map<Thread, Error>, role: RoleMap)

  /** What is seen of a step: a take or a release succeeds, a call fails, or nothing. */
  datatype Out = Silent | Took(t: Thread, id: Id) | Released(t: Thread, id: Id) | Refused(t: Thread, error: Error)

  datatype Move = Move(next: State, out: Out)

  /** RT_THREAD_CTRL_CHANGE_PRIORITY, skipped when there is nothing to change. */
  function SetTo(prio: Priorities, t: Thread, p: int): (r: Priorities)
    ensures Changed(prio, r, t, p)
  {
    if prio(t) == p then prio else With(prio, t, p)
  }

  /** The priorities once `t` waits for a mutex of `o`: the owner becomes as urgent as `t`, if it was less. */
  function Boost(prio: Priorities, o: Thread, t: Thread): (r: Priorities)
    ensures Changed(prio, r, o, Urgent(prio(o), prio(t)))
  {
    if prio(t) < prio(o) then With(prio, o, prio(t)) else prio
  }

  /** The more urgent of two priorities. */
  function Urgent(a: int, b: int): (r: int) { if b < a then b else a }

  /** `t` asks for mutex `id`: it nests or gets it, or boosts the owner and waits, or gives up. */
  ghost function TakeMove(s: State, t: Thread, id: Id, wait: bool): (r: Move)
    requires id in s.st
  {
    var m := s.st[id];
    var ok := s.(error := s.error[t := EOk]);
    if m.owner == By(t) then Move(ok.(st := s.st[id := m.(hold := m.hold + 1)]), Took(t, id))
    else if m.owner == Nobody then
      Move(ok.(st := s.st[id := m.(value := m.value - 1, owner := By(t), original := s.prio(t), hold := m.hold + 1)]),
        Took(t, id))
    else if !wait then Move(s.(error := s.error[t := ETimeout]), Refused(t, ETimeout))
    else
      var prio := Boost(s.prio, m.owner.t, t);
      Move(ok.(st := s.st[id := m.(waiting := Suspend(m.waiting, t, prio, m.order))], prio := prio,
        role := s.role[t := Blocked(id)]), Silent)
  }

  lemma TakeCases(s: State, t: Thread, id: Id, wait: bool)
    requires id in s.st
    ensures var m, r := s.st[id], TakeMove(s, t, id, wait).next; var ok := s.error[t := EOk];
      && (m.owner == By(t) ==> r == State(s.st[id := m.(hold := m.hold + 1)], s.prio, ok, s.role))
      && (m.owner == Nobody ==>
            r == State(s.st[id := m.(value := m.value - 1, owner := By(t), original := s.prio(t), hold := m.hold + 1)],
              s.prio, ok, s.role))
      && (m.owner != By(t) && m.owner != Nobody && !wait ==> r == State(s.st, s.prio, s.error[t := ETimeout], s.role))
      && (m.owner != By(t) && m.owner != Nobody && wait ==>
            var prio := Boost(s.prio, m.owner.t, t);
            r == State(s.st[id := m.(waiting := Suspend(m.waiting, t, prio, m.order))], prio, ok,
              s.role[t := Blocked(id)]))
  {
    hide Suspend, Boost;
  }

  lemma SoundAt(st: MutexMap, id: Id)
    requires AllSound(st) && id in st
    ensures Sound(st[id])
  {
  }

  /**
   The last release: the owner goes to the priority on record and the first waiting thread owns the mutex, or nobody.
   */
  ghost function LastReleaseMove(s: State, t: Thread, id: Id): (r: State)
    requires id in s.st
  {
    var m := s.st[id];
    var prio := SetTo(s.prio, t, m.original);
    if m.waiting == [] then s.(st := s.st[id := Freed(m)], prio := prio)
    else s.(st := s.st[id := HandedOver(m, prio)], prio := prio, role := s.role[m.waiting[0] := Handed(id)])
  }

  ghost function ReleaseMove(s: State, t: Thread, id: Id): (r: Move)
    requires id in s.st
  {
    var m := s.st[id];
    if m.owner != By(t) then Move(s.(error := s.error[t := EError]), Refused(t, EError))
    else if m.hold != 1 then Move(s.(st := s.st[id := m.(hold := m.hold - 1)]), Released(t, id))
    else Move(LastReleaseMove(s, t, id), Released(t, id))
  }

  ghost function TimeoutMove(s: State, t: Thread, id: Id): (r: Move)
    requires id in s.st
  {
    Move(s.(st := s.st[id := s.st[id].(waiting := Remove(s.st[id].waiting, t))], error := s.error[t := ETimeout],
      role := s.role[t := Failing(id)]), Silent)
  }

  ghost function FinishMove(s: State, t: Thread): (r: Move)
    requires RoleIn(s.role, t).Handed? || RoleIn(s.role, t).Failing?
  {
    var id := RoleIn(s.role, t).id;
    Move(s.(role := s.role[t := Running]),
         if t !in s.error then Silent else if s.error[t] == EOk then Took(t, id) else Refused(t, s.error[t]))
  }

  /** The one thing an event does; a step the thread cannot take does nothing, nor does a second mutex if `single`. */
  ghost function Next(s: State, ev: Event, single: bool): (r: Move) {
    match ev
    case TakeCall(t, id, wait) =>
      if RoleIn(s.role, t) == Running && id in s.st && (s.st[id].owner == By(t) ==> s.st[id].hold < 255)
        && !(single && OwnsOther(s.st, t, id))
      then TakeMove(s, t, id, wait) else Move(s, Silent)
    case ReleaseCall(t, id) => if RoleIn(s.role, t) == Running && id in s.st then ReleaseMove(s, t, id)
      else Move(s, Silent)
    case Expiry(t) =>
      if RoleIn(s.role, t).Blocked? && RoleIn(s.role, t).id in s.st then TimeoutMove(s, t, RoleIn(s.role, t).id)
        else Move(s, Silent)
    case Resume(t) => if RoleIn(s.role, t).Handed? || RoleIn(s.role, t).Failing? then FinishMove(s, t)
      else Move(s, Silent)
  }

  /** All mutexes free, every thread running at its own priority. */
  ghost function Start(orders: map<Id, Order>, priorities: Priorities): (s: State) {
    State(map id | id in orders :: Mutex(1, 0, Nobody, 0xff, [], orders[id]), priorities, map[], map[])
  }

  datatype Trace = Trace(last: State, outs: seq<Out>)

  /** What some events do one after the other. */
  ghost function Traced(s: State, evs: seq<Event>, single: bool): (r: Trace)
    ensures |r.outs| == |evs|
  {
    if evs == [] then Trace(s, [])
    else
      var n := |evs| - 1;
      var before := Traced(s, evs[..n], single);
      var move := Next(before.last, evs[n], single);
      Trace(move.next, before.outs + [move.out])
  }

  class System {
    /** The priority every thread was given. */
    const own: Priorities
    var st: MutexMap
    var prio: Priorities
    var error: map<Thread, Error>
    var role: RoleMap

    ghost function Now(): (s: State)
      reads this
    {
      State(st, prio, error, role)
    }

    ghost predicate Valid()
      reads this
    {
      AllSound(st) && Placed(st, role) && Flags(role, error)
    }

    /** rt_mutex_init on every mutex of a system. */
    constructor (orders: map<Id, Order>, priorities: Priorities)
      ensures Valid() && own == priorities && Now() == Start(orders, priorities)
      ensures (forall id :: id in orders ==> orders[id] == Prio) ==> Inherits(st, prio, own)
    {
      own, prio := priorities, priorities;
      st := map id | id in orders :: Mutex(1, 0, Nobody, 0xff, [], orders[id]);
      error, role := map[], map[];
    }

    /** The stretch of rt_mutex_take up to its return or suspension. */
    method Take(t: Thread, id: Id, wait: bool) returns (e: Error)
      requires Valid() && id in st && RoleIn(role, t) == Running
      requires st[id].owner == By(t) ==> st[id].hold < 255
      modifies this
      ensures Valid() && st.Keys == old(st).Keys
      ensures Now() == TakeMove(old(Now()), t, id, wait).next
      ensures e == if wait || old(st)[id].owner == Nobody || old(st)[id].owner == By(t) then EOk else ETimeout
      ensures e == ETimeout ==>
        st == old(st) && prio == old(prio) && role == old(role) && error == old(error)[t := ETimeout]
      ensures old(st)[id].owner == By(t) ==>
        st == old(st)[id := old(st)[id].(hold := old(st)[id].hold + 1)] && prio == old(prio) && role == old(role)
      ensures old(st)[id].owner == Nobody ==>
        st == old(st)[id := Mutex(0, 1, By(t), prio(t), [], old(st)[id].order)] && prio == old(prio)
          && role == old(role)
      ensures old(st)[id].owner != Nobody && old(st)[id].owner != By(t) && wait ==>
        var m := old(st)[id];
        && st == old(st)[id := m.(waiting := Suspend(m.waiting, t, prio, m.order))]
        && role == old(role)[t := Blocked(id)]
        && Changed(old(prio), prio, m.owner.t, Urgent(old(prio)(m.owner.t), old(prio)(t)))
      ensures old(Inherits(st, prio, own)) && (old(Owns(st, t)) ==> old(st)[id].owner == By(t)) ==>
        Inherits(st, prio, own)
    {
      hide Placed, Flags, Inherits, Owns, Suspend, AllSound, TakeMove, Boost;
      TakeCases(Now(), t, id, wait);
      SoundAt(st, id);
      error := error[t := EOk];
      FlagsRunning(role, old(error), t, EOk);
      e := EOk;
      var m := st[id];
      if m.owner == By(t) {
        HoldMore(st, role, prio, own, id);
        st := st[id := m.(hold := m.hold + 1)];
      } else if m.value > 0 {
        Grabbed(st, role, prio, own, id, t);
        st := st[id := m.(value := m.value - 1, owner := By(t), original := prio(t), hold := m.hold + 1)];
      } else if !wait {
        FlagsRunning(role, error, t, ETimeout);
        error := error[t := ETimeout];
        assert error == old(error)[t := ETimeout];
        e := ETimeout;
      } else {
        Wait(t, id);
      }
    }

    /** Boost the owner of mutex `id` if need be, and suspend `t` on it. */
    method Wait(t: Thread, id: Id)
      requires Valid() && id in st && RoleIn(role, t) == Running && t in error && error[t] == EOk
      requires st[id].owner != Nobody && st[id].owner != By(t)
      modifies this`st, this`prio, this`role
      ensures Valid() && role == old(role)[t := Blocked(id)] && prio == Boost(old(prio), old(st)[id].owner.t, t)
      ensures st == old(st)[id := old(st)[id].(waiting := Suspend(old(st)[id].waiting, t, prio, old(st)[id].order))]
      ensures old(Inherits(st, prio, own)) && !old(Owns(st, t)) ==> Inherits(st, prio, own)
    {
      hide Placed, Flags, Inherits, Owns, Suspend;
      var m := st[id];
      var o := m.owner.t;
      if prio(t) < prio(o) {
        prio := With(prio, o, prio(t));
      }
      var waiting := Place(m.waiting, t, prio, m.order);
      WaitPlaced(st, role, prio, id, t);
      NotListed(st, role, t);
      if old(Inherits(st, prio, own)) && !old(Owns(st, t)) {
        WaitInherits(st, old(prio), prio, own, id, t);
      }
      FlagsBlocked(role, error, t, id);
      st := st[id := m.(waiting := waiting)];
      role := role[t := Blocked(id)];
    }

    /** The owner goes back to its own priority and the mutex goes to the first waiting thread, or is free. */
    method LastRelease(t: Thread, id: Id)
      requires Valid() && id in st && RoleIn(role, t) == Running && st[id].owner == By(t) && st[id].hold == 1
      modifies this`st, this`prio, this`role
      ensures Valid() && Now() == LastReleaseMove(old(Now()), t, id)
        && Changed(old(prio), prio, t, old(st)[id].original)
      ensures old(st)[id].waiting == [] ==>
        st == old(st)[id := Mutex(1, 0, Nobody, 0xff, [], old(st)[id].order)] && role == old(role)
      ensures old(st)[id].waiting != [] ==>
        var m := old(st)[id]; var w := m.waiting[0];
        st == old(st)[id := Mutex(0, 1, By(w), prio(w), m.waiting[1..], m.order)] && role == old(role)[w := Handed(id)]
      ensures old(Inherits(st, prio, own)) ==> Inherits(st, prio, own)
    {
      hide Placed, Flags, Inherits, Owns, With;
      var m := st[id];
      if m.original != prio(t) {
        prio := With(prio, t, m.original);
      }
      if m.waiting != [] {
        HandoverPlaced(st, role, error, prio, id, t);
        if old(Inherits(st, prio, own)) {
          HandoverInherits(st, role, old(prio), prio, own, id, t);
        }
        var w := m.waiting[0];
        st := st[id := m.(owner := By(w), original := prio(w), hold := m.hold - 1 + 1, waiting := m.waiting[1..])];
        role := role[w := Handed(id)];
      } else {
        FreedPlaced(st, role, id, t);
        if old(Inherits(st, prio, own)) {
          FreedInherits(st, old(prio), prio, own, id, t);
        }
        st := st[id := m.(hold := m.hold - 1, value := m.value + 1, owner := Nobody, original := 0xff)];
      }
    }

    /** rt_mutex_release. */
    method Release(t: Thread, id: Id) returns (e: Error)
      requires Valid() && id in st && RoleIn(role, t) == Running
      modifies this
      ensures Valid() && e == (if old(st)[id].owner == By(t) then EOk else EError)
      ensures Now() == ReleaseMove(old(Now()), t, id).next
      ensures e != EOk ==> st == old(st) && prio == old(prio) && role == old(role) && error == old(error)[t := EError]
      ensures e == EOk && old(st)[id].hold > 1 ==>
        && st == old(st)[id := old(st)[id].(hold := old(st)[id].hold - 1)]
        && prio == old(prio) && role == old(role) && error == old(error)
      ensures e == EOk && old(st)[id].hold == 1 ==>
        && Changed(old(prio), prio, t, old(st)[id].original) && id in st
        && st[id].owner == (if old(st)[id].waiting == [] then Nobody else By(old(st)[id].waiting[0]))
        && forall x :: x in st && x != id ==> x in old(st) && st[x] == old(st)[x]
      ensures old(Inherits(st, prio, own)) ==> Inherits(st, prio, own)
    {
      hide Placed, Flags, Inherits, With;
      var m := st[id];
      assert Sound(m);
      if m.owner != By(t) {
        FlagsRunning(role, error, t, EError);
        error := error[t := EError];
        return EError;
      }
      if m.hold - 1 == 0 {
        LastRelease(t, id);
      } else {
        HoldFrame(st, role, prio, own, id, m.hold - 1);
        st := st[id := m.(hold := m.hold - 1)];
      }
      return EOk;
    }

    /** rt_thread_timeout of a thread suspended on mutex `id`: it leaves the list with an error. */
    method Timeout(t: Thread, id: Id)
      requires Valid() && RoleIn(role, t) == Blocked(id)
      modifies this`st, this`error, this`role
      ensures Valid() && id in old(st) && Now() == TimeoutMove(old(Now()), t, id).next
      ensures st == old(st)[id := old(st)[id].(waiting := Remove(old(st)[id].waiting, t))]
      ensures role == old(role)[t := Failing(id)] && error == old(error)[t := ETimeout]
      ensures old(Inherits(st, prio, own)) ==> Inherits(st, prio, own)
    {
      hide Placed, Flags, Inherits, Remove;
      TimeoutPlaced(st, role, error, id, t);
      if Inherits(st, prio, own) {
        TimeoutInherits(st, prio, own, id, t);
      }
      error := error[t := ETimeout];
      st := st[id := st[id].(waiting := Remove(st[id].waiting, t))];
      role := role[t := Failing(id)];
    }

    /** A resumed take returns: without an error exactly to the thread that has been made the owner. */
    method FinishTake(t: Thread) returns (e: Error)
      requires Valid() && (RoleIn(role, t).Handed? || RoleIn(role, t).Failing?)
      modifies this`role
      ensures Valid() && role == old(role)[t := Running] && t in error && e == error[t]
      ensures var id := old(RoleIn(role, t)).id;
        id in st && (e == EOk <==> st[id].owner == By(t)) && (e == EOk || e == ETimeout)
    {
      hide Placed, Flags;
      FinishPlaced(st, role, error, t);
      e := error[t];
      role := role[t := Running];
    }

    // --------------------------------------------------------------- runs

    /** A step of a run; one that the thread cannot take is skipped, and so is a second mutex if `single`. */
    method Step(ev: Event, single: bool) returns (out: Out)
      requires Valid()
      modifies this
      ensures Valid() && Move(Now(), out) == Next(old(Now()), ev, single)
      ensures single && old(Inherits(st, prio, own)) ==> Inherits(st, prio, own)
    {
      hide Placed, Flags, Inherits, AllSound, Remove, Suspend, With, SetTo, Boost;
      out := Silent;
      match ev
      case TakeCall(t, id, wait) =>
        if RoleIn(role, t) == Running && id in st && (st[id].owner == By(t) ==> st[id].hold < 255)
           && !(single && OwnsOther(st, t, id)) {
          var e := Take(t, id, wait);
          out := if e != EOk then Refused(t, e) else if st[id].owner == By(t) then Took(t, id) else Silent;
        }
      case ReleaseCall(t, id) =>
        if RoleIn(role, t) == Running && id in st {
          var e := Release(t, id);
          out := if e == EOk then Released(t, id) else Refused(t, e);
        }
      case Expiry(t) =>
        if RoleIn(role, t).Blocked? {
          Timeout(t, RoleIn(role, t).id);
        }
      case Resume(t) =>
        if RoleIn(role, t).Handed? || RoleIn(role, t).Failing? {
          var id := RoleIn(role, t).id;
          var e := FinishTake(t);
          out := if e == EOk then Took(t, id) else Refused(t, e);
        }
    }

    /**
     Any interleaving is the specified run and keeps mutual exclusion; if no thread takes a second mutex
     and the lists are in priority order, it also keeps priority inheritance.
     */
    method Run(evs: seq<Event>, single: bool) returns (outs: seq<Out>)
      requires Valid()
      modifies this
      ensures Valid() && Trace(Now(), outs) == Traced(old(Now()), evs, single)
      ensures single && old(Inherits(st, prio, own)) ==> Inherits(st, prio, own)
    {
      hide Placed, Flags, Inherits, AllSound, Next;
      outs := [];
      ghost var start := Now();
      for i := 0 to |evs|
        invariant Valid() && Trace(Now(), outs) == Traced(start, evs[..i], single)
        invariant single && old(Inherits(st, prio, own)) ==> Inherits(st, prio, own)
      {
        assert evs[..i + 1][..i] == evs[..i];
        var out := Step(evs[i], single);
        outs := outs + [out];
      }
      assert evs[..|evs|] == evs;
    }
  }

  // ---------------------------------------------------------------- take

  lemma NotListed(st: MutexMap, role: RoleMap, t: Thread)
    requires Placed(st, role) && !RoleIn(role, t).Blocked?
    ensures forall x :: x in st ==> t !in st[x].waiting
  {
  }

  lemma FlagsRunning(role: RoleMap, error: map<Thread, Error>, t: Thread, e: Error)
    requires Flags(role, error) && RoleIn(role, t) == Running
    ensures Flags(role, error[t := e])
  {
  }

  lemma FlagsBlocked(role: RoleMap, error: map<Thread, Error>, t: Thread, id: Id)
    requires Flags(role, error) && t in error && error[t] == EOk
    ensures Flags(role[t := Blocked(id)], error)
  {
  }

  /** Taking a mutex once more. */
  lemma HoldMore(st: MutexMap, role: RoleMap, prio: Priorities, own: Priorities, id: Id)
    requires AllSound(st) && Placed(st, role) && id in st && st[id].owner != Nobody && st[id].hold < 255
    ensures var st' := st[id := st[id].(hold := st[id].hold + 1)];
      AllSound(st') && Placed(st', role) && (Inherits(st, prio, own) ==> Inherits(st', prio, own))
  {
    assert Sound(st[id]);
    HoldFrame(st, role, prio, own, id, st[id].hold + 1);
  }

  /** The hold count matters to nothing else. */
  lemma HoldFrame(st: MutexMap, role: RoleMap, prio: Priorities, own: Priorities, id: Id, hold: int)
    requires Placed(st, role) && id in st
    ensures var st' := st[id := st[id].(hold := hold)];
      Placed(st', role) && (Inherits(st, prio, own) ==> Inherits(st', prio, own))
  {
    hide Inherits;
    if Inherits(st, prio, own) {
      HoldInherits(st, prio, own, id, hold);
    }
  }

  lemma HoldInherits(st: MutexMap, prio: Priorities, own: Priorities, id: Id, hold: int)
    requires Inherits(st, prio, own) && id in st
    ensures Inherits(st[id := st[id].(hold := hold)], prio, own)
  {
    hide Owns, OneEach;
    var m' := st[id].(hold := hold);
    OneEachSwap(st, id, m');
    SameOwners(st, st[id := m']);
    assert Boosted(st[id], prio, own);
  }

  lemma SameOwners(st: MutexMap, st': MutexMap)
    requires st.Keys == st'.Keys && forall x :: x in st ==> st'[x].owner == st[x].owner
    ensures forall t :: Owns(st', t) <==> Owns(st, t)
  {
  }

  /** A mutex whose owner owns no other may be put in the place of another. */
  lemma OneEachSwap(st: MutexMap, id: Id, m': Mutex)
    requires OneEach(st) && id in st
    requires m'.owner == st[id].owner || m'.owner == Nobody || !Owns(st, m'.owner.t)
    ensures OneEach(st[id := m'])
  {
    if m'.owner != Nobody && m'.owner != st[id].owner {
      assert forall x :: x in st ==> st[x].owner != m'.owner;
    }
  }

  lemma OwnersRunSwap(st: MutexMap, id: Id, m': Mutex)
    requires OwnersRun(st) && id in st
    requires forall w :: w in m'.waiting ==> w in st[id].waiting || !Owns(st, w)
    requires m'.owner != Nobody ==> m'.owner.t !in m'.waiting
    requires m'.owner == Nobody || m'.owner == st[id].owner
      || forall x :: x in st && x != id ==> m'.owner.t !in st[x].waiting
    ensures OwnersRun(st[id := m'])
  {
    forall a | a in st && st[a].owner != Nobody && a != id
      ensures st[a].owner.t !in m'.waiting
    {
      assert Owns(st, st[a].owner.t);
      assert st[a].owner.t !in st[id].waiting;
    }
  }

  /** Taking a free mutex. */
  lemma Grabbed(st: MutexMap, role: RoleMap, prio: Priorities, own: Priorities, id: Id, t: Thread)
    requires AllSound(st) && Placed(st, role) && id in st && st[id].owner == Nobody && RoleIn(role, t) == Running
    ensures var st' := st[id := st[id].(value := st[id].value - 1, owner := By(t), original := prio(t),
      hold := st[id].hold + 1)];
      AllSound(st') && Placed(st', role) && (Inherits(st, prio, own) && !Owns(st, t) ==> Inherits(st', prio, own))
  {
    hide Inherits, Owns;
    assert Sound(st[id]);
    var m' := st[id].(value := st[id].value - 1, owner := By(t), original := prio(t), hold := st[id].hold + 1);
    if Inherits(st, prio, own) && !Owns(st, t) {
      NotListed(st, role, t);
      GrabbedInherits(st, prio, own, id, t, m');
    }
  }

  lemma GrabbedInherits(st: MutexMap, prio: Priorities, own: Priorities, id: Id, t: Thread, m': Mutex)
    requires Inherits(st, prio, own) && !Owns(st, t) && id in st && st[id].owner == Nobody
    requires (forall x :: x in st ==> t !in st[x].waiting) && st[id].waiting == []
    requires m'.owner == By(t) && m'.original == prio(t) && m'.waiting == [] && m'.order == st[id].order
    ensures Inherits(st[id := m'], prio, own)
  {
    hide OneEach, OwnersRun, Owns;
    OneEachSwap(st, id, m');
    OwnersRunSwap(st, id, m');
    MoreOwners(st, id, m');
    assert Boosted(st[id], prio, own);
  }

  lemma MoreOwners(st: MutexMap, id: Id, m': Mutex)
    requires id in st && st[id].owner == Nobody
    ensures forall x :: Owns(st, x) ==> Owns(st[id := m'], x)
  {
    var st' := st[id := m'];
    forall x | Owns(st, x)
      ensures Owns(st', x)
    {
      var y :| y in st && st[y].owner == By(x);
      assert st'[y].owner == By(x);
    }
  }

  /** Suspending `t` on a held mutex. */
  lemma WaitPlaced(st: MutexMap, role: RoleMap, prio: Priorities, id: Id, t: Thread)
    requires AllSound(st) && Placed(st, role) && id in st && st[id].owner != Nobody && st[id].owner != By(t)
      && RoleIn(role, t) == Running
    ensures var m := st[id]; var st' := st[id := m.(waiting := Suspend(m.waiting, t, prio, m.order))];
      AllSound(st') && Placed(st', role[t := Blocked(id)]) && t !in m.waiting
  {
    var m := st[id];
    assert Sound(m);
    SuspendDistinct(m.waiting, t, prio, m.order);
    RoleTurned(st, role, id, t, Suspend(m.waiting, t, prio, m.order), Blocked(id));
  }

  /** A thread enters or leaves the list of one mutex. */
  lemma RoleTurned(st: MutexMap, role: RoleMap, id: Id, t: Thread, waiting: seq<Thread>, to: Role)
    requires Placed(st, role) && id in st && (RoleIn(role, t) == Running || RoleIn(role, t) == Blocked(id))
    requires (to == Blocked(id) && t in waiting) || (to == Failing(id) && t !in waiting && st[id].owner != By(t))
    requires forall x :: x != t ==> (x in waiting <==> x in st[id].waiting)
    ensures Placed(st[id := st[id].(waiting := waiting)], role[t := to])
  {
    var st', role' := st[id := st[id].(waiting := waiting)], role[t := to];
    assert forall x :: RoleIn(role', x) == if x == t then to else RoleIn(role, x);
    assert forall x :: x in st ==> st'[x].owner == st[x].owner;
  }

  lemma SameUrgency(list: seq<Thread>, prio: Priorities, prio': Priorities)
    requires ByUrgency(list, prio) && forall w :: w in list ==> prio'(w) == prio(w)
    ensures ByUrgency(list, prio')
  {
  }

  /** The boosted owner is as urgent as the new waiter; nobody else's priority changed. */
  lemma WaitInherits(st: MutexMap, prio: Priorities, prio': Priorities, own: Priorities, id: Id, t: Thread)
    requires AllSound(st) && Inherits(st, prio, own) && id in st && st[id].owner != Nobody && st[id].owner != By(t)
    requires !Owns(st, t) && forall x :: x in st ==> t !in st[x].waiting
    requires prio' == if prio(t) < prio(st[id].owner.t) then With(prio, st[id].owner.t, prio(t)) else prio
    ensures var m := st[id]; Inherits(st[id := m.(waiting := Suspend(m.waiting, t, prio', m.order))], prio', own)
  {
    hide Owns;
    var m := st[id];
    var m' := m.(waiting := Suspend(m.waiting, t, prio', m.order));
    var st' := st[id := m'];
    forall x | x in st
      ensures Boosted(st'[x], prio', own)
    {
      WaitBoosted(st, prio, prio', own, id, t, x);
    }
    OneEachSwap(st, id, m');
    assert Sound(m);
    OwnersRunSwap(st, id, m');
    SameOwners(st, st');
    assert Owns(st, m.owner.t) by { OwnerOwns(st, id); }
  }

  lemma OwnerOwns(st: MutexMap, id: Id)
    requires id in st && st[id].owner != Nobody
    ensures Owns(st, st[id].owner.t)
  {
  }

  lemma WaitBoosted(st: MutexMap, prio: Priorities, prio': Priorities, own: Priorities, id: Id, t: Thread, x: Id)
    requires AllBoosted(st, prio, own) && OneEach(st) && OwnersRun(st)
    requires id in st && st[id].owner != Nobody && st[id].owner != By(t) && x in st
    requires prio' == if prio(t) < prio(st[id].owner.t) then With(prio, st[id].owner.t, prio(t)) else prio
    ensures Boosted(if x == id then st[id].(waiting := Suspend(st[id].waiting, t, prio', st[id].order))
      else st[x], prio', own)
  {
    assert Boosted(st[x], prio, own);
    assert st[id].owner.t !in st[x].waiting;
    SameUrgency(st[x].waiting, prio, prio');
    if x == id {
      SuspendByUrgency(st[id].waiting, t, prio');
    }
  }

  // ------------------------------------------------------------- release

  function Freed(m: Mutex): (r: Mutex) {
    m.(hold := 0, value := m.value + 1, owner := Nobody, original := 0xff)
  }

  function HandedOver(m: Mutex, prio: Priorities): (r: Mutex)
    requires m.waiting != []
  {
    m.(owner := By(m.waiting[0]), original := prio(m.waiting[0]), hold := 1, waiting := m.waiting[1..])
  }

  /** Only the priority of `t` has changed, to `p`. */
  ghost predicate Changed(prio: Priorities, prio': Priorities, t: Thread, p: int) {
    prio'(t) == p && forall x :: x != t ==> prio'(x) == prio(x)
  }

  lemma HandoverPlaced(st: MutexMap, role: RoleMap, error: map<Thread, Error>, prio: Priorities, id: Id, t: Thread)
    requires AllSound(st) && Placed(st, role) && Flags(role, error) && id in st && st[id].waiting != []
    requires st[id].owner == By(t) && RoleIn(role, t) == Running
    ensures var w := st[id].waiting[0]; var st', role' := st[id := HandedOver(st[id], prio)], role[w := Handed(id)];
      AllSound(st') && Placed(st', role') && Flags(role', error)
  {
    hide Flags;
    var m := st[id];
    var w := m.waiting[0];
    assert Sound(m) && w in m.waiting;
    TailElems(m.waiting);
    var st', role' := st[id := HandedOver(m, prio)], role[w := Handed(id)];
    assert forall x :: RoleIn(role', x) == if x == w then Handed(id) else RoleIn(role, x);
    FlagsHanded(role, error, w, id);
  }

  lemma FlagsHanded(role: RoleMap, error: map<Thread, Error>, w: Thread, id: Id)
    requires Flags(role, error) && RoleIn(role, w) == Blocked(id)
    ensures Flags(role[w := Handed(id)], error)
  {
  }

  lemma FlagsFailing(role: RoleMap, error: map<Thread, Error>, t: Thread, id: Id)
    requires Flags(role, error)
    ensures Flags(role[t := Failing(id)], error[t := ETimeout])
  {
  }

  /** What a thread resumed from a take finds. */
  lemma FinishPlaced(st: MutexMap, role: RoleMap, error: map<Thread, Error>, t: Thread)
    requires Placed(st, role) && Flags(role, error) && (RoleIn(role, t).Handed? || RoleIn(role, t).Failing?)
    ensures var id := RoleIn(role, t).id;
      id in st && t in error && (error[t] == EOk <==> st[id].owner == By(t))
        && (error[t] == EOk || error[t] == ETimeout)
    ensures Placed(st, role[t := Running]) && Flags(role[t := Running], error)
  {
    var role' := role[t := Running];
    assert forall x :: RoleIn(role', x) == if x == t then Running else RoleIn(role, x);
    var id := RoleIn(role, t).id;
    assert RoleIn(role, t) == Handed(id) || RoleIn(role, t) == Failing(id);
  }

  /** Handing over from a thread that owns no other mutex to the most urgent waiting thread. */
  lemma HandoverInherits(st: MutexMap, role: RoleMap, prio: Priorities, prio': Priorities, own: Priorities, id: Id,
                         t: Thread)
    requires AllSound(st) && Placed(st, role) && Inherits(st, prio, own)
    requires id in st && st[id].owner == By(t) && st[id].waiting != [] && Changed(prio, prio', t, st[id].original)
    ensures Inherits(st[id := HandedOver(st[id], prio')], prio', own)
  {
    hide Owns, Placed;
    var m := st[id];
    var w, m' := m.waiting[0], HandedOver(m, prio');
    var st' := st[id := m'];
    assert Sound(m) && w in m.waiting;
    TailElems(m.waiting);
    WaiterOwnsNone(st, id, w);
    WaitsOnce(st, role, id, w);
    OneEachSwap(st, id, m');
    OwnersRunSwap(st, id, m');
    forall x | x in st
      ensures Boosted(st'[x], prio', own)
    {
      HandoverBoosted(st, prio, prio', own, id, t, x);
    }
    OwnersAfter(st, id, m', t);
    OwnerOwns(st', id);
  }

  lemma WaiterOwnsNone(st: MutexMap, id: Id, w: Thread)
    requires OwnersRun(st) && id in st && w in st[id].waiting
    ensures !Owns(st, w)
  {
  }

  lemma WaitsOnce(st: MutexMap, role: RoleMap, id: Id, w: Thread)
    requires Placed(st, role) && id in st && w in st[id].waiting
    ensures forall x :: x in st && x != id ==> w !in st[x].waiting
  {
    assert RoleIn(role, w) == Blocked(id);
  }

  /** Who owns something after the owner `t` of a single mutex gave it up. */
  lemma OwnersAfter(st: MutexMap, id: Id, m': Mutex, t: Thread)
    requires OneEach(st) && id in st && st[id].owner == By(t)
    ensures forall x :: x != t && Owns(st, x) ==> Owns(st[id := m'], x)
  {
    var st' := st[id := m'];
    forall x | x != t && Owns(st, x)
      ensures Owns(st', x)
    {
      var y :| y in st && st[y].owner == By(x);
      assert st'[y].owner == By(x);
    }
  }

  lemma HandoverBoosted(st: MutexMap, prio: Priorities, prio': Priorities, own: Priorities, id: Id, t: Thread, x: Id)
    requires AllBoosted(st, prio, own) && OneEach(st) && OwnersRun(st) && AtOwn(st, prio, own)
    requires id in st && st[id].owner == By(t) && st[id].waiting != [] && x in st
      && Changed(prio, prio', t, st[id].original)
    requires Distinct(st[id].waiting) && !Owns(st, st[id].waiting[0])
    ensures Boosted(if x == id then HandedOver(st[id], prio') else st[x], prio', own)
  {
    hide Owns;
    assert Boosted(st[x], prio, own);
    assert st[id].owner.t !in st[x].waiting;
    SameUrgency(st[x].waiting, prio, prio');
    if x == id {
      var list := st[id].waiting;
      assert list[0] in list;
      TailElems(list);
      TailByUrgency(list, prio');
    }
  }

  lemma FreedPlaced(st: MutexMap, role: RoleMap, id: Id, t: Thread)
    requires AllSound(st) && Placed(st, role) && id in st && st[id].owner == By(t) && st[id].waiting == []
      && RoleIn(role, t) == Running
    ensures AllSound(st[id := Freed(st[id])]) && Placed(st[id := Freed(st[id])], role)
  {
    assert Sound(st[id]);
    forall x
      ensures RoleIn(role, x) != Handed(id)
    {
    }
    SwapSound(st, id, Freed(st[id]));
    SwapPlaced(st, role, id, Freed(st[id]));
  }

  lemma SwapSound(st: MutexMap, id: Id, m: Mutex)
    requires AllSound(st) && Sound(m)
    ensures AllSound(st[id := m])
  {
    hide Sound;
  }

  /** Another owner of mutex `id`, with the same threads waiting. */
  lemma SwapPlaced(st: MutexMap, role: RoleMap, id: Id, m: Mutex)
    requires Placed(st, role) && id in st && m.waiting == st[id].waiting
    requires forall x :: RoleIn(role, x) == Handed(id) ==> m.owner == By(x)
    requires forall x :: RoleIn(role, x) == Failing(id) ==> m.owner != By(x)
    ensures Placed(st[id := m], role)
  {
    hide RoleIn;
    var st' := st[id := m];
    forall t, x | x in st
      ensures t in st'[x].waiting <==> RoleIn(role, t) == Blocked(x)
    {
      assert t in st[x].waiting <==> RoleIn(role, t) == Blocked(x);
    }
  }

  lemma FreedInherits(st: MutexMap, prio: Priorities, prio': Priorities, own: Priorities, id: Id, t: Thread)
    requires AllSound(st) && Inherits(st, prio, own)
    requires id in st && st[id].owner == By(t) && st[id].waiting == [] && Changed(prio, prio', t, st[id].original)
    ensures Inherits(st[id := Freed(st[id])], prio', own)
  {
    hide Owns;
    var m' := Freed(st[id]);
    var st' := st[id := m'];
    OneEachSwap(st, id, m');
    OwnersRunSwap(st, id, m');
    forall x | x in st
      ensures Boosted(st'[x], prio', own)
    {
      assert Boosted(st[x], prio, own);
      assert st[id].owner.t !in st[x].waiting;
      SameUrgency(st[x].waiting, prio, prio');
    }
    OwnersAfter(st, id, m', t);
    assert Boosted(st[id], prio, own);
  }

  // ------------------------------------------------------------- timeout

  lemma TimeoutPlaced(st: MutexMap, role: RoleMap, error: map<Thread, Error>, id: Id, t: Thread)
    requires AllSound(st) && Placed(st, role) && Flags(role, error) && RoleIn(role, t) == Blocked(id)
    ensures id in st
    ensures var st' := st[id := st[id].(waiting := Remove(st[id].waiting, t))];
      AllSound(st') && Placed(st', role[t := Failing(id)]) && Flags(role[t := Failing(id)], error[t := ETimeout])
  {
    hide Flags;
    assert id in st && t in st[id].waiting && Sound(st[id]);
    RemoveDistinct(st[id].waiting, t);
    FlagsFailing(role, error, t, id);
    RoleTurned(st, role, id, t, Remove(st[id].waiting, t), Failing(id));
  }

  lemma TimeoutInherits(st: MutexMap, prio: Priorities, own: Priorities, id: Id, t: Thread)
    requires AllSound(st) && Inherits(st, prio, own) && id in st
    ensures Inherits(st[id := st[id].(waiting := Remove(st[id].waiting, t))], prio, own)
  {
    hide Owns;
    var m' := st[id].(waiting := Remove(st[id].waiting, t));
    OneEachSwap(st, id, m');
    OwnersRunSwap(st, id, m');
    SameOwners(st, st[id := m']);
    assert Boosted(st[id], prio, own) && Sound(st[id]);
    RemoveByUrgency(st[id].waiting, prio, t);
  }

  // -------------------------------------------- when inheritance fails, exactly

  /** The owner is at least as urgent as everyone waiting. */
  ghost predicate UrgentAt(m: Mutex, prio: Priorities) {
    m.owner != Nobody ==> forall w :: w in m.waiting ==> prio(m.owner.t) <= prio(w)
  }

  /** Nobody waits for a less urgent thread, whatever the lists and however many mutexes a thread owns. */
  ghost predicate NoInversion(st: MutexMap, prio: Priorities) {
    forall x :: x in st ==> UrgentAt(st[x], prio)
  }

  ghost predicate Reached(s: State) {
    AllSound(s.st) && Placed(s.st, s.role) && Flags(s.role, s.error)
  }

  /** The first of a list is as urgent as the rest. */
  ghost predicate HeadUrgent(list: seq<Thread>, prio: Priorities) {
    list != [] ==> forall w :: w in list ==> prio(list[0]) <= prio(w)
  }

  /** Everyone waiting for `m` is at most as urgent as `p`. */
  ghost predicate Covers(p: int, m: Mutex, prio: Priorities) {
    forall w :: w in m.waiting ==> p <= prio(w)
  }

  /** The mutexes that `t` keeps are covered by the priority it goes back to, and the others were right. */
  ghost predicate RestKept(st: MutexMap, prio: Priorities, t: Thread, id: Id)
    requires id in st
  {
    forall x :: x in st && x != id ==> if st[x].owner == By(t) then Covers(st[id].original, st[x], prio)
      else UrgentAt(st[x], prio)
  }

  /**
   A last release leaves nobody waiting for a less urgent owner exactly if the released list had its most
   urgent thread first, and the priority on record covers every other mutex of the releasing thread.
   */
  lemma ReleaseExact(s: State, t: Thread, id: Id)
    requires Reached(s) && id in s.st && RoleIn(s.role, t) == Running && s.st[id].owner == By(t)
    ensures var r := LastReleaseMove(s, t, id);
      NoInversion(r.st, r.prio) <==> HeadUrgent(s.st[id].waiting, s.prio) && RestKept(s.st, s.prio, t, id)
  {
    hide Placed, Flags, SetTo, UrgentAt, Covers, HeadUrgent;
    var r := LastReleaseMove(s, t, id);
    NotListed(s.st, s.role, t);
    HandoverExact(s, t, id);
    forall x | x in s.st && x != id
      ensures UrgentAt(r.st[x], r.prio) <==>
        if s.st[x].owner == By(t) then Covers(s.st[id].original, s.st[x], s.prio) else UrgentAt(s.st[x], s.prio)
    {
      RestoreExact(s.st[x], s.prio, r.prio, t, s.st[id].original);
    }
  }

  lemma HandoverExact(s: State, t: Thread, id: Id)
    requires Reached(s) && id in s.st && RoleIn(s.role, t) == Running && s.st[id].owner == By(t)
    ensures var r := LastReleaseMove(s, t, id); UrgentAt(r.st[id], r.prio) <==> HeadUrgent(s.st[id].waiting, s.prio)
  {
    var m := s.st[id];
    assert Sound(m);
    if m.waiting != [] {
      assert m.waiting == [m.waiting[0]] + m.waiting[1..];
    }
  }

  lemma RestoreExact(m: Mutex, prio: Priorities, prio': Priorities, t: Thread, p: int)
    requires t !in m.waiting && Changed(prio, prio', t, p)
    ensures UrgentAt(m, prio') <==> if m.owner == By(t) then Covers(p, m, prio) else UrgentAt(m, prio)
  {
  }

  /** Nobody that the owner `o` itself waits for is less urgent than the new waiter `t`: there is nothing to pass on. */
  ghost predicate NothingToPassOn(st: MutexMap, prio: Priorities, o: Thread, t: Thread) {
    forall x :: x in st && o in st[x].waiting && st[x].owner != Nobody ==> prio(st[x].owner.t) <= prio(t)
  }

  /**
   Waiting for a mutex leaves nobody waiting for a less urgent owner exactly if the owner of the mutex does not
   itself wait for someone less urgent than the new waiter: the boost is not passed on.
   */
  lemma WaitExact(s: State, t: Thread, id: Id)
    requires Reached(s) && NoInversion(s.st, s.prio) && id in s.st && RoleIn(s.role, t) == Running
    requires s.st[id].owner != Nobody && s.st[id].owner != By(t)
    ensures var r := TakeMove(s, t, id, true).next;
      NoInversion(r.st, r.prio) <==> NothingToPassOn(s.st, s.prio, s.st[id].owner.t, t)
  {
    hide Placed, Flags, Boost, Suspend, UrgentAt, NothingToPassOn;
    var r, o := TakeMove(s, t, id, true).next, s.st[id].owner.t;
    NotListed(s.st, s.role, t);
    assert Sound(s.st[id]);
    forall x | x in s.st
      ensures UrgentAt(r.st[x], r.prio) <==>
        (o in s.st[x].waiting && s.st[x].owner != Nobody ==> s.prio(s.st[x].owner.t) <= s.prio(t))
    {
      assert UrgentAt(s.st[x], s.prio) && Sound(s.st[x]);
      if x == id {
        BoostCovers(s.st[id], s.prio, r.prio, t);
      } else {
        PassOn(s.st[x], s.prio, r.prio, o, t);
      }
    }
    PassOnAll(s.st, s.prio, r.st, r.prio, o, t);
  }

  lemma BoostCovers(m: Mutex, prio: Priorities, prio': Priorities, t: Thread)
    requires m.owner != Nobody && m.owner.t !in m.waiting && m.owner.t != t && UrgentAt(m, prio)
      && prio' == Boost(prio, m.owner.t, t)
    ensures UrgentAt(m.(waiting := Suspend(m.waiting, t, prio', m.order)), prio')
  {
  }

  lemma PassOn(m: Mutex, prio: Priorities, prio': Priorities, o: Thread, t: Thread)
    requires Sound(m) && UrgentAt(m, prio) && t !in m.waiting && o != t && prio' == Boost(prio, o, t)
    ensures UrgentAt(m, prio') <==> (o in m.waiting && m.owner != Nobody ==> prio(m.owner.t) <= prio(t))
  {
  }

  lemma PassOnAll(st: MutexMap, prio: Priorities, st': MutexMap, prio': Priorities, o: Thread, t: Thread)
    requires st'.Keys == st.Keys
    requires forall x :: x in st ==>
      (UrgentAt(st'[x], prio') <==> (o in st[x].waiting && st[x].owner != Nobody ==> prio(st[x].owner.t) <= prio(t)))
    ensures NoInversion(st', prio') <==> NothingToPassOn(st, prio, o, t)
  {
    hide UrgentAt;
  }

  /** An event that cannot make an owner less urgent than someone who waits for it. */
  ghost predicate Harmless(s: State, ev: Event) {
    match ev
    case TakeCall(t, id, wait) =>
      wait && RoleIn(s.role, t) == Running && id in s.st && s.st[id].owner != Nobody && s.st[id].owner != By(t) ==>
        NothingToPassOn(s.st, s.prio, s.st[id].owner.t, t)
    case ReleaseCall(t, id) =>
      RoleIn(s.role, t) == Running && id in s.st && s.st[id].owner == By(t) && s.st[id].hold == 1 ==>
        && HeadUrgent(s.st[id].waiting, s.prio)
        && (forall x :: x in s.st && x != id && s.st[x].owner == By(t) ==> Covers(s.st[id].original, s.st[x], s.prio))
    case _ => true
  }

  /** One event keeps owners as urgent as their waiters exactly if it is harmless. */
  lemma NextExact(s: State, ev: Event)
    requires Reached(s) && NoInversion(s.st, s.prio)
    ensures var r := Next(s, ev, false).next; NoInversion(r.st, r.prio) <==> Harmless(s, ev)
  {
    hide Placed, Flags, Suspend, UrgentAt, HeadUrgent, NothingToPassOn, Covers, SetTo, Boost, LastReleaseMove;
    match ev
    case TakeCall(t, id, wait) =>
      if RoleIn(s.role, t) == Running && id in s.st {
        TakeCallExact(s, t, id, wait);
      }
    case ReleaseCall(t, id) =>
      if RoleIn(s.role, t) == Running && id in s.st && s.st[id].owner == By(t) {
        assert UrgentAt(s.st[id], s.prio);
        HoldUrgent(s.st[id], s.prio, s.st[id].hold - 1);
        if s.st[id].hold == 1 { ReleaseExact(s, t, id); }
      }
    case Expiry(t) =>
      if RoleIn(s.role, t).Blocked? && RoleIn(s.role, t).id in s.st {
        assert UrgentAt(s.st[RoleIn(s.role, t).id], s.prio);
        FewerUrgent(s.st[RoleIn(s.role, t).id], s.prio, t);
      }
    case Resume(t) =>
  }

  lemma TakeCallExact(s: State, t: Thread, id: Id, wait: bool)
    requires Reached(s) && NoInversion(s.st, s.prio) && id in s.st && RoleIn(s.role, t) == Running
    ensures var r := Next(s, TakeCall(t, id, wait), false).next;
      NoInversion(r.st, r.prio) <==> Harmless(s, TakeCall(t, id, wait))
  {
    hide Placed, Flags, Suspend, UrgentAt, NothingToPassOn, Boost;
    var m := s.st[id];
    assert UrgentAt(m, s.prio) && Sound(m);
    HoldUrgent(m, s.prio, m.hold + 1);
    if m.owner == Nobody {
      GrabUrgent(m, s.prio, t);
    } else if m.owner != By(t) && wait {
      WaitExact(s, t, id);
    }
  }

  lemma HoldUrgent(m: Mutex, prio: Priorities, hold: int)
    requires UrgentAt(m, prio)
    ensures UrgentAt(m.(hold := hold), prio)
  {
  }

  lemma GrabUrgent(m: Mutex, prio: Priorities, t: Thread)
    requires Sound(m) && m.owner == Nobody
    ensures UrgentAt(m.(value := m.value - 1, owner := By(t), original := prio(t), hold := m.hold + 1), prio)
  {
  }

  lemma FewerUrgent(m: Mutex, prio: Priorities, t: Thread)
    requires UrgentAt(m, prio)
    ensures UrgentAt(m.(waiting := Remove(m.waiting, t)), prio)
  {
  }

  /** Every event keeps mutual exclusion. */
  lemma NextReached(s: State, ev: Event, single: bool)
    requires Reached(s)
    ensures Reached(Next(s, ev, single).next)
  {
    hide Placed, Flags, Suspend, Remove, SetTo, Boost, OwnsOther;
    match ev
    case TakeCall(t, id, wait) =>
      if RoleIn(s.role, t) == Running && id in s.st && (s.st[id].owner == By(t) ==> s.st[id].hold < 255) {
        TakeReached(s, t, id, wait);
      }
    case ReleaseCall(t, id) =>
      if RoleIn(s.role, t) == Running && id in s.st {
        ReleaseReached(s, t, id);
      }
    case Expiry(t) =>
      if RoleIn(s.role, t).Blocked? {
        TimeoutPlaced(s.st, s.role, s.error, RoleIn(s.role, t).id, t);
      }
    case Resume(t) =>
      if RoleIn(s.role, t).Handed? || RoleIn(s.role, t).Failing? {
        FinishPlaced(s.st, s.role, s.error, t);
      }
  }

  lemma TakeReached(s: State, t: Thread, id: Id, wait: bool)
    requires Reached(s) && id in s.st && RoleIn(s.role, t) == Running
      && (s.st[id].owner == By(t) ==> s.st[id].hold < 255)
    ensures Reached(TakeMove(s, t, id, wait).next)
  {
    hide Placed, Flags, Suspend, Boost, Inherits;
    FlagsRunning(s.role, s.error, t, EOk);
    FlagsRunning(s.role, s.error, t, ETimeout);
    var m := s.st[id];
    if m.owner == By(t) {
      HoldMore(s.st, s.role, s.prio, s.prio, id);
    } else if m.owner == Nobody {
      Grabbed(s.st, s.role, s.prio, s.prio, id, t);
    } else if wait {
      WaitPlaced(s.st, s.role, Boost(s.prio, m.owner.t, t), id, t);
      FlagsBlocked(s.role, s.error[t := EOk], t, id);
    }
  }

  lemma ReleaseReached(s: State, t: Thread, id: Id)
    requires Reached(s) && id in s.st && RoleIn(s.role, t) == Running
    ensures Reached(ReleaseMove(s, t, id).next)
  {
    hide Placed, Flags, SetTo, Inherits;
    FlagsRunning(s.role, s.error, t, EError);
    var m := s.st[id];
    assert Sound(m);
    if m.owner == By(t) && m.hold != 1 {
      HoldFrame(s.st, s.role, s.prio, s.prio, id, m.hold - 1);
    } else if m.owner == By(t) && m.waiting != [] {
      HandoverPlaced(s.st, s.role, s.error, SetTo(s.prio, t, m.original), id, t);
    } else if m.owner == By(t) {
      FreedPlaced(s.st, s.role, id, t);
    }
  }

  /** The state before event `k` of a run. */
  ghost function Before(s: State, evs: seq<Event>, k: nat): (r: State)
    requires k <= |evs|
  {
    Traced(s, evs[..k], false).last
  }

  ghost predicate CalmAt(s: State, evs: seq<Event>, k: nat)
    requires k <= |evs|
  {
    NoInversion(Before(s, evs, k).st, Before(s, evs, k).prio)
  }

  ghost predicate HarmlessAt(s: State, evs: seq<Event>, k: nat)
    requires k < |evs|
  {
    Harmless(Before(s, evs, k), evs[k])
  }

  lemma {:induction false} BeforeReached(s: State, evs: seq<Event>, k: nat)
    requires Reached(s) && k <= |evs|
    ensures Reached(Before(s, evs, k))
  {
    hide Next, Reached;
    if k > 0 {
      BeforeReached(s, evs, k - 1);
      BeforeNext(s, evs, k - 1);
      NextReached(Before(s, evs, k - 1), evs[k - 1], false);
    }
  }

  lemma BeforeNext(s: State, evs: seq<Event>, k: nat)
    requires k < |evs|
    ensures Before(s, evs, k + 1) == Next(Before(s, evs, k), evs[k], false).next
  {
    assert evs[..k + 1][..k] == evs[..k];
  }

  /**
   Over a whole run, with any number of mutexes per thread and lists in any order: nobody ever waits for a less
   urgent owner if and only if every event is harmless at its moment.
   */
  lemma RunExact(s: State, evs: seq<Event>)
    requires Reached(s) && NoInversion(s.st, s.prio)
    ensures (forall k: nat :: k <= |evs| ==> CalmAt(s, evs, k)) <==>
      (forall k: nat :: k < |evs| ==> HarmlessAt(s, evs, k))
  {
    hide Reached, NoInversion, Harmless, Traced;
    forall k: nat | k < |evs| && CalmAt(s, evs, k)
      ensures CalmAt(s, evs, k + 1) <==> HarmlessAt(s, evs, k)
    {
      StepExact(s, evs, k);
    }
    if forall k: nat :: k <= |evs| ==> CalmAt(s, evs, k) {
      forall k: nat | k < |evs|
        ensures HarmlessAt(s, evs, k)
      {
        assert CalmAt(s, evs, k) && CalmAt(s, evs, k + 1);
      }
    }
    if forall k: nat :: k < |evs| ==> HarmlessAt(s, evs, k) {
      forall k: nat | k <= |evs|
        ensures CalmAt(s, evs, k)
      {
        CalmUpTo(s, evs, k);
      }
    }
  }

  lemma StepExact(s: State, evs: seq<Event>, k: nat)
    requires Reached(s) && k < |evs| && CalmAt(s, evs, k)
    ensures CalmAt(s, evs, k + 1) <==> HarmlessAt(s, evs, k)
  {
    hide Next, Reached, NoInversion, Harmless, Traced;
    BeforeReached(s, evs, k);
    BeforeNext(s, evs, k);
    NextExact(Before(s, evs, k), evs[k]);
  }

  lemma {:induction false} CalmUpTo(s: State, evs: seq<Event>, k: nat)
    requires Reached(s) && NoInversion(s.st, s.prio) && k <= |evs|
      && forall j: nat :: j < |evs| ==> HarmlessAt(s, evs, j)
    ensures CalmAt(s, evs, k)
  {
    hide Reached, NoInversion, Harmless, Next;
    if k > 0 {
      CalmUpTo(s, evs, k - 1);
      assert HarmlessAt(s, evs, k - 1);
      StepExact(s, evs, k - 1);
    }
  }

  // ------------------------------------------------- back at the own priority

  /** A last release by a thread that owns nothing else, with a priority on record that is not its own. */
  ghost predicate LeavesBoosted(s: State, ev: Event, own: Priorities) {
    && ev.ReleaseCall? && RoleIn(s.role, ev.t) == Running && ev.id in s.st && s.st[ev.id].owner == By(ev.t)
    && s.st[ev.id].hold == 1
    && (forall x :: x in s.st && s.st[x].owner == By(ev.t) ==> x == ev.id) && s.st[ev.id].original != own(ev.t)
  }

  /** Threads that own nothing stay at their own priority exactly if no release leaves its thread at a borrowed one. */
  lemma OwnExact(s: State, ev: Event, own: Priorities)
    requires Reached(s) && AtOwn(s.st, s.prio, own)
    ensures var r := Next(s, ev, false).next; AtOwn(r.st, r.prio, own) <==> !LeavesBoosted(s, ev, own)
  {
    hide Placed, Flags, Suspend, Remove, Owns, SetTo, Boost, OwnsOther;
    match ev
    case TakeCall(t, id, wait) =>
      if RoleIn(s.role, t) == Running && id in s.st {
        TakeOwners(s, t, id, wait);
      }
    case ReleaseCall(t, id) =>
      if RoleIn(s.role, t) == Running && id in s.st && s.st[id].owner == By(t) {
        ReleaseOwners(s, t, id, own);
      }
    case Expiry(t) =>
      if RoleIn(s.role, t).Blocked? && RoleIn(s.role, t).id in s.st {
        SameOwners(s.st, TimeoutMove(s, t, RoleIn(s.role, t).id).next.st);
      }
    case Resume(t) =>
  }

  lemma TakeOwners(s: State, t: Thread, id: Id, wait: bool)
    requires Reached(s) && id in s.st
    ensures var r := TakeMove(s, t, id, wait).next;
      forall x :: !Owns(r.st, x) ==> !Owns(s.st, x) && r.prio(x) == s.prio(x)
  {
    hide Placed, Flags, Suspend, Owns;
    var m, r := s.st[id], TakeMove(s, t, id, wait).next;
    if m.owner == Nobody {
      MoreOwners(s.st, id, r.st[id]);
    } else {
      SameOwners(s.st, r.st);
      OwnerOwns(s.st, id);
    }
  }

  lemma ReleaseOwners(s: State, t: Thread, id: Id, own: Priorities)
    requires Reached(s) && AtOwn(s.st, s.prio, own) && id in s.st && RoleIn(s.role, t) == Running
      && s.st[id].owner == By(t)
    ensures var r := ReleaseMove(s, t, id).next;
      AtOwn(r.st, r.prio, own) <==> !LeavesBoosted(s, ReleaseCall(t, id), own)
  {
    hide Placed, Flags, Owns, SetTo;
    var m, r := s.st[id], ReleaseMove(s, t, id).next;
    OwnerOwns(s.st, id);
    if m.hold != 1 {
      SameOwners(s.st, r.st);
    } else {
      assert Sound(m);
      OthersOwn(s.st, id, r.st[id], t);
      OwnsElsewhere(s.st, id, r.st[id], t);
      if m.waiting != [] { assert m.waiting[0] in m.waiting; OwnerOwns(r.st, id); }
    }
  }

  /** Who else owns something is not changed by `t` giving up `id`. */
  lemma OthersOwn(st: MutexMap, id: Id, m': Mutex, t: Thread)
    requires id in st && st[id].owner == By(t)
    ensures forall x :: x != t && m'.owner != By(x) ==> (Owns(st[id := m'], x) <==> Owns(st, x))
  {
    var st' := st[id := m'];
    forall x | x != t && m'.owner != By(x)
      ensures Owns(st', x) <==> Owns(st, x)
    {
      if Owns(st, x) {
        var y :| y in st && st[y].owner == By(x);
        assert st'[y].owner == By(x);
      }
      if Owns(st', x) {
        var y :| y in st' && st'[y].owner == By(x);
        assert st[y].owner == By(x);
      }
    }
  }

  lemma OwnsElsewhere(st: MutexMap, id: Id, m': Mutex, t: Thread)
    requires id in st && m'.owner != By(t)
    ensures Owns(st[id := m'], t) <==> !(forall x :: x in st && st[x].owner == By(t) ==> x == id)
  {
    var st' := st[id := m'];
    if !(forall x :: x in st && st[x].owner == By(t) ==> x == id) {
      var x :| x in st && st[x].owner == By(t) && x != id;
      assert st'[x].owner == By(t);
    }
    if Owns(st', t) {
      var x :| x in st' && st'[x].owner == By(t);
      assert st[x].owner == By(t);
    }
  }

  ghost predicate OwnAt(s: State, evs: seq<Event>, k: nat, own: Priorities)
    requires k <= |evs|
  {
    AtOwn(Before(s, evs, k).st, Before(s, evs, k).prio, own)
  }

  ghost predicate LeavesAt(s: State, evs: seq<Event>, k: nat, own: Priorities)
    requires k < |evs|
  {
    LeavesBoosted(Before(s, evs, k), evs[k], own)
  }

  lemma OwnStep(s: State, evs: seq<Event>, k: nat, own: Priorities)
    requires Reached(s) && k < |evs| && OwnAt(s, evs, k, own)
    ensures OwnAt(s, evs, k + 1, own) <==> !LeavesAt(s, evs, k, own)
  {
    hide Next, Reached, AtOwn, LeavesBoosted, Traced;
    BeforeReached(s, evs, k);
    BeforeNext(s, evs, k);
    OwnExact(Before(s, evs, k), evs[k], own);
  }

  lemma {:induction false} OwnUpTo(s: State, evs: seq<Event>, k: nat, own: Priorities)
    requires Reached(s) && AtOwn(s.st, s.prio, own) && k <= |evs|
      && forall j: nat :: j < |evs| ==> !LeavesAt(s, evs, j, own)
    ensures OwnAt(s, evs, k, own)
  {
    hide Reached, AtOwn, LeavesBoosted, Next;
    if k > 0 {
      OwnUpTo(s, evs, k - 1, own);
      assert !LeavesAt(s, evs, k - 1, own);
      OwnStep(s, evs, k - 1, own);
    }
  }

  /**
   Over a whole run: threads without a mutex are at their own priority throughout if and only if no event leaves its
   thread at a borrowed one.
   */
  lemma OwnRunExact(s: State, evs: seq<Event>, own: Priorities)
    requires Reached(s) && AtOwn(s.st, s.prio, own)
    ensures (forall k: nat :: k <= |evs| ==> OwnAt(s, evs, k, own)) <==>
      (forall k: nat :: k < |evs| ==> !LeavesAt(s, evs, k, own))
  {
    hide Reached, AtOwn, LeavesBoosted, Traced;
    if forall k: nat :: k <= |evs| ==> OwnAt(s, evs, k, own) {
      forall k: nat | k < |evs|
        ensures !LeavesAt(s, evs, k, own)
      {
        assert OwnAt(s, evs, k, own) && OwnAt(s, evs, k + 1, own);
        OwnStep(s, evs, k, own);
      }
    }
    if forall k: nat :: k < |evs| ==> !LeavesAt(s, evs, k, own) {
      forall k: nat | k <= |evs|
        ensures OwnAt(s, evs, k, own)
      {
        OwnUpTo(s, evs, k, own);
      }
    }
  }

  // ------------------------------------------------------------ the hold count

  /**
   How often `t` has taken mutex `id` and not released it, as the mutex counts it; being handed it is not yet a take.
   */
  ghost function Held(s: State, t: Thread, id: Id): (n: int)
    requires id in s.st
  {
    if s.st[id].owner != By(t) then 0 else s.st[id].hold - if RoleIn(s.role, t) == Handed(id) then 1 else 0
  }

  ghost function Delta(out: Out, t: Thread, id: Id): (n: int) {
    if out == Took(t, id) then 1 else if out == Released(t, id) then -1 else 0
  }

  /** The takes of `id` by `t` that have returned, less its releases. */
  ghost function Balance(outs: seq<Out>, t: Thread, id: Id): (n: int) {
    if outs == [] then 0 else Balance(outs[..|outs| - 1], t, id) + Delta(outs[|outs| - 1], t, id)
  }

  lemma NextHeld(s: State, ev: Event, single: bool, t: Thread, id: Id)
    requires Reached(s) && id in s.st
    ensures var m := Next(s, ev, single); id in m.next.st && Held(m.next, t, id) == Held(s, t, id) + Delta(m.out, t, id)
  {
    hide Placed, Flags, Suspend, Remove, SetTo, Boost, OwnsOther;
    match ev
    case TakeCall(x, y, _) =>
      if y in s.st && RoleIn(s.role, x) == Running { TakeHeld(s, x, y, ev.wait, t, id); }
    case ReleaseCall(x, y) =>
      if y in s.st && RoleIn(s.role, x) == Running { ReleaseHeld(s, x, y, t, id); }
    case Expiry(x) =>
      RoleFacts(s, x);
    case Resume(x) =>
      RoleFacts(s, x);
  }

  lemma RoleFacts(s: State, x: Thread)
    requires Reached(s)
    ensures RoleIn(s.role, x).Handed? ==> var y := RoleIn(s.role, x).id;
      y in s.st && s.st[y].owner == By(x) && x in s.error && s.error[x] == EOk
    ensures RoleIn(s.role, x).Failing? ==> x in s.error && s.error[x] == ETimeout
    ensures forall y :: y in s.st && x in s.st[y].waiting ==> RoleIn(s.role, x) == Blocked(y)
    ensures RoleIn(s.role, x).Blocked? ==> RoleIn(s.role, x).id in s.st && x in s.st[RoleIn(s.role, x).id].waiting
  {
  }

  lemma TakeHeld(s: State, x: Thread, y: Id, wait: bool, t: Thread, id: Id)
    requires Reached(s) && id in s.st && y in s.st && RoleIn(s.role, x) == Running
    ensures var m := TakeMove(s, x, y, wait);
      id in m.next.st && Held(m.next, t, id) == Held(s, t, id) + Delta(m.out, t, id)
  {
    hide Placed, Flags, Suspend, Boost;
    SoundAt(s.st, y);
  }

  lemma ReleaseHeld(s: State, x: Thread, y: Id, t: Thread, id: Id)
    requires Reached(s) && id in s.st && y in s.st && RoleIn(s.role, x) == Running
    ensures var m := ReleaseMove(s, x, y);
      id in m.next.st && Held(m.next, t, id) == Held(s, t, id) + Delta(m.out, t, id)
  {
    hide Placed, Flags, SetTo, AllSound;
    SoundAt(s.st, y);
    var m := s.st[y];
    if m.waiting != [] {
      var w := m.waiting[0];
      assert w in m.waiting;
      RoleFacts(s, w);
    }
  }

  /** Over every run, what the mutex counts for a thread is what the thread has taken and not released. */
  lemma {:induction false} RunBalances(s: State, evs: seq<Event>, single: bool, t: Thread, id: Id)
    requires Reached(s) && id in s.st
    ensures var r := Traced(s, evs, single);
      Reached(r.last) && id in r.last.st && Held(r.last, t, id) == Held(s, t, id) + Balance(r.outs, t, id)
    decreases evs
  {
    hide Reached, Held, Delta, Next;
    if evs != [] {
      var n := |evs| - 1;
      var before, r := Traced(s, evs[..n], single), Traced(s, evs, single);
      RunBalances(s, evs[..n], single, t, id);
      NextHeld(before.last, evs[n], single, t, id);
      NextReached(before.last, evs[n], single);
      assert r.outs[..n] == before.outs;
    }
  }

  /**
   From the start: a thread that is back from its takes owns a mutex exactly while it has taken it more often than it
   has released it, and the hold count is by how much.
   */
  lemma OwnedWhileUnbalanced(orders: map<Id, Order>, own: Priorities, evs: seq<Event>, single: bool, t: Thread, id: Id)
    requires id in orders
    ensures var r := Traced(Start(orders, own), evs, single); var n := Balance(r.outs, t, id);
      && id in r.last.st && n >= 0
      && (RoleIn(r.last.role, t) != Handed(id) ==>
            (r.last.st[id].owner == By(t) <==> n > 0) && (n > 0 ==> r.last.st[id].hold == n))
  {
    hide Reached, Next, Traced;
    var s := Start(orders, own);
    StartReached(orders, own);
    RunBalances(s, evs, single, t, id);
    HeldIs(Traced(s, evs, single).last, t, id);
  }

  lemma StartReached(orders: map<Id, Order>, own: Priorities)
    ensures Reached(Start(orders, own))
  {
  }

  lemma HeldIs(s: State, t: Thread, id: Id)
    requires Reached(s) && id in s.st
    ensures Held(s, t, id) >= 0
    ensures RoleIn(s.role, t) != Handed(id) ==> (s.st[id].owner == By(t) <==> Held(s, t, id) > 0)
  {
    hide Placed, Flags;
    SoundAt(s.st, id);
  }

  // ------------------------------------------------------------- steps in a row

  /** A take that times out returns the timeout, and the thread is off the list, with nothing else changed. */
  lemma TimedOutReturns(s: State, t: Thread, id: Id, single: bool)
    requires Reached(s) && RoleIn(s.role, t) == Blocked(id)
    ensures var a := Next(s, Expiry(t), single); var b := Next(a.next, Resume(t), single);
      && id in s.st && a.out == Silent && b.out == Refused(t, ETimeout) && b.next.prio == s.prio
      && b.next.st == s.st[id := s.st[id].(waiting := Remove(s.st[id].waiting, t))]
      && b.next.role == s.role[t := Failing(id)][t := Running]
  {
    hide Placed, Flags, Remove;
    RoleFacts(s, t);
  }

  /** A release wakes the first waiting thread, whose take then returns with the mutex its own. */
  lemma ReleaseLetsIn(s: State, t: Thread, id: Id, single: bool)
    requires Reached(s) && id in s.st && s.st[id].owner == By(t) && s.st[id].hold == 1 && s.st[id].waiting != []
    requires RoleIn(s.role, t) == Running
    ensures var w := s.st[id].waiting[0];
      var a := Next(s, ReleaseCall(t, id), single); var b := Next(a.next, Resume(w), single);
      && a.out == Released(t, id) && b.out == Took(w, id) && RoleIn(b.next.role, w) == Running
      && id in b.next.st && b.next.st[id].owner == By(w) && b.next.st[id].hold == 1
      && b.next.st[id].waiting == s.st[id].waiting[1..]
  {
    hide Placed, Flags, SetTo, AllSound;
    var w := s.st[id].waiting[0];
    assert w in s.st[id].waiting;
    RoleFacts(s, w);
    BlockedError(s, w);
  }

  lemma BlockedError(s: State, w: Thread)
    requires Reached(s) && RoleIn(s.role, w).Blocked?
    ensures w in s.error && s.error[w] == EOk
  {
  }

  /** A free mutex taken and released is as before, and so are the priorities. */
  lemma TakeThenRelease(s: State, t: Thread, id: Id)
    requires Reached(s) && id in s.st && s.st[id].owner == Nobody && RoleIn(s.role, t) == Running
    ensures var a := Next(s, TakeCall(t, id, true), false); var b := Next(a.next, ReleaseCall(t, id), false);
      && a.out == Took(t, id) && b.out == Released(t, id) && b.next.st == s.st && b.next.prio == s.prio
      && b.next.role == s.role
  {
    hide Placed, Flags, AllSound;
    SoundAt(s.st, id);
  }

  // ------------------------------------------------------ runs that go wrong

  lemma OneMore(s: State, evs: seq<Event>, ev: Event)
    ensures Traced(s, evs + [ev], false).last == Next(Traced(s, evs, false).last, ev, false).next
  {
    assert (evs + [ev])[..|evs|] == evs;
  }

  lemma FourEvents(s: State, a: Event, b: Event, c: Event, d: Event)
    ensures Traced(s, [a, b, c, d], false).last
         == Next(Next(Next(Next(s, a, false).next, b, false).next, c, false).next, d, false).next
  {
    hide Next;
    OneMore(s, [], a);
    OneMore(s, [a], b);
    OneMore(s, [a, b], c);
    OneMore(s, [a, b, c], d);
    assert [] + [a] == [a] && [a] + [b] == [a, b] && [a, b] + [c] == [a, b, c] && [a, b, c] + [d] == [a, b, c, d];
  }

  /** A free mutex is taken. */
  lemma TakesFree(s: State, t: Thread, id: Id)
    requires id in s.st && s.st[id].owner == Nobody && RoleIn(s.role, t) == Running
    ensures var m := s.st[id]; var r := Next(s, TakeCall(t, id, true), false).next;
      && r.st == s.st[id := m.(value := m.value - 1, owner := By(t), original := s.prio(t), hold := m.hold + 1)]
      && r.prio == s.prio && r.role == s.role
  {
  }

  /** The first to wait for a mutex boosts its owner. */
  lemma WaitsFirst(s: State, t: Thread, id: Id)
    requires id in s.st && s.st[id].owner != Nobody && s.st[id].owner != By(t) && s.st[id].waiting == []
      && RoleIn(s.role, t) == Running
    ensures var m := s.st[id]; var r := Next(s, TakeCall(t, id, true), false).next;
      && r.st == s.st[id := m.(waiting := [t])] && r.role == s.role[t := Blocked(id)]
      && Changed(s.prio, r.prio, m.owner.t, Urgent(s.prio(m.owner.t), s.prio(t)))
  {
    var m := s.st[id];
    var prio := Boost(s.prio, m.owner.t, t);
    assert Suspend(m.waiting, t, prio, m.order) == [t];
  }

  /** In arrival order, whoever comes waits behind the others. */
  lemma WaitsLast(s: State, t: Thread, id: Id)
    requires id in s.st && s.st[id].owner != Nobody && s.st[id].owner != By(t) && s.st[id].order == Fifo
      && RoleIn(s.role, t) == Running
    ensures var m := s.st[id]; var r := Next(s, TakeCall(t, id, true), false).next;
      && r.st == s.st[id := m.(waiting := m.waiting + [t])] && r.role == s.role[t := Blocked(id)]
      && Changed(s.prio, r.prio, m.owner.t, Urgent(s.prio(m.owner.t), s.prio(t)))
  {
    var m := s.st[id];
    var prio := Boost(s.prio, m.owner.t, t);
    assert Suspend(m.waiting, t, prio, m.order) == m.waiting + [t];
  }

  /** A released mutex goes to the first thread that waits for it. */
  lemma HandsOver(s: State, t: Thread, id: Id)
    requires id in s.st && s.st[id].owner == By(t) && s.st[id].hold == 1 && s.st[id].waiting != []
      && RoleIn(s.role, t) == Running
    ensures var m := s.st[id]; var r := Next(s, ReleaseCall(t, id), false).next;
      && id in r.st && r.st[id].owner == By(m.waiting[0]) && r.st[id].waiting == m.waiting[1..]
      && Changed(s.prio, r.prio, t, m.original)
  {
  }

  /** A mutex nobody waits for is released. */
  lemma ReleasesAlone(s: State, t: Thread, id: Id)
    requires id in s.st && s.st[id].owner == By(t) && s.st[id].hold == 1 && s.st[id].waiting == []
      && RoleIn(s.role, t) == Running
    ensures var m := s.st[id]; var r := Next(s, ReleaseCall(t, id), false).next;
      r.st == s.st[id := Freed(m)] && r.role == s.role && Changed(s.prio, r.prio, t, m.original)
  {
  }

  lemma ChangedAt(prio: Priorities, prio': Priorities, t: Thread, p: int, x: Thread)
    requires Changed(prio, prio', t, p)
    ensures prio'(t) == p && (x != t ==> prio'(x) == prio(x))
  {
  }

  ghost function Levels(a: int, b: int, c: int): (p: Priorities) {
    (t: Thread) => if t == 0 then a else if t == 1 then b else c
  }

  /** Arrival order: thread 1 (least urgent) gets the mutex before thread 2 (most urgent), which then waits for it. */
  lemma FifoRunInverts()
    ensures var evs := [TakeCall(0, 0, true), TakeCall(1, 0, true), TakeCall(2, 0, true), ReleaseCall(0, 0)];
      var r := Traced(Start(map[0 := Fifo], Levels(5, 10, 3)), evs, false).last;
      0 in r.st && r.st[0].owner == By(1) && 2 in r.st[0].waiting && r.prio(2) < r.prio(1) && !NoInversion(r.st, r.prio)
  {
    hide Next, Changed;
    var s0 := Start(map[0 := Fifo], Levels(5, 10, 3));
    var s1 := Next(s0, TakeCall(0, 0, true), false).next;
    var s2 := Next(s1, TakeCall(1, 0, true), false).next;
    var s3 := Next(s2, TakeCall(2, 0, true), false).next;
    var s4 := Next(s3, ReleaseCall(0, 0), false).next;
    TakesFree(s0, 0, 0);
    WaitsFirst(s1, 1, 0);
    WaitsLast(s2, 2, 0);
    HandsOver(s3, 0, 0);
    assert s4.prio(1) == 10 && s4.prio(2) == 3 by {
      forall x | x == 1 || x == 2
        ensures s4.prio(x) == s0.prio(x)
      {
        ChangedAt(s1.prio, s2.prio, 0, Urgent(s1.prio(0), s1.prio(1)), x);
        ChangedAt(s2.prio, s3.prio, 0, Urgent(s2.prio(0), s2.prio(2)), x);
        ChangedAt(s3.prio, s4.prio, 0, 5, x);
      }
    }
    assert s4.st[0].owner == By(1) && 2 in s4.st[0].waiting && !UrgentAt(s4.st[0], s4.prio);
    FourEvents(s0, TakeCall(0, 0, true), TakeCall(1, 0, true), TakeCall(2, 0, true), ReleaseCall(0, 0));
  }

  /** Two mutexes: thread 0 is boosted by the waiter of mutex 1 and gives the boost up when it releases mutex 0. */
  lemma NestedRunInverts()
    ensures var evs := [TakeCall(0, 0, true), TakeCall(0, 1, true), TakeCall(1, 1, true), ReleaseCall(0, 0)];
      var r := Traced(Start(map[0 := Prio, 1 := Prio], Levels(10, 1, 5)), evs, false).last;
      1 in r.st && r.st[1].owner == By(0) && 1 in r.st[1].waiting && r.prio(1) < r.prio(0) && !NoInversion(r.st, r.prio)
  {
    hide Next, Changed;
    var s0 := Start(map[0 := Prio, 1 := Prio], Levels(10, 1, 5));
    var s1 := Next(s0, TakeCall(0, 0, true), false).next;
    var s2 := Next(s1, TakeCall(0, 1, true), false).next;
    var s3 := Next(s2, TakeCall(1, 1, true), false).next;
    var s4 := Next(s3, ReleaseCall(0, 0), false).next;
    TakesFree(s0, 0, 0);
    TakesFree(s1, 0, 1);
    WaitsFirst(s2, 1, 1);
    ReleasesAlone(s3, 0, 0);
    assert s3.prio(1) == 1 && s4.prio(1) == 1 && s4.prio(0) == 10 by {
      ChangedAt(s2.prio, s3.prio, 0, Urgent(10, 1), 1);
      ChangedAt(s3.prio, s4.prio, 0, 10, 1);
    }
    assert 1 in s4.st[1].waiting && !UrgentAt(s4.st[1], s4.prio);
    FourEvents(s0, TakeCall(0, 0, true), TakeCall(0, 1, true), TakeCall(1, 1, true), ReleaseCall(0, 0));
  }

  /** A chain: thread 2 boosts thread 1, which waits for thread 0, which stays less urgent. */
  lemma ChainRunInverts()
    ensures var evs := [TakeCall(0, 0, true), TakeCall(1, 1, true), TakeCall(1, 0, true), TakeCall(2, 1, true)];
      var r := Traced(Start(map[0 := Prio, 1 := Prio], Levels(10, 5, 1)), evs, false).last;
      0 in r.st && r.st[0].owner == By(0) && 1 in r.st[0].waiting && r.prio(1) < r.prio(0) && !NoInversion(r.st, r.prio)
  {
    hide Next, Changed;
    var s0 := Start(map[0 := Prio, 1 := Prio], Levels(10, 5, 1));
    var s1 := Next(s0, TakeCall(0, 0, true), false).next;
    var s2 := Next(s1, TakeCall(1, 1, true), false).next;
    var s3 := Next(s2, TakeCall(1, 0, true), false).next;
    var s4 := Next(s3, TakeCall(2, 1, true), false).next;
    TakesFree(s0, 0, 0);
    TakesFree(s1, 1, 1);
    WaitsFirst(s2, 1, 0);
    WaitsFirst(s3, 2, 1);
    assert s4.prio(0) == 5 && s4.prio(1) == 1 by {
      ChangedAt(s2.prio, s3.prio, 0, 5, 1);
      ChangedAt(s2.prio, s3.prio, 0, 5, 2);
      ChangedAt(s3.prio, s4.prio, 1, 1, 0);
    }
    assert 1 in s4.st[0].waiting && !UrgentAt(s4.st[0], s4.prio);
    FourEvents(s0, TakeCall(0, 0, true), TakeCall(1, 1, true), TakeCall(1, 0, true), TakeCall(2, 1, true));
  }

  /** A mutex somebody waits for is released. */
  lemma ReleasesTo(s: State, t: Thread, id: Id)
    requires id in s.st && s.st[id].owner == By(t) && s.st[id].hold == 1 && s.st[id].waiting != []
      && RoleIn(s.role, t) == Running
    ensures var m := s.st[id]; var r := Next(s, ReleaseCall(t, id), false).next;
      r.st == s.st[id := HandedOver(m, r.prio)] && r.role == s.role[m.waiting[0] := Handed(id)]
        && Changed(s.prio, r.prio, t, m.original)
  {
  }

  /** A mutex taken while boosted records the boost: thread 0 ends without a mutex, at the priority of thread 1. */
  lemma StaleRecordRun()
    ensures var evs := [TakeCall(0, 0, true), TakeCall(1, 0, true), TakeCall(0, 1, true), ReleaseCall(0, 0)]
      + [ReleaseCall(0, 1)];
      var own := Levels(10, 1, 5);
      var r := Traced(Start(map[0 := Prio, 1 := Prio], own), evs, false).last;
      !Owns(r.st, 0) && r.prio(0) == 1 && own(0) == 10 && !AtOwn(r.st, r.prio, own)
  {
    hide Next, Changed;
    var s0 := Start(map[0 := Prio, 1 := Prio], Levels(10, 1, 5));
    var s1 := Next(s0, TakeCall(0, 0, true), false).next;
    var s2 := Next(s1, TakeCall(1, 0, true), false).next;
    var s3 := Next(s2, TakeCall(0, 1, true), false).next;
    var s4 := Next(s3, ReleaseCall(0, 0), false).next;
    var s5 := Next(s4, ReleaseCall(0, 1), false).next;
    TakesFree(s0, 0, 0);
    WaitsFirst(s1, 1, 0);
    ChangedAt(s1.prio, s2.prio, 0, 1, 1);
    TakesFree(s2, 0, 1);
    ReleasesTo(s3, 0, 0);
    ReleasesAlone(s4, 0, 1);
    ChangedAt(s4.prio, s5.prio, 0, 1, 1);
    assert s5.st[0].owner == By(1) && s5.st[1].owner == Nobody && s5.st.Keys == {0, 1};
    assert !Owns(s5.st, 0);
    FourEvents(s0, TakeCall(0, 0, true), TakeCall(1, 0, true), TakeCall(0, 1, true), ReleaseCall(0, 0));
    OneMore(s0, [TakeCall(0, 0, true), TakeCall(1, 0, true), TakeCall(0, 1, true), ReleaseCall(0, 0)],
      ReleaseCall(0, 1));
  }
}
