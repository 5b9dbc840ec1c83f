/** The mutex of rt-thread/src/ipc.c:658-912 with its priority inheritance.  A smaller number is a
    better priority. */
module MutexModel {
  import opened WaitList

  datatype Owner = Nobody | By(t: Tid)

  datatype Status = Ok | Full | TimedOut | Blocked | NotOwner

  /** prio holds every thread's current_priority. */
  datatype State = State(value: nat, hold: nat, owner: Owner, original: nat, wait: seq<Tid>, prio: map<Tid, nat>)

  function PrioIn(prio: map<Tid, nat>, t: Tid): nat { if t in prio then prio[t] else 0xFF }
  function ByPrio(prio: map<Tid, nat>): Tid -> nat { (t: Tid) => PrioIn(prio, t) }

  function Init(prio: map<Tid, nat>): State { State(1, 0, Nobody, 0xFF, [], prio) }

  /** rt_mutex_take up to the point where it returns or blocks. */
  function Taken(s: State, t: Tid, mayWait: bool, flag: Flag): (State, Status) {
    if s.owner == By(t) then
      if s.hold < 0xFF then (s.(hold := s.hold + 1), Ok) else (s, Full)
    else if s.value > 0 then
      if s.hold < 0xFF then
        (s.(value := s.value - 1, owner := By(t), original := PrioIn(s.prio, t), hold := s.hold + 1), Ok)
      else (s.(value := s.value - 1, owner := By(t), original := PrioIn(s.prio, t)), Full)
    else if !mayWait then (s, TimedOut)
    else
      var p := if s.owner.By? && PrioIn(s.prio, t) < PrioIn(s.prio, s.owner.t) then s.prio[s.owner.t := PrioIn(s.prio, t)] else s.prio;
      (s.(prio := p, wait := Insert(s.wait, t, flag, ByPrio(p))), Blocked)
  }

  /** rt_mutex_release: the last release hands the mutex to the first waiter, if any. */
  function Released(s: State, t: Tid): (State, Status) {
    if s.owner != By(t) || s.hold == 0 then (s, NotOwner)
    else if s.hold > 1 then (s.(hold := s.hold - 1), Ok)
    else
      var p := if s.original != PrioIn(s.prio, t) then s.prio[t := s.original] else s.prio;
      if s.wait != [] then
        var h := s.wait[0];
        (s.(hold := 1, owner := By(h), original := PrioIn(p, h), wait := s.wait[1..], prio := p), Ok)
      else if s.value < 0xFFFF then (s.(hold := 0, value := s.value + 1, owner := Nobody, original := 0xFF, prio := p), Ok)
      else (s.(hold := 0, prio := p), Full)
  }

  datatype Event = Take(t: Tid, mayWait: bool) | Release(t: Tid) | Timeout(t: Tid)

  /** A thread that waits makes no call of its own. */
  predicate Enabled(s: State, e: Event) { e.Timeout? || e.t !in s.wait }

  function Next(s: State, e: Event, flag: Flag): State {
    match e
    case Take(t, mayWait) => Taken(s, t, mayWait, flag).0
    case Release(t) => Released(s, t).0
    case Timeout(t) => s.(wait := Without(s.wait, t))
  }

  // ---------- Ownership ----------

  ghost predicate Owned(s: State) {
    && (s.owner == Nobody <==> s.hold == 0)
    && (s.hold == 0 <==> s.value == 1)
    && s.value <= 1 && s.hold <= 0xFF
    && (s.owner == Nobody ==> s.wait == [])
    && Distinct(s.wait) && (s.owner.By? ==> s.owner.t !in s.wait)
  }

  lemma OwnedKept(s: State, e: Event, flag: Flag)
    requires Owned(s) && Enabled(s, e)
    ensures Owned(Next(s, e, flag))
  {
    hide Insert;
    match e {
      case Take(t, mayWait) =>
        var r := Taken(s, t, mayWait, flag).0;
        if r.wait != s.wait { InsertMembers(s.wait, t, flag, ByPrio(r.prio)); }
      case Release(t) =>
      case Timeout(t) => WithoutMembers(s.wait, t);
    }
  }

  /** A take of a free mutex, or of one's own below the 256th level of nesting, succeeds; of another's it waits, and
      the owner becomes as urgent as the caller, or is refused, as the caller asked. */
  lemma TakeOutcome(s: State, t: Tid, mayWait: bool, flag: Flag)
    requires Owned(s)
    ensures var (r, status) := Taken(s, t, mayWait, flag);
      && (s.owner == Nobody ==> status == Ok && r.owner == By(t) && r.hold == 1 && r.wait == [] && r.prio == s.prio)
      && (s.owner == By(t) && s.hold < 0xFF ==> status == Ok && r == s.(hold := s.hold + 1))
      && (s.owner == By(t) && s.hold == 0xFF ==> status == Full && r == s)
      && (s.owner.By? && s.owner != By(t) && !mayWait ==> status == TimedOut && r == s)
      && (s.owner.By? && s.owner != By(t) && mayWait ==>
            && status == Blocked && r.owner == s.owner && r.hold == s.hold && r.value == s.value && r.original == s.original
            && Joins(s.wait, r.wait, t, flag, ByPrio(r.prio))
            && PrioIn(r.prio, s.owner.t) == Least(PrioIn(s.prio, s.owner.t), PrioIn(s.prio, t))
            && forall u: Tid {:trigger PrioIn(r.prio, u)} :: u != s.owner.t ==> PrioIn(r.prio, u) == PrioIn(s.prio, u))
  {
    hide Insert;
    var r := Taken(s, t, mayWait, flag).0;
    InsertJoins(s.wait, t, flag, ByPrio(r.prio));
    hide Joins;
  }

  function Least(a: nat, b: nat): nat { if a < b then a else b }

  /** A release by anyone but the owner is refused; the owner's last one hands the mutex to the first waiter, or
      leaves it free, and never overflows. */
  lemma ReleaseOutcome(s: State, t: Tid)
    requires Owned(s)
    ensures var (r, status) := Released(s, t);
      && (s.owner != By(t) ==> status == NotOwner && r == s)
      && (s.owner == By(t) && s.hold > 1 ==> status == Ok && r == s.(hold := s.hold - 1))
      && (s.owner == By(t) && s.hold == 1 && s.wait == [] ==> status == Ok && r.owner == Nobody && r.hold == 0 && r.value == 1)
      && (s.owner == By(t) && s.hold == 1 && s.wait != [] ==>
            status == Ok && r.owner == By(s.wait[0]) && r.hold == 1 && r.value == 0 && r.wait == s.wait[1..])
  {
  }

  /** Whoever owns the mutex keeps it until its own last release: so a thread that was handed the mutex while
      asleep still owns it when its take returns. */
  lemma OwnerStays(s: State, e: Event, flag: Flag, t: Tid)
    requires Owned(s) && Enabled(s, e) && s.owner == By(t) && !(e == Release(t) && s.hold == 1)
    ensures Next(s, e, flag).owner == By(t)
  {
  }

  // ---------- Priority inheritance ----------

  /** base is the priority each thread has outside this mutex: only the owner's may have been raised. */
  ghost predicate Inherits(s: State, base: map<Tid, nat>) {
    && (forall t: Tid {:trigger PrioIn(s.prio, t)} :: s.owner != By(t) ==> PrioIn(s.prio, t) == PrioIn(base, t))
    && (s.owner.By? ==> s.original == PrioIn(base, s.owner.t) && PrioIn(s.prio, s.owner.t) <= PrioIn(base, s.owner.t))
  }

  /** The owner runs at least as urgently as everyone it keeps waiting. */
  ghost predicate NoInversion(s: State) {
    s.owner.By? ==> forall w :: w in s.wait ==> PrioIn(s.prio, s.owner.t) <= PrioIn(s.prio, w)
  }

  lemma InheritsKept(s: State, e: Event, flag: Flag, base: map<Tid, nat>)
    requires Owned(s) && Enabled(s, e) && Inherits(s, base)
    ensures Inherits(Next(s, e, flag), base)
  {
    hide Insert, Without;
    var r := Next(s, e, flag);
    if e.Take? && Taken(s, e.t, e.mayWait, flag).1 == Blocked {
      var o := s.owner.t;
      assert PrioIn(s.prio, e.t) == PrioIn(base, e.t);
      assert forall t: Tid {:trigger PrioIn(r.prio, t)} :: t != o ==> PrioIn(r.prio, t) == PrioIn(s.prio, t);
    } else if e.Release? && s.owner == By(e.t) && s.hold == 1 {
      assert forall t: Tid {:trigger PrioIn(r.prio, t)} :: t != e.t ==> PrioIn(r.prio, t) == PrioIn(s.prio, t);
      assert PrioIn(r.prio, e.t) == s.original == PrioIn(base, e.t);
    } else {
      assert r.prio == s.prio;
    }
  }

  /** A full release gives the owner back the priority it had when it acquired the mutex. */
  lemma ReleaseRestores(s: State, t: Tid, base: map<Tid, nat>)
    requires Owned(s) && Inherits(s, base) && s.owner == By(t) && s.hold == 1
    ensures PrioIn(Released(s, t).0.prio, t) == PrioIn(base, t) == s.original
  {
  }

  lemma BlockedRaises(s: State, t: Tid, flag: Flag)
    requires Owned(s) && NoInversion(s) && t !in s.wait && Taken(s, t, true, flag).1 == Blocked
    ensures NoInversion(Taken(s, t, true, flag).0)
  {
    hide Insert;
    var r := Taken(s, t, true, flag).0;
    var o := s.owner.t;
    InsertMembers(s.wait, t, flag, ByPrio(r.prio));
    assert PrioIn(r.prio, o) <= PrioIn(s.prio, o);
    forall w | w in r.wait ensures PrioIn(r.prio, o) <= PrioIn(r.prio, w) {
      assert w != o && PrioIn(r.prio, w) == PrioIn(s.prio, w);
    }
  }

  /** Handing over leaves no inversion if and only if the first waiter is a most urgent one. */
  lemma HandOverIff(s: State, t: Tid, base: map<Tid, nat>)
    requires Owned(s) && Inherits(s, base) && s.owner == By(t) && s.hold == 1 && s.wait != []
    ensures NoInversion(Released(s, t).0) <==> forall w :: w in s.wait ==> PrioIn(s.prio, s.wait[0]) <= PrioIn(s.prio, w)
  {
    var r, h := Released(s, t).0, s.wait[0];
    assert forall w :: w in s.wait <==> w == h || w in s.wait[1..];
    assert h in s.wait;
    forall w | w in s.wait ensures PrioIn(r.prio, w) == PrioIn(s.prio, w) { assert w != t; }
  }

  /** With a FIFO list that can fail: thread 2, the most urgent, waits behind thread 1, and when thread 0
      hands over it waits for an owner less urgent than itself. */
  lemma FifoHandOverInverts()
    ensures var p := map[0 := 20, 1 := 15, 2 := 5];
      var s := Next(Next(Next(Init(p), Take(0, true), Fifo), Take(1, true), Fifo), Take(2, true), Fifo);
      && s == State(0, 1, By(0), 20, [1, 2], map[0 := 5, 1 := 15, 2 := 5])
      && NoInversion(s) && Inherits(s, p) && Next(s, Release(0), Fifo) == State(0, 1, By(1), 15, [2], p)
      && !NoInversion(Next(s, Release(0), Fifo))
  {
    FifoTakes();
    var p, p2 := map[0 := 20, 1 := 15, 2 := 5], map[0 := 5, 1 := 15, 2 := 5];
    var s := State(0, 1, By(0), 20, [1, 2], p2);
    var r := Next(s, Release(0), Fifo);
    assert [1, 2][1..] == [2] && p2[0 := 20] == p;
    assert r == State(0, 1, By(1), 15, [2], p);
    assert 2 in r.wait && PrioIn(r.prio, 2) == 5;
  }

  lemma FifoTakes()
    ensures var p := map[0 := 20, 1 := 15, 2 := 5];
      Next(Next(Next(Init(p), Take(0, true), Fifo), Take(1, true), Fifo), Take(2, true), Fifo)
      == State(0, 1, By(0), 20, [1, 2], map[0 := 5, 1 := 15, 2 := 5])
  {
    var p0, p1 := map[0 := 20, 1 := 15, 2 := 5], map[0 := 15, 1 := 15, 2 := 5];
    var s0 := Next(Init(p0), Take(0, true), Fifo);
    assert s0 == State(0, 1, By(0), 20, [], p0);
    var s1 := Next(s0, Take(1, true), Fifo);
    assert p0[0 := 15] == p1;
    assert Insert([], 1, Fifo, ByPrio(p1)) == [1];
    assert s1 == State(0, 1, By(0), 20, [1], p1);
    assert p1[0 := 5] == map[0 := 5, 1 := 15, 2 := 5];
    assert Insert([1], 2, Fifo, ByPrio(p1[0 := 5])) == [1, 2];
  }

  // ---------- A PRIO mutex over whole runs ----------

  ghost predicate Inv(s: State, base: map<Tid, nat>) {
    Owned(s) && Inherits(s, base) && NoInversion(s) && Sorted(s.wait, ByPrio(base))
  }

  lemma StepKeeps(s: State, e: Event, base: map<Tid, nat>)
    requires Inv(s, base) && Enabled(s, e)
    ensures Inv(Next(s, e, Prio), base)
  {
    hide Insert, Sorted, NoInversion, Owned, Inherits;
    OwnedKept(s, e, Prio);
    InheritsKept(s, e, Prio, base);
    match e {
      case Take(t, mayWait) => TakeSorted(s, t, mayWait, base);
      case Release(t) => ReleaseSorted(s, t, base);
      case Timeout(t) =>
        WithoutKeepsSorted(s.wait, t, ByPrio(base));
        TimeoutCalm(s, t);
    }
  }

  lemma TimeoutCalm(s: State, t: Tid)
    requires NoInversion(s) && Owned(s)
    ensures NoInversion(s.(wait := Without(s.wait, t)))
  {
    WithoutMembers(s.wait, t);
  }

  lemma TakeSorted(s: State, t: Tid, mayWait: bool, base: map<Tid, nat>)
    requires Inv(s, base) && t !in s.wait
    ensures var r := Taken(s, t, mayWait, Prio).0; NoInversion(r) && Sorted(r.wait, ByPrio(base))
  {
    var (r, status) := Taken(s, t, mayWait, Prio);
    if status == Blocked {
      BlockedRaises(s, t, Prio);
      forall w | w in s.wait || w == t ensures ByPrio(r.prio)(w) == ByPrio(base)(w) { assert PrioIn(r.prio, w) == PrioIn(s.prio, w); }
      PlaceSame(s.wait, t, ByPrio(r.prio), ByPrio(base));
      InsertKeepsSorted(s.wait, t, ByPrio(base));
    }
  }

  lemma {:induction false} PlaceSame(list: seq<Tid>, t: Tid, f: Tid -> nat, g: Tid -> nat)
    requires f(t) == g(t) && forall u :: u in list ==> f(u) == g(u)
    ensures Insert(list, t, Prio, f) == Insert(list, t, Prio, g) && Place(list, t, Prio, f) == Place(list, t, Prio, g)
  {
    if list != [] { PlaceSame(list[1..], t, f, g); }
  }

  lemma ReleaseSorted(s: State, t: Tid, base: map<Tid, nat>)
    requires Inv(s, base)
    ensures var r := Released(s, t).0; NoInversion(r) && Sorted(r.wait, ByPrio(base))
  {
    if s.owner == By(t) && s.hold == 1 && s.wait != [] {
      forall w | w in s.wait ensures PrioIn(s.prio, s.wait[0]) <= PrioIn(s.prio, w) {
        var i :| 0 <= i < |s.wait| && s.wait[i] == w;
        assert s.wait[0] in s.wait && ByPrio(base)(s.wait[0]) <= ByPrio(base)(s.wait[i]);
        assert PrioIn(s.prio, w) == PrioIn(base, w);
      }
      HandOverIff(s, t, base);
    }
  }

  ghost predicate Legal(s: State, es: seq<Event>)
    decreases |es|
  {
    es == [] || (Enabled(s, es[0]) && Legal(Next(s, es[0], Prio), es[1..]))
  }

  ghost function Run(s: State, es: seq<Event>): State
    requires Legal(s, es)
    decreases |es|
  {
    if es == [] then s else Run(Next(s, es[0], Prio), es[1..])
  }

  /** A PRIO mutex whose users have no other source of priority changes never lets its owner run below a
      waiter, keeps its list in priority order, and once free has left every priority as it was. */
  lemma {:induction false} RunKeeps(prio: map<Tid, nat>, es: seq<Event>)
    requires Legal(Init(prio), es)
    ensures var r := Run(Init(prio), es);
      && Inv(r, prio)
      && (r.owner == Nobody ==> forall t: Tid {:trigger PrioIn(r.prio, t)} :: PrioIn(r.prio, t) == PrioIn(prio, t))
  {
    RunKeepsFrom(Init(prio), es, prio);
  }

  lemma {:induction false} RunKeepsFrom(s: State, es: seq<Event>, base: map<Tid, nat>)
    requires Inv(s, base) && Legal(s, es)
    ensures Inv(Run(s, es), base)
    decreases |es|
  {
    hide Inv;
    if es != [] {
      StepKeeps(s, es[0], base);
      RunKeepsFrom(Next(s, es[0], Prio), es[1..], base);
    }
  }
}
