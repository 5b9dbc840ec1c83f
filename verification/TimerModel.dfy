/** Timers of rt-thread/src/timer.c, seen as one list of running timers in deadline order.

    Deadlines and the tick are true times here; class TimerList.Timers keeps them modulo 2^32 and in
    a skip list, and is proved to do the same.  A callback is any sequence of timer calls. */
module TimerModel {
  import opened WaitList

  const HALF := 0x7FFF_FFFF   // RT_TICK_MAX / 2

  datatype Timer = Timer(init: nat, due: nat, periodic: bool, active: bool)

  datatype Act =
    | Start(u: Tid)
    | Stop(u: Tid)
    | Detach(u: Tid)
    | SetTime(u: Tid, n: nat)
    | SetOneshot(u: Tid)
    | SetPeriodic(u: Tid)

  /** temp is the temporary list of rt_timer_check: the timer whose callback is running. */
  datatype St = St(q: seq<Tid>, temp: seq<Tid>, timers: map<Tid, Timer>, now: nat)

  function TimerIn(timers: map<Tid, Timer>, u: Tid): Timer {
    if u in timers then timers[u] else Timer(1, 0, false, false)
  }

  function DueOf(timers: map<Tid, Timer>): Tid -> nat { (u: Tid) => TimerIn(timers, u).due }

  function Removed(s: St, u: Tid): St {
    var tm := TimerIn(s.timers, u);
    s.(q := Without(s.q, u), temp := Without(s.temp, u), timers := s.timers[u := tm.(active := false)])
  }

  /** rt_timer_start */
  function Started(s: St, u: Tid): St {
    var tm := TimerIn(s.timers, u);
    var timers := s.timers[u := tm.(due := s.now + tm.init, active := true)];
    St(Insert(Without(s.q, u), u, Prio, DueOf(timers)), Without(s.temp, u), timers, s.now)
  }

  function Do(s: St, a: Act): St {
    var tm := TimerIn(s.timers, a.u);
    match a
    case Start(u) => Started(s, u)
    case Stop(u) => if tm.active then Removed(s, u) else s
    case Detach(u) => Removed(s, u)
    case SetTime(u, n) => s.(timers := s.timers[u := tm.(init := n)])
    case SetOneshot(u) => s.(timers := s.timers[u := tm.(periodic := false)])
    case SetPeriodic(u) => s.(timers := s.timers[u := tm.(periodic := true)])
  }

  /** The head timer leaves the list for the temporary list; a one-shot timer is no longer active. */
  function Begin(s: St): St
    requires s.q != []
  {
    var t := s.q[0];
    var tm := TimerIn(s.timers, t);
    s.(q := Without(s.q, t), temp := [t], timers := s.timers[t := tm.(active := tm.active && tm.periodic)])
  }

  /** After the callback: unless it stopped or restarted its own timer, the timer leaves the
      temporary list, and starts again if it is periodic and active. */
  function Finish(s: St, t: Tid): St {
    var tm := TimerIn(s.timers, t);
    if s.temp == [] then s
    else if tm.periodic && tm.active then Started(s, t)
    else s.(temp := Without(s.temp, t))
  }

  // ---------- What every call keeps ----------

  /** Intervals are below RT_TICK_MAX/2, as the assertion of rt_timer_start demands.  lag bounds how late an
      expired timer may still be waiting, so that a timer that is started compares rightly with all others. */
  ghost predicate InitsOk(timers: map<Tid, Timer>, lag: nat) {
    forall u: Tid {:trigger TimerIn(timers, u)} :: InitOk(TimerIn(timers, u).init, lag)
  }

  predicate InitOk(n: nat, lag: nat) { n < HALF && lag < HALF && n + lag <= HALF + 2 }

  ghost predicate Queued(s: St, lag: nat) {
    && Distinct(s.q) && Sorted(s.q, DueOf(s.timers))
    && forall u :: u in s.q ==> Running(s, lag, TimerIn(s.timers, u))
  }

  predicate Running(s: St, lag: nat, tm: Timer) {
    tm.active && s.now <= tm.due + lag && tm.due < s.now + HALF
  }

  ghost predicate Inv(s: St, lag: nat) {
    && InitsOk(s.timers, lag) && Queued(s, lag)
    && |s.temp| <= 1 && forall u :: u in s.temp ==> u !in s.q
  }

  predicate ActOk(a: Act, lag: nat) { a.SetTime? ==> InitOk(a.n, lag) }

  lemma SortedSame(q: seq<Tid>, f: Tid -> nat, g: Tid -> nat)
    requires Sorted(q, f) && forall u :: u in q ==> f(u) == g(u)
    ensures Sorted(q, g)
  {
  }

  /** Taking u out. */
  lemma QueuedWithout(s: St, u: Tid, lag: nat, timers: map<Tid, Timer>)
    requires Queued(s, lag) && forall v :: v != u ==> TimerIn(timers, v) == TimerIn(s.timers, v)
    ensures var q := Without(s.q, u); Queued(s.(q := q, timers := timers), lag) && u !in q && forall v :: v in q ==> v in s.q
  {
    WithoutMembers(s.q, u);
    WithoutKeepsSorted(s.q, u, DueOf(s.timers));
    SortedSame(Without(s.q, u), DueOf(s.timers), DueOf(timers));
  }

  lemma StartedKeeps(s: St, u: Tid, lag: nat)
    requires Inv(s, lag)
    ensures var r := Started(s, u);
      Inv(r, lag) && u in r.q && u !in r.temp && (forall v :: v in r.q ==> v in s.q || v == u) && forall v :: v in r.temp ==> v in s.temp
  {
    var tm, r := TimerIn(s.timers, u), Started(s, u);
    QueuedWithout(s, u, lag, r.timers);
    var q := Without(s.q, u);
    InsertMembers(q, u, Prio, DueOf(r.timers));
    InsertKeepsSorted(q, u, DueOf(r.timers));
    assert forall v: Tid :: v != u ==> TimerIn(r.timers, v) == TimerIn(s.timers, v);
    WithoutTemp(s.temp, u);
  }

  lemma WithoutTemp(temp: seq<Tid>, u: Tid)
    requires |temp| <= 1
    ensures Without(temp, u) == if temp == [u] then [] else temp
    ensures u !in Without(temp, u) && forall v :: v in Without(temp, u) ==> v in temp
  {
  }

  lemma RemovedKeeps(s: St, u: Tid, lag: nat)
    requires Inv(s, lag)
    ensures Inv(Removed(s, u), lag)
  {
    var r := Removed(s, u);
    QueuedWithout(s, u, lag, r.timers);
    WithoutTemp(s.temp, u);
    assert forall v: Tid :: v != u ==> TimerIn(r.timers, v) == TimerIn(s.timers, v);
    assert TimerIn(r.timers, u).init == TimerIn(s.timers, u).init;
  }

  lemma SetKeeps(s: St, u: Tid, tm: Timer, lag: nat)
    requires Inv(s, lag) && InitOk(tm.init, lag)
    requires tm.due == TimerIn(s.timers, u).due && tm.active == TimerIn(s.timers, u).active
    ensures Inv(s.(timers := s.timers[u := tm]), lag)
  {
    var timers := s.timers[u := tm];
    assert forall v: Tid :: v != u ==> TimerIn(timers, v) == TimerIn(s.timers, v);
    SortedSame(s.q, DueOf(s.timers), DueOf(timers));
  }

  lemma DoKeeps(s: St, a: Act, lag: nat)
    requires Inv(s, lag) && ActOk(a, lag)
    ensures Inv(Do(s, a), lag)
  {
    hide Sorted, Distinct;
    var tm := TimerIn(s.timers, a.u);
    match a {
      case Start(u) => StartedKeeps(s, u, lag);
      case Stop(u) => RemovedKeeps(s, u, lag);
      case Detach(u) => RemovedKeeps(s, u, lag);
      case SetTime(u, n) => SetKeeps(s, u, tm.(init := n), lag);
      case SetOneshot(u) => SetKeeps(s, u, tm.(periodic := false), lag);
      case SetPeriodic(u) => SetKeeps(s, u, tm.(periodic := true), lag);
    }
  }

  // ---------- The timers that are due ----------

  ghost function DueSet(s: St): set<Tid> { set u | u in s.q && TimerIn(s.timers, u).due <= s.now }

  function Keep(q: seq<Tid>, a: set<Tid>): seq<Tid> {
    if q == [] then [] else if q[0] in a then [q[0]] + Keep(q[1..], a) else Keep(q[1..], a)
  }

  lemma {:induction false} KeepConcat(p: seq<Tid>, q: seq<Tid>, a: set<Tid>)
    ensures Keep(p + q, a) == Keep(p, a) + Keep(q, a)
  {
    if p == [] {
      assert p + q == q;
    } else {
      assert (p + q)[1..] == p[1..] + q;
      KeepConcat(p[1..], q, a);
    }
  }

  lemma {:induction false} KeepWithout(q: seq<Tid>, u: Tid, a: set<Tid>)
    requires u !in a
    ensures Keep(Without(q, u), a) == Keep(q, a)
  {
    if q != [] && q[0] != u { KeepWithout(q[1..], u, a); }
  }

  lemma KeepInsert(q: seq<Tid>, u: Tid, flag: Flag, prio: Tid -> nat, a: set<Tid>)
    requires u !in a
    ensures Keep(Insert(q, u, flag, prio), a) == Keep(q, a)
  {
    var k := Place(q, u, flag, prio);
    assert q == q[..k] + q[k..];
    KeepConcat(q[..k], q[k..], a);
    KeepConcat(q[..k] + [u], q[k..], a);
    KeepConcat(q[..k], [u], a);
  }

  /** The call starts no timer that is due at once. */
  predicate Ahead(s: St, a: Act) { a.Start? ==> TimerIn(s.timers, a.u).init >= 1 }

  /** Such a call makes nothing due and does not reorder what stays due. */
  lemma DoDue(s: St, a: Act, lag: nat, d: set<Tid>)
    requires Inv(s, lag) && Ahead(s, a) && d <= DueSet(Do(s, a))
    ensures DueSet(Do(s, a)) <= DueSet(s) && Keep(Do(s, a).q, d) == Keep(s.q, d)
    ensures Do(s, a).now == s.now
    ensures forall u :: u in DueSet(Do(s, a)) ==> TimerIn(Do(s, a).timers, u).due == TimerIn(s.timers, u).due
  {
    hide Sorted, Distinct;
    var r := Do(s, a);
    assert forall v: Tid :: v != a.u ==> TimerIn(r.timers, v) == TimerIn(s.timers, v);
    if a.Start? {
      StartedKeeps(s, a.u, lag);
      assert a.u !in DueSet(r) by { assert TimerIn(r.timers, a.u).due > s.now; }
      KeepWithout(s.q, a.u, d);
      KeepInsert(Without(s.q, a.u), a.u, Prio, DueOf(r.timers), d);
    } else if r == Removed(s, a.u) {
      QueuedWithout(s, a.u, lag, r.timers);
      KeepWithout(s.q, a.u, d);
    }
  }

  // ---------- What each call does, seen from outside ----------

  /** Starting a timer, running or not, makes it due one interval from now and puts it behind all that are due no
      later. */
  lemma StartIs(s: St, u: Tid)
    requires Distinct(s.q)
    ensures var r, tm := Do(s, Start(u)), TimerIn(s.timers, u);
      && TimerIn(r.timers, u) == Timer(tm.init, s.now + tm.init, tm.periodic, true)
      && (forall v: Tid {:trigger TimerIn(r.timers, v)} :: v != u ==> TimerIn(r.timers, v) == TimerIn(s.timers, v))
      && r.now == s.now
      && exists rest: seq<Tid> :: Loses(s.q, rest, u) && Joins(rest, r.q, u, Prio, v => TimerIn(r.timers, v).due)
  {
    var r, rest := Started(s, u), Without(s.q, u);
    WithoutLoses(s.q, u);
    InsertJoins(rest, u, Prio, DueOf(r.timers));
    JoinsSame(rest, r.q, u, Prio, DueOf(r.timers), v => TimerIn(r.timers, v).due);
    hide Insert, Joins, Loses;
    assert Loses(s.q, rest, u) && Joins(rest, r.q, u, Prio, v => TimerIn(r.timers, v).due);
  }

  /** Stopping a running timer, or detaching any, takes it off the list; stopping one that is not active does
      nothing. */
  lemma StopIs(s: St, u: Tid)
    requires Distinct(s.q)
    ensures var r, tm := Do(s, Stop(u)), TimerIn(s.timers, u);
      && (!tm.active ==> r == s)
      && (tm.active ==> r == Do(s, Detach(u)))
    ensures var r := Do(s, Detach(u));
      && TimerIn(r.timers, u) == TimerIn(s.timers, u).(active := false)
      && (forall v: Tid {:trigger TimerIn(r.timers, v)} :: v != u ==> TimerIn(r.timers, v) == TimerIn(s.timers, v))
      && r.now == s.now && Loses(s.q, r.q, u)
  {
    WithoutLoses(s.q, u);
    hide Loses;
  }

  /** Control changes one field of one timer; a running one keeps its deadline. */
  lemma ControlIs(s: St, u: Tid, n: nat)
    ensures var r := Do(s, SetTime(u, n));
      r.q == s.q && r.temp == s.temp && r.now == s.now && r.timers == s.timers[u := TimerIn(s.timers, u).(init := n)]
    ensures var r := Do(s, SetOneshot(u));
      r.q == s.q && r.temp == s.temp && r.now == s.now && r.timers == s.timers[u := TimerIn(s.timers, u).(periodic := false)]
    ensures var r := Do(s, SetPeriodic(u));
      r.q == s.q && r.temp == s.temp && r.now == s.now && r.timers == s.timers[u := TimerIn(s.timers, u).(periodic := true)]
  {
  }
}
