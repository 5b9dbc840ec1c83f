/** rt_timer_check and rt_soft_timer_check of rt-thread/src/timer.c with arbitrary callbacks.

    Callbacks of hard timers run in the tick interrupt, so nothing but their own calls happens meanwhile.
    Callbacks of soft timers run with interrupts enabled, so ticks pass and other threads' timer calls come in
    between.  The two loops are otherwise the same. */
module TimerRuns {
  import opened WaitList
  import opened TimerModel

  /** What happens while a callback runs. */
  datatype During = Does(a: Act) | Passes

  /** What happens during the first callback, the second, and so on; nothing during any further one. */
  type Course = seq<seq<During>>

  function After(s: St, e: During): St {
    match e
    case Does(a) => Do(s, a)
    case Passes => s.(now := s.now + 1)
  }

  function AfterAll(s: St, es: seq<During>): St
    decreases |es|
  {
    if es == [] then s else AfterAll(After(s, es[0]), es[1..])
  }

  function TicksIn(es: seq<During>): nat {
    if es == [] then 0 else (if es[0].Passes? then 1 else 0) + TicksIn(es[1..])
  }

  function TicksInAll(course: Course): nat {
    if course == [] then 0 else TicksIn(course[0]) + TicksInAll(course[1..])
  }

  function First(course: Course): seq<During> { if course == [] then [] else course[0] }
  function Others(course: Course): Course { if course == [] then [] else course[1..] }

  /** One turn of the loop. */
  function Fire(s: St, es: seq<During>): St
    requires s.q != []
  {
    Finish(AfterAll(Begin(s), es), s.q[0])
  }

  predicate Done(s: St) { s.q == [] || TimerIn(s.timers, s.q[0]).due > s.now }

  // ---------- What a turn keeps ----------

  ghost predicate ActsOk(es: seq<During>, lag: nat) { forall i :: 0 <= i < |es| && es[i].Does? ==> ActOk(es[i].a, lag) }

  ghost predicate CourseOk(course: Course, lag: nat) { forall i :: 0 <= i < |course| ==> ActsOk(course[i], lag) }

  /** No running timer is overdue by more than late ticks. */
  ghost predicate Late(s: St, late: nat) { forall u :: u in s.q ==> s.now <= TimerIn(s.timers, u).due + late }

  /** With the ticks still to come the deadlines stay comparable. */
  ghost predicate Fit(s: St, course: Course, late: nat, lag: nat) {
    Inv(s, lag) && CourseOk(course, lag) && Late(s, late) && late + TicksInAll(course) <= lag
  }

  /** Since s, timers have left the list or were started anew, and then are not due before s. */
  ghost predicate Follows(s: St, r: St) {
    && s.now <= r.now
    && forall u :: u in r.q ==> TimerIn(r.timers, u).due >= s.now || (u in s.q && TimerIn(r.timers, u).due == TimerIn(s.timers, u).due)
  }

  lemma FollowsTrans(s: St, m: St, r: St)
    requires Follows(s, m) && Follows(m, r)
    ensures Follows(s, r)
  {
  }

  lemma FollowsSelf(s: St)
    ensures Follows(s, s)
  {
  }

  lemma DoFollows(s: St, a: Act, lag: nat, late: nat)
    requires Inv(s, lag) && Late(s, late)
    ensures Follows(s, Do(s, a)) && Late(Do(s, a), late) && Do(s, a).now == s.now
  {
    hide Sorted, Distinct;
    var r := Do(s, a);
    assert forall v: Tid :: v != a.u ==> TimerIn(r.timers, v) == TimerIn(s.timers, v);
    if a.Start? {
      StartedKeeps(s, a.u, lag);
    } else if r == Removed(s, a.u) {
      QueuedWithout(s, a.u, lag, r.timers);
    }
  }

  lemma AfterKeeps(s: St, e: During, lag: nat, late: nat)
    requires Inv(s, lag) && Late(s, late) && (e.Does? ==> ActOk(e.a, lag)) && (e.Passes? ==> late < lag)
    ensures var r, more := After(s, e), if e.Passes? then 1 else 0;
      Inv(r, lag) && Late(r, late + more) && Follows(s, r) && r.now == s.now + more
  {
    match e {
      case Does(a) =>
        DoKeeps(s, a, lag);
        DoFollows(s, a, lag, late);
      case Passes =>
    }
  }

  lemma {:induction false} AfterAllKeeps(s: St, es: seq<During>, lag: nat, late: nat)
    requires Inv(s, lag) && Late(s, late) && ActsOk(es, lag) && late + TicksIn(es) <= lag
    ensures var r := AfterAll(s, es);
      Inv(r, lag) && Late(r, late + TicksIn(es)) && Follows(s, r) && r.now == s.now + TicksIn(es)
    decreases |es|
  {
    hide Inv, Late, Follows, After;
    if es == [] {
      FollowsSelf(s);
    } else {
      var s1 := After(s, es[0]);
      assert forall i :: 0 <= i < |es[1..]| ==> es[1..][i] == es[i + 1];
      AfterKeeps(s, es[0], lag, late);
      AfterAllKeeps(s1, es[1..], lag, late + if es[0].Passes? then 1 else 0);
      FollowsTrans(s, s1, AfterAll(s1, es[1..]));
    }
  }

  /** The temporary list holds the firing timer or nothing. */
  lemma {:induction false} TempIs(s: St, es: seq<During>, t: Tid)
    requires s.temp == [] || s.temp == [t]
    ensures AfterAll(s, es).temp == [] || AfterAll(s, es).temp == [t]
    decreases |es|
  {
    if es != [] {
      if es[0].Does? { WithoutTemp(s.temp, es[0].a.u); }
      TempIs(After(s, es[0]), es[1..], t);
    }
  }

  lemma BeginKeeps(s: St, lag: nat, late: nat)
    requires Inv(s, lag) && s.q != [] && Late(s, late)
    ensures var b := Begin(s);
      && Inv(b, lag) && Late(b, late) && b.now == s.now && Follows(s, b) && b.temp == [s.q[0]] && b.q == s.q[1..]
      && s.q[0] !in b.q && DueSet(b) == DueSet(s) - {s.q[0]}
      && forall u: Tid :: u != s.q[0] ==> TimerIn(b.timers, u) == TimerIn(s.timers, u)
  {
    var b, t := Begin(s), s.q[0];
    assert forall v: Tid :: v != t ==> TimerIn(b.timers, v) == TimerIn(s.timers, v);
    assert TimerIn(b.timers, t).init == TimerIn(s.timers, t).init;
    QueuedWithout(s, t, lag, b.timers);
  }

  lemma FinishKeeps(m: St, t: Tid, lag: nat, late: nat)
    requires Inv(m, lag) && (m.temp == [] || m.temp == [t]) && Late(m, late)
    ensures var r := Finish(m, t);
      Inv(r, lag) && r.temp == [] && r.now == m.now && Follows(m, r) && Late(r, late)
  {
    if m.temp != [] && Finish(m, t) == Started(m, t) {
      DoFollows(m, Start(t), lag, late);
      StartedKeeps(m, t, lag);
      assert Finish(m, t) == Do(m, Start(t));
    }
    WithoutTemp(m.temp, t);
  }

  lemma FireKeeps(s: St, es: seq<During>, lag: nat, late: nat)
    requires Inv(s, lag) && s.q != [] && Late(s, late) && ActsOk(es, lag) && late + TicksIn(es) <= lag
    ensures var r := Fire(s, es);
      && Inv(r, lag) && r.temp == [] && Late(r, late + TicksIn(es)) && r.now == s.now + TicksIn(es)
      && Follows(Begin(s), r)
  {
    hide Inv, Late, AfterAll, Finish, Begin, Follows;
    var b, t := Begin(s), s.q[0];
    BeginKeeps(s, lag, late);
    var m := AfterAll(b, es);
    AfterAllKeeps(b, es, lag, late);
    TempIs(b, es, t);
    FinishKeeps(m, t, lag, late + TicksIn(es));
    FollowsTrans(b, m, Finish(m, t));
  }

  lemma CourseStep(course: Course, lag: nat)
    requires CourseOk(course, lag)
    ensures ActsOk(First(course), lag) && CourseOk(Others(course), lag)
    ensures TicksInAll(course) == TicksIn(First(course)) + TicksInAll(Others(course))
  {
    if course != [] { assert forall i :: 0 <= i < |course[1..]| ==> course[1..][i] == course[i + 1]; }
  }

  lemma TurnFits(s: St, course: Course, late: nat, lag: nat)
    requires Fit(s, course, late, lag) && !Done(s)
    ensures ActsOk(First(course), lag) && late + TicksIn(First(course)) <= lag
    ensures var r := Fire(s, First(course));
      && Fit(r, Others(course), late + TicksIn(First(course)), lag) && r.temp == []
      && r.now == s.now + TicksIn(First(course)) && Follows(Begin(s), r)
    ensures TicksInAll(course) == TicksIn(First(course)) + TicksInAll(Others(course))
  {
    hide Inv, Late, Fire, Begin, Follows;
    CourseStep(course, lag);
    FireKeeps(s, First(course), lag, late);
  }

  // ---------- When the loop ends ----------

  /** Once nothing more happens during callbacks, every turn leaves fewer timers due. */
  ghost predicate Ends(s: St, course: Course)
    decreases |course|, DueSet(s)
  {
    Done(s)
    || (if course == [] then DueSet(Fire(s, [])) < DueSet(s) && Ends(Fire(s, []), []) else Ends(Fire(s, course[0]), course[1..]))
  }

  /** Timer t, due at due, had its callback called at time at. */
  datatype Shot = Shot(t: Tid, due: nat, at: nat)

  /** The state the loop leaves and the callbacks it called. */
  ghost function Check(s: St, course: Course): (St, seq<Shot>)
    requires Ends(s, course)
    decreases |course|, DueSet(s)
  {
    if Done(s) then (s, [])
    else
      var (r, shots) := Check(Fire(s, First(course)), Others(course));
      (r, [Shot(s.q[0], TimerIn(s.timers, s.q[0]).due, s.now)] + shots)
  }

  lemma NoneDue(s: St, lag: nat)
    requires Inv(s, lag)
    ensures Done(s) <==> DueSet(s) == {}
  {
    if Done(s) {
      forall u | u in s.q ensures TimerIn(s.timers, u).due > s.now {
        var i :| 0 <= i < |s.q| && s.q[i] == u;
        assert DueOf(s.timers)(s.q[0]) <= DueOf(s.timers)(s.q[i]);
      }
    } else {
      assert s.q[0] in DueSet(s);
    }
  }

  predicate Spins(tm: Timer) { tm.periodic && tm.init == 0 }

  /** A turn in which nothing else happens: the head is no longer due unless it is periodic with interval 0. */
  lemma SilentTurn(s: St, lag: nat)
    requires Inv(s, lag) && !Done(s)
    ensures var r, t := Fire(s, []), s.q[0];
      && Inv(r, lag) && r.now == s.now
      && DueSet(r) == DueSet(s) - (if Spins(TimerIn(s.timers, t)) then {} else {t})
      && forall u :: u in DueSet(r) ==> TimerIn(r.timers, u).init == TimerIn(s.timers, u).init && TimerIn(r.timers, u).periodic == TimerIn(s.timers, u).periodic
  {
    hide Sorted, Distinct;
    var b, t := Begin(s), s.q[0];
    assert Late(s, lag);
    BeginKeeps(s, lag, lag);
    assert AfterAll(b, []) == b && t in s.q;
    FinishKeeps(b, t, lag, lag);
    if TimerIn(s.timers, t).periodic {
      StartedKeeps(b, t, lag);
      var r := Started(b, t);
      assert forall v: Tid :: v != t ==> TimerIn(r.timers, v) == TimerIn(b.timers, v);
      StartedMembers(b, t);
    }
  }

  lemma StartedMembers(s: St, u: Tid)
    requires Distinct(s.q)
    ensures forall v :: v in Started(s, u).q <==> v in s.q || v == u
  {
    WithoutMembers(s.q, u);
    InsertMembers(Without(s.q, u), u, Prio, DueOf(Started(s, u).timers));
  }

  /** With no calls from callbacks the loop ends if and only if no due timer is periodic with interval 0. */
  lemma {:induction false} EndsIff(s: St, lag: nat)
    requires Inv(s, lag)
    ensures Ends(s, []) <==> forall u :: u in DueSet(s) ==> !Spins(TimerIn(s.timers, u))
    decreases DueSet(s)
  {
    hide Inv, Fire;
    NoneDue(s, lag);
    if !Done(s) {
      var t := s.q[0];
      assert t in DueSet(s);
      SilentTurn(s, lag);
      if !Spins(TimerIn(s.timers, t)) { EndsIff(Fire(s, []), lag); }
    }
  }

  function SilentTurns(s: St, n: nat): St
    decreases n
  {
    if n == 0 || Done(s) then s else SilentTurns(Fire(s, []), n - 1)
  }

  /** Otherwise it goes on for ever. */
  lemma {:induction false} NeverEnds(s: St, lag: nat, u: Tid, n: nat)
    requires Inv(s, lag) && u in DueSet(s) && Spins(TimerIn(s.timers, u))
    ensures !Done(SilentTurns(s, n))
    decreases n
  {
    hide Inv, Fire;
    NoneDue(s, lag);
    if n > 0 {
      SilentTurn(s, lag);
      NeverEnds(Fire(s, []), lag, u, n - 1);
    }
  }

  /** One periodic timer of interval 0: the turn restores the very same state. */
  lemma ZeroPeriodicSpins()
    ensures var s := St([0], [], map[0 := Timer(0, 7, true, true)], 7); Inv(s, 0) && !Done(s) && Fire(s, []) == s
  {
    var s := St([0], [], map[0 := Timer(0, 7, true, true)], 7);
    assert Begin(s) == St([], [0], s.timers, 7);
    assert Insert([], 0, Prio, DueOf(s.timers)) == [0];
  }

  predicate Takes(a: Act, u: Tid) { (a.Start? || a.Stop? || a.Detach?) && a.u == u }

  ghost predicate TakenBy(es: seq<During>, u: Tid) { exists i :: 0 <= i < |es| && es[i].Does? && Takes(es[i].a, u) }

  /** Someone starts u with interval 0, and nobody takes it afterwards. */
  ghost predicate StartedNow(s: St, es: seq<During>, u: Tid)
    decreases |es|
  {
    && es != []
    && ((es[0] == Does(Start(u)) && TimerIn(s.timers, u).init == 0 && !TakenBy(es[1..], u)) || StartedNow(After(s, es[0]), es[1..], u))
  }

  /** The firing timer will be started again at the end of the turn. */
  predicate Restarts(m: St, t: Tid) { m.temp != [] && TimerIn(m.timers, t).periodic && TimerIn(m.timers, t).active }

  lemma {:induction false} DueAfter(s: St, es: seq<During>, lag: nat, u: Tid)
    requires Inv(s, lag) && ActsOk(es, lag) && TicksIn(es) == 0
    ensures u in DueSet(AfterAll(s, es)) <==> (u in DueSet(s) && !TakenBy(es, u)) || StartedNow(s, es, u)
    decreases |es|
  {
    hide Inv, After;
    if es != [] {
      assert forall i :: 0 <= i < |es[1..]| ==> es[1..][i] == es[i + 1];
      var s1 := After(s, es[0]);
      assert es[0].Does?;
      assert Late(s, lag) by { InvLate(s, lag); }
      AfterKeeps(s, es[0], lag, lag);
      DueAfter(s1, es[1..], lag, u);
      assert TakenBy(es, u) <==> Takes(es[0].a, u) || TakenBy(es[1..], u) by {
        if Takes(es[0].a, u) { assert es[0].Does?; }
        if i :| 0 <= i < |es[1..]| && es[1..][i].Does? && Takes(es[1..][i].a, u) { assert es[i + 1].Does?; }
      }
      DueOne(s, es[0].a, lag, u);
    }
  }

  lemma InvLate(s: St, lag: nat)
    requires Inv(s, lag)
    ensures Late(s, lag)
  {
  }

  lemma DueOne(s: St, a: Act, lag: nat, u: Tid)
    requires Inv(s, lag) && ActOk(a, lag)
    ensures u in DueSet(After(s, Does(a))) <==> (u in DueSet(s) && !Takes(a, u)) || (a == Start(u) && TimerIn(s.timers, u).init == 0)
  {
    hide Sorted;
    var r := Do(s, a);
    assert forall v: Tid :: v != a.u ==> TimerIn(r.timers, v) == TimerIn(s.timers, v);
    if a.Start? {
      StartedMembers(s, a.u);
      assert a.u in r.q && TimerIn(r.timers, a.u).due == s.now + TimerIn(s.timers, a.u).init;
    } else {
      WithoutMembers(s.q, a.u);
      assert TimerIn(r.timers, a.u).due == TimerIn(s.timers, a.u).due;
    }
  }

  /** In this turn u is started with interval 0, by the callback and for good, or by the loop itself. */
  ghost predicate ComesDue(s: St, es: seq<During>, u: Tid)
    requires s.q != []
  {
    var m := AfterAll(Begin(s), es);
    StartedNow(Begin(s), es, u) || (u == s.q[0] && Restarts(m, u) && TimerIn(m.timers, u).init == 0)
  }

  /** Without ticks, a turn leaves nothing due but what was due behind its head, if and only if every timer it
      starts with interval 0 was due behind the head already. */
  lemma TurnShrinksIff(s: St, es: seq<During>, lag: nat)
    requires Inv(s, lag) && !Done(s) && ActsOk(es, lag) && TicksIn(es) == 0
    ensures DueSet(Fire(s, es)) <= DueSet(s) - {s.q[0]} <==> forall u: Tid :: ComesDue(s, es, u) ==> u in DueSet(s) && u != s.q[0]
  {
    hide Inv, Fire, ComesDue, DueSet;
    var t, r := s.q[0], Fire(s, es);
    forall u: Tid ensures u in DueSet(r) ==> (u in DueSet(s) && u != t) || ComesDue(s, es, u) { TurnDueIff(s, es, lag, u); }
    forall u: Tid | ComesDue(s, es, u) ensures u in DueSet(r) { TurnDueIff(s, es, lag, u); }
  }

  lemma TurnDueIff(s: St, es: seq<During>, lag: nat, u: Tid)
    requires Inv(s, lag) && !Done(s) && ActsOk(es, lag) && TicksIn(es) == 0
    ensures u in DueSet(Fire(s, es)) <==> (u in DueSet(s) && u != s.q[0] && !TakenBy(es, u)) || ComesDue(s, es, u)
  {
    hide Inv, AfterAll, StartedNow, TakenBy, DueSet;
    var b, t := Begin(s), s.q[0];
    var m := AfterAll(b, es);
    InvLate(s, lag);
    BeginKeeps(s, lag, lag);
    TempIs(b, es, t);
    AfterAllInv(b, es, lag);
    FinishDue(m, t, lag);
    DueAfter(b, es, lag, u);
  }

  lemma AfterAllInv(s: St, es: seq<During>, lag: nat)
    requires Inv(s, lag) && ActsOk(es, lag) && TicksIn(es) == 0
    ensures Inv(AfterAll(s, es), lag)
  {
    InvLate(s, lag);
    AfterAllKeeps(s, es, lag, lag);
  }

  lemma FinishDue(m: St, t: Tid, lag: nat)
    requires Inv(m, lag) && (m.temp == [] || m.temp == [t])
    ensures DueSet(Finish(m, t)) == DueSet(m) + if Restarts(m, t) && TimerIn(m.timers, t).init == 0 then {t} else {}
  {
    hide Sorted;
    if Restarts(m, t) {
      assert t !in m.q;
      StartedMembers(m, t);
    }
  }

  // ---------- In deadline order and never early ----------

  ghost predicate NotBefore(s: St, low: nat) { forall u :: u in s.q ==> low <= TimerIn(s.timers, u).due }

  ghost predicate InOrder(shots: seq<Shot>, low: nat, from: nat, until: nat) {
    && (forall i :: 0 <= i < |shots| ==> low <= shots[i].due <= shots[i].at && from <= shots[i].at <= until)
    && (forall i, j :: 0 <= i < j < |shots| ==> shots[i].due <= shots[j].due && shots[i].at <= shots[j].at)
  }

  lemma HeadFirst(s: St, r: St, lag: nat, late: nat)
    requires Inv(s, lag) && Late(s, late) && !Done(s) && Follows(Begin(s), r)
    ensures NotBefore(s, TimerIn(s.timers, s.q[0]).due) && NotBefore(r, TimerIn(s.timers, s.q[0]).due)
  {
    BeginKeeps(s, lag, late);
    hide Begin;
    forall u | u in s.q ensures TimerIn(s.timers, s.q[0]).due <= TimerIn(s.timers, u).due {
      var i :| 0 <= i < |s.q| && s.q[i] == u;
      assert DueOf(s.timers)(s.q[0]) <= DueOf(s.timers)(s.q[i]);
    }
  }

  lemma OneMore(shot: Shot, shots: seq<Shot>, low: nat, later: nat, until: nat)
    requires low <= shot.due <= shot.at <= later && InOrder(shots, shot.due, later, until) && later <= until
    ensures InOrder([shot] + shots, low, shot.at, until)
  {
    var all := [shot] + shots;
    assert forall i :: 0 < i < |all| ==> all[i] == shots[i - 1];
  }

  /** The loop ends with nothing due at the time it ends, having called no callback early, and all of them
      in deadline order, whatever the callbacks do and however many ticks they take. */
  lemma {:induction false} CheckInOrder(s: St, course: Course, late: nat, lag: nat, low: nat)
    requires Ends(s, course) && Fit(s, course, late, lag) && NotBefore(s, low)
    ensures var (r, shots) := Check(s, course);
      && Inv(r, lag) && DueSet(r) == {} && (s.temp == [] ==> r.temp == [])
      && s.now <= r.now <= s.now + TicksInAll(course) && InOrder(shots, low, s.now, r.now)
    decreases |course|, DueSet(s)
  {
    hide Inv, Late, Fire, Begin, Follows, CourseOk, NotBefore, InOrder;
    NoneDue(s, lag);
    if Done(s) {
      NoShots(low, s.now);
    } else {
      var due, r := TimerIn(s.timers, s.q[0]).due, Fire(s, First(course));
      TurnFits(s, course, late, lag);
      HeadFirst(s, r, lag, late);
      LowHead(s, low);
      CheckInOrder(r, Others(course), late + TicksIn(First(course)), lag, due);
      var (r1, shots) := Check(r, Others(course));
      OneMore(Shot(s.q[0], due, s.now), shots, low, r.now, r1.now);
    }
  }

  lemma NoShots(low: nat, now: nat)
    ensures InOrder([], low, now, now)
  {
  }

  lemma LowHead(s: St, low: nat)
    requires s.q != [] && NotBefore(s, low)
    ensures low <= TimerIn(s.timers, s.q[0]).due
  {
    assert s.q[0] in s.q;
  }

  // ---------- Each once, in the order of the list ----------

  ghost predicate AheadAll(s: St, es: seq<During>)
    decreases |es|
  {
    es == [] || (es[0].Does? && Ahead(s, es[0].a) && AheadAll(After(s, es[0]), es[1..]))
  }

  /** Nothing is started that is due at once, and no tick passes. */
  ghost predicate TurnAhead(s: St, es: seq<During>)
    requires s.q != []
  {
    var b, t := Begin(s), s.q[0];
    AheadAll(b, es) && (Restarts(AfterAll(b, es), t) ==> TimerIn(AfterAll(b, es).timers, t).init >= 1)
  }

  ghost predicate CourseAhead(s: St, course: Course)
    requires Ends(s, course)
    decreases |course|, DueSet(s)
  {
    Done(s) || (TurnAhead(s, First(course)) && CourseAhead(Fire(s, First(course)), Others(course)))
  }

  lemma {:induction false} AheadDue(s: St, es: seq<During>, lag: nat, d: set<Tid>)
    requires Inv(s, lag) && ActsOk(es, lag) && AheadAll(s, es) && d <= DueSet(AfterAll(s, es))
    ensures var r := AfterAll(s, es); Inv(r, lag) && r.now == s.now && DueSet(r) <= DueSet(s) && Keep(r.q, d) == Keep(s.q, d)
    decreases |es|
  {
    hide Inv, Do, DueSet, Keep;
    if es != [] {
      assert forall i :: 0 <= i < |es[1..]| ==> es[1..][i] == es[i + 1];
      var s1 := Do(s, es[0].a);
      DoKeeps(s, es[0].a, lag);
      AheadDue(s1, es[1..], lag, d);
      DoDue(s, es[0].a, lag, d);
    }
  }

  lemma TurnDue(s: St, es: seq<During>, lag: nat, d: set<Tid>)
    requires Inv(s, lag) && s.q != [] && ActsOk(es, lag) && TurnAhead(s, es) && d <= DueSet(Fire(s, es))
    ensures var r := Fire(s, es); r.now == s.now && DueSet(r) <= DueSet(s) - {s.q[0]} && Keep(r.q, d) == Keep(s.q[1..], d)
  {
    hide Inv, AfterAll, AheadAll, DueSet, Keep, Begin;
    var b, t := Begin(s), s.q[0];
    InvLate(s, lag);
    BeginKeeps(s, lag, lag);
    var m := AfterAll(b, es);
    TempIs(b, es, t);
    AheadDue(b, es, lag, {});
    FinishDue(m, t, lag);
    if Restarts(m, t) { DoDue(m, Start(t), lag, d); }
    AheadDue(b, es, lag, d);
  }

  ghost function Members(q: seq<Tid>): set<Tid> { set u | u in q }

  function Tids(shots: seq<Shot>): seq<Tid> { if shots == [] then [] else [shots[0].t] + Tids(shots[1..]) }

  lemma KeepFirst(q: seq<Tid>, a: set<Tid>)
    requires Distinct(q) && q != []
    ensures Keep(q, a + {q[0]}) == [q[0]] + Keep(q[1..], a)
  {
    KeepAlso(q[1..], a, q[0]);
  }

  lemma {:induction false} KeepAlso(q: seq<Tid>, a: set<Tid>, u: Tid)
    requires u !in q
    ensures Keep(q, a + {u}) == Keep(q, a)
  {
    if q != [] { KeepAlso(q[1..], a, u); }
  }

  lemma {:induction false} KeepNothing(q: seq<Tid>)
    ensures Keep(q, {}) == []
  {
    if q != [] { KeepNothing(q[1..]); }
  }

  lemma QueueDistinct(s: St, lag: nat)
    requires Inv(s, lag)
    ensures Distinct(s.q)
  {
  }

  /** As long as nothing is started that is due at once, the loop calls only callbacks of timers that were
      running and due, each at most once, in the order of the list: deadline order, first started first. */
  lemma {:induction false} CheckFires(s: St, course: Course, lag: nat)
    requires Ends(s, course) && Inv(s, lag) && CourseOk(course, lag) && CourseAhead(s, course)
    ensures var (r, shots) := Check(s, course);
      r.now == s.now && Members(Tids(shots)) <= DueSet(s) && Tids(shots) == Keep(s.q, Members(Tids(shots)))
    decreases |course|, DueSet(s)
  {
    hide Inv, Fire, Keep, TurnAhead;
    if Done(s) {
      KeepNothing(s.q);
      assert Members([]) == {};
    } else {
      var s1 := Fire(s, First(course));
      CourseStep(course, lag);
      InvLate(s, lag);
      AheadTicks(s, First(course));
      FireKeeps(s, First(course), lag, lag);
      CheckFires(s1, Others(course), lag);
      var shots := Check(s1, Others(course)).1;
      var fired, all := Tids(shots), [Shot(s.q[0], TimerIn(s.timers, s.q[0]).due, s.now)] + shots;
      assert all[1..] == shots;
      TurnDue(s, First(course), lag, Members(fired));
      assert Members([s.q[0]] + fired) == Members(fired) + {s.q[0]};
      QueueDistinct(s, lag);
      KeepFirst(s.q, Members(fired));
    }
  }

  lemma AheadTicks(s: St, es: seq<During>)
    requires s.q != [] && TurnAhead(s, es)
    ensures TicksIn(es) == 0
  {
    NoTicks(Begin(s), es);
  }

  lemma {:induction false} NoTicks(s: St, es: seq<During>)
    requires AheadAll(s, es)
    ensures TicksIn(es) == 0
    decreases |es|
  {
    if es != [] { NoTicks(After(s, es[0]), es[1..]); }
  }

  // ---------- None is missed ----------

  ghost predicate Avoids(es: seq<During>, u: Tid) { forall i :: 0 <= i < |es| && es[i].Does? ==> es[i].a.u != u }

  lemma DoLeaves(s: St, a: Act, u: Tid, lag: nat)
    requires Inv(s, lag) && u in s.q && !Takes(a, u)
    ensures u in Do(s, a).q && TimerIn(Do(s, a).timers, u).due == TimerIn(s.timers, u).due
  {
    if a.Start? || a.Stop? || a.Detach? {
      WithoutMembers(s.q, a.u);
      if a.Start? { InsertMembers(Without(s.q, a.u), a.u, Prio, DueOf(Started(s, a.u).timers)); }
    }
  }

  /** A timer nobody touches keeps its place and its deadline. */
  lemma {:induction false} AfterAllLeaves(s: St, es: seq<During>, u: Tid, lag: nat, late: nat)
    requires Inv(s, lag) && Late(s, late) && ActsOk(es, lag) && late + TicksIn(es) <= lag && Avoids(es, u) && u in s.q
    ensures var r := AfterAll(s, es); u in r.q && TimerIn(r.timers, u) == TimerIn(s.timers, u)
    decreases |es|
  {
    hide Inv, Late, Follows;
    if es != [] {
      assert forall i :: 0 <= i < |es[1..]| ==> es[1..][i] == es[i + 1];
      AfterKeeps(s, es[0], lag, late);
      if es[0].Does? { DoLeaves(s, es[0].a, u, lag); }
      AfterAllLeaves(After(s, es[0]), es[1..], u, lag, late + if es[0].Passes? then 1 else 0);
    }
  }

  lemma FireLeaves(s: St, es: seq<During>, u: Tid, lag: nat, late: nat)
    requires Inv(s, lag) && Late(s, late) && ActsOk(es, lag) && late + TicksIn(es) <= lag && Avoids(es, u)
    requires u in s.q && s.q[0] != u
    ensures var r := Fire(s, es); u in r.q && TimerIn(r.timers, u) == TimerIn(s.timers, u)
  {
    hide Inv, Late, AfterAll, Follows;
    var b, t := Begin(s), s.q[0];
    BeginKeeps(s, lag, late);
    AfterAllLeaves(b, es, u, lag, late);
    AfterAllKeeps(b, es, lag, late);
    TempIs(b, es, t);
    var m := AfterAll(b, es);
    if Finish(m, t) == Started(m, t) { DoLeaves(m, Start(t), u, lag); }
  }

  ghost predicate AllAvoid(course: Course, u: Tid) { forall i :: 0 <= i < |course| ==> Avoids(course[i], u) }

  lemma AvoidStep(course: Course, u: Tid)
    requires AllAvoid(course, u)
    ensures Avoids(First(course), u) && AllAvoid(Others(course), u)
  {
    if course != [] { assert forall i :: 0 <= i < |course[1..]| ==> course[1..][i] == course[i + 1]; }
  }

  /** A timer that is due when the check begins is called, with the deadline it has, unless somebody touches it. */
  lemma {:induction false} CheckMissesNone(s: St, course: Course, late: nat, lag: nat, u: Tid)
    requires Ends(s, course) && Fit(s, course, late, lag) && u in DueSet(s) && AllAvoid(course, u)
    ensures exists shot :: shot in Check(s, course).1 && shot.t == u && shot.due == TimerIn(s.timers, u).due
    decreases |course|, DueSet(s)
  {
    hide Inv, Late, Fire, Begin, Follows, ActsOk, Avoids, AllAvoid;
    NoneDue(s, lag);
    var shots := Check(s, course).1;
    if s.q[0] == u {
      assert shots[0].t == u;
    } else {
      var r := Fire(s, First(course));
      TurnFits(s, course, late, lag);
      AvoidStep(course, u);
      FireLeaves(s, First(course), u, lag, late);
      CheckMissesNone(r, Others(course), late + TicksIn(First(course)), lag, u);
      var more := Check(r, Others(course)).1;
      var shot :| shot in more && shot.t == u && shot.due == TimerIn(s.timers, u).due;
      assert shot in [shots[0]] + more;
    }
  }

  /** A timer that does not become due sits through a check. */
  lemma {:induction false} CheckLeaves(s: St, course: Course, late: nat, lag: nat, u: Tid)
    requires Ends(s, course) && Fit(s, course, late, lag) && u in s.q && AllAvoid(course, u)
    requires TimerIn(s.timers, u).due > s.now + TicksInAll(course)
    ensures var (r, shots) := Check(s, course);
      u in r.q && TimerIn(r.timers, u) == TimerIn(s.timers, u) && forall shot :: shot in shots ==> shot.t != u
    decreases |course|, DueSet(s)
  {
    hide Inv, Late, Fire, Begin, Follows, ActsOk, Avoids, AllAvoid;
    if !Done(s) {
      var r := Fire(s, First(course));
      TurnFits(s, course, late, lag);
      AvoidStep(course, u);
      FireLeaves(s, First(course), u, lag, late);
      CheckLeaves(r, Others(course), late + TicksIn(First(course)), lag, u);
    }
  }

  // ---------- The active flag ----------

  /** A timer is flagged active exactly when it runs (or its callback is running). */
  ghost predicate FlagsAgree(s: St) {
    forall u: Tid {:trigger TimerIn(s.timers, u)} :: TimerIn(s.timers, u).active ==> u in s.q || u in s.temp
  }

  lemma DoFlags(s: St, a: Act, lag: nat)
    requires Inv(s, lag) && FlagsAgree(s)
    ensures FlagsAgree(Do(s, a))
  {
    var r := Do(s, a);
    assert forall v: Tid :: v != a.u ==> TimerIn(r.timers, v) == TimerIn(s.timers, v);
    WithoutMembers(s.q, a.u);
    WithoutTemp(s.temp, a.u);
    if a.Start? { InsertMembers(Without(s.q, a.u), a.u, Prio, DueOf(r.timers)); }
  }

  lemma LaterFlags(s: St)
    requires FlagsAgree(s)
    ensures FlagsAgree(s.(now := s.now + 1))
  {
    assert forall u: Tid :: TimerIn(s.(now := s.now + 1).timers, u) == TimerIn(s.timers, u);
  }

  /** Clearing up after a callback leaves the flags right if and only if the callback did not leave
      its own timer active but no longer periodic. */
  lemma FinishFlagsIff(s: St, t: Tid, lag: nat)
    requires Inv(s, lag) && FlagsAgree(s) && (s.temp == [] || s.temp == [t])
    ensures FlagsAgree(Finish(s, t)) <==> !(s.temp == [t] && TimerIn(s.timers, t).active && !TimerIn(s.timers, t).periodic)
  {
    var r := Finish(s, t);
    WithoutTemp(s.temp, t);
    if s.temp == [t] {
      if r == Started(s, t) { DoFlags(s, Start(t), lag); } else {
        assert t !in s.q && r.timers == s.timers;
        assert TimerIn(r.timers, t).active ==> !FlagsAgree(r);
      }
    }
  }

  predicate Calm(es: seq<During>) { forall i :: 0 <= i < |es| && es[i].Does? ==> !es[i].a.SetOneshot? }

  /** The timer whose callback runs does not become an active one-shot. */
  lemma CalmTemp(s: St, a: Act, t: Tid)
    requires !a.SetOneshot? && (s.temp == [] || (s.temp == [t] && (TimerIn(s.timers, t).active ==> TimerIn(s.timers, t).periodic)))
    ensures var r := Do(s, a); r.temp == [] || (r.temp == [t] && (TimerIn(r.timers, t).active ==> TimerIn(r.timers, t).periodic))
  {
    WithoutTemp(s.temp, a.u);
  }

  lemma {:induction false} CalmFlags(s: St, es: seq<During>, t: Tid, lag: nat, late: nat)
    requires Inv(s, lag) && Late(s, late) && ActsOk(es, lag) && late + TicksIn(es) <= lag && FlagsAgree(s) && Calm(es)
    requires s.temp == [] || (s.temp == [t] && (TimerIn(s.timers, t).active ==> TimerIn(s.timers, t).periodic))
    ensures var r := AfterAll(s, es);
      && FlagsAgree(r)
      && (r.temp == [] || (r.temp == [t] && (TimerIn(r.timers, t).active ==> TimerIn(r.timers, t).periodic)))
    decreases |es|
  {
    hide Inv, FlagsAgree, Late, Follows, Do;
    if es != [] {
      assert forall i :: 0 <= i < |es[1..]| ==> es[1..][i] == es[i + 1];
      AfterKeeps(s, es[0], lag, late);
      match es[0] {
        case Does(a) =>
          DoFlags(s, a, lag);
          CalmTemp(s, a, t);
        case Passes => LaterFlags(s);
      }
      CalmFlags(After(s, es[0]), es[1..], t, lag, late + if es[0].Passes? then 1 else 0);
    }
  }

  ghost predicate AllCalm(course: Course) { forall i :: 0 <= i < |course| ==> Calm(course[i]) }

  lemma CalmStep(course: Course)
    requires AllCalm(course)
    ensures Calm(First(course)) && AllCalm(Others(course))
  {
    if course != [] { assert forall i :: 0 <= i < |course[1..]| ==> course[1..][i] == course[i + 1]; }
  }

  /** So if no timer is turned into a one-shot meanwhile, every check leaves the flags right, even when
      callbacks stop or restart their own timer. */
  lemma {:induction false} CheckFlags(s: St, course: Course, late: nat, lag: nat)
    requires Ends(s, course) && Fit(s, course, late, lag) && FlagsAgree(s) && s.temp == [] && AllCalm(course)
    ensures FlagsAgree(Check(s, course).0)
    decreases |course|, DueSet(s)
  {
    hide FlagsAgree, Inv, Late, Fire, Begin, Follows, ActsOk, Calm, AllCalm;
    if !Done(s) {
      TurnFits(s, course, late, lag);
      CalmStep(course);
      FireFlags(s, First(course), lag, late);
      CheckFlags(Fire(s, First(course)), Others(course), late + TicksIn(First(course)), lag);
    }
  }

  lemma FireFlags(s: St, es: seq<During>, lag: nat, late: nat)
    requires Inv(s, lag) && s.q != [] && Late(s, late) && ActsOk(es, lag) && late + TicksIn(es) <= lag
    requires FlagsAgree(s) && s.temp == [] && Calm(es)
    ensures FlagsAgree(Fire(s, es))
  {
    hide FlagsAgree, Inv, Late, AfterAll, Finish, Begin, Follows;
    var b, t := Begin(s), s.q[0];
    BeginKeeps(s, lag, late);
    BeginFlags(s, lag);
    CalmFlags(b, es, t, lag, late);
    AfterAllKeeps(b, es, lag, late);
    FinishFlagsIff(AfterAll(b, es), t, lag);
  }

  lemma BeginFlags(s: St, lag: nat)
    requires Inv(s, lag) && s.q != [] && s.temp == [] && FlagsAgree(s)
    ensures var b, t := Begin(s), s.q[0]; FlagsAgree(b) && (TimerIn(b.timers, t).active ==> TimerIn(b.timers, t).periodic)
  {
    var t, b := s.q[0], Begin(s);
    assert forall v: Tid :: v != t ==> TimerIn(b.timers, v) == TimerIn(s.timers, v);
    WithoutMembers(s.q, t);
  }

  /** A periodic timer whose callback makes it a one-shot ends flagged active although it is gone. */
  lemma OneshotLeavesFlag() returns (s: St, es: seq<During>)
    ensures Inv(s, 0) && FlagsAgree(s) && s.temp == [] && s.q == [0] && ActsOk(es, 0)
    ensures var r := Fire(s, es); r.q == [] && r.temp == [] && TimerIn(r.timers, 0).active
  {
    s, es := St([0], [], map[0 := Timer(5, 7, true, true)], 7), [Does(SetOneshot(0))];
    var b := Begin(s);
    assert b == St([], [0], map[0 := Timer(5, 7, true, true)], 7);
    assert es[1..] == [];
    var m := After(b, es[0]);
    assert m == St([], [0], map[0 := Timer(5, 7, false, true)], 7);
    assert AfterAll(b, es) == AfterAll(m, []) == m;
  }

  /** A periodic timer that fires and is left alone runs again, init ticks from now. */
  lemma FireRestarts(s: St, es: seq<During>, lag: nat, late: nat)
    requires Inv(s, lag) && s.q != [] && Late(s, late) && ActsOk(es, lag) && late + TicksIn(es) <= lag && Avoids(es, s.q[0])
    requires TimerIn(s.timers, s.q[0]).periodic
    ensures var r, t := Fire(s, es), s.q[0];
      t in r.q && TimerIn(r.timers, t) == TimerIn(s.timers, t).(due := r.now + TimerIn(s.timers, t).init)
  {
    hide AfterAll, Late, Sorted, Distinct;
    var b, t := Begin(s), s.q[0];
    assert t in s.q;
    BeginKeeps(s, lag, late);
    AvoidsKeeps(b, es, t);
    AfterAllKeeps(b, es, lag, late);
    TempIs(b, es, t);
    StartedKeeps(AfterAll(b, es), t, lag);
  }

  /** A one-shot timer that fires and is left alone is over: out of the list and not active. */
  lemma FireEnds(s: St, es: seq<During>, lag: nat, late: nat)
    requires Inv(s, lag) && s.q != [] && Late(s, late) && ActsOk(es, lag) && late + TicksIn(es) <= lag && Avoids(es, s.q[0])
    requires !TimerIn(s.timers, s.q[0]).periodic
    ensures var r, t := Fire(s, es), s.q[0];
      t !in r.q && TimerIn(r.timers, t) == TimerIn(s.timers, t).(active := false)
  {
    hide AfterAll, Late, Sorted, Distinct;
    var b, t := Begin(s), s.q[0];
    assert t in s.q;
    BeginKeeps(s, lag, late);
    AvoidsKeeps(b, es, t);
    AfterAllKeeps(b, es, lag, late);
    TempIs(b, es, t);
  }

  lemma {:induction false} AvoidsKeeps(s: St, es: seq<During>, u: Tid)
    requires Avoids(es, u)
    ensures TimerIn(AfterAll(s, es).timers, u) == TimerIn(s.timers, u)
    ensures u in s.temp ==> u in AfterAll(s, es).temp
    decreases |es|
  {
    if es != [] {
      assert forall i :: 0 <= i < |es[1..]| ==> es[1..][i] == es[i + 1];
      if u in s.temp && es[0].Does? { StaysIn(s.temp, es[0].a.u, u); }
      AvoidsKeeps(After(s, es[0]), es[1..], u);
    }
  }

  lemma {:induction false} StaysIn(list: seq<Tid>, t: Tid, u: Tid)
    requires u in list && u != t
    ensures u in Without(list, t)
  {
    if list[0] != t && list[0] != u { StaysIn(list[1..], t, u); }
    else if list[0] == t { assert u in list[1..]; }
  }
}
