/** Whole runs of ticks and timer calls over the hard timers: a started timer fires at exactly its tick. */
module TimerTicks {
  import opened WaitList
  import opened TimerModel
  import opened TimerRuns

  /** Between two ticks threads make calls; a tick advances the time and checks the timers. */
  datatype Event = Call(a: Act) | Tick(course: Course)

  /** The state between two ticks: nothing is overdue, though a timer started with interval 0 is due. */
  ghost predicate Between(s: St) { Inv(s, 0) && s.temp == [] }

  function Later(s: St): St { s.(now := s.now + 1) }

  /** No tick passes inside the tick interrupt, and its loop ends. */
  ghost predicate EventOk(s: St, e: Event) {
    match e
    case Call(a) => ActOk(a, 0)
    case Tick(course) => CourseOk(course, 1) && TicksInAll(course) == 0 && Ends(Later(s), course)
  }

  ghost function Step(s: St, e: Event): (St, seq<Shot>)
    requires EventOk(s, e)
  {
    match e
    case Call(a) => (Do(s, a), [])
    case Tick(course) => Check(Later(s), course)
  }

  lemma TickFits(s: St, course: Course)
    requires Between(s) && EventOk(s, Tick(course))
    ensures Fit(Later(s), course, 1, 1)
  {
  }

  lemma StepKeeps(s: St, e: Event)
    requires Between(s) && EventOk(s, e)
    ensures Between(Step(s, e).0) && Step(s, e).0.now == s.now + if e.Tick? then 1 else 0
  {
    match e {
      case Call(a) =>
        DoKeeps(s, a, 0);
        WithoutTemp(s.temp, a.u);
      case Tick(course) =>
        TickFits(s, course);
        CheckInOrder(Later(s), course, 1, 1, 0);
        NothingOverdue(Check(Later(s), course).0);
    }
  }

  lemma NothingOverdue(s: St)
    requires Inv(s, 1) && DueSet(s) == {}
    ensures Inv(s, 0)
  {
    forall u | u in s.q ensures TimerIn(s.timers, u).due > s.now { assert u !in DueSet(s); }
  }

  ghost predicate Legal(s: St, es: seq<Event>)
    decreases |es|
  {
    es == [] || (EventOk(s, es[0]) && Legal(Step(s, es[0]).0, es[1..]))
  }

  /** The event does nothing to timer u. */
  ghost predicate Ignores(e: Event, u: Tid) { if e.Call? then e.a.u != u else AllAvoid(e.course, u) }

  function Ticks(es: seq<Event>): nat {
    if es == [] then 0 else (if es[0].Tick? then 1 else 0) + Ticks(es[1..])
  }

  predicate Called(shots: seq<Shot>, u: Tid) { u in Tids(shots) }

  lemma {:induction false} ShotCalled(shots: seq<Shot>, u: Tid)
    ensures Called(shots, u) <==> exists shot :: shot in shots && shot.t == u
  {
    if shots != [] {
      ShotCalled(shots[1..], u);
      assert forall shot :: shot in shots <==> shot == shots[0] || shot in shots[1..];
    }
  }

  /** The number of ticks up to the first one at which u's callback runs; 0 if it never runs. */
  ghost function FiredAt(s: St, es: seq<Event>, u: Tid): nat
    requires Legal(s, es)
    decreases |es|
  {
    if es == [] then 0
    else
      var (r, shots) := Step(s, es[0]);
      if Called(shots, u) then 1
      else
        var n := FiredAt(r, es[1..], u);
        if n == 0 then 0 else n + if es[0].Tick? then 1 else 0
  }

  /** One event: a timer due by the next tick fires in it; any other keeps running. */
  lemma StepOn(s: St, e: Event, u: Tid)
    requires Between(s) && EventOk(s, e) && u in s.q && Ignores(e, u)
    ensures var (r, shots) := Step(s, e);
      if e.Tick? && TimerIn(s.timers, u).due <= s.now + 1 then Called(shots, u)
      else !Called(shots, u) && u in r.q && TimerIn(r.timers, u) == TimerIn(s.timers, u)
  {
    hide Check, AllAvoid, Avoids;
    ShotCalled(Step(s, e).1, u);
    match e {
      case Call(a) => DoLeaves(s, a, u, 0);
      case Tick(course) =>
        TickFits(s, course);
        if TimerIn(s.timers, u).due <= s.now + 1 {
          assert u in DueSet(Later(s));
          CheckMissesNone(Later(s), course, 1, 1, u);
        } else {
          CheckLeaves(Later(s), course, 1, 1, u);
        }
    }
  }

  /** Left alone, a running timer fires at exactly the tick it is due, or at the next tick if it is due at once,
      whatever every other thread and callback does. */
  lemma {:induction false} FiresOnTime(s: St, es: seq<Event>, u: Tid)
    requires Between(s) && Legal(s, es) && u in s.q && forall i :: 0 <= i < |es| ==> Ignores(es[i], u)
    requires s.now + Ticks(es) >= TimerIn(s.timers, u).due && Ticks(es) >= 1
    ensures FiredAt(s, es, u) == if TimerIn(s.timers, u).due > s.now then TimerIn(s.timers, u).due - s.now else 1
    decreases |es|
  {
    hide Ignores, EventOk, Inv, Step;
    StepKeeps(s, es[0]);
    StepOn(s, es[0], u);
    var (r, shots) := Step(s, es[0]);
    if !Called(shots, u) {
      assert forall i :: 0 <= i < |es[1..]| ==> es[1..][i] == es[i + 1];
      AtLeastNow(s, u);
      FiresOnTime(r, es[1..], u);
    } else {
      AtLeastNow(s, u);
      assert es[0].Tick? by { CallsNobody(s, es[0], u); }
    }
  }

  lemma AtLeastNow(s: St, u: Tid)
    requires Between(s) && u in s.q
    ensures s.now <= TimerIn(s.timers, u).due
  {
  }

  lemma CallsNobody(s: St, e: Event, u: Tid)
    requires EventOk(s, e) && Called(Step(s, e).1, u)
    ensures e.Tick?
  {
  }
}
