/** The semaphore of rt-thread/src/ipc.c:326-520.  takes and releases count since the last reset; a
    waiter that is woken by a release counts as having taken. */
module SemModel {
  import opened WaitList

  datatype State = State(value: nat, wait: seq<Tid>, takes: nat, releases: nat)

  datatype Outcome = Done | Refused | Asleep | Overflow

  function Taken(s: State, t: Tid, mayWait: bool, flag: Flag, prio: Tid -> nat): (State, Outcome) {
    if s.value > 0 then (s.(value := s.value - 1, takes := s.takes + 1), Done)
    else if !mayWait then (s, Refused)
    else (s.(wait := Insert(s.wait, t, flag, prio)), Asleep)
  }

  function Released(s: State): (State, Outcome) {
    if s.wait != [] then (s.(wait := s.wait[1..], takes := s.takes + 1, releases := s.releases + 1), Done)
    else if s.value < 0xFFFF then (s.(value := s.value + 1, releases := s.releases + 1), Done)
    else (s, Overflow)
  }

  datatype Event = Take(t: Tid, mayWait: bool) | Release | Timeout(t: Tid)

  function Next(s: State, e: Event, flag: Flag, prio: Tid -> nat): State {
    match e
    case Take(t, mayWait) => Taken(s, t, mayWait, flag, prio).0
    case Release => Released(s).0
    case Timeout(t) => s.(wait := Without(s.wait, t))
  }

  function Run(s: State, es: seq<Event>, flag: Flag, prio: Tid -> nat): State
    decreases |es|
  {
    if es == [] then s else Run(Next(s, es[0], flag, prio), es[1..], flag, prio)
  }

  /** Nobody waits while the value is positive, the value fits its 16 bits, and no unit appears or is lost:
      the initial value and all successful releases are what is left and what was taken. */
  ghost predicate Balanced(s: State, initial: nat) {
    && (s.value > 0 ==> s.wait == [])
    && s.value <= 0xFFFF
    && initial + s.releases == s.value + s.takes
  }

  lemma {:induction false} RunKeeps(s: State, es: seq<Event>, flag: Flag, prio: Tid -> nat, initial: nat)
    requires Balanced(s, initial)
    ensures Balanced(Run(s, es, flag, prio), initial)
    decreases |es|
  {
    if es != [] {
      RunKeeps(Next(s, es[0], flag, prio), es[1..], flag, prio, initial);
    }
  }

  /** A release is refused exactly when 65535 units are already there. */
  lemma OverflowIff(s: State, initial: nat)
    requires Balanced(s, initial)
    ensures Released(s).1 == Overflow <==> initial + s.releases - s.takes == 0xFFFF
  {
  }

  /** A take gets a unit if there is one; else it waits behind all others of a FIFO list, behind all no less urgent
      ones of a priority list, or is refused, as the caller asked. */
  lemma TakenIs(s: State, t: Tid, mayWait: bool, flag: Flag, prio: Tid -> nat)
    ensures var (r, out) := Taken(s, t, mayWait, flag, prio);
      && (s.value > 0 ==> out == Done && r == s.(value := s.value - 1, takes := s.takes + 1))
      && (s.value == 0 && !mayWait ==> out == Refused && r == s)
      && (s.value == 0 && mayWait ==> out == Asleep && r.value == 0 && r.takes == s.takes && r.releases == s.releases)
      && (s.value == 0 && mayWait ==> Joins(s.wait, r.wait, t, flag, prio))
  {
    InsertJoins(s.wait, t, flag, prio);
    hide Insert, Joins;
  }

  /** Who waits, and who gets a unit from a release, over a run. */
  function Joined(s: State, es: seq<Event>, flag: Flag, prio: Tid -> nat): seq<Tid>
    decreases |es|
  {
    if es == [] then []
    else
      var rest := Joined(Next(s, es[0], flag, prio), es[1..], flag, prio);
      if es[0].Take? && s.value == 0 && es[0].mayWait then [es[0].t] + rest else rest
  }

  function Served(s: State, es: seq<Event>, flag: Flag, prio: Tid -> nat): seq<Tid>
    decreases |es|
  {
    if es == [] then []
    else
      var rest := Served(Next(s, es[0], flag, prio), es[1..], flag, prio);
      if es[0].Release? && s.wait != [] then [s.wait[0]] + rest else rest
  }

  /** With a FIFO list and no timeouts, units go to the waiters in the order in which they came. */
  lemma {:induction false} ServedInOrder(s: State, es: seq<Event>, prio: Tid -> nat)
    requires forall i :: 0 <= i < |es| ==> !es[i].Timeout?
    ensures s.wait + Joined(s, es, Fifo, prio) == Served(s, es, Fifo, prio) + Run(s, es, Fifo, prio).wait
    decreases |es|
  {
    hide Insert;
    if es == [] {
      assert s.wait + [] == [] + s.wait;
    } else {
      var e, r := es[0], Next(s, es[0], Fifo, prio);
      assert forall i :: 0 <= i < |es[1..]| ==> es[1..][i] == es[i + 1];
      ServedInOrder(r, es[1..], prio);
      var j, d, w := Joined(r, es[1..], Fifo, prio), Served(r, es[1..], Fifo, prio), Run(r, es[1..], Fifo, prio).wait;
      if e.Take? && s.value == 0 && e.mayWait {
        InsertLast(s.wait, e.t, prio);
        assert s.wait + ([e.t] + j) == r.wait + j;
      } else if e.Release? && s.wait != [] {
        assert s.wait + j == [s.wait[0]] + (r.wait + j);
        assert [s.wait[0]] + (d + w) == [s.wait[0]] + d + w;
      }
    }
  }

  /** A release gives its unit to the first waiter, or adds it to the value. */
  lemma ReleasedIs(s: State)
    ensures var (r, out) := Released(s);
      && (s.wait != [] ==> out == Done && r.wait == s.wait[1..] && r.value == s.value)
      && (s.wait == [] && s.value < 0xFFFF ==> out == Done && r.wait == [] && r.value == s.value + 1)
      && (s.wait == [] && s.value >= 0xFFFF ==> out == Overflow && r == s)
  {
  }

  /** A timed-out waiter consumes nothing: whoever is behind it is served as if it had never come. */
  lemma TimeoutForgotten(s: State, t: Tid, flag: Flag, prio: Tid -> nat)
    requires s.value == 0 && t !in s.wait
    ensures Next(Next(s, Take(t, true), flag, prio), Timeout(t), flag, prio) == s
  {
    var k := Place(s.wait, t, flag, prio);
    assert s.wait == s.wait[..k] + s.wait[k..];
    WithoutBetween(s.wait[..k], t, s.wait[k..]);
  }
}
