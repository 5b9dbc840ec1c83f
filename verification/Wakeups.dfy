/** One side of a blocking object: units that can be taken, the threads waiting for one, and the threads
    that have been woken and will look again.  Mailbox and memory pool are built from it. */
module Wakeups {
  import opened WaitList

  /** A waiter joins an IPC list by its flag, or the front of a memory pool's list. */
  datatype Order = Listed(flag: Flag) | Front

  datatype Side = Side(avail: nat, wait: seq<Tid>, woken: set<Tid>)

  datatype Outcome = Got | Refused | Asleep

  function Join(wait: seq<Tid>, t: Tid, order: Order, prio: Tid -> nat): seq<Tid> {
    if order.Front? then [t] + wait else Insert(wait, t, order.flag, prio)
  }

  /** One look for a unit: at first, or after having been woken. */
  function Take(s: Side, t: Tid, mayWait: bool, order: Order, prio: Tid -> nat): (Side, Outcome) {
    if s.avail > 0 then (s.(avail := s.avail - 1, woken := s.woken - {t}), Got)
    else if !mayWait then (s.(woken := s.woken - {t}), Refused)
    else (s.(woken := s.woken - {t}, wait := Join(s.wait, t, order, prio)), Asleep)
  }

  /** One more unit, and the first waiter is woken. */
  function Give(s: Side): Side {
    if s.wait == [] then s.(avail := s.avail + 1) else Side(s.avail + 1, s.wait[1..], s.woken + {s.wait[0]})
  }

  /** A look gets a unit if there is one; else the thread is refused or waits, as it asked: in the first place of a
      memory pool's list, in the last of a FIFO list.  Either way it has looked again. */
  lemma TakeIs(s: Side, t: Tid, mayWait: bool, order: Order, prio: Tid -> nat)
    ensures var (r, out) := Take(s, t, mayWait, order, prio);
      && r.woken == s.woken - {t}
      && (s.avail > 0 ==> out == Got && r.avail == s.avail - 1 && r.wait == s.wait)
      && (s.avail == 0 && !mayWait ==> out == Refused && r.avail == 0 && r.wait == s.wait)
      && (s.avail == 0 && mayWait ==> out == Asleep && r.avail == 0)
      && (s.avail == 0 && mayWait && order == Front ==> r.wait == [t] + s.wait)
      && (s.avail == 0 && mayWait && order.Listed? ==> Joins(s.wait, r.wait, t, order.flag, prio))
  {
    if order.Listed? { InsertJoins(s.wait, t, order.flag, prio); }
    hide Insert, Joins;
  }

  /** A unit given is there, and the first waiter is on its way to it. */
  lemma GiveIs(s: Side)
    ensures var r := Give(s);
      && r.avail == s.avail + 1
      && (s.wait == [] ==> r.wait == [] && r.woken == s.woken)
      && (s.wait != [] ==> r.wait == s.wait[1..] && r.woken == s.woken + {s.wait[0]})
  {
  }

  datatype Event =
    | TakeEvent(t: Tid, mayWait: bool)
    | GiveEvent
    | Timeout(t: Tid)
    | Reset(avail: nat)

  predicate Enabled(s: Side, e: Event) { e.TakeEvent? ==> e.t !in s.wait }

  function Next(s: Side, e: Event, order: Order, prio: Tid -> nat): Side {
    match e
    case TakeEvent(t, mayWait) => Take(s, t, mayWait, order, prio).0
    case GiveEvent => Give(s)
    case Timeout(t) => s.(wait := Without(s.wait, t))
    case Reset(avail) => s.(avail := avail, wait := [])
  }

  /** While anyone waits there are no more units than woken threads on their way to them. */
  ghost predicate NoneLost(s: Side) {
    && Distinct(s.wait) && (forall t :: t in s.wait ==> t !in s.woken)
    && (s.wait != [] ==> s.avail <= |s.woken|)
  }

  lemma StepKeeps(s: Side, e: Event, order: Order, prio: Tid -> nat)
    requires NoneLost(s) && Enabled(s, e)
    ensures NoneLost(Next(s, e, order, prio))
  {
    match e {
      case TakeEvent(t, mayWait) => TakeKeeps(s, t, mayWait, order, prio);
      case GiveEvent => GiveKeeps(s);
      case Timeout(t) => WithoutMembers(s.wait, t);
      case Reset(avail) =>
    }
  }

  lemma TakeKeeps(s: Side, t: Tid, mayWait: bool, order: Order, prio: Tid -> nat)
    requires NoneLost(s) && t !in s.wait
    ensures NoneLost(Take(s, t, mayWait, order, prio).0)
  {
    hide Insert;
    if order.Listed? { InsertMembers(s.wait, t, order.flag, prio); }
    assert t in s.woken ==> |s.woken - {t}| == |s.woken| - 1;
    assert t !in s.woken ==> s.woken - {t} == s.woken;
  }

  lemma GiveKeeps(s: Side)
    requires NoneLost(s)
    ensures NoneLost(Give(s))
  {
    if s.wait != [] {
      assert s.wait[0] in s.wait;
      assert |s.woken + {s.wait[0]}| == |s.woken| + 1;
    }
  }

  ghost predicate Legal(s: Side, es: seq<Event>, order: Order, prio: Tid -> nat)
    decreases |es|
  {
    es == [] || (Enabled(s, es[0]) && Legal(Next(s, es[0], order, prio), es[1..], order, prio))
  }

  ghost function Run(s: Side, es: seq<Event>, order: Order, prio: Tid -> nat): Side
    requires Legal(s, es, order, prio)
    decreases |es|
  {
    if es == [] then s else Run(Next(s, es[0], order, prio), es[1..], order, prio)
  }

  /** No wake-up is ever lost. */
  lemma {:induction false} RunKeeps(s: Side, es: seq<Event>, order: Order, prio: Tid -> nat)
    requires NoneLost(s) && Legal(s, es, order, prio)
    ensures NoneLost(Run(s, es, order, prio))
    decreases |es|
  {
    hide NoneLost;
    if es != [] {
      StepKeeps(s, es[0], order, prio);
      RunKeeps(Next(s, es[0], order, prio), es[1..], order, prio);
    }
  }

  /** So when every woken thread has looked again, nobody waits for a unit that is there. */
  lemma NobodyForgotten(s: Side)
    requires NoneLost(s) && s.woken == {} && s.wait != []
    ensures s.avail == 0
  {
  }
}
