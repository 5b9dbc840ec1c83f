/** The message queue over whole runs: any interleaving of any threads' steps. */
module MqRuns {
  import opened WaitList
  import opened MqModel
  import opened MqProofs

  ghost predicate Legal(c: Config, s: State, es: seq<Event>)
    decreases |es|
  {
    es == [] || (Enabled(c, s, es[0]) && Legal(c, Next(c, s, es[0]), es[1..]))
  }

  ghost function Run(c: Config, s: State, es: seq<Event>): State
    requires Legal(c, s, es)
    decreases |es|
  {
    if es == [] then s else Run(c, Next(c, s, es[0]), es[1..])
  }

  lemma {:induction false} CountdownLists(n: nat)
    ensures |Countdown(n)| == n
    ensures forall i :: 0 <= i < n ==> Countdown(n)[i] == n - 1 - i
  {
    if n > 0 { CountdownLists(n - 1); }
  }

  lemma InitOk(c: Config, garbage: seq<Message>)
    requires Rectangular(c, garbage)
    ensures Inv(c, Init(c, garbage))
  {
    CountdownLists(c.n);
    var s := Init(c, garbage);
    forall cell: nat | cell < c.n ensures cell in s.free { assert s.free[c.n - 1 - cell] == cell; }
  }

  lemma StepKeeps(c: Config, s: State, e: Event)
    requires Inv(c, s) && Enabled(c, s, e)
    ensures Inv(c, Next(c, s, e))
  {
    CellsKept(c, s, e);
    PayloadKept(c, s, e);
    WaitsKept(c, s, e);
  }

  /** Every reachable state: each cell is free, queued or held by exactly one thread; the queue is
      the deque its publish and take steps make; every delivery carries the published bytes; and no
      waiter is forgotten. */
  lemma {:induction false} RunKeeps(c: Config, s: State, es: seq<Event>)
    requires Inv(c, s) && Legal(c, s, es)
    ensures Inv(c, Run(c, s, es))
    decreases |es|
  {
    hide Inv;
    if es != [] {
      StepKeeps(c, s, es[0]);
      RunKeeps(c, Next(c, s, es[0]), es[1..]);
    }
  }

  // ---------- Consequences a caller sees ----------

  /** The counter `entry` never passes the number of cells, so with at most 65535 cells the
      overflow exits of send and urgent are never taken. */
  lemma QueueBounded(c: Config, s: State)
    requires CellsOk(c, s)
    ensures |s.queue| <= c.n && |s.free| <= c.n
  {
    assert forall cell :: cell in s.queue ==> cell < c.n;
    assert forall cell :: cell in s.free ==> cell < c.n;
    DistinctBound(s.queue, c.n);
    DistinctBound(s.free, c.n);
  }

  /** ... and a publishing thread always finds room: its own cell is not in the queue. */
  lemma PublishHasRoom(c: Config, s: State, t: Tid)
    requires CellsOk(c, s) && Enabled(c, s, Publish(t))
    ensures |s.queue| < c.n
  {
    var p := s.Phase(t);
    assert Holds(PhaseIn(s.threads, t), p.cell);
    assert p.cell !in s.queue;
    forall cell | cell in s.queue + [p.cell] ensures cell < c.n {
      if cell in s.queue { } else { assert cell == p.cell; }
    }
    DistinctBound(s.queue + [p.cell], c.n);
  }

  function Sent(log: seq<Op>): seq<Message> {
    if log == [] then []
    else
      var op := log[|log| - 1];
      Sent(log[..|log| - 1]) + (if op.Append? || op.Prepend? then [op.m] else [])
  }

  function Popped(log: seq<Op>): seq<Message> {
    if log == [] then []
    else
      var op := log[|log| - 1];
      Popped(log[..|log| - 1]) + (if op.Pop? then [op.m] else [])
  }

  /** Without urgent sends and resets, what has been taken followed by what is queued is exactly
      what was published, in publish order. */
  lemma {:induction false} FirstInFirstOut(log: seq<Op>)
    requires Replay(log).Deque? && forall i :: 0 <= i < |log| ==> log[i].Append? || log[i].Pop?
    ensures Popped(log) + Replay(log).items == Sent(log)
  {
    if log != [] {
      var rest := log[..|log| - 1];
      FirstInFirstOut(rest);
      assert Popped(rest) + Replay(rest).items == Sent(rest);
      if log[|log| - 1].Pop? {
        var items := Replay(rest).items;
        assert items == [items[0]] + items[1..];
        assert Popped(rest) + [items[0]] + items[1..] == Popped(rest) + items;
      } else {
        assert Popped(rest) + (Replay(rest).items + [log[|log| - 1].m]) == Popped(rest) + Replay(rest).items + [log[|log| - 1].m];
      }
    }
  }

  /** Without resets no message is lost, duplicated or made up. */
  lemma {:induction false} NothingLost(log: seq<Op>)
    requires Replay(log).Deque? && forall i :: 0 <= i < |log| ==> !log[i].Clear?
    ensures multiset(Popped(log)) + multiset(Replay(log).items) == multiset(Sent(log))
  {
    if log != [] {
      var rest := log[..|log| - 1];
      NothingLost(rest);
      if log[|log| - 1].Pop? {
        var items := Replay(rest).items;
        assert items == [items[0]] + items[1..];
      }
    }
  }

  // ---------- What the calls of a run do for their callers ----------

  /** The messages published, and those taken by receivers, in the order of the steps. */
  ghost function Published(c: Config, s: State, es: seq<Event>): seq<Message>
    requires Legal(c, s, es)
    decreases |es|
  {
    if es == [] then []
    else if es[0].Publish? then [s.Phase(es[0].t).msg] + Published(c, Next(c, s, es[0]), es[1..])
    else Published(c, Next(c, s, es[0]), es[1..])
  }

  ghost function TakenBy(c: Config, s: State, es: seq<Event>): seq<Message>
    requires Legal(c, s, es)
    decreases |es|
  {
    if es == [] then []
    else
      var r := Next(c, s, es[0]);
      if (es[0].Recv? || es[0].RecvAgain?) && r.Phase(es[0].t).Reading? then [r.Phase(es[0].t).msg] + TakenBy(c, r, es[1..])
      else TakenBy(c, r, es[1..])
  }

  /** No reset, and no publish by an urgent send. */
  ghost predicate Plain(c: Config, s: State, es: seq<Event>)
    requires Legal(c, s, es)
    decreases |es|
  {
    es != [] ==>
      && !es[0].Reset? && (es[0].Publish? ==> !s.Phase(es[0].t).urgent)
      && Plain(c, Next(c, s, es[0]), es[1..])
  }

  /** Over any run without urgent sends and resets, receivers take the messages in the order of publication, every
      one once: first what was queued, then what the run published; the rest is still queued. */
  lemma {:induction false} TakenInOrder(c: Config, s: State, es: seq<Event>)
    requires Inv(c, s) && Legal(c, s, es) && Plain(c, s, es)
    ensures s.msgs + Published(c, s, es) == TakenBy(c, s, es) + Run(c, s, es).msgs
    decreases |es|
  {
    hide Inv, Next, Enabled;
    if es == [] {
      assert s.msgs + [] == [] + s.msgs;
    } else {
      var e, r := es[0], Next(c, s, es[0]);
      StepKeeps(c, s, e);
      QueueStep(c, s, e);
      TakenInOrder(c, r, es[1..]);
      var p, t := Published(c, r, es[1..]), TakenBy(c, r, es[1..]);
      if e.Publish? {
        assert s.msgs + ([s.Phase(e.t).msg] + p) == r.msgs + p;
      } else if (e.Recv? || e.RecvAgain?) && r.Phase(e.t).Reading? {
        assert [s.msgs[0]] + (r.msgs + p) == s.msgs + p;
        assert [s.msgs[0]] + (t + Run(c, r, es[1..]).msgs) == [s.msgs[0]] + t + Run(c, r, es[1..]).msgs;
      }
    }
  }

  /** A publish puts the message last in the queue, or first if it is urgent; a take removes the first one; no other
      step but a reset touches the queue. */
  lemma QueueStep(c: Config, s: State, e: Event)
    requires Inv(c, s) && Enabled(c, s, e)
    ensures e.Publish? ==> s.Phase(e.t).Writing?
    ensures var r := Next(c, s, e);
      if e.Publish? then r.msgs == if s.Phase(e.t).urgent then [s.Phase(e.t).msg] + s.msgs else s.msgs + [s.Phase(e.t).msg]
      else if (e.Recv? || e.RecvAgain?) && r.Phase(e.t).Reading? then s.msgs != [] && r.msgs == s.msgs[1..] && r.Phase(e.t).msg == s.msgs[0]
      else if e.Reset? then r.msgs == []
      else r.msgs == s.msgs
  {
    hide Insert, Without, CellsOk, WaitOk, SetPlaces, ReleaseAll, Reversed;
    assert |s.msgs| == |s.queue|;
    assert e.RecvAgain? ==> s.Phase(e.t).RecvWoken?;
    assert e.Recv? ==> s.Phase(e.t).Idle?;
  }

  /** So an urgent message is the next one taken, unless another urgent one follows it. */
  lemma {:induction false} UrgentFirst(c: Config, s: State, es: seq<Event>, m: Message)
    requires Inv(c, s) && Legal(c, s, es) && Plain(c, s, es) && s.msgs != [] && s.msgs[0] == m && TakenBy(c, s, es) != []
    ensures TakenBy(c, s, es)[0] == m
  {
    TakenInOrder(c, s, es);
    assert (s.msgs + Published(c, s, es))[0] == m;
  }

  /** The message of a call that is under way. */
  function Carried(p: Phase): seq<Message> {
    match p
    case SendWaiting(msg) => [msg]
    case SendWoken(msg) => [msg]
    case Writing(cell, msg, urgent, cleared, done) => [msg]
    case _ => []
  }

  /** A send of a message that fits a cell starts with just that message: with the first free cell if there is one,
      else waiting if it may, else not at all.  A longer message changes nothing. */
  lemma SendOutcome(c: Config, s: State, t: Tid, msg: Message, urgent: bool, wait: bool)
    requires Inv(c, s) && Enabled(c, s, Send(t, msg, urgent, wait))
    ensures var r := Next(c, s, Send(t, msg, urgent, wait));
      && (|msg| > c.msgSize ==> r == s)
      && (|msg| <= c.msgSize && s.free != [] ==> r.Phase(t) == Writing(s.free[0], msg, urgent, false, 0) && r.free == s.free[1..])
      && (|msg| <= c.msgSize && s.free == [] && wait ==> r.Phase(t) == SendWaiting(msg) && Joins(s.sendWait, r.sendWait, t, c.flag, PrioOf(c)) && r.free == s.free)
      && (|msg| <= c.msgSize && s.free == [] && !wait ==> r.Phase(t) == Idle && r.free == s.free && r.sendWait == s.sendWait)
  {
    InsertJoins(s.sendWait, t, c.flag, PrioOf(c));
    hide Insert, Joins;
  }

  /** A woken sender does the same with the message it came with, and a woken receiver as below. */
  lemma AgainOutcome(c: Config, s: State, t: Tid, wait: bool)
    requires Inv(c, s)
    ensures Enabled(c, s, SendAgain(t, wait)) ==>
      var r, msg := Next(c, s, SendAgain(t, wait)), s.Phase(t).msg;
      && (s.free != [] ==> r.Phase(t) == Writing(s.free[0], msg, false, false, 0) && r.free == s.free[1..])
      && (s.free == [] && wait ==> r.Phase(t) == SendWaiting(msg) && Joins(s.sendWait, r.sendWait, t, c.flag, PrioOf(c)))
      && (s.free == [] && !wait ==> r.Phase(t) == Idle)
    ensures Enabled(c, s, RecvAgain(t, wait)) ==>
      var r, len := Next(c, s, RecvAgain(t, wait)), s.Phase(t).len;
      && (s.queue != [] ==> r.Phase(t) == Reading(s.queue[0], len, s.msgs[0], []) && r.queue == s.queue[1..])
      && (s.queue == [] && wait ==> r.Phase(t) == RecvWaiting(len) && Joins(s.recvWait, r.recvWait, t, c.flag, PrioOf(c)))
      && (s.queue == [] && !wait ==> r.Phase(t) == Idle)
  {
    InsertJoins(s.sendWait, t, c.flag, PrioOf(c));
    InsertJoins(s.recvWait, t, c.flag, PrioOf(c));
    hide Insert, Joins;
  }

  /** A receive takes the first message if there is one, else waits if it may, else returns. */
  lemma RecvOutcome(c: Config, s: State, t: Tid, len: nat, wait: bool)
    requires Inv(c, s) && Enabled(c, s, Recv(t, len, wait))
    ensures var r := Next(c, s, Recv(t, len, wait));
      && (s.queue != [] ==> r.Phase(t) == Reading(s.queue[0], len, s.msgs[0], []) && r.queue == s.queue[1..])
      && (s.queue == [] && wait ==> r.Phase(t) == RecvWaiting(len) && Joins(s.recvWait, r.recvWait, t, c.flag, PrioOf(c)) && r.queue == s.queue)
      && (s.queue == [] && !wait ==> r.Phase(t) == Idle && r.queue == s.queue && r.recvWait == s.recvWait)
  {
    InsertJoins(s.recvWait, t, c.flag, PrioOf(c));
    hide Insert, Joins;
  }

  /** Publishing wakes the receiver at the head of its list, returning a cell the sender at the head of its own. */
  lemma FirstWoken(c: Config, s: State, e: Event)
    requires Inv(c, s) && Enabled(c, s, e)
    ensures var r := Next(c, s, e);
      && (e.Publish? && s.recvWait != [] ==>
            r.recvWait == s.recvWait[1..] && r.Phase(s.recvWait[0]) == RecvWoken(s.Phase(s.recvWait[0]).len))
      && (e.Return? && s.sendWait != [] ==>
            r.sendWait == s.sendWait[1..] && r.Phase(s.sendWait[0]) == SendWoken(s.Phase(s.sendWait[0]).msg))
  {
    hide Insert, Without, CellsOk, PayloadOk, SetPlaces, ReleaseAll, Reversed;
    assert e.Publish? && s.recvWait != [] ==> s.recvWait[0] in s.recvWait && s.Phase(s.recvWait[0]).RecvWaiting?;
    assert e.Return? && s.sendWait != [] ==> s.sendWait[0] in s.sendWait && s.Phase(s.sendWait[0]).SendWaiting?;
  }

  /** A call keeps its message, and the urgency it was sent with, until the thread is back: nobody else's step
      changes them. */
  lemma MessageStays(c: Config, s: State, e: Event, t: Tid)
    requires Inv(c, s) && Enabled(c, s, e) && Carried(s.Phase(t)) != []
    ensures var p, q := s.Phase(t), Next(c, s, e).Phase(t);
      && (q.Idle? || Carried(q) == Carried(p))
      && (p.Writing? && q.Writing? ==> q.cell == p.cell && q.urgent == p.urgent && p.done <= q.done)
      && (p.Writing? && q.Idle? ==> e == Publish(t))
  {
    hide Insert, Without, CellsOk, PayloadOk, SetPlaces, Reversed, ReleaseAll, SideOk;
    if e.Reset? {
      ReleasedPhase(s.threads, s.recvWait, t);
      ReleasedPhase(ReleaseAll(s.threads, s.recvWait), s.sendWait, t);
      return;
    }
    if s.recvWait != [] { assert s.recvWait[0] in s.recvWait; }
    if s.sendWait != [] { assert s.sendWait[0] in s.sendWait; }
  }

  /** A receiver keeps its message and its buffer length until it returns. */
  lemma ReadingStays(c: Config, s: State, e: Event, t: Tid)
    requires Inv(c, s) && Enabled(c, s, e) && s.Phase(t).Reading? && e != Return(t)
    ensures var p, q := s.Phase(t), Next(c, s, e).Phase(t);
      q.Reading? && q.cell == p.cell && q.len == p.len && q.msg == p.msg && p.got <= q.got
    ensures !e.Return? ==> Next(c, s, e).delivered == s.delivered
  {
    hide Insert, Without, CellsOk, PayloadOk, SetPlaces, Reversed, ReleaseAll, SideOk;
    if e.Reset? {
      ReleasedPhase(s.threads, s.recvWait, t);
      ReleasedPhase(ReleaseAll(s.threads, s.recvWait), s.sendWait, t);
      return;
    }
    if s.recvWait != [] { assert s.recvWait[0] in s.recvWait; }
    if s.sendWait != [] { assert s.sendWait[0] in s.sendWait; }
  }

  lemma {:induction false} ReadingOverRun(c: Config, s: State, es: seq<Event>, t: Tid)
    requires Inv(c, s) && Legal(c, s, es) && s.Phase(t).Reading? && Return(t) !in es
    ensures var p, q := s.Phase(t), Run(c, s, es).Phase(t); Inv(c, Run(c, s, es)) && q.Reading? && q.len == p.len && q.msg == p.msg
    decreases |es|
  {
    hide Inv, Next, Enabled;
    if es != [] {
      StepKeeps(c, s, es[0]);
      ReadingStays(c, s, es[0], t);
      ReadingOverRun(c, Next(c, s, es[0]), es[1..], t);
    }
  }

  /** A receive that takes message m into a buffer of len bytes returns, whatever runs in between, with the first
      bytes of m: as many as m has and the buffer holds. */
  lemma ReceivesFirst(c: Config, s: State, t: Tid, len: nat, wait: bool, es: seq<Event>)
    requires Inv(c, s) && Enabled(c, s, Recv(t, len, wait)) && s.queue != []
    requires Legal(c, Next(c, s, Recv(t, len, wait)), es) && Return(t) !in es
    requires Enabled(c, Run(c, Next(c, s, Recv(t, len, wait)), es), Return(t))
    ensures var r := Run(c, Next(c, s, Recv(t, len, wait)), es);
      var end := Next(c, r, Return(t)).delivered;
      var m, n := s.msgs[0], if len < |s.msgs[0]| then len else |s.msgs[0]|;
      && end != [] && end[..|end| - 1] == r.delivered && end[|end| - 1].t == t
      && n <= |end[|end| - 1].got| && end[|end| - 1].got[..n] == m[..n]
  {
    hide Inv, Next, Enabled;
    var e := Recv(t, len, wait);
    RecvOutcome(c, s, t, len, wait);
    FirstMessage(c, s);
    StepKeeps(c, s, e);
    ReadingOverRun(c, Next(c, s, e), es, t);
    var r := Run(c, Next(c, s, e), es);
    StepKeeps(c, r, Return(t));
    DeliveredStep(c, r, t);
    LastDelivered(c, Next(c, r, Return(t)));
  }

  lemma FirstMessage(c: Config, s: State)
    requires Inv(c, s) && s.queue != []
    ensures s.msgs != [] && |s.msgs[0]| <= c.msgSize
  {
  }

  lemma LastDelivered(c: Config, s: State)
    requires Inv(c, s) && s.delivered != []
    ensures DeliveredOk(c, s.delivered[|s.delivered| - 1])
  {
  }

  lemma DeliveredStep(c: Config, s: State, t: Tid)
    requires Inv(c, s) && Enabled(c, s, Return(t))
    ensures s.Phase(t).Reading?
    ensures var p := s.Phase(t); Next(c, s, Return(t)).delivered == s.delivered + [Delivery(t, p.len, p.msg, p.got)]
  {
  }

  lemma {:induction false} ReleasedPhase(threads: map<Tid, Phase>, list: seq<Tid>, t: Tid)
    ensures PhaseIn(ReleaseAll(threads, list), t) == if t in list then Idle else PhaseIn(threads, t)
    decreases |list|
  {
    if list != [] { ReleasedPhase(threads[list[0] := Idle], list[1..], t); }
  }
}
