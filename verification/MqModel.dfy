/** The message queue of rt-thread/src/ipc.c:2014-2499 as a state machine over its
    interrupt-disabled regions.

    rt_mq_send_wait, rt_mq_urgent and rt_mq_recv copy the payload with interrupts enabled, so a send
    is reserve / copy / publish and a receive is take / copy / return, and any other thread may run
    between two of those steps, or between two bytes of a copy.  Cells are numbered 0..n-1; the free
    stack and the queue are sequences of cell numbers here and linked lists in class
    MqQueue.MessageQueue. */
module MqModel {
  import opened WaitList

  type Byte = bv8
  type Message = seq<Byte>

  /** Where a thread is in the code, with its locals.  Reading.msg is the message as published. */
  datatype Phase =
    | Idle
    | SendWaiting(msg: Message)
    | SendWoken(msg: Message)
    | Writing(cell: nat, msg: Message, urgent: bool, cleared: bool, done: nat)
    | RecvWaiting(len: nat)
    | RecvWoken(len: nat)
    | Reading(cell: nat, len: nat, msg: Message, got: Message)

  datatype CellPlace = Free | Queued | Held(t: Tid)

  /** The steps at which the queue changes, as operations on a double-ended queue. */
  datatype Op = Append(m: Message) | Prepend(m: Message) | Pop(m: Message) | Clear

  datatype Delivery = Delivery(t: Tid, len: nat, sent: Message, got: Message)

  datatype Config = Config(n: nat, msgSize: nat, flag: Flag, prio: map<Tid, nat>)

  /** place, msgs, log and delivered record history; the program does not keep them. */
  datatype State = State(
    free: seq<nat>, queue: seq<nat>, data: seq<Message>, threads: map<Tid, Phase>,
    recvWait: seq<Tid>, sendWait: seq<Tid>, recvWoken: set<Tid>, sendWoken: set<Tid>,
    place: seq<CellPlace>, msgs: seq<Message>, log: seq<Op>, delivered: seq<Delivery>)
  {
    function Phase(t: Tid): Phase { PhaseIn(threads, t) }
  }

  function PhaseIn(threads: map<Tid, Phase>, t: Tid): Phase { if t in threads then threads[t] else Idle }

  datatype Event =
    | Send(t: Tid, msg: Message, urgent: bool, wait: bool)
    | SendAgain(t: Tid, wait: bool)
    | ClearNext(t: Tid)
    | CopyIn(t: Tid)
    | Publish(t: Tid)
    | Recv(t: Tid, len: nat, wait: bool)
    | RecvAgain(t: Tid, wait: bool)
    | CopyOut(t: Tid)
    | Return(t: Tid)
    | Timeout(t: Tid)
    | Reset

  function PrioOf(c: Config): Tid -> nat { (t: Tid) => if t in c.prio then c.prio[t] else 0 }

  function Countdown(n: nat): seq<nat> { if n == 0 then [] else [n - 1] + Countdown(n - 1) }

  /** rt_mq_init */
  function Init(c: Config, garbage: seq<Message>): State {
    State(Countdown(c.n), [], garbage, map[], [], [], {}, {}, seq(c.n, _ => Free), [], [], [])
  }

  // ---------- One interrupt-disabled region, or one unlocked byte of a copy ----------

  predicate Enabled(c: Config, s: State, e: Event) {
    match e
    case Send(t, msg, urgent, wait) => s.Phase(t).Idle? && |msg| > 0 && (urgent ==> !wait)
    case SendAgain(t, wait) => s.Phase(t).SendWoken?
    case ClearNext(t) => var p := s.Phase(t); p.Writing? && !p.urgent && !p.cleared
    case CopyIn(t) => var p := s.Phase(t); p.Writing? && (p.urgent || p.cleared) && p.done < |p.msg|
    case Publish(t) => var p := s.Phase(t); p.Writing? && (p.urgent || p.cleared) && p.done == |p.msg|
    case Recv(t, len, wait) => s.Phase(t).Idle? && len > 0
    case RecvAgain(t, wait) => s.Phase(t).RecvWoken?
    case CopyOut(t) => var p := s.Phase(t); p.Reading? && |p.got| < CopyLen(c, p.len)
    case Return(t) => var p := s.Phase(t); p.Reading? && |p.got| == CopyLen(c, p.len)
    case Timeout(t) => s.Phase(t).SendWaiting? || s.Phase(t).RecvWaiting?
    case Reset => true
  }

  function CopyLen(c: Config, len: nat): nat { if len > c.msgSize then c.msgSize else len }

  /** The head of rt_mq_send_wait and rt_mq_urgent, up to the point where a cell is reserved. */
  function TrySend(c: Config, s: State, t: Tid, msg: Message, urgent: bool, wait: bool): State {
    if |s.free| > 0 then
      var cell := s.free[0];
      s.(free := s.free[1..], threads := s.threads[t := Writing(cell, msg, urgent, false, 0)],
         sendWoken := s.sendWoken - {t}, place := Put(s.place, cell, Held(t)))
    else if !wait then s.(threads := s.threads[t := Idle], sendWoken := s.sendWoken - {t})
    else s.(threads := s.threads[t := SendWaiting(msg)], sendWoken := s.sendWoken - {t},
            sendWait := Insert(s.sendWait, t, c.flag, PrioOf(c)))
  }

  function TryRecv(c: Config, s: State, t: Tid, len: nat, wait: bool): State {
    if |s.queue| > 0 && |s.msgs| > 0 then
      var cell := s.queue[0];
      s.(queue := s.queue[1..], msgs := s.msgs[1..], log := s.log + [Pop(s.msgs[0])],
         threads := s.threads[t := Reading(cell, len, s.msgs[0], [])],
         recvWoken := s.recvWoken - {t}, place := Put(s.place, cell, Held(t)))
    else if !wait then s.(threads := s.threads[t := Idle], recvWoken := s.recvWoken - {t})
    else s.(threads := s.threads[t := RecvWaiting(len)], recvWoken := s.recvWoken - {t},
            recvWait := Insert(s.recvWait, t, c.flag, PrioOf(c)))
  }

  function Put<T>(s: seq<T>, i: nat, x: T): seq<T> { if i < |s| then s[i := x] else s }

  function WakeReceiver(s: State): State {
    if s.recvWait == [] then s
    else
      var h := s.recvWait[0]; var p := s.Phase(h);
      s.(recvWait := s.recvWait[1..], recvWoken := s.recvWoken + {h},
         threads := s.threads[h := if p.RecvWaiting? then RecvWoken(p.len) else p])
  }

  function WakeSender(s: State): State {
    if s.sendWait == [] then s
    else
      var h := s.sendWait[0]; var p := s.Phase(h);
      s.(sendWait := s.sendWait[1..], sendWoken := s.sendWoken + {h},
         threads := s.threads[h := if p.SendWaiting? then SendWoken(p.msg) else p])
  }

  function Reversed(q: seq<nat>): seq<nat> { if q == [] then [] else Reversed(q[1..]) + [q[0]] }

  function SetPlaces(place: seq<CellPlace>, cells: seq<nat>, p: CellPlace): seq<CellPlace>
    decreases |cells|
  {
    if cells == [] then place else SetPlaces(Put(place, cells[0], p), cells[1..], p)
  }

  /** rt_ipc_list_resume_all gives every waiter an error, so each returns to its caller. */
  function ReleaseAll(threads: map<Tid, Phase>, list: seq<Tid>): map<Tid, Phase>
    decreases |list|
  {
    if list == [] then threads else ReleaseAll(threads[list[0] := Idle], list[1..])
  }

  function Next(c: Config, s: State, e: Event): State
    requires Enabled(c, s, e)
  {
    match e
    case Send(t, msg, urgent, wait) => if |msg| > c.msgSize then s else TrySend(c, s, t, msg, urgent, wait)
    case SendAgain(t, wait) => TrySend(c, s, t, s.Phase(t).msg, false, wait)
    case ClearNext(t) => s.(threads := s.threads[t := s.Phase(t).(cleared := true)])
    case CopyIn(t) =>
      var p := s.Phase(t);
      var row := if p.cell < |s.data| then s.data[p.cell] else [];
      s.(data := Put(s.data, p.cell, Put(row, p.done, p.msg[p.done])), threads := s.threads[t := p.(done := p.done + 1)])
    case Publish(t) =>
      var p := s.Phase(t);
      WakeReceiver(
        s.(queue := if p.urgent then [p.cell] + s.queue else s.queue + [p.cell],
           msgs := if p.urgent then [p.msg] + s.msgs else s.msgs + [p.msg],
           log := s.log + [if p.urgent then Prepend(p.msg) else Append(p.msg)],
           place := Put(s.place, p.cell, Queued), threads := s.threads[t := Idle]))
    case Recv(t, len, wait) => TryRecv(c, s, t, len, wait)
    case RecvAgain(t, wait) => TryRecv(c, s, t, s.Phase(t).len, wait)
    case CopyOut(t) =>
      var p := s.Phase(t);
      var b := if p.cell < |s.data| && |p.got| < |s.data[p.cell]| then s.data[p.cell][|p.got|] else 0;
      s.(threads := s.threads[t := p.(got := p.got + [b])])
    case Return(t) =>
      var p := s.Phase(t);
      WakeSender(
        s.(free := [p.cell] + s.free, place := Put(s.place, p.cell, Free), threads := s.threads[t := Idle],
           delivered := s.delivered + [Delivery(t, p.len, p.msg, p.got)]))
    case Timeout(t) =>
      s.(threads := s.threads[t := Idle], recvWait := Without(s.recvWait, t), sendWait := Without(s.sendWait, t))
    case Reset =>
      s.(threads := ReleaseAll(ReleaseAll(s.threads, s.recvWait), s.sendWait), recvWait := [], sendWait := [],
         queue := [], msgs := [], log := s.log + [Clear],
         free := Reversed(s.queue) + s.free, place := SetPlaces(s.place, s.queue, Free))
  }

  // ---------- The deque the queue stands for ----------

  datatype Deque = Deque(items: seq<Message>) | Broken

  /** Running a log of operations on a double-ended queue; a pop must yield the recorded item. */
  function Replay(log: seq<Op>): Deque {
    if log == [] then Deque([])
    else Apply(Replay(log[..|log| - 1]), log[|log| - 1])
  }

  function Apply(d: Deque, op: Op): Deque {
    if d.Broken? then Broken
    else match op
      case Append(m) => Deque(d.items + [m])
      case Prepend(m) => Deque([m] + d.items)
      case Pop(m) => if d.items != [] && d.items[0] == m then Deque(d.items[1..]) else Broken
      case Clear => Deque([])
  }
}
