/** What every reachable state of the message queue satisfies, under every interleaving. */
module MqProofs {
  import opened WaitList
  import opened MqModel

  // ---------- Each cell is in exactly one place ----------

  /** The list holds exactly the cells marked p, each once. */
  ghost predicate Lists(place: seq<CellPlace>, list: seq<nat>, p: CellPlace) {
    && (forall i, j :: 0 <= i < j < |list| ==> list[i] != list[j])
    && (forall cell: nat :: cell in list ==> cell < |place| && place[cell] == p)
    && (forall cell: nat :: 0 <= cell < |place| && place[cell] == p ==> cell in list)
  }

  predicate Holds(p: Phase, cell: nat) {
    (p.Writing? || p.Reading?) && p.cell == cell
  }

  predicate HoldsNone(p: Phase) { !p.Writing? && !p.Reading? }

  ghost predicate HeldRight(place: seq<CellPlace>, threads: map<Tid, Phase>) {
    && (forall t: Tid, cell: nat {:trigger Holds(PhaseIn(threads, t), cell)} :: Holds(PhaseIn(threads, t), cell) ==> cell < |place| && place[cell] == Held(t))
    && (forall cell: nat {:trigger place[cell]} :: cell < |place| && place[cell].Held? ==> Holds(PhaseIn(threads, place[cell].t), cell))
  }

  ghost predicate CellsOk(c: Config, s: State) {
    && |s.place| == c.n
    && Lists(s.place, s.free, Free)
    && Lists(s.place, s.queue, Queued)
    && HeldRight(s.place, s.threads)
  }

  // ---------- Payloads ----------

  /** The first k bytes of m are in row. */
  ghost predicate Has(row: Message, m: Message, k: nat) {
    k <= |m| && k <= |row| && forall i :: 0 <= i < k ==> row[i] == m[i]
  }

  ghost predicate PhaseOk(c: Config, data: seq<Message>, p: Phase) {
    match p
    case SendWaiting(msg) => 0 < |msg| <= c.msgSize
    case SendWoken(msg) => 0 < |msg| <= c.msgSize
    case Writing(cell, msg, urgent, cleared, done) =>
      cell < |data| && 0 < |msg| <= c.msgSize && done <= |msg| && Has(data[cell], msg, done)
    case Reading(cell, len, msg, got) =>
      cell < |data| && Has(data[cell], msg, |msg|) && Has(data[cell], got, |got|) && |got| <= CopyLen(c, len)
    case _ => true
  }

  ghost predicate PhasesOk(c: Config, data: seq<Message>, threads: map<Tid, Phase>) {
    forall t: Tid {:trigger PhaseIn(threads, t)} :: PhaseOk(c, data, PhaseIn(threads, t))
  }

  /** The queued cells hold the queued messages. */
  ghost predicate QueueHas(data: seq<Message>, queue: seq<nat>, msgs: seq<Message>) {
    && |msgs| == |queue|
    && forall i :: 0 <= i < |queue| ==> queue[i] < |data| && Has(data[queue[i]], msgs[i], |msgs[i]|)
  }

  /** The receiver gets as many bytes as its buffer and a cell both hold, and they agree with the published message as
      far as that goes. */
  ghost predicate DeliveredOk(c: Config, d: Delivery) {
    && |d.got| == (if d.len < c.msgSize then d.len else c.msgSize)
    && forall i :: 0 <= i < |d.sent| && i < d.len ==> i < |d.got| && d.got[i] == d.sent[i]
  }

  ghost predicate Rectangular(c: Config, data: seq<Message>) {
    |data| == c.n && forall i :: 0 <= i < |data| ==> |data[i]| == c.msgSize
  }

  ghost predicate PayloadOk(c: Config, s: State) {
    && Rectangular(c, s.data)
    && QueueHas(s.data, s.queue, s.msgs)
    && PhasesOk(c, s.data, s.threads)
    && (forall i :: 0 <= i < |s.delivered| ==> DeliveredOk(c, s.delivered[i]))
    && Replay(s.log) == Deque(s.msgs)
  }

  // ---------- No lost wake-up ----------

  /** One side of the queue: who waits, who has been woken but has not run yet, and the promise:
      while anyone waits, the items there are do not outnumber the threads woken for them. */
  ghost predicate SideOk(wait: seq<Tid>, woken: set<Tid>, items: nat) {
    Distinct(wait) && (wait != [] ==> items <= |woken|)
  }

  ghost predicate Registered(s: State) {
    forall t: Tid {:trigger PhaseIn(s.threads, t)} ::
      && (t in s.recvWait <==> PhaseIn(s.threads, t).RecvWaiting?)
      && (t in s.sendWait <==> PhaseIn(s.threads, t).SendWaiting?)
      && (t in s.recvWoken <==> PhaseIn(s.threads, t).RecvWoken?)
      && (t in s.sendWoken <==> PhaseIn(s.threads, t).SendWoken?)
  }

  ghost predicate WaitOk(s: State) {
    && Registered(s)
    && SideOk(s.recvWait, s.recvWoken, |s.queue|)
    && SideOk(s.sendWait, s.sendWoken, |s.free|)
  }

  ghost predicate Inv(c: Config, s: State) {
    CellsOk(c, s) && PayloadOk(c, s) && WaitOk(s)
  }

  // ---------- List steps ----------

  lemma ListsPopped(place: seq<CellPlace>, list: seq<nat>, p: CellPlace, q: CellPlace)
    requires Lists(place, list, p) && list != [] && p != q
    ensures list[0] < |place| && Lists(place[list[0] := q], list[1..], p)
  {
    assert list[0] in list;
    var place' := place[list[0] := q];
    forall cell: nat | cell in list[1..] ensures cell < |place'| && place'[cell] == p {
      var i :| 0 <= i < |list[1..]| && list[1..][i] == cell;
      assert list[i + 1] == cell && cell in list;
    }
  }

  lemma ListsPushed(place: seq<CellPlace>, list: seq<nat>, p: CellPlace, cell: nat, front: bool)
    requires Lists(place, list, p) && cell < |place| && place[cell] != p
    ensures Lists(place[cell := p], if front then [cell] + list else list + [cell], p)
  {
    assert cell !in list;
  }

  lemma ListsOther(place: seq<CellPlace>, list: seq<nat>, p: CellPlace, cell: nat, q: CellPlace)
    requires Lists(place, list, p) && cell < |place| && place[cell] != p && q != p
    ensures Lists(place[cell := q], list, p)
  {
  }

  /** Thread t moves between phases that hold the same cell, or none. */
  lemma HeldSame(place: seq<CellPlace>, threads: map<Tid, Phase>, t: Tid, p: Phase)
    requires HeldRight(place, threads)
    requires forall cell: nat :: Holds(PhaseIn(threads, t), cell) <==> Holds(p, cell)
    ensures HeldRight(place, threads[t := p])
  {
    var threads' := threads[t := p];
    forall u: Tid, cell: nat {:trigger Holds(PhaseIn(threads', u), cell)} | Holds(PhaseIn(threads', u), cell) ensures cell < |place| && place[cell] == Held(u) {
      assert Holds(PhaseIn(threads, u), cell);
    }
    forall cell: nat {:trigger place[cell]} | cell < |place| && place[cell].Held? ensures Holds(PhaseIn(threads', place[cell].t), cell) {
      assert Holds(PhaseIn(threads, place[cell].t), cell);
    }
  }

  lemma HeldTaken(place: seq<CellPlace>, threads: map<Tid, Phase>, t: Tid, p: Phase, cell: nat)
    requires HeldRight(place, threads) && HoldsNone(PhaseIn(threads, t)) && Holds(p, cell) && cell < |place| && !place[cell].Held?
    ensures HeldRight(place[cell := Held(t)], threads[t := p])
  {
    var place', threads' := place[cell := Held(t)], threads[t := p];
    forall u: Tid, k: nat {:trigger Holds(PhaseIn(threads', u), k)} | Holds(PhaseIn(threads', u), k) ensures k < |place'| && place'[k] == Held(u) {
      if u != t { assert Holds(PhaseIn(threads, u), k); }
    }
    forall k: nat {:trigger place'[k]} | k < |place'| && place'[k].Held? ensures Holds(PhaseIn(threads', place'[k].t), k) {
      if k != cell { assert Holds(PhaseIn(threads, place[k].t), k); }
    }
  }

  lemma HeldGiven(place: seq<CellPlace>, threads: map<Tid, Phase>, t: Tid, p: Phase, cell: nat, to: CellPlace)
    requires HeldRight(place, threads) && Holds(PhaseIn(threads, t), cell) && HoldsNone(p) && !to.Held?
    ensures cell < |place| && place[cell] == Held(t) && HeldRight(place[cell := to], threads[t := p])
  {
    var place', threads' := place[cell := to], threads[t := p];
    forall u: Tid, k: nat {:trigger Holds(PhaseIn(threads', u), k)} | Holds(PhaseIn(threads', u), k) ensures k < |place'| && place'[k] == Held(u) {
      assert u != t && Holds(PhaseIn(threads, u), k);
    }
    forall k: nat {:trigger place'[k]} | k < |place'| && place'[k].Held? ensures Holds(PhaseIn(threads', place'[k].t), k) {
      assert Holds(PhaseIn(threads, place[k].t), k);
    }
  }

  lemma TrySendCells(c: Config, s: State, t: Tid, msg: Message, urgent: bool, wait: bool)
    requires CellsOk(c, s) && HoldsNone(s.Phase(t))
    ensures CellsOk(c, TrySend(c, s, t, msg, urgent, wait))
  {
    hide Lists, HeldRight;
    if |s.free| > 0 {
      var cell := s.free[0];
      ListsPopped(s.place, s.free, Free, Held(t));
      FirstListed(s.place, s.free, Free);
      ListsOther(s.place, s.queue, Queued, cell, Held(t));
      HeldTaken(s.place, s.threads, t, Writing(cell, msg, urgent, false, 0), cell);
    } else {
      HeldSame(s.place, s.threads, t, if wait then SendWaiting(msg) else Idle);
    }
  }

  lemma FirstListed(place: seq<CellPlace>, list: seq<nat>, p: CellPlace)
    requires Lists(place, list, p) && list != []
    ensures list[0] < |place| && place[list[0]] == p
  {
    assert list[0] in list;
  }

  lemma TryRecvCells(c: Config, s: State, t: Tid, len: nat, wait: bool)
    requires CellsOk(c, s) && HoldsNone(s.Phase(t))
    ensures CellsOk(c, TryRecv(c, s, t, len, wait))
  {
    hide Lists, HeldRight;
    if |s.queue| > 0 && |s.msgs| > 0 {
      var cell := s.queue[0];
      ListsPopped(s.place, s.queue, Queued, Held(t));
      FirstListed(s.place, s.queue, Queued);
      ListsOther(s.place, s.free, Free, cell, Held(t));
      HeldTaken(s.place, s.threads, t, Reading(cell, len, s.msgs[0], []), cell);
    } else {
      HeldSame(s.place, s.threads, t, if wait then RecvWaiting(len) else Idle);
    }
  }

  // ---------- Steps that touch the cells ----------

  lemma WakeCells(c: Config, s: State)
    requires CellsOk(c, s)
    ensures CellsOk(c, WakeReceiver(s)) && CellsOk(c, WakeSender(s))
  {
    hide Lists, HeldRight;
    if s.recvWait != [] {
      var h := s.recvWait[0]; var p := s.Phase(h);
      HeldSame(s.place, s.threads, h, if p.RecvWaiting? then RecvWoken(p.len) else p);
    }
    if s.sendWait != [] {
      var h := s.sendWait[0]; var p := s.Phase(h);
      HeldSame(s.place, s.threads, h, if p.SendWaiting? then SendWoken(p.msg) else p);
    }
  }

  lemma {:induction false} ReleaseHeld(place: seq<CellPlace>, threads: map<Tid, Phase>, list: seq<Tid>)
    requires HeldRight(place, threads) && forall t :: t in list ==> HoldsNone(PhaseIn(threads, t))
    ensures HeldRight(place, ReleaseAll(threads, list))
    ensures forall t: Tid {:trigger PhaseIn(ReleaseAll(threads, list), t)} ::
              PhaseIn(ReleaseAll(threads, list), t) == if t in list then Idle else PhaseIn(threads, t)
    decreases |list|
  {
    hide HeldRight;
    if list != [] {
      HeldSame(place, threads, list[0], Idle);
      assert forall t :: t in list[1..] ==> t in list;
      ReleaseHeld(place, threads[list[0] := Idle], list[1..]);
      assert forall t :: t in list <==> t == list[0] || t in list[1..];
    }
  }

  lemma {:induction false} ResetCells(place: seq<CellPlace>, threads: map<Tid, Phase>, free: seq<nat>, queue: seq<nat>)
    requires Lists(place, free, Free) && Lists(place, queue, Queued) && HeldRight(place, threads)
    ensures var r := SetPlaces(place, queue, Free);
      |r| == |place| && Lists(r, Reversed(queue) + free, Free) && Lists(r, [], Queued) && HeldRight(r, threads)
    decreases |queue|
  {
    hide HeldRight, Lists;
    if queue == [] {
      assert Reversed(queue) + free == free;
    } else {
      var h := queue[0];
      FirstListed(place, queue, Queued);
      var place1 := place[h := Free];
      ListsPopped(place, queue, Queued, Free);
      ListsPushed(place, free, Free, h, true);
      HeldElsewhere(place, threads, h, Free);
      ResetCells(place1, threads, [h] + free, queue[1..]);
      assert Reversed(queue) + free == Reversed(queue[1..]) + ([h] + free);
    }
  }

  lemma HeldElsewhere(place: seq<CellPlace>, threads: map<Tid, Phase>, cell: nat, to: CellPlace)
    requires HeldRight(place, threads) && cell < |place| && !place[cell].Held? && !to.Held?
    ensures HeldRight(place[cell := to], threads)
  {
    var place' := place[cell := to];
    forall u: Tid, k: nat {:trigger Holds(PhaseIn(threads, u), k)} | Holds(PhaseIn(threads, u), k) ensures k < |place'| && place'[k] == Held(u) {
    }
    forall k: nat {:trigger place'[k]} | k < |place'| && place'[k].Held? ensures Holds(PhaseIn(threads, place'[k].t), k) {
      assert place[k] == place'[k];
    }
  }

  lemma PublishCells(c: Config, s: State, t: Tid)
    requires CellsOk(c, s) && Enabled(c, s, Publish(t))
    ensures CellsOk(c, Next(c, s, Publish(t)))
  {
    var p := s.Phase(t);
    HeldGiven(s.place, s.threads, t, Idle, p.cell, Queued);
    ListsPushed(s.place, s.queue, Queued, p.cell, p.urgent);
    ListsOther(s.place, s.free, Free, p.cell, Queued);
    hide Lists, HeldRight;
    var s1 := s.(queue := if p.urgent then [p.cell] + s.queue else s.queue + [p.cell],
      msgs := if p.urgent then [p.msg] + s.msgs else s.msgs + [p.msg],
      log := s.log + [if p.urgent then Prepend(p.msg) else Append(p.msg)],
      place := Put(s.place, p.cell, Queued), threads := s.threads[t := Idle]);
    WakeCells(c, s1);
  }

  lemma ReturnCells(c: Config, s: State, t: Tid)
    requires CellsOk(c, s) && Enabled(c, s, Return(t))
    ensures CellsOk(c, Next(c, s, Return(t)))
  {
    var p := s.Phase(t);
    HeldGiven(s.place, s.threads, t, Idle, p.cell, Free);
    ListsPushed(s.place, s.free, Free, p.cell, true);
    ListsOther(s.place, s.queue, Queued, p.cell, Free);
    hide Lists, HeldRight;
    var s1 := s.(free := [p.cell] + s.free, place := Put(s.place, p.cell, Free), threads := s.threads[t := Idle],
      delivered := s.delivered + [Delivery(t, p.len, p.msg, p.got)]);
    WakeCells(c, s1);
  }

  lemma CellsKept(c: Config, s: State, e: Event)
    requires CellsOk(c, s) && WaitOk(s) && Enabled(c, s, e)
    ensures CellsOk(c, Next(c, s, e))
  {
    match e {
      case Send(t, msg, urgent, wait) => TrySendCells(c, s, t, msg, urgent, wait);
      case SendAgain(t, wait) => TrySendCells(c, s, t, s.Phase(t).msg, false, wait);
      case ClearNext(t) => HeldSame(s.place, s.threads, t, s.Phase(t).(cleared := true));
      case CopyIn(t) => HeldSame(s.place, s.threads, t, s.Phase(t).(done := s.Phase(t).done + 1));
      case Publish(t) => PublishCells(c, s, t);
      case Recv(t, len, wait) => TryRecvCells(c, s, t, len, wait);
      case RecvAgain(t, wait) => TryRecvCells(c, s, t, s.Phase(t).len, wait);
      case CopyOut(t) =>
        var p := s.Phase(t);
        var b := if p.cell < |s.data| && |p.got| < |s.data[p.cell]| then s.data[p.cell][|p.got|] else 0;
        HeldSame(s.place, s.threads, t, p.(got := p.got + [b]));
      case Return(t) => ReturnCells(c, s, t);
      case Timeout(t) => HeldSame(s.place, s.threads, t, Idle);
      case Reset =>
        ResetCells(s.place, s.threads, s.free, s.queue);
        var place := SetPlaces(s.place, s.queue, Free);
        assert forall t :: t in s.recvWait ==> HoldsNone(PhaseIn(s.threads, t));
        ReleaseHeld(place, s.threads, s.recvWait);
        assert forall t :: t in s.sendWait ==> s.Phase(t).SendWaiting?;
        ReleaseHeld(place, ReleaseAll(s.threads, s.recvWait), s.sendWait);
    }
  }

  // ---------- Steps that touch the wait lists ----------

  lemma PhaseAfter(threads: map<Tid, Phase>, t: Tid, p: Phase)
    ensures forall u: Tid {:trigger PhaseIn(threads[t := p], u)} ::
              PhaseIn(threads[t := p], u) == if u == t then p else PhaseIn(threads, u)
  {
  }

  lemma TrySendWaits(c: Config, s: State, t: Tid, msg: Message, urgent: bool, wait: bool)
    requires WaitOk(s) && (s.Phase(t).Idle? || s.Phase(t).SendWoken?)
    ensures WaitOk(TrySend(c, s, t, msg, urgent, wait))
  {
    InsertMembers(s.sendWait, t, c.flag, PrioOf(c));
    var s' := TrySend(c, s, t, msg, urgent, wait);
    assert forall u: Tid {:trigger PhaseIn(s'.threads, u)} :: u != t ==> PhaseIn(s'.threads, u) == PhaseIn(s.threads, u);
  }

  lemma TryRecvWaits(c: Config, s: State, t: Tid, len: nat, wait: bool)
    requires WaitOk(s) && (s.Phase(t).Idle? || s.Phase(t).RecvWoken?) && |s.msgs| == |s.queue|
    ensures WaitOk(TryRecv(c, s, t, len, wait))
  {
    InsertMembers(s.recvWait, t, c.flag, PrioOf(c));
    var s' := TryRecv(c, s, t, len, wait);
    assert forall u: Tid {:trigger PhaseIn(s'.threads, u)} :: u != t ==> PhaseIn(s'.threads, u) == PhaseIn(s.threads, u);
  }

  /** Waking the first of a list: one more item is matched by one more woken thread. */
  lemma WakeSide(wait: seq<Tid>, woken: set<Tid>, items: nat)
    requires SideOk(wait, woken, items) && wait != [] && wait[0] !in woken
    ensures SideOk(wait[1..], woken + {wait[0]}, items + 1)
    ensures forall t :: t in wait <==> t == wait[0] || t in wait[1..]
    ensures wait[0] !in wait[1..]
  {
  }

  lemma WakeReceiverWaits(s: State, items: nat)
    requires Registered(s) && SideOk(s.recvWait, s.recvWoken, items) && |s.queue| == items + 1
    ensures var r := WakeReceiver(s); Registered(r) && SideOk(r.recvWait, r.recvWoken, |r.queue|)
  {
    if s.recvWait != [] {
      var h := s.recvWait[0];
      assert PhaseIn(s.threads, h).RecvWaiting? && h !in s.recvWoken;
      PhaseAfter(s.threads, h, RecvWoken(s.Phase(h).len));
      WakeSide(s.recvWait, s.recvWoken, items);
    }
  }

  lemma WakeSenderWaits(s: State, items: nat)
    requires Registered(s) && SideOk(s.sendWait, s.sendWoken, items) && |s.free| == items + 1
    ensures var r := WakeSender(s); Registered(r) && SideOk(r.sendWait, r.sendWoken, |r.free|)
  {
    if s.sendWait != [] {
      var h := s.sendWait[0];
      assert PhaseIn(s.threads, h).SendWaiting? && h !in s.sendWoken;
      PhaseAfter(s.threads, h, SendWoken(s.Phase(h).msg));
      WakeSide(s.sendWait, s.sendWoken, items);
    }
  }

  lemma WaitsKept(c: Config, s: State, e: Event)
    requires CellsOk(c, s) && PayloadOk(c, s) && WaitOk(s) && Enabled(c, s, e)
    ensures WaitOk(Next(c, s, e))
  {
    hide CellsOk, SideOk, Insert;
    match e {
      case Send(t, msg, urgent, wait) => TrySendWaits(c, s, t, msg, urgent, wait);
      case SendAgain(t, wait) => TrySendWaits(c, s, t, s.Phase(t).msg, false, wait);
      case ClearNext(t) => PhaseAfter(s.threads, t, s.Phase(t).(cleared := true));
      case CopyIn(t) => PhaseAfter(s.threads, t, s.Phase(t).(done := s.Phase(t).done + 1));
      case Publish(t) => PublishWaits(c, s, t);
      case Recv(t, len, wait) => TryRecvWaits(c, s, t, len, wait);
      case RecvAgain(t, wait) => TryRecvWaits(c, s, t, s.Phase(t).len, wait);
      case CopyOut(t) => PhaseAfter(s.threads, t, Next(c, s, e).Phase(t));
      case Return(t) => ReturnWaits(c, s, t);
      case Timeout(t) => TimeoutWaits(c, s, t);
      case Reset => ResetWaits(c, s);
    }
  }

  lemma PublishWaits(c: Config, s: State, t: Tid)
    requires WaitOk(s) && Enabled(c, s, Publish(t))
    ensures WaitOk(Next(c, s, Publish(t)))
  {
    var p := s.Phase(t);
    var s1 := s.(queue := if p.urgent then [p.cell] + s.queue else s.queue + [p.cell],
      msgs := if p.urgent then [p.msg] + s.msgs else s.msgs + [p.msg],
      log := s.log + [if p.urgent then Prepend(p.msg) else Append(p.msg)],
      place := Put(s.place, p.cell, Queued), threads := s.threads[t := Idle]);
    PhaseAfter(s.threads, t, Idle);
    WakeReceiverWaits(s1, |s.queue|);
  }

  lemma ReturnWaits(c: Config, s: State, t: Tid)
    requires WaitOk(s) && Enabled(c, s, Return(t))
    ensures WaitOk(Next(c, s, Return(t)))
  {
    var p := s.Phase(t);
    var s1 := s.(free := [p.cell] + s.free, place := Put(s.place, p.cell, Free), threads := s.threads[t := Idle],
      delivered := s.delivered + [Delivery(t, p.len, p.msg, p.got)]);
    PhaseAfter(s.threads, t, Idle);
    WakeSenderWaits(s1, |s.free|);
  }

  lemma TimeoutWaits(c: Config, s: State, t: Tid)
    requires WaitOk(s) && Enabled(c, s, Timeout(t))
    ensures WaitOk(Next(c, s, Timeout(t)))
  {
    PhaseAfter(s.threads, t, Idle);
    WithoutMembers(s.recvWait, t);
    WithoutMembers(s.sendWait, t);
  }

  lemma ResetWaits(c: Config, s: State)
    requires CellsOk(c, s) && WaitOk(s)
    ensures WaitOk(Next(c, s, Reset))
  {
    assert forall t :: t in s.recvWait ==> HoldsNone(PhaseIn(s.threads, t));
    assert forall t :: t in s.sendWait ==> HoldsNone(PhaseIn(s.threads, t));
    ReleaseHeld(s.place, s.threads, s.recvWait);
    ReleaseHeld(s.place, ReleaseAll(s.threads, s.recvWait), s.sendWait);
    var s' := Next(c, s, Reset);
    assert forall t: Tid {:trigger PhaseIn(s'.threads, t)} ::
        PhaseIn(s'.threads, t) == if t in s.recvWait || t in s.sendWait then Idle else PhaseIn(s.threads, t);
  }

  // ---------- Steps that touch payloads ----------

  lemma PhaseChanged(c: Config, data: seq<Message>, threads: map<Tid, Phase>, t: Tid, p: Phase)
    requires PhasesOk(c, data, threads) && PhaseOk(c, data, p)
    ensures PhasesOk(c, data, threads[t := p])
  {
    PhaseAfter(threads, t, p);
  }

  lemma ReplayStep(log: seq<Op>, op: Op)
    ensures Replay(log + [op]) == Apply(Replay(log), op)
  {
    assert (log + [op])[..|log|] == log;
  }

  lemma TrySendPayload(c: Config, s: State, t: Tid, msg: Message, urgent: bool, wait: bool)
    requires CellsOk(c, s) && PayloadOk(c, s) && 0 < |msg| <= c.msgSize
    ensures PayloadOk(c, TrySend(c, s, t, msg, urgent, wait))
  {
    hide PhasesOk, QueueHas, Replay;
    if |s.free| > 0 {
      FirstListed(s.place, s.free, Free);
      PhaseChanged(c, s.data, s.threads, t, Writing(s.free[0], msg, urgent, false, 0));
    } else {
      PhaseChanged(c, s.data, s.threads, t, if wait then SendWaiting(msg) else Idle);
    }
  }

  lemma TryRecvPayload(c: Config, s: State, t: Tid, len: nat, wait: bool)
    requires CellsOk(c, s) && PayloadOk(c, s)
    ensures PayloadOk(c, TryRecv(c, s, t, len, wait))
  {
    hide PhasesOk, Replay, CellsOk;
    if |s.queue| > 0 {
      PhaseChanged(c, s.data, s.threads, t, Reading(s.queue[0], len, s.msgs[0], []));
      ReplayStep(s.log, Pop(s.msgs[0]));
      assert QueueHas(s.data, s.queue[1..], s.msgs[1..]);
    } else {
      PhaseChanged(c, s.data, s.threads, t, if wait then RecvWaiting(len) else Idle);
    }
  }

  lemma WakePayload(c: Config, s: State)
    requires PayloadOk(c, s)
    ensures PayloadOk(c, WakeReceiver(s)) && PayloadOk(c, WakeSender(s))
  {
    if s.recvWait != [] {
      var h := s.recvWait[0]; var p := s.Phase(h);
      PhaseChanged(c, s.data, s.threads, h, if p.RecvWaiting? then RecvWoken(p.len) else p);
    }
    if s.sendWait != [] {
      var h := s.sendWait[0]; var p := s.Phase(h);
      PhaseChanged(c, s.data, s.threads, h, if p.SendWaiting? then SendWoken(p.msg) else p);
    }
  }

  /** One byte of rt_memcpy into a reserved cell disturbs no other cell's reader, writer or message. */
  lemma CopyInPayload(c: Config, s: State, t: Tid)
    requires CellsOk(c, s) && PayloadOk(c, s) && Enabled(c, s, CopyIn(t))
    ensures PayloadOk(c, Next(c, s, CopyIn(t)))
  {
    var s', p := Next(c, s, CopyIn(t)), s.Phase(t);
    assert Holds(PhaseIn(s.threads, t), p.cell);
    PhaseAfter(s.threads, t, p.(done := p.done + 1));
    forall u: Tid {:trigger PhaseIn(s'.threads, u)} | true ensures PhaseOk(c, s'.data, PhaseIn(s'.threads, u)) {
      var q := PhaseIn(s.threads, u);
      assert PhaseOk(c, s.data, q);
      if u != t && (q.Writing? || q.Reading?) { assert Holds(PhaseIn(s.threads, u), q.cell) && q.cell != p.cell; }
    }
    CopyInQueue(s, p.cell, s'.data);
  }

  lemma CopyInQueue(s: State, cell: nat, data: seq<Message>)
    requires QueueHas(s.data, s.queue, s.msgs) && Lists(s.place, s.queue, Queued)
    requires cell < |s.place| && s.place[cell] != Queued && |data| == |s.data|
    requires forall k :: 0 <= k < |data| && k != cell ==> data[k] == s.data[k]
    ensures QueueHas(data, s.queue, s.msgs)
  {
    forall i | 0 <= i < |s.queue| ensures s.queue[i] < |data| && Has(data[s.queue[i]], s.msgs[i], |s.msgs[i]|) {
      assert s.queue[i] in s.queue;
    }
  }

  lemma CopyOutPayload(c: Config, s: State, t: Tid)
    requires PayloadOk(c, s) && Enabled(c, s, CopyOut(t))
    ensures PayloadOk(c, Next(c, s, CopyOut(t)))
  {
    hide Replay, QueueHas;
    var p := s.Phase(t);
    assert PhaseOk(c, s.data, PhaseIn(s.threads, t));
    var b := s.data[p.cell][|p.got|];
    PhaseChanged(c, s.data, s.threads, t, p.(got := p.got + [b]));
  }

  lemma PublishPayload(c: Config, s: State, t: Tid)
    requires PayloadOk(c, s) && Enabled(c, s, Publish(t))
    ensures PayloadOk(c, Next(c, s, Publish(t)))
  {
    var p := s.Phase(t);
    assert PhaseOk(c, s.data, PhaseIn(s.threads, t));
    var s1 := s.(queue := if p.urgent then [p.cell] + s.queue else s.queue + [p.cell],
      msgs := if p.urgent then [p.msg] + s.msgs else s.msgs + [p.msg],
      log := s.log + [if p.urgent then Prepend(p.msg) else Append(p.msg)],
      place := Put(s.place, p.cell, Queued), threads := s.threads[t := Idle]);
    PhaseChanged(c, s.data, s.threads, t, Idle);
    ReplayStep(s.log, if p.urgent then Prepend(p.msg) else Append(p.msg));
    assert QueueHas(s1.data, s1.queue, s1.msgs);
    hide PhasesOk, QueueHas, Replay;
    WakePayload(c, s1);
  }

  lemma ReturnPayload(c: Config, s: State, t: Tid)
    requires PayloadOk(c, s) && Enabled(c, s, Return(t))
    ensures PayloadOk(c, Next(c, s, Return(t)))
  {
    var p := s.Phase(t);
    assert PhaseOk(c, s.data, PhaseIn(s.threads, t));
    hide PhasesOk, QueueHas, Replay;
    var d := Delivery(t, p.len, p.msg, p.got);
    assert DeliveredOk(c, d);
    var s1 := s.(free := [p.cell] + s.free, place := Put(s.place, p.cell, Free), threads := s.threads[t := Idle],
      delivered := s.delivered + [d]);
    PhaseChanged(c, s.data, s.threads, t, Idle);
    WakePayload(c, s1);
  }

  lemma {:induction false} ReleasePayload(c: Config, data: seq<Message>, threads: map<Tid, Phase>, list: seq<Tid>)
    requires PhasesOk(c, data, threads)
    ensures PhasesOk(c, data, ReleaseAll(threads, list))
    decreases |list|
  {
    hide PhasesOk;
    if list != [] {
      PhaseChanged(c, data, threads, list[0], Idle);
      ReleasePayload(c, data, threads[list[0] := Idle], list[1..]);
    }
  }

  lemma PayloadKept(c: Config, s: State, e: Event)
    requires CellsOk(c, s) && PayloadOk(c, s) && Enabled(c, s, e)
    ensures PayloadOk(c, Next(c, s, e))
  {
    hide CellsOk, QueueHas, Replay;
    match e {
      case Send(t, msg, urgent, wait) => if |msg| <= c.msgSize { TrySendPayload(c, s, t, msg, urgent, wait); }
      case SendAgain(t, wait) =>
        assert PhaseOk(c, s.data, PhaseIn(s.threads, t));
        TrySendPayload(c, s, t, s.Phase(t).msg, false, wait);
      case ClearNext(t) =>
        assert PhaseOk(c, s.data, PhaseIn(s.threads, t));
        PhaseChanged(c, s.data, s.threads, t, s.Phase(t).(cleared := true));
      case CopyIn(t) => CopyInPayload(c, s, t);
      case Publish(t) => PublishPayload(c, s, t);
      case Recv(t, len, wait) => TryRecvPayload(c, s, t, len, wait);
      case RecvAgain(t, wait) => TryRecvPayload(c, s, t, s.Phase(t).len, wait);
      case CopyOut(t) => CopyOutPayload(c, s, t);
      case Return(t) => ReturnPayload(c, s, t);
      case Timeout(t) => PhaseChanged(c, s.data, s.threads, t, Idle);
      case Reset =>
        ReleasePayload(c, s.data, s.threads, s.recvWait);
        ReleasePayload(c, s.data, ReleaseAll(s.threads, s.recvWait), s.sendWait);
        ReplayStep(s.log, Clear);
        EmptyQueueHas(s.data);
    }
  }

  lemma EmptyQueueHas(data: seq<Message>)
    ensures QueueHas(data, [], [])
  {
  }
}
