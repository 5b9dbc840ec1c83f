/** The message queue in place: cells linked through `next`, a head, a tail, a free pointer and the
    16-bit counter `entry`.  One method per interrupt-disabled region or unlocked byte, each proved
    to be the matching step of MqModel. */
module MqQueue {
  import opened Chains
  import opened HeapBlocks
  import opened WaitList
  import opened MqModel
  import opened MqProofs
  import opened MqRuns

  ghost predicate Cleared(next: seq<int>, threads: map<Tid, Phase>) {
    forall t: Tid {:trigger PhaseIn(threads, t)} ::
      var p := PhaseIn(threads, t);
      p.Writing? && p.cleared ==> p.cell < |next| && next[p.cell] == NULL
  }

  lemma ClearedKept(next: seq<int>, threads: map<Tid, Phase>, t: Tid, p: Phase, next': seq<int>)
    requires Cleared(next, threads) && |next'| == |next|
    requires forall u: Tid, cell: nat {:trigger Holds(PhaseIn(threads, u), cell)} ::
      u != t && Holds(PhaseIn(threads, u), cell) && cell < |next| ==> next'[cell] == next[cell]
    requires p.Writing? && p.cleared ==> p.cell < |next'| && next'[p.cell] == NULL
    ensures Cleared(next', threads[t := p])
  {
    forall u: Tid {:trigger PhaseIn(threads[t := p], u)} | true
      ensures var q := PhaseIn(threads[t := p], u); q.Writing? && q.cleared ==> q.cell < |next'| && next'[q.cell] == NULL
    {
      var q := PhaseIn(threads, u);
      assert u != t && q.Writing? ==> Holds(PhaseIn(threads, u), q.cell);
    }
  }

  /** What the invariant says of the cell a thread holds. */
  lemma HeldFacts(c: Config, s: State, t: Tid, cell: nat)
    requires Inv(c, s) && Holds(s.Phase(t), cell)
    ensures cell < c.n && cell !in s.queue && cell !in s.free
    ensures forall u: Tid, k: nat {:trigger Holds(PhaseIn(s.threads, u), k)} ::
      u != t && Holds(PhaseIn(s.threads, u), k) ==> k != cell && k < c.n
  {
    assert Holds(PhaseIn(s.threads, t), cell);
  }

  /** ... and of the two lists. */
  lemma ListFacts(c: Config, s: State)
    requires Inv(c, s)
    ensures Distinct(s.queue) && Distinct(s.free) && |s.msgs| == |s.queue|
    ensures forall u: Tid, k: nat {:trigger Holds(PhaseIn(s.threads, u), k)} ::
      Holds(PhaseIn(s.threads, u), k) ==> k < c.n && k !in s.queue && k !in s.free
    ensures forall k: nat :: k in s.queue ==> k < c.n && k !in s.free
  {
  }

  lemma WritingFits(c: Config, s: State, t: Tid)
    requires Inv(c, s) && s.Phase(t).Writing?
    ensures |s.Phase(t).msg| <= c.msgSize
  {
    assert PhaseOk(c, s.data, PhaseIn(s.threads, t));
  }

  function Tail(q: seq<nat>): int { if q == [] then NULL else q[|q| - 1] }

  lemma ClearedAfterWake(next: seq<int>, threads: map<Tid, Phase>, wait: seq<Tid>)
    requires Cleared(next, threads)
    ensures wait != [] ==>
      var p := PhaseIn(threads, wait[0]);
      && Cleared(next, threads[wait[0] := if p.RecvWaiting? then RecvWoken(p.len) else p])
      && Cleared(next, threads[wait[0] := if p.SendWaiting? then SendWoken(p.msg) else p])
  {
    if wait != [] {
      var p := PhaseIn(threads, wait[0]);
      ClearedKept(next, threads, wait[0], if p.RecvWaiting? then RecvWoken(p.len) else p, next);
      ClearedKept(next, threads, wait[0], if p.SendWaiting? then SendWoken(p.msg) else p, next);
    }
  }

  /** Moving the first queued cell to the free stack. */
  lemma FreeStep(rest: seq<nat>, done: seq<nat>)
    requires rest != [] && Distinct(rest) && forall k :: k in rest ==> k !in done
    ensures Distinct(rest[1..]) && rest[0] !in rest[1..] && rest[0] in rest && rest[0] !in done
    ensures forall k :: k in rest[1..] ==> k in rest && k !in [rest[0]] + done
    ensures Reversed(rest[1..]) + ([rest[0]] + done) == Reversed(rest) + done
  {
  }

  lemma ClearedFrame(next: seq<int>, threads: map<Tid, Phase>, next': seq<int>)
    requires Cleared(next, threads) && |next'| == |next|
    requires forall u: Tid, cell: nat {:trigger Holds(PhaseIn(threads, u), cell)} ::
      Holds(PhaseIn(threads, u), cell) && cell < |next| ==> next'[cell] == next[cell]
    ensures Cleared(next', threads)
  {
    forall u: Tid {:trigger PhaseIn(threads, u)} | true
      ensures var q := PhaseIn(threads, u); q.Writing? && q.cleared ==> q.cell < |next'| && next'[q.cell] == NULL
    {
      var q := PhaseIn(threads, u);
      assert q.Writing? ==> Holds(PhaseIn(threads, u), q.cell);
    }
  }

  lemma {:induction false} ClearedRelease(next: seq<int>, threads: map<Tid, Phase>, list: seq<Tid>)
    requires Cleared(next, threads)
    ensures Cleared(next, ReleaseAll(threads, list))
    decreases |list|
  {
    if list != [] {
      ClearedKept(next, threads, list[0], Idle, next);
      ClearedRelease(next, threads[list[0] := Idle], list[1..]);
    }
  }

  lemma TailIs(q: seq<nat>, cell: nat)
    requires Distinct(q) && q != [] && q[0] == cell
    ensures Tail(q[1..]) == if Tail(q) == cell then NULL else Tail(q)
  {
  }

  /** The links spell out the queue and the free stack. */
  ghost predicate Linked(next: seq<int>, s: State, head: int, tail: int, free: int) {
    && Chain(next, s.queue, head)
    && Chain(next, s.free, free)
    && tail == Tail(s.queue)
    && Cleared(next, s.threads)
  }

  lemma PublishLinked(c: Config, s: State, t: Tid, next: seq<int>, head: int, tail: int, free: int)
    requires c.n < 0x1_0000 && Inv(c, s) && Enabled(c, s, Publish(t))
    requires var p := s.Phase(t); var q := if p.urgent then [p.cell] + s.queue else s.queue + [p.cell];
      Chain(next, q, head) && tail == Tail(q)
    requires Chain(next, s.free, free) && Cleared(next, s.threads[t := Idle])
    ensures var s' := Next(c, s, Publish(t));
      && Inv(c, s') && Linked(next, s', head, tail, free)
      && |s'.queue| == |s.queue| + 1 <= 0xFFFF && s'.data == s.data
      && s'.recvWait == (if s.recvWait == [] then [] else s.recvWait[1..]) && s'.sendWait == s.sendWait
  {
    PublishHasRoom(c, s, t);
    StepKeeps(c, s, Publish(t));
    hide Inv, Chain, Cleared;
    ClearedAfterWake(next, s.threads[t := Idle], s.recvWait);
  }

  lemma TakeLinked(c: Config, s: State, t: Tid, len: nat, wait: bool, e: Event, next: seq<int>, head: int, tail: int, free: int)
    requires Inv(c, s) && Enabled(c, s, e) && Next(c, s, e) == TryRecv(c, s, t, len, wait) && Linked(next, s, head, tail, free)
    ensures Inv(c, Next(c, s, e))
    ensures |s.msgs| == |s.queue|
    ensures var s' := Next(c, s, e);
      && s'.data == s.data && s'.sendWait == s.sendWait
      && if s.queue == [] then
           s'.queue == [] && Linked(next, s', head, tail, free) && s'.recvWait == if wait then Insert(s.recvWait, t, c.flag, PrioOf(c)) else s.recvWait
         else
           && 0 <= head < |next| && Linked(next, s', next[head], if tail == head then NULL else tail, free)
           && s'.queue == s.queue[1..] && s'.recvWait == s.recvWait && s'.Phase(t) == Reading(head, len, s.msgs[0], [])
  {
    ListFacts(c, s);
    StepKeeps(c, s, e);
    hide Inv, Insert;
    ChainCells(next, s.queue, head);
    if s.queue != [] { TailIs(s.queue, s.queue[0]); }
    ClearedKept(next, s.threads, t, TryRecv(c, s, t, len, wait).threads[t], next);
  }

  class MessageQueue {
    const cfg: Config
    const next: array<int>
    const pool: array2<Byte>
    var head: int
    var tail: int
    var free: int
    var entry: nat
    var recvWait: seq<Tid>
    var sendWait: seq<Tid>
    ghost var s: State

    ghost predicate Links()
      reads this, next
    {
      next.Length == cfg.n && Linked(next[..], s, head, tail, free)
    }

    /** The cells hold the bytes of data. */
    ghost predicate Stored(data: seq<Message>)
      reads pool
    {
      && pool.Length0 == cfg.n && pool.Length1 == cfg.msgSize && Rectangular(cfg, data)
      && forall i, j :: 0 <= i < cfg.n && 0 <= j < cfg.msgSize ==> pool[i, j] == data[i][j]
    }

    ghost predicate Valid()
      reads this, next, pool
    {
      && cfg.n < 0x1_0000
      && Inv(cfg, s)
      && Links() && Stored(s.data)
      && entry == |s.queue| && recvWait == s.recvWait && sendWait == s.sendWait
    }

    /** The head of rt_mq_send_wait and rt_mq_urgent with its reserving region.  A message that is too long is an
        error and changes nothing; otherwise NULL means queue full, and then the thread is on the sender list if
        it may wait. */
    method Reserve(t: Tid, msg: Message, urgent: bool, wait: bool) returns (cell: int, tooLong: bool)
      requires Valid() && Enabled(cfg, s, Send(t, msg, urgent, wait))
      modifies this
      ensures Valid() && s == Next(cfg, old(s), Send(t, msg, urgent, wait))
      ensures tooLong == (|msg| > cfg.msgSize) && (tooLong ==> s == old(s))
      ensures cell == NULL <==> tooLong || old(s.free) == []
      ensures cell != NULL ==> cell >= 0 && s.Phase(t) == Writing(cell, msg, urgent, false, 0)
    {
      tooLong := |msg| > cfg.msgSize;
      if tooLong { return NULL, true; }
      cell := TakeFree(t, msg, urgent, wait, Send(t, msg, urgent, wait));
    }

    /** The same after a wait. */
    method ReserveAgain(t: Tid, msg: Message, wait: bool) returns (cell: int)
      requires Valid() && s.Phase(t) == SendWoken(msg)
      modifies this
      ensures Valid() && s == Next(cfg, old(s), SendAgain(t, wait))
      ensures cell == NULL <==> old(s.free) == []
      ensures cell != NULL ==> cell >= 0 && s.Phase(t) == Writing(cell, msg, false, false, 0)
    {
      cell := TakeFree(t, msg, false, wait, SendAgain(t, wait));
    }

    method TakeFree(t: Tid, msg: Message, urgent: bool, wait: bool, ghost e: Event) returns (cell: int)
      requires Valid() && Enabled(cfg, s, e) && Next(cfg, s, e) == TrySend(cfg, s, t, msg, urgent, wait)
      requires HoldsNone(s.Phase(t))
      modifies this
      ensures Valid() && s == Next(cfg, old(s), e)
      ensures cell == NULL <==> old(s.free) == []
      ensures cell != NULL ==> cell >= 0 && s.Phase(t) == Writing(cell, msg, urgent, false, 0)
    {
      hide Inv, Insert;
      StepKeeps(cfg, s, e);
      ChainCells(next[..], s.free, free);
      cell := free;
      ClearedKept(next[..], s.threads, t, TrySend(cfg, s, t, msg, urgent, wait).threads[t], next[..]);
      if cell == NULL {
        if wait { sendWait := Suspend(sendWait, t, cfg.flag, PrioOf(cfg)); }
      } else {
        free := next[cell];
      }
      s := Next(cfg, s, e);
    }

    /** msg->next = NULL, outside the lock. */
    method ClearNext(t: Tid, cell: nat)
      requires Valid() && Enabled(cfg, s, Event.ClearNext(t)) && s.Phase(t).cell == cell
      modifies this`s, next
      ensures Valid() && s == Next(cfg, old(s), Event.ClearNext(t))
    {
      HeldFacts(cfg, s, t, cell);
      StepKeeps(cfg, s, Event.ClearNext(t));
      hide Inv;
      ChainFrame(next[..], s.queue, head, cell, NULL);
      ChainFrame(next[..], s.free, free, cell, NULL);
      ClearedKept(next[..], s.threads, t, s.Phase(t).(cleared := true), next[..][cell := NULL]);
      next[cell] := NULL;
      assert next[..] == old(next[..])[cell := NULL];
      s := Next(cfg, s, Event.ClearNext(t));
    }

    /** One byte of the copy into the cell, outside the lock. */
    method CopyIn(t: Tid, cell: nat, i: nat, b: Byte)
      requires Valid() && Enabled(cfg, s, Event.CopyIn(t))
      requires s.Phase(t).cell == cell && s.Phase(t).done == i && s.Phase(t).msg[i] == b
      modifies this`s, pool
      ensures Valid() && s == Next(cfg, old(s), Event.CopyIn(t))
    {
      HeldFacts(cfg, s, t, cell);
      WritingFits(cfg, s, t);
      StepKeeps(cfg, s, Event.CopyIn(t));
      hide Inv, Chain;
      ClearedKept(next[..], s.threads, t, s.Phase(t).(done := i + 1), next[..]);
      pool[cell, i] := b;
      s := Next(cfg, s, Event.CopyIn(t));
    }

    /** One byte of the copy out of the cell, outside the lock. */
    method CopyOut(t: Tid, cell: nat, i: nat) returns (b: Byte)
      requires Valid() && Enabled(cfg, s, Event.CopyOut(t))
      requires s.Phase(t).cell == cell && |s.Phase(t).got| == i
      modifies this`s
      ensures Valid() && s == Next(cfg, old(s), Event.CopyOut(t))
      ensures s.Phase(t).got == old(s.Phase(t).got) + [b]
    {
      HeldFacts(cfg, s, t, cell);
      StepKeeps(cfg, s, Event.CopyOut(t));
      hide Inv, Chain;
      b := pool[cell, i];
      ClearedKept(next[..], s.threads, t, s.Phase(t).(got := s.Phase(t).got + [b]), next[..]);
      s := Next(cfg, s, Event.CopyOut(t));
    }

    /** Link the cell behind the tail. */
    method LinkBack(cell: nat, ghost q: seq<nat>, ghost f: seq<nat>)
      requires Distinct(q) && Chain(next[..], q, head) && Chain(next[..], f, free) && tail == Tail(q)
      requires cell < next.Length && cell !in q && next[cell] == NULL && forall k :: k in q ==> k !in f && k < next.Length
      modifies this`head, this`tail, next
      ensures Chain(next[..], q + [cell], head) && Chain(next[..], f, free) && tail == cell
      ensures forall k :: 0 <= k < next.Length && k !in q ==> next[k] == old(next[k])
    {
      if q != [] {
        assert Tail(q) in q;
        ChainAppend(next[..], q, head, cell);
        ChainFrame(next[..], f, free, Tail(q), cell);
      }
      if tail != NULL { next[tail] := cell; }
      assert next[..] == if q == [] then old(next[..]) else old(next[..])[Tail(q) := cell];
      tail := cell;
      if head == NULL { head := cell; }
      if q == [] {
        assert q + [cell] == [cell];
        assert [cell][1..] == [];
      }
    }

    /** Link the cell before the head. */
    method LinkFront(cell: nat, ghost q: seq<nat>, ghost f: seq<nat>)
      requires Chain(next[..], q, head) && Chain(next[..], f, free) && tail == Tail(q)
      requires cell < next.Length && cell !in q && cell !in f
      modifies this`head, this`tail, next
      ensures Chain(next[..], [cell] + q, head) && Chain(next[..], f, free) && tail == Tail([cell] + q)
      ensures forall k :: 0 <= k < next.Length && k != cell ==> next[k] == old(next[k])
    {
      ChainFrame(next[..], q, head, cell, head);
      ChainFrame(next[..], f, free, cell, head);
      next[cell] := head;
      assert next[..] == old(next[..])[cell := head];
      head := cell;
      if tail == NULL { tail := cell; }
      assert ([cell] + q)[1..] == q;
    }

    method Link(t: Tid, cell: nat, urgent: bool)
      requires Inv(cfg, s) && Links()
      requires Enabled(cfg, s, Event.Publish(t)) && s.Phase(t).cell == cell && s.Phase(t).urgent == urgent
      modifies this`head, this`tail, next
      ensures var q := if urgent then [cell] + s.queue else s.queue + [cell];
        Chain(next[..], q, head) && tail == Tail(q)
      ensures Chain(next[..], s.free, free) && Cleared(next[..], s.threads[t := Idle])
    {
      HeldFacts(cfg, s, t, cell);
      ListFacts(cfg, s);
      assert PhaseIn(s.threads, t).Writing?;
      hide Inv, Chain, PhaseIn;
      if urgent { LinkFront(cell, s.queue, s.free); } else { LinkBack(cell, s.queue, s.free); }
      ClearedKept(old(next[..]), s.threads, t, Idle, next[..]);
    }

    /** The publishing region.  The entry counter never overflows, so the only result is RT_EOK, and
        the longest-waiting (or most urgent) receiver is woken. */
    method Publish(t: Tid, cell: nat, urgent: bool) returns (full: bool)
      requires Valid() && Enabled(cfg, s, Event.Publish(t)) && s.Phase(t).cell == cell && s.Phase(t).urgent == urgent
      modifies this, next
      ensures Valid() && s == Next(cfg, old(s), Event.Publish(t)) && !full
    {
      hide Inv, Enabled, Linked, Chain, Cleared, Next, Tail, MessageQueue.Stored;
      ghost var e := Event.Publish(t);
      Link(t, cell, urgent);
      PublishLinked(cfg, s, t, next[..], head, tail, free);
      full := entry >= 0xFFFF;
      if !full { entry := entry + 1; }
      if recvWait != [] { recvWait := recvWait[1..]; }
      s := Next(cfg, s, e);
    }

    /** The taking region of rt_mq_recv; NULL means queue empty, and then the thread is on the
        receiver list if it may wait. */
    method Take(t: Tid, len: nat, wait: bool) returns (cell: int)
      requires Valid() && Enabled(cfg, s, Recv(t, len, wait))
      modifies this
      ensures Valid() && s == Next(cfg, old(s), Recv(t, len, wait))
      ensures cell == NULL <==> old(s.queue) == []
      ensures cell != NULL ==> cell >= 0 && s.Phase(t) == Reading(cell, len, old(s.msgs)[0], [])
    {
      cell := TakeHead(t, len, wait, Recv(t, len, wait));
    }

    /** The same after a wait. */
    method TakeAgain(t: Tid, len: nat, wait: bool) returns (cell: int)
      requires Valid() && s.Phase(t) == RecvWoken(len)
      modifies this
      ensures Valid() && s == Next(cfg, old(s), RecvAgain(t, wait))
      ensures cell == NULL <==> old(s.queue) == []
      ensures cell != NULL ==> cell >= 0 && s.Phase(t) == Reading(cell, len, old(s.msgs)[0], [])
    {
      cell := TakeHead(t, len, wait, RecvAgain(t, wait));
    }

    method TakeHead(t: Tid, len: nat, wait: bool, ghost e: Event) returns (cell: int)
      requires Valid() && Enabled(cfg, s, e) && Next(cfg, s, e) == TryRecv(cfg, s, t, len, wait)
      modifies this
      ensures Valid() && s == Next(cfg, old(s), e)
      ensures cell == NULL <==> old(s.queue) == []
      ensures |old(s.msgs)| == |old(s.queue)|
      ensures cell != NULL ==> cell >= 0 && s.Phase(t) == Reading(cell, len, old(s.msgs)[0], [])
    {
      hide Inv, Enabled, Insert, Next, Linked, TryRecv, MessageQueue.Stored;
      TakeLinked(cfg, s, t, len, wait, e, next[..], head, tail, free);
      if entry == 0 {
        cell := NULL;
        if wait { recvWait := Suspend(recvWait, t, cfg.flag, PrioOf(cfg)); }
      } else {
        cell := head;
        head := next[cell];
        if tail == cell { tail := NULL; }
        entry := entry - 1;
      }
      s := Next(cfg, s, e);
    }

    /** The returning region: the cell goes on top of the free stack and a sender is woken. */
    method Return(t: Tid, cell: nat)
      requires Valid() && Enabled(cfg, s, Event.Return(t)) && s.Phase(t).cell == cell
      modifies this, next
      ensures Valid() && s == Next(cfg, old(s), Event.Return(t))
    {
      hide Inv, Chain, MessageQueue.Stored;
      ghost var e := Event.Return(t);
      HeldFacts(cfg, s, t, cell);
      StepKeeps(cfg, s, e);
      ChainFrame(next[..], s.queue, head, cell, free);
      PushFree(cell, s.free);
      ClearedKept(old(next[..]), s.threads, t, Idle, next[..]);
      ClearedAfterWake(next[..], s.threads[t := Idle], sendWait);
      hide Cleared;
      if sendWait != [] { sendWait := sendWait[1..]; }
      s := Next(cfg, s, e);
    }

    method PushFree(cell: nat, ghost f: seq<nat>)
      requires cell < next.Length && cell !in f && Chain(next[..], f, free)
      modifies this`free, next
      ensures next[..] == old(next[..])[cell := old(free)] && Chain(next[..], [cell] + f, free)
    {
      ChainFrame(next[..], f, free, cell, free);
      next[cell] := free;
      free := cell;
      assert next[..] == old(next[..])[cell := old(free)];
      assert ([cell] + f)[1..] == f;
    }

    /** The timer of a waiting thread fires: rt_thread_timeout unlinks it from its list. */
    method Timeout(t: Tid)
      requires Valid() && Enabled(cfg, s, Event.Timeout(t))
      modifies this`s, this`recvWait, this`sendWait
      ensures Valid() && s == Next(cfg, old(s), Event.Timeout(t))
    {
      StepKeeps(cfg, s, Event.Timeout(t));
      hide Inv, Chain;
      ClearedKept(next[..], s.threads, t, Idle, next[..]);
      recvWait, sendWait := Without(recvWait, t), Without(sendWait, t);
      s := Next(cfg, s, Event.Timeout(t));
    }

    /** The reset command: every waiter is released and every queued cell goes back, head first. */
    method Reset()
      requires Valid()
      modifies this, next
      ensures Valid() && s == Next(cfg, old(s), Event.Reset)
    {
      hide Inv, Chain, Cleared, MessageQueue.Stored, Replay, SetPlaces;
      StepKeeps(cfg, s, Event.Reset);
      ListFacts(cfg, s);
      recvWait, sendWait := [], [];
      FreeQueue(s.queue, s.free);
      entry := 0;
      ClearedFrame(old(next[..]), s.threads, next[..]);
      ClearedRelease(next[..], s.threads, s.recvWait);
      ClearedRelease(next[..], ReleaseAll(s.threads, s.recvWait), s.sendWait);
      s := Next(cfg, s, Event.Reset);
    }

    /** The release loop of rt_mq_control. */
    method FreeQueue(ghost q: seq<nat>, ghost f: seq<nat>)
      requires Chain(next[..], q, head) && Chain(next[..], f, free) && tail == Tail(q) && Distinct(q)
      requires forall k :: k in q ==> k < next.Length && k !in f
      modifies this`head, this`tail, this`free, next
      ensures Chain(next[..], [], head) && tail == NULL && Chain(next[..], Reversed(q) + f, free)
      ensures forall k :: 0 <= k < next.Length && k !in q ==> next[k] == old(next[k])
    {
      ghost var rest: seq<nat>, done: seq<nat> := q, f;
      while head != NULL
        invariant Chain(next[..], rest, head) && Chain(next[..], done, free) && tail == Tail(rest) && Distinct(rest)
        invariant forall k :: k in rest ==> k < next.Length && k !in done && k in q
        invariant Reversed(q) + f == Reversed(rest) + done
        invariant forall k :: 0 <= k < next.Length && k !in q ==> next[k] == old(next[k])
        decreases |rest|
      {
        var msg: nat := head;
        FreeStep(rest, done);
        TailIs(rest, msg);
        ChainFrame(next[..], rest[1..], next[msg], msg, free);
        head := next[msg];
        if tail == msg { tail := NULL; }
        PushFree(msg, done);
        rest, done := rest[1..], [msg] + done;
      }
      assert Reversed(rest) + done == done;
    }

    /** rt_mq_init. */
    constructor (size: nat, poolSize: nat, flag: Flag, prio: map<Tid, nat>)
      requires size < WORD && poolSize < WORD
      ensures cfg == Config((poolSize / (RoundUp(size) % 0x1_0000 + 4)) % 0x1_0000, RoundUp(size) % 0x1_0000, flag, prio)
      ensures Valid() && fresh(next) && fresh(pool)
      ensures exists garbage :: Rectangular(cfg, garbage) && s == Init(cfg, garbage)
    {
      var msgSize := RoundUp(size) % 0x1_0000;
      var n := (poolSize / (msgSize + 4)) % 0x1_0000;
      cfg := Config(n, msgSize, flag, prio);
      next := new int[n];
      pool := new Byte[n, msgSize];
      head, tail, free, entry, recvWait, sendWait := NULL, NULL, NULL, 0, [], [];
      new;
      var i := 0;
      while i < n
        invariant i <= n && Chain(next[..], Countdown(i), free)
        invariant forall k :: k in Countdown(i) ==> k < i
        invariant head == NULL && tail == NULL && entry == 0 && recvWait == [] && sendWait == []
      {
        PushFree(i, Countdown(i));
        assert Countdown(i + 1) == [i] + Countdown(i);
        i := i + 1;
      }
      ghost var garbage := Contents(pool);
      s := Init(cfg, garbage);
      InitOk(cfg, garbage);
    }
  }

  ghost function Contents(pool: array2<Byte>): (r: seq<Message>)
    reads pool
    ensures |r| == pool.Length0 && forall i :: 0 <= i < |r| ==> |r[i]| == pool.Length1 && forall j :: 0 <= j < pool.Length1 ==> r[i][j] == pool[i, j]
  {
    seq(pool.Length0, i requires 0 <= i < pool.Length0 reads pool => seq(pool.Length1, j requires 0 <= j < pool.Length1 reads pool => pool[i, j]))
  }
}
