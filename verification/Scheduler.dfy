/** The scheduler of rt-thread/src/scheduler.c in place: ready queues with a one- or two-level bitmap,
    and the thread operations of thread.c over them. */
module Scheduler {
  import opened WaitList
  import opened Bits
  import opened KernelModel

  ghost predicate Busy(ready: seq<seq<Tid>>, p: nat) { p < |ready| && ready[p] != [] }

  /** RT_THREAD_PRIORITY_MAX <= 32: bit p of the group is set exactly when queue p is not empty. */
  ghost predicate OneLevel(ready: seq<seq<Tid>>, group: nat) {
    group < 0x1_0000_0000 && forall p: nat {:trigger Bit(group, p)} {:trigger Busy(ready, p)} :: Bit(group, p) <==> Busy(ready, p)
  }

  /** Above 32: table[p / 8] has bit p % 8, and the group has a bit for each table byte that is not zero. */
  ghost predicate TwoLevel(ready: seq<seq<Tid>>, group: nat, table: seq<nat>) {
    && |table| == 32 && group < 0x1_0000_0000
    && (forall n :: 0 <= n < 32 ==> table[n] < 256)
    && (forall n: nat {:trigger Bit(group, n)} :: Bit(group, n) <==> n < 32 && table[n] > 0)
    && (forall p: nat {:trigger Busy(ready, p)} :: p < 256 ==> (Bit(table[p / 8], p % 8) <==> Busy(ready, p)))
  }

  lemma Words()
    ensures Pow2(32) == 0x1_0000_0000 && Pow2(8) == 256
  {
    Powers();
    assert Pow2(10) == 1024 by { assert Pow2(9) == 512; }
    assert Pow2(14) == 16384 by { assert Pow2(12) == 4096; }
    assert Pow2(20) == 1048576 by { assert Pow2(16) == 65536; assert Pow2(18) == 262144; }
    assert Pow2(26) == 67108864 by { assert Pow2(22) == 4194304; assert Pow2(24) == 16777216; }
    assert Pow2(30) == 1073741824 by { assert Pow2(28) == 268435456; }
  }

  /** Queue p becomes r. */
  lemma OneLevelStep(ready: seq<seq<Tid>>, group: nat, p: nat, r: seq<Tid>)
    requires OneLevel(ready, group) && p < |ready| <= 32
    ensures OneLevel(ready[p := r], if r == [] then ClearBit(group, p) else SetBit(group, p))
  {
    hide Bit, SetBit, ClearBit;
    var g := if r == [] then ClearBit(group, p) else SetBit(group, p);
    Words();
    SetBitBelow(group, 32, p);
    forall q: nat {:trigger Bit(g, q)} | true ensures Bit(g, q) <==> Busy(ready[p := r], q) {
      SetBitIs(group, p, q);
      ClearBitIs(group, p, q);
      assert Bit(group, q) <==> Busy(ready, q);
    }
  }

  lemma TwoLevelSet(ready: seq<seq<Tid>>, group: nat, table: seq<nat>, p: nat, r: seq<Tid>)
    requires TwoLevel(ready, group, table) && p < |ready| <= 256 && r != []
    ensures TwoLevel(ready[p := r], SetBit(group, p / 8), table[p / 8 := SetBit(table[p / 8], p % 8)])
  {
    hide Bit, SetBit, ClearBit;
    var n, k := p / 8, p % 8;
    var b := SetBit(table[n], k);
    Words();
    SetBitBelow(group, 32, n);
    SetBitBelow(table[n], 8, k);
    SetBitIs(table[n], k, 0);
    TableByte(ready, group, table, p, r, b);
    forall m: nat {:trigger Bit(SetBit(group, n), m)} | true ensures Bit(SetBit(group, n), m) <==> m < 32 && table[n := b][m] > 0 {
      SetBitIs(group, n, m);
      assert Bit(group, m) <==> m < 32 && table[m] > 0;
    }
  }

  /** The table byte of queue p after the change. */
  lemma TableByte(ready: seq<seq<Tid>>, group: nat, table: seq<nat>, p: nat, r: seq<Tid>, b: nat)
    requires TwoLevel(ready, group, table) && p < |ready| <= 256
    requires b == if r == [] then ClearBit(table[p / 8], p % 8) else SetBit(table[p / 8], p % 8)
    ensures forall q: nat {:trigger Busy(ready[p := r], q)} :: q < 256 ==> (Bit(table[p / 8 := b][q / 8], q % 8) <==> Busy(ready[p := r], q))
  {
    hide Bit, SetBit, ClearBit;
    forall q: nat {:trigger Busy(ready[p := r], q)} | q < 256 ensures Bit(table[p / 8 := b][q / 8], q % 8) <==> Busy(ready[p := r], q) {
      assert Bit(table[q / 8], q % 8) <==> Busy(ready, q);
      SetBitIs(table[p / 8], p % 8, q % 8);
      ClearBitIs(table[p / 8], p % 8, q % 8);
      assert q / 8 == p / 8 && q % 8 == p % 8 ==> q == p;
    }
  }

  lemma TwoLevelClear(ready: seq<seq<Tid>>, group: nat, table: seq<nat>, p: nat)
    requires TwoLevel(ready, group, table) && p < |ready| <= 256
    ensures var b := ClearBit(table[p / 8], p % 8);
      TwoLevel(ready[p := []], if b == 0 then ClearBit(group, p / 8) else group, table[p / 8 := b])
  {
    hide Bit, SetBit, ClearBit;
    var n, k := p / 8, p % 8;
    var b := ClearBit(table[n], k);
    var g := if b == 0 then ClearBit(group, n) else group;
    Words();
    SetBitBelow(group, 32, n);
    SetBitBelow(table[n], 8, k);
    TableByte(ready, group, table, p, [], b);
    ClearedPositive(table[n], k);
    forall m: nat {:trigger Bit(g, m)} | true ensures Bit(g, m) <==> m < 32 && table[n := b][m] > 0 {
      ClearBitIs(group, n, m);
      assert Bit(group, m) <==> m < 32 && table[m] > 0;
    }
  }

  lemma {:induction false} ClearedPositive(v: nat, p: nat)
    ensures ClearBit(v, p) <= v
  {
    if p > 0 { ClearedPositive(v / 2, p - 1); }
  }

  /** __rt_ffs on the group finds the lowest busy queue. */
  lemma OneLevelHighest(ready: seq<seq<Tid>>, group: nat)
    requires OneLevel(ready, group) && exists q :: 0 <= q < |ready| && ready[q] != []
    ensures group > 0 && Ffs(group) == Lowest(ready) + 1
  {
    hide Bit, Ffs;
    var p := Lowest(ready);
    assert Busy(ready, p);
    if group == 0 { ZeroHasNone(p); }
    FfsIs(group);
    LowBitIs(group, p);
    assert Busy(ready, LowBit(group));
  }

  /** The two searches of the two-level bitmap find it too. */
  lemma TwoLevelHighest(ready: seq<seq<Tid>>, group: nat, table: seq<nat>)
    requires TwoLevel(ready, group, table) && |ready| <= 256 && exists q :: 0 <= q < |ready| && ready[q] != []
    ensures group > 0 && var n := Ffs(group) - 1; 0 <= n < 32 && 8 * n + Ffs(table[n]) - 1 == Lowest(ready)
  {
    var p := Lowest(ready);
    GroupLow(ready, group, table, p);
    ByteLow(ready, group, table, p);
    hide TwoLevel, Ffs, LowBit, Lowest, Bit;
    FfsIs(group);
    FfsIs(table[p / 8]);
  }

  /** p is the lowest busy queue: its byte is the lowest that is not zero ... */
  lemma GroupLow(ready: seq<seq<Tid>>, group: nat, table: seq<nat>, p: nat)
    requires TwoLevel(ready, group, table) && p < 256 && Busy(ready, p) && forall q: nat :: q < p ==> !Busy(ready, q)
    ensures group > 0 && LowBit(group) == p / 8
  {
    hide Bit;
    if table[p / 8] == 0 { ZeroHasNone(p % 8); }
    assert Bit(group, p / 8);
    if group == 0 { ZeroHasNone(p / 8); }
    LowBitIs(group, p / 8);
    var n := LowBit(group);
    Words();
    LowBitIs(table[n], 0);
    var k := LowBit(table[n]);
    if k >= 8 { BitsBelow(table[n], 8, k); }
    BusyAt(ready, group, table, n, k);
  }

  lemma BusyAt(ready: seq<seq<Tid>>, group: nat, table: seq<nat>, n: nat, k: nat)
    requires TwoLevel(ready, group, table) && n < 32 && k < 8
    ensures Bit(table[n], k) <==> Busy(ready, 8 * n + k)
  {
    hide Bit;
    var q := 8 * n + k;
    assert q / 8 == n && q % 8 == k;
    assert Busy(ready, q) || !Busy(ready, q);
  }

  /** ... and its bit is the lowest in that byte. */
  lemma ByteLow(ready: seq<seq<Tid>>, group: nat, table: seq<nat>, p: nat)
    requires TwoLevel(ready, group, table) && p < 256 && Busy(ready, p) && forall q: nat :: q < p ==> !Busy(ready, q)
    ensures table[p / 8] > 0 && LowBit(table[p / 8]) == p % 8
  {
    hide Bit;
    var b := table[p / 8];
    if b == 0 { ZeroHasNone(p % 8); }
    LowBitIs(b, p % 8);
    if LowBit(b) < p % 8 { BusyAt(ready, group, table, p / 8, LowBit(b)); }
  }

  datatype Current = Nothing | Running(t: Tid)

  class Kernel {
    const ready: array<seq<Tid>>     // rt_thread_priority_table
    const table: array<nat>          // rt_thread_ready_table
    var group: nat                   // rt_thread_ready_priority_group
    var waits: map<nat, seq<Tid>>
    var threads: map<Tid, Thread>
    var current: Current
    var currentPriority: nat
    var lockNest: int
    ghost var calls: map<nat, Phase> // where each caller is

    ghost function Value(): State
      reads this, ready
    {
      State(ready[..], waits, threads, calls)
    }

    ghost predicate Mapped()
      reads this, ready, table
    {
      Maps(ready[..])
    }

    /** The bitmap describes these queues. */
    ghost predicate Maps(rows: seq<seq<Tid>>)
      requires |rows| == ready.Length
      reads this, table
    {
      && 1 <= ready.Length <= 256 && table.Length == 32
      && if ready.Length <= 32 then OneLevel(rows, group) else TwoLevel(rows, group, table[..])
    }

    ghost predicate Valid()
      reads this, ready, table
    {
      Inv(Value()) && Mapped()
    }

    /** rt_system_scheduler_init, before any thread is started. */
    constructor (maxPrio: nat, created: map<Tid, Thread>)
      requires 1 <= maxPrio <= 256
      requires forall t: Tid {:trigger ThreadIn(created, t)} :: ThreadIn(created, t).stat == Born && !ThreadIn(created, t).timer
      ensures Valid() && fresh(ready) && fresh(table) && ready.Length == maxPrio
      ensures Value() == State(seq(maxPrio, _ => []), map[], created, map[]) && current == Nothing && lockNest == 0
    {
      ready := new seq<Tid>[maxPrio](_ => []);
      table := new nat[32](_ => 0);
      group, waits, threads, current, currentPriority, lockNest, calls := 0, map[], created, Nothing, maxPrio - 1, 0, map[];
      new;
      assert ready[..] == seq(maxPrio, _ => []);
      forall p: nat | true ensures !Bit(0, p) { ZeroHasNone(p); }
      hide Bit;
    }

    /** The list and bitmap part of rt_schedule_insert_thread. */
    method Enqueue(t: Tid, p: nat)
      requires Mapped() && p < ready.Length
      modifies this`group, ready, table
      ensures Mapped() && ready[..] == old(ready[..])[p := old(ready[p]) + [t]]
    {
      hide OneLevel, TwoLevel, SetBit;
      ready[p] := ready[p] + [t];
      assert ready[..] == old(ready[..])[p := old(ready[p]) + [t]];
      if ready.Length > 32 {
        TwoLevelSet(old(ready[..]), group, table[..], p, ready[p]);
        table[p / 8] := SetBit(table[p / 8], p % 8);
        group := SetBit(group, p / 8);
        assert table[..] == old(table[..])[p / 8 := SetBit(old(table[p / 8]), p % 8)];
      } else {
        OneLevelStep(old(ready[..]), group, p, ready[p]);
        group := SetBit(group, p);
      }
    }

    /** rt_schedule_remove_thread of a ready thread. */
    method Dequeue(t: Tid, p: nat)
      requires Mapped() && p < ready.Length && t in ready[p]
      modifies this`group, ready, table
      ensures Mapped() && ready[..] == old(ready[..])[p := Without(old(ready[p]), t)]
    {
      hide OneLevel, TwoLevel, SetBit, ClearBit;
      ready[p] := Without(ready[p], t);
      assert ready[..] == old(ready[..])[p := Without(old(ready[p]), t)];
      if ready[p] == [] {
        ClearBits(p, old(ready[..]));
      } else {
        StillBusy(old(ready[..]), group, table[..], p, ready[p]);
      }
    }

    /** Its bitmap part: queue p, perhaps not empty before, is empty. */
    method ClearBits(p: nat, ghost was: seq<seq<Tid>>)
      requires |was| == ready.Length && Maps(was) && p < ready.Length && ready[..] == was[p := []]
      modifies this`group, table
      ensures Mapped()
    {
      hide OneLevel, TwoLevel, SetBit, ClearBit;
      if ready.Length > 32 {
        TwoLevelClear(was, group, table[..], p);
        table[p / 8] := ClearBit(table[p / 8], p % 8);
        if table[p / 8] == 0 { group := ClearBit(group, p / 8); }
        assert table[..] == old(table[..])[p / 8 := ClearBit(old(table[p / 8]), p % 8)];
      } else {
        OneLevelStep(was, group, p, []);
        group := ClearBit(group, p);
      }
    }

    method Highest() returns (p: nat)
      requires Mapped() && exists q :: 0 <= q < ready.Length && ready[q] != []
      ensures p == Lowest(ready[..])
    {
      hide Ffs, Bit;
      assert exists q :: 0 <= q < |ready[..]| && ready[..][q] != [];
      if ready.Length <= 32 {
        OneLevelHighest(ready[..], group);
        p := Ffs(group) - 1;
      } else {
        TwoLevelHighest(ready[..], group, table[..]);
        var n := Ffs(group) - 1;
        p := 8 * n + Ffs(table[n]) - 1;
      }
    }

    /** rt_schedule; a context switch is the assignment of current. */
    method Schedule()
      requires Mapped() && exists q :: 0 <= q < ready.Length && ready[q] != []
      modifies this`current, this`currentPriority
      ensures lockNest == 0 ==> current == Running(ready[Lowest(ready[..])][0])
      ensures lockNest == 0 && current != old(current) ==> currentPriority == Lowest(ready[..])
      ensures lockNest != 0 || current == old(current) ==> current == old(current) && currentPriority == old(currentPriority)
    {
      if lockNest == 0 {
        var p := Highest();
        var to := Running(ready[p][0]);
        if to != current {
          currentPriority := p;
          current := to;
        }
      }
    }

    /** rt_enter_critical */
    method EnterCritical()
      modifies this`lockNest
      ensures lockNest == old(lockNest) + 1
    {
      lockNest := lockNest + 1;
    }

    /** rt_exit_critical: the outermost exit schedules at once. */
    method ExitCritical()
      requires Mapped() && exists q :: 0 <= q < ready.Length && ready[q] != []
      modifies this`lockNest, this`current, this`currentPriority
      ensures lockNest == if old(lockNest) <= 1 then 0 else old(lockNest) - 1
      ensures lockNest == 0 && old(current) != Nothing ==> current == Running(ready[Lowest(ready[..])][0])
      ensures lockNest > 0 || old(current) == Nothing ==> current == old(current)
    {
      lockNest := lockNest - 1;
      if lockNest <= 0 {
        lockNest := 0;
        if current != Nothing { Schedule(); }
      }
    }

    /** rt_thread_startup of a new thread up to its call of rt_thread_resume. */
    method StartThread(t: Tid)
      requires Valid() && Enabled(Value(), Startup(t))
      modifies this`threads
      ensures Valid() && Value() == Next(old(Value()), Startup(t))
      ensures var p := ThreadIn(old(threads), t).initPrio; ThreadIn(threads, t) == Thread(Suspended, p, p, false)
    {
      StepKeeps(Value(), Startup(t));
      hide Inv;
      var th := ThreadIn(threads, t);
      threads := threads[t := th.(prio := th.initPrio, stat := Suspended, timer := false)];
    }

    /** rt_list_remove, rt_timer_stop and rt_schedule_insert_thread: the common tail of a locked resume and of a
        timeout. */
    method MakeReady(t: Tid, th: Thread)
      requires Mapped() && th.prio < ready.Length && th.stat == Ready
      modifies this`group, this`waits, this`threads, ready, table
      ensures Mapped() && ready[..] == old(ready[..])[th.prio := old(ready[th.prio]) + [t]]
      ensures waits == Unwait(old(waits), t) && threads == old(threads)[t := th]
    {
      waits := Unwait(waits, t);
      threads := threads[t := th];
      Enqueue(t, th.prio);
    }

    /** The unlocked test of rt_thread_resume. */
    method CheckResume(c: nat, t: Tid) returns (ok: bool)
      requires Valid() && Enabled(Value(), ResumeCheck(c, t))
      modifies this`calls
      ensures Valid() && Value() == Next(old(Value()), ResumeCheck(c, t)) && ok == (CallIn(calls, c) == Resuming(t))
    {
      StepKeeps(Value(), ResumeCheck(c, t));
      ok := ThreadIn(threads, t).stat == Suspended;
      calls := calls[c := if ok then Resuming(t) else Idle];
    }

    /** The first region of rt_thread_resume: rt_list_remove from whatever list t is in, and rt_timer_stop. */
    method UnlinkResumed(c: nat, t: Tid)
      requires Valid() && CallIn(calls, c) == Resuming(t)
      modifies this`waits, this`threads, this`calls, ready
      ensures Value() == Next(old(Value()), ResumeUnlink(c))
      ensures Valid() <==> Harmless(old(Value()), ResumeUnlink(c))
    {
      StepKeepsIff(Value(), ResumeUnlink(c));
      var th := ThreadIn(threads, t);
      PrioFits(Value(), t);
      hide Inv, OneLevel, TwoLevel;
      if th.stat == Ready {
        ready[th.prio] := Without(ready[th.prio], t);
        assert ready[..] == old(ready[..])[th.prio := Without(old(ready[th.prio]), t)];
      } else {
        waits := Unwait(waits, t);
      }
      threads := threads[t := th.(timer := false)];
      calls := calls[c := Unlinked(t)];
    }

    /** The second region of rt_thread_resume, rt_schedule_insert_thread. */
    method InsertResumed(c: nat, t: Tid)
      requires Valid() && CallIn(calls, c) == Unlinked(t)
      modifies this`group, this`threads, this`calls, ready, table
      ensures Value() == Next(old(Value()), ResumeInsert(c))
      ensures Valid() <==> Harmless(old(Value()), ResumeInsert(c))
    {
      StepKeepsIff(Value(), ResumeInsert(c));
      PrioFits(Value(), t);
      var th := ThreadIn(threads, t);
      hide Inv, OneLevel, TwoLevel, Loose;
      threads := threads[t := th.(stat := Ready)];
      Enqueue(t, th.prio);
      calls := calls[c := Idle];
    }

    /** rt_thread_resume with interrupts off, as rt_event_send calls it: false for a thread that is not suspended. */
    method ResumeThread(t: Tid) returns (ok: bool)
      requires Valid()
      modifies this, ready, table
      ensures Valid() && Value() == Next(old(Value()), ResumeLocked(t)) && ok == (ThreadIn(old(threads), t).stat == Suspended)
    {
      StepKeeps(Value(), ResumeLocked(t));
      var th := ThreadIn(threads, t);
      if th.stat != Suspended { return false; }
      PrioFits(Value(), t);
      hide Inv;
      MakeReady(t, th.(stat := Ready, timer := false));
      return true;
    }

    /** The unlocked test of rt_thread_suspend. */
    method CheckSuspend(c: nat, t: Tid) returns (ok: bool)
      requires Valid() && Enabled(Value(), SuspendCheck(c, t))
      modifies this`calls
      ensures Valid() && Value() == Next(old(Value()), SuspendCheck(c, t)) && ok == (CallIn(calls, c) == Suspending(t))
    {
      StepKeeps(Value(), SuspendCheck(c, t));
      ok := ThreadIn(threads, t).stat == Ready;
      calls := calls[c := if ok then Suspending(t) else Idle];
    }

    /** The region of rt_thread_suspend: harmless even if t is no longer ready. */
    method DoSuspend(c: nat, t: Tid)
      requires Valid() && CallIn(calls, c) == Suspending(t)
      modifies this, ready, table
      ensures Valid() && Value() == Next(old(Value()), SuspendDo(c))
    {
      StepKeeps(Value(), SuspendDo(c));
      var th := ThreadIn(threads, t);
      PrioFits(Value(), t);
      assert th.stat == Ready ==> t in ready[..][th.prio];
      hide Inv, OneLevel, TwoLevel;
      if th.stat == Ready {
        Dequeue(t, th.prio);
      } else {
        waits := Unwait(waits, t);
        if ready[th.prio] == [] { ClearBits(th.prio, ready[..]); }
      }
      threads := threads[t := th.(stat := Suspended, timer := false)];
      calls := calls[c := Idle];
    }

    /** rt_thread_suspend of the running thread with interrupts off. */
    method SuspendSelf(t: Tid)
      requires Valid() && ThreadIn(threads, t).stat == Ready
      modifies this, ready, table
      ensures Valid() && Value() == KernelModel.Suspend(old(Value()), t, false)
      ensures waits == old(waits) && current == old(current) && lockNest == old(lockNest)
    {
      SuspendKeeps(Value(), t, false);
      var th := ThreadIn(threads, t);
      PrioFits(Value(), t);
      assert t in ready[..][th.prio];
      hide Inv;
      Dequeue(t, th.prio);
      threads := threads[t := th.(stat := Suspended, timer := false)];
    }

    /** rt_thread_timeout, called back by the thread's timer. */
    method TimeoutThread(t: Tid)
      requires Valid() && Enabled(Value(), Timeout(t))
      modifies this, ready, table
      ensures Valid() && Value() == Next(old(Value()), Timeout(t))
    {
      TimeoutFindsSuspended(Value(), t);
      PrioFits(Value(), t);
      StepKeeps(Value(), Timeout(t));
      hide Inv;
      MakeReady(t, ThreadIn(threads, t).(stat := Ready, timer := false));
    }

    /** rt_ipc_list_suspend and, for a bounded wait, the start of the thread's timer. */
    method BlockOn(t: Tid, o: nat, flag: Flag, timed: bool)
      requires Valid() && ThreadIn(threads, t).stat == Ready
      modifies this, ready, table
      ensures Valid() && Value() == Next(old(Value()), Block(t, o, flag, timed))
    {
      StepKeeps(Value(), Block(t, o, flag, timed));
      hide Inv, Insert, Readied, OneLevel, TwoLevel;
      ghost var th := ThreadIn(threads, t);
      SuspendSelf(t);
      ghost var prio0 := ByPrio(threads);
      var list := WaitList.Suspend(WaitOf(waits, o), t, flag, ByPrio(threads));
      waits := waits[o := list];
      threads := threads[t := ThreadIn(threads, t).(timer := timed)];
      Twice(old(threads), t, th.(stat := Suspended, timer := false), th.(stat := Suspended, timer := timed));
      SamePrio(WaitOf(old(waits), o), t, flag, prio0, ByPrio(threads));
    }

    /** The first half of rt_thread_sleep: suspended in no list, with the timer running. */
    method SleepThread(t: Tid)
      requires Valid() && ThreadIn(threads, t).stat == Ready
      modifies this, ready, table
      ensures Valid() && Value() == Next(old(Value()), Sleep(t))
    {
      StepKeeps(Value(), Sleep(t));
      hide Inv, OneLevel, TwoLevel;
      ghost var th := ThreadIn(threads, t);
      SuspendSelf(t);
      threads := threads[t := ThreadIn(threads, t).(timer := true)];
      Twice(old(threads), t, th.(stat := Suspended, timer := false), th.(stat := Suspended, timer := true));
    }

    /** RT_THREAD_CTRL_CHANGE_PRIORITY. */
    method SetPriority(t: Tid, p: nat)
      requires Valid() && p < ready.Length
      modifies this, ready, table
      ensures Valid() && Value() == Next(old(Value()), ChangePriority(t, p)) && ThreadIn(threads, t).prio == p
    {
      StepKeeps(Value(), ChangePriority(t, p));
      var th := ThreadIn(threads, t);
      if th.stat == Ready {
        PrioFits(Value(), t);
        assert t in ready[..][th.prio];
        hide Inv;
        Dequeue(t, th.prio);
        threads := threads[t := th.(prio := p)];
        Enqueue(t, p);
      } else {
        threads := threads[t := th.(prio := p)];
      }
    }

    /** rt_thread_yield (without the closing rt_schedule). */
    method YieldThread(t: Tid)
      requires Valid()
      modifies this, ready, table
      ensures Valid() && Value() == Next(old(Value()), Yield(t))
    {
      StepKeeps(Value(), Yield(t));
      var th := ThreadIn(threads, t);
      if th.stat == Ready {
        PrioFits(Value(), t);
        if |ready[th.prio]| >= 2 {
          hide Inv;
          StillBusy(ready[..], group, table[..], th.prio, Without(ready[th.prio], t) + [t]);
          ready[th.prio] := Without(ready[th.prio], t) + [t];
          assert ready[..] == old(ready[..])[th.prio := Without(old(ready[th.prio]), t) + [t]];
        }
      }
    }
  }

  lemma StillBusy(ready: seq<seq<Tid>>, group: nat, table: seq<nat>, p: nat, r: seq<Tid>)
    requires p < |ready| && ready[p] != [] && r != []
    ensures OneLevel(ready, group) ==> OneLevel(ready[p := r], group)
    ensures TwoLevel(ready, group, table) ==> TwoLevel(ready[p := r], group, table)
  {
    assert forall q: nat {:trigger Busy(ready[p := r], q)} :: Busy(ready[p := r], q) <==> Busy(ready, q);
  }

  lemma Twice(threads: map<Tid, Thread>, t: Tid, a: Thread, b: Thread)
    ensures threads[t := a][t := b] == threads[t := b]
  {
  }

  lemma SamePrio(list: seq<Tid>, t: Tid, flag: Flag, f: Tid -> nat, g: Tid -> nat)
    requires forall u: Tid :: f(u) == g(u)
    ensures Insert(list, t, flag, f) == Insert(list, t, flag, g)
  {
    SamePlace(list, t, flag, f, g);
  }

  lemma {:induction false} SamePlace(list: seq<Tid>, t: Tid, flag: Flag, f: Tid -> nat, g: Tid -> nat)
    requires forall u: Tid :: f(u) == g(u)
    ensures Place(list, t, flag, f) == Place(list, t, flag, g)
  {
    if flag == Prio && list != [] { SamePlace(list[1..], t, flag, f, g); }
  }
}
