/** Ready queues, wait lists and thread states of rt-thread/src/scheduler.c and thread.c, one step per
    interrupt-disabled region.

    rt_thread_resume tests the state, then unlinks the thread in one region and inserts it in the ready queue in
    another; rt_thread_suspend tests the state before its region.  Other threads and interrupts run in between,
    unless the caller has disabled interrupts, as every IPC call has. */
module KernelModel {
  import opened WaitList

  datatype Stat = Born | Ready | Suspended

  /** timer says whether the thread's own timer is active. */
  datatype Thread = Thread(stat: Stat, prio: nat, initPrio: nat, timer: bool)

  /** Where a caller is inside rt_thread_resume or rt_thread_suspend. */
  datatype Phase = Idle | Resuming(t: Tid) | Unlinked(t: Tid) | Suspending(t: Tid)

  /** waits holds the list of suspended threads of each IPC object, calls what each caller is doing. */
  datatype State = State(ready: seq<seq<Tid>>, waits: map<nat, seq<Tid>>, threads: map<Tid, Thread>, calls: map<nat, Phase>)

  function CallIn(calls: map<nat, Phase>, c: nat): Phase { if c in calls then calls[c] else Idle }

  function ThreadIn(threads: map<Tid, Thread>, t: Tid): Thread {
    if t in threads then threads[t] else Thread(Born, 0, 0, false)
  }

  function WaitOf(waits: map<nat, seq<Tid>>, o: nat): seq<Tid> { if o in waits then waits[o] else [] }

  function ByPrio(threads: map<Tid, Thread>): Tid -> nat { (t: Tid) => ThreadIn(threads, t).prio }

  /** rt_list_remove on a suspended thread's list node. */
  function Unwait(waits: map<nat, seq<Tid>>, t: Tid): map<nat, seq<Tid>> {
    map o | o in waits :: Without(waits[o], t)
  }

  /** Thread t, now th, comes last in its ready queue. */
  function Appended(s: State, t: Tid, th: Thread): State {
    s.(ready := if th.prio < |s.ready| then s.ready[th.prio := s.ready[th.prio] + [t]] else s.ready, threads := s.threads[t := th])
  }

  /** Thread t, now th, comes last in its ready queue and leaves any wait list. */
  function Readied(s: State, t: Tid, th: Thread): State { Appended(s.(waits := Unwait(s.waits, t)), t, th) }

  /** Thread t, now th, leaves its ready queue. */
  function Unreadied(s: State, t: Tid, th: Thread): State {
    var p := ThreadIn(s.threads, t).prio;
    s.(ready := if p < |s.ready| then s.ready[p := Without(s.ready[p], t)] else s.ready, threads := s.threads[t := th])
  }

  /** Thread t, now th, leaves the list it is in. */
  function Unlisted(s: State, t: Tid, th: Thread): State {
    if ThreadIn(s.threads, t).stat == Ready then Unreadied(s, t, th)
    else s.(waits := Unwait(s.waits, t), threads := s.threads[t := th])
  }

  /** rt_thread_suspend of the running thread with interrupts off, leaving its timer stopped or started. */
  function Suspend(s: State, t: Tid, timed: bool): State {
    var th := ThreadIn(s.threads, t);
    if th.stat != Ready then s else Unreadied(s, t, th.(stat := Suspended, timer := timed))
  }

  /** rt_thread_resume with interrupts off */
  function Resume(s: State, t: Tid): State {
    var th := ThreadIn(s.threads, t);
    if th.stat != Suspended then s else Readied(s, t, th.(stat := Ready, timer := false))
  }

  /** rt_thread_timeout */
  function TimedOut(s: State, t: Tid): State { Readied(s, t, ThreadIn(s.threads, t).(stat := Ready, timer := false)) }

  /** A ready thread changes queue: out of its old one, last in the new one. */
  function Moved(s: State, t: Tid, p: nat): State {
    var th := ThreadIn(s.threads, t);
    if th.prio < |s.ready| && p < |s.ready| then
      var out := s.ready[th.prio := Without(s.ready[th.prio], t)];
      s.(ready := out[p := out[p] + [t]], threads := s.threads[t := th.(prio := p)])
    else s
  }

  datatype Event =
    | Startup(t: Tid)
    | ResumeCheck(c: nat, t: Tid)
    | ResumeUnlink(c: nat)
    | ResumeInsert(c: nat)
    | ResumeLocked(t: Tid)
    | SuspendCheck(c: nat, t: Tid)
    | SuspendDo(c: nat)
    | Block(t: Tid, o: nat, flag: Flag, timed: bool)
    | Sleep(t: Tid)
    | Wake(o: nat)
    | Timeout(t: Tid)
    | ChangePriority(t: Tid, p: nat)
    | Yield(t: Tid)

  predicate Enabled(s: State, e: Event) {
    match e
    case Startup(t) => ThreadIn(s.threads, t).stat == Born && ThreadIn(s.threads, t).initPrio < |s.ready|
    case ResumeCheck(c, t) => CallIn(s.calls, c).Idle?
    case ResumeUnlink(c) => CallIn(s.calls, c).Resuming?
    case ResumeInsert(c) => CallIn(s.calls, c).Unlinked?
    case SuspendCheck(c, t) => CallIn(s.calls, c).Idle?
    case SuspendDo(c) => CallIn(s.calls, c).Suspending?
    case Block(t, o, flag, timed) => ThreadIn(s.threads, t).stat == Ready
    case Sleep(t) => ThreadIn(s.threads, t).stat == Ready
    case Wake(o) => WaitOf(s.waits, o) != []
    case Timeout(t) => ThreadIn(s.threads, t).timer
    case ChangePriority(t, p) => p < |s.ready|
    case _ => true
  }

  function Next(s: State, e: Event): State
    requires Enabled(s, e)
  {
    match e
    case Startup(t) =>
      var th := ThreadIn(s.threads, t);
      s.(threads := s.threads[t := th.(stat := Suspended, prio := th.initPrio, timer := false)])
    case ResumeCheck(c, t) => s.(calls := s.calls[c := if ThreadIn(s.threads, t).stat == Suspended then Resuming(t) else Idle])
    case ResumeUnlink(c) =>
      var t := CallIn(s.calls, c).t;
      Unlisted(s, t, ThreadIn(s.threads, t).(timer := false)).(calls := s.calls[c := Unlinked(t)])
    case ResumeInsert(c) =>
      var t := CallIn(s.calls, c).t;
      Appended(s, t, ThreadIn(s.threads, t).(stat := Ready)).(calls := s.calls[c := Idle])
    case ResumeLocked(t) => Resume(s, t)
    case SuspendCheck(c, t) => s.(calls := s.calls[c := if ThreadIn(s.threads, t).stat == Ready then Suspending(t) else Idle])
    case SuspendDo(c) =>
      var t := CallIn(s.calls, c).t;
      Unlisted(s, t, ThreadIn(s.threads, t).(stat := Suspended, timer := false)).(calls := s.calls[c := Idle])
    case Block(t, o, flag, timed) =>
      var r := Suspend(s, t, timed);
      r.(waits := r.waits[o := Insert(WaitOf(r.waits, o), t, flag, ByPrio(r.threads))])
    case Sleep(t) => Suspend(s, t, true)
    case Wake(o) => Resume(s, WaitOf(s.waits, o)[0])
    case Timeout(t) => TimedOut(s, t)
    case ChangePriority(t, p) =>
      var th := ThreadIn(s.threads, t);
      if th.stat == Ready then Moved(s, t, p) else s.(threads := s.threads[t := th.(prio := p)])
    case Yield(t) =>
      var th := ThreadIn(s.threads, t);
      if th.stat == Ready && th.prio < |s.ready| && |s.ready[th.prio]| >= 2 then
        s.(ready := s.ready[th.prio := Without(s.ready[th.prio], t) + [t]])
      else s
  }

  // ---------- What every step keeps ----------

  /** A thread is in ready queue p exactly when it is ready with priority p, and once. */
  ghost predicate ReadyOk(ready: seq<seq<Tid>>, threads: map<Tid, Thread>) {
    && (forall p, t: Tid {:trigger t in ready[p]} :: 0 <= p < |ready| ==>
          (t in ready[p] <==> ThreadIn(threads, t).stat == Ready && ThreadIn(threads, t).prio == p))
    && (forall p :: 0 <= p < |ready| ==> Distinct(ready[p]))
    && (forall t: Tid {:trigger ThreadIn(threads, t)} :: ThreadIn(threads, t).stat != Born ==> ThreadIn(threads, t).prio < |ready|)
  }

  /** A waiting thread is suspended and in one list only, once. */
  ghost predicate WaitsOk(waits: map<nat, seq<Tid>>, threads: map<Tid, Thread>) {
    && (forall o: nat, t: Tid {:trigger t in WaitOf(waits, o)} :: t in WaitOf(waits, o) ==> ThreadIn(threads, t).stat == Suspended)
    && (forall o: nat {:trigger WaitOf(waits, o)} :: Distinct(WaitOf(waits, o)))
    && (forall o: nat, q: nat, t: Tid {:trigger t in WaitOf(waits, o), t in WaitOf(waits, q)} ::
          t in WaitOf(waits, o) && t in WaitOf(waits, q) ==> o == q)
  }

  /** An active thread timer implies the thread is suspended. */
  ghost predicate TimersOk(threads: map<Tid, Thread>) {
    forall t: Tid {:trigger ThreadIn(threads, t)} :: ThreadIn(threads, t).timer ==> ThreadIn(threads, t).stat == Suspended
  }

  /** Nobody resumes or suspends a thread that has not been started. */
  ghost predicate CallsOk(calls: map<nat, Phase>, threads: map<Tid, Thread>) {
    forall c: nat {:trigger CallIn(calls, c)} :: !CallIn(calls, c).Idle? ==> ThreadIn(threads, CallIn(calls, c).t).stat != Born
  }

  ghost predicate Inv(s: State) {
    ReadyOk(s.ready, s.threads) && WaitsOk(s.waits, s.threads) && TimersOk(s.threads) && CallsOk(s.calls, s.threads)
  }

  /** Thread t is suspended, in no list, with its timer stopped: as a resume leaves it between its two regions. */
  ghost predicate Loose(s: State, t: Tid) {
    ThreadIn(s.threads, t).stat == Suspended && !ThreadIn(s.threads, t).timer && forall o: nat :: t !in WaitOf(s.waits, o)
  }

  /** The thread a resume works on is still as the resume left it. */
  ghost predicate Harmless(s: State, e: Event)
    requires Enabled(s, e)
  {
    match e
    case ResumeUnlink(c) => ThreadIn(s.threads, CallIn(s.calls, c).t).stat != Ready
    case ResumeInsert(c) => Loose(s, CallIn(s.calls, c).t)
    case _ => true
  }

  // ---------- One thread changes ----------

  lemma ThreadAfter(threads: map<Tid, Thread>, t: Tid, th: Thread)
    ensures forall u: Tid {:trigger ThreadIn(threads[t := th], u)} :: ThreadIn(threads[t := th], u) == if u == t then th else ThreadIn(threads, u)
  {
  }

  lemma InsertedReady(ready: seq<seq<Tid>>, threads: map<Tid, Thread>, t: Tid, th: Thread)
    requires ReadyOk(ready, threads) && ThreadIn(threads, t).stat != Ready && th.stat == Ready && th.prio < |ready|
    ensures ReadyOk(ready[th.prio := ready[th.prio] + [t]], threads[t := th])
  {
    ThreadAfter(threads, t, th);
    assert t !in ready[th.prio];
    assert Distinct(ready[th.prio] + [t]);
  }

  lemma RemovedReady(ready: seq<seq<Tid>>, threads: map<Tid, Thread>, t: Tid, th: Thread)
    requires ReadyOk(ready, threads) && ThreadIn(threads, t).stat == Ready && th.stat != Ready && th.prio < |ready|
    ensures var p := ThreadIn(threads, t).prio; p < |ready| && ReadyOk(ready[p := Without(ready[p], t)], threads[t := th])
  {
    ThreadAfter(threads, t, th);
    WithoutMembers(ready[ThreadIn(threads, t).prio], t);
  }

  lemma SameReady(ready: seq<seq<Tid>>, threads: map<Tid, Thread>, t: Tid, th: Thread)
    requires ReadyOk(ready, threads) && ThreadIn(threads, t).stat != Ready && th.stat != Ready && (th.stat == Born || th.prio < |ready|)
    ensures ReadyOk(ready, threads[t := th])
  {
    ThreadAfter(threads, t, th);
  }

  lemma Unwaited(waits: map<nat, seq<Tid>>, threads: map<Tid, Thread>, t: Tid, th: Thread)
    requires WaitsOk(waits, threads)
    ensures WaitsOk(Unwait(waits, t), threads[t := th]) && forall o: nat :: t !in WaitOf(Unwait(waits, t), o)
  {
    ThreadAfter(threads, t, th);
    var w := Unwait(waits, t);
    forall o: nat {:trigger WaitOf(w, o)} | true
      ensures Distinct(WaitOf(w, o)) && forall u :: u in WaitOf(w, o) <==> u in WaitOf(waits, o) && u != t
    {
      assert Distinct(WaitOf(waits, o));
      WithoutMembers(WaitOf(waits, o), t);
    }
  }

  /** A thread in no list may change anything. */
  lemma WaitsSame(waits: map<nat, seq<Tid>>, threads: map<Tid, Thread>, t: Tid, th: Thread)
    requires WaitsOk(waits, threads) && (th.stat == Suspended || ThreadIn(threads, t).stat != Suspended)
    ensures WaitsOk(waits, threads[t := th])
  {
    ThreadAfter(threads, t, th);
  }

  lemma Waiting(waits: map<nat, seq<Tid>>, threads: map<Tid, Thread>, o: nat, t: Tid, th: Thread, flag: Flag, prio: Tid -> nat)
    requires WaitsOk(waits, threads) && ThreadIn(threads, t).stat != Suspended && th.stat == Suspended
    ensures WaitsOk(waits[o := Insert(WaitOf(waits, o), t, flag, prio)], threads[t := th])
  {
    hide Insert, Distinct;
    var list := WaitOf(waits, o);
    assert Distinct(list) && t !in list;
    InsertMembers(list, t, flag, prio);
    WaitsPut(waits, threads, o, Insert(list, t, flag, prio), t, th);
  }

  lemma WaitsPut(waits: map<nat, seq<Tid>>, threads: map<Tid, Thread>, o: nat, list: seq<Tid>, t: Tid, th: Thread)
    requires WaitsOk(waits, threads) && ThreadIn(threads, t).stat != Suspended && th.stat == Suspended
    requires Distinct(list) && forall u :: u in list <==> u == t || u in WaitOf(waits, o)
    ensures WaitsOk(waits[o := list], threads[t := th])
  {
    hide Distinct;
    ThreadAfter(threads, t, th);
    var w := waits[o := list];
    assert forall q: nat {:trigger WaitOf(w, q)} :: WaitOf(w, q) == if q == o then list else WaitOf(waits, q);
    forall q: nat {:trigger WaitOf(w, q)} | true ensures Distinct(WaitOf(w, q)) { assert q != o ==> Distinct(WaitOf(waits, q)); }
  }

  lemma CallsSame(calls: map<nat, Phase>, threads: map<Tid, Thread>, t: Tid, th: Thread)
    requires CallsOk(calls, threads) && (th.stat != Born || ThreadIn(threads, t).stat == Born)
    ensures CallsOk(calls, threads[t := th])
  {
    ThreadAfter(threads, t, th);
  }

  lemma CallsNext(calls: map<nat, Phase>, threads: map<Tid, Thread>, c: nat, p: Phase)
    requires CallsOk(calls, threads) && (!p.Idle? ==> ThreadIn(threads, p.t).stat != Born)
    ensures CallsOk(calls[c := p], threads)
  {
    forall d: nat {:trigger CallIn(calls[c := p], d)} | !CallIn(calls[c := p], d).Idle?
      ensures ThreadIn(threads, CallIn(calls[c := p], d).t).stat != Born
    {
      if d != c { assert CallIn(calls[c := p], d) == CallIn(calls, d); }
    }
  }

  lemma WaitsFree(waits: map<nat, seq<Tid>>, threads: map<Tid, Thread>, t: Tid, th: Thread)
    requires WaitsOk(waits, threads) && forall o: nat :: t !in WaitOf(waits, o)
    ensures WaitsOk(waits, threads[t := th])
  {
    ThreadAfter(threads, t, th);
  }

  lemma TimersSame(threads: map<Tid, Thread>, t: Tid, th: Thread)
    requires TimersOk(threads) && (th.timer ==> th.stat == Suspended)
    ensures TimersOk(threads[t := th])
  {
    ThreadAfter(threads, t, th);
  }

  // ---------- The steps ----------

  lemma SuspendKeeps(s: State, t: Tid, timed: bool)
    requires Inv(s)
    ensures Inv(Suspend(s, t, timed))
  {
    var th := ThreadIn(s.threads, t);
    assert th.stat == Ready ==> th.prio < |s.ready|;
    hide ReadyOk, WaitsOk, TimersOk, CallsOk;
    if th.stat == Ready {
      var th' := th.(stat := Suspended, timer := timed);
      RemovedReady(s.ready, s.threads, t, th');
      WaitsSame(s.waits, s.threads, t, th');
      TimersSame(s.threads, t, th');
      CallsSame(s.calls, s.threads, t, th');
    }
  }

  lemma BlockKeeps(s: State, t: Tid, o: nat, flag: Flag, timed: bool)
    requires Inv(s) && ThreadIn(s.threads, t).stat == Ready
    ensures Inv(Next(s, Block(t, o, flag, timed)))
  {
    hide ReadyOk, WaitsOk, TimersOk, CallsOk, Insert, Without, Unwait, Readied, Resume, Moved;
    SuspendKeeps(s, t, timed);
    var r, th := Suspend(s, t, timed), ThreadIn(s.threads, t).(stat := Suspended, timer := timed);
    Waiting(s.waits, s.threads, o, t, th, flag, ByPrio(r.threads));
  }

  /** Back to the ready queue from wherever t is, unless it is ready already. */
  lemma ReadiedKeeps(s: State, t: Tid, th: Thread)
    requires Inv(s) && ThreadIn(s.threads, t).stat != Ready && th.stat == Ready && !th.timer && th.prio < |s.ready|
    ensures Inv(Readied(s, t, th))
  {
    hide ReadyOk, WaitsOk, TimersOk, CallsOk;
    InsertedReady(s.ready, s.threads, t, th);
    Unwaited(s.waits, s.threads, t, th);
    TimersSame(s.threads, t, th);
    CallsSame(s.calls, s.threads, t, th);
  }

  /** The priority of any thread that has been started fits the table. */
  lemma PrioFits(s: State, t: Tid)
    requires Inv(s) && ThreadIn(s.threads, t).stat != Born
    ensures ThreadIn(s.threads, t).prio < |s.ready|
  {
  }

  lemma ResumeKeeps(s: State, t: Tid)
    requires Inv(s)
    ensures Inv(Resume(s, t))
  {
    hide Inv;
    var th := ThreadIn(s.threads, t);
    if th.stat == Suspended {
      PrioFits(s, t);
      ReadiedKeeps(s, t, th.(stat := Ready, timer := false));
    }
  }

  /** The check in rt_thread_timeout always holds. */
  lemma TimeoutFindsSuspended(s: State, t: Tid)
    requires Inv(s) && Enabled(s, Timeout(t))
    ensures ThreadIn(s.threads, t).stat == Suspended
  {
  }

  /** Changing a ready thread's priority takes it out of its queue and puts it last in the new one. */
  lemma MovedKeeps(s: State, t: Tid, p: nat)
    requires Inv(s) && ThreadIn(s.threads, t).stat == Ready && p < |s.ready|
    ensures var r := Moved(s, t, p);
      && Inv(r) && |r.ready| == |s.ready|
      && forall q :: 0 <= q < |s.ready| ==> r.ready[q] == if q == p then Without(s.ready[q], t) + [t] else Without(s.ready[q], t)
  {
    var th := ThreadIn(s.threads, t);
    var out, mid := s.ready[th.prio := Without(s.ready[th.prio], t)], s.threads[t := th.(stat := Suspended)];
    PrioFits(s, t);
    forall q | 0 <= q < |s.ready| && q != th.prio ensures Without(s.ready[q], t) == s.ready[q] {
      assert t !in s.ready[q];
      AbsentWithout(s.ready[q], t);
    }
    hide ReadyOk, WaitsOk, TimersOk, CallsOk;
    RemovedReady(s.ready, s.threads, t, th.(stat := Suspended));
    ThreadAfter(s.threads, t, th.(stat := Suspended));
    InsertedReady(out, mid, t, th.(prio := p));
    assert mid[t := th.(prio := p)] == s.threads[t := th.(prio := p)];
    WaitsSame(s.waits, s.threads, t, th.(prio := p));
    NotTimed(s.threads, t);
    TimersSame(s.threads, t, th.(prio := p));
    CallsSame(s.calls, s.threads, t, th.(prio := p));
  }

  lemma NotTimed(threads: map<Tid, Thread>, t: Tid)
    requires TimersOk(threads) && ThreadIn(threads, t).stat != Suspended
    ensures !ThreadIn(threads, t).timer
  {
  }

  lemma PriorityKeeps(s: State, t: Tid, p: nat)
    requires Inv(s) && p < |s.ready|
    ensures Inv(Next(s, ChangePriority(t, p)))
  {
    hide ReadyOk, WaitsOk, TimersOk, CallsOk;
    var th := ThreadIn(s.threads, t);
    if th.stat == Ready {
      MovedKeeps(s, t, p);
    } else {
      SameReady(s.ready, s.threads, t, th.(prio := p));
      WaitsSame(s.waits, s.threads, t, th.(prio := p));
      if th.stat == Born { NotTimed(s.threads, t); }
      TimersSame(s.threads, t, th.(prio := p));
      CallsSame(s.calls, s.threads, t, th.(prio := p));
    }
  }

  /** Yielding moves a thread to the end of its own queue. */
  lemma YieldKeeps(s: State, t: Tid)
    requires Inv(s)
    ensures Inv(Next(s, Yield(t)))
  {
    var th := ThreadIn(s.threads, t);
    if th.stat == Ready && |s.ready[th.prio]| >= 2 {
      WithoutMembers(s.ready[th.prio], t);
      var q := Without(s.ready[th.prio], t) + [t];
      assert forall u :: u in q <==> u in Without(s.ready[th.prio], t) || u == t;
      assert t in s.ready[th.prio];
    }
  }

  /** The first region of a resume, on a thread that has not become ready meanwhile. */
  lemma UnlinkKeeps(s: State, c: nat)
    requires Inv(s) && Enabled(s, ResumeUnlink(c)) && Harmless(s, ResumeUnlink(c))
    ensures var t := CallIn(s.calls, c).t; Inv(Next(s, ResumeUnlink(c))) && Loose(Next(s, ResumeUnlink(c)), t)
  {
    var t := CallIn(s.calls, c).t;
    OffReady(s, t, ThreadIn(s.threads, t).(timer := false));
    ThreadAfter(s.threads, t, ThreadIn(s.threads, t).(timer := false));
    Unwaited(s.waits, s.threads, t, ThreadIn(s.threads, t).(timer := false));
    CallsNext(s.calls, s.threads[t := ThreadIn(s.threads, t).(timer := false)], c, Unlinked(t));
  }

  /** A thread that is not ready leaves its wait list and stays so, its timer stopped. */
  lemma OffReady(s: State, t: Tid, th: Thread)
    requires Inv(s) && ThreadIn(s.threads, t).stat == Suspended == th.stat && !th.timer && th.prio < |s.ready|
    ensures Inv(s.(waits := Unwait(s.waits, t), threads := s.threads[t := th]))
  {
    hide ReadyOk, WaitsOk, TimersOk, CallsOk;
    SameReady(s.ready, s.threads, t, th);
    Unwaited(s.waits, s.threads, t, th);
    TimersSame(s.threads, t, th);
    CallsSame(s.calls, s.threads, t, th);
  }

  lemma InsertKeeps(s: State, t: Tid)
    requires Inv(s) && Loose(s, t)
    ensures Inv(Appended(s, t, ThreadIn(s.threads, t).(stat := Ready)))
  {
    PrioFits(s, t);
    hide ReadyOk, WaitsOk, TimersOk, CallsOk;
    var th := ThreadIn(s.threads, t).(stat := Ready);
    InsertedReady(s.ready, s.threads, t, th);
    WaitsFree(s.waits, s.threads, t, th);
    TimersSame(s.threads, t, th);
    CallsSame(s.calls, s.threads, t, th);
  }

  lemma SuspendDoKeeps(s: State, c: nat)
    requires Inv(s) && Enabled(s, SuspendDo(c))
    ensures Inv(Next(s, SuspendDo(c)))
  {
    var t := CallIn(s.calls, c).t;
    var th := ThreadIn(s.threads, t);
    var th' := th.(stat := Suspended, timer := false);
    PrioFits(s, t);
    if th.stat == Ready { SuspendKeeps(s, t, false); } else { OffReady(s, t, th'); }
    hide ReadyOk, WaitsOk, TimersOk;
    CallsNext(s.calls, s.threads[t := th'], c, Idle);
  }

  lemma CheckKeeps(s: State, c: nat, p: Phase)
    requires Inv(s) && (!p.Idle? ==> ThreadIn(s.threads, p.t).stat != Born)
    ensures Inv(s.(calls := s.calls[c := p]))
  {
    CallsNext(s.calls, s.threads, c, p);
  }

  lemma StartupKeeps(s: State, t: Tid)
    requires Inv(s) && Enabled(s, Startup(t))
    ensures Inv(Next(s, Startup(t)))
  {
    var th := ThreadIn(s.threads, t);
    var th' := th.(stat := Suspended, prio := th.initPrio, timer := false);
    hide ReadyOk, WaitsOk, TimersOk, CallsOk;
    SameReady(s.ready, s.threads, t, th');
    WaitsSame(s.waits, s.threads, t, th');
    TimersSame(s.threads, t, th');
    CallsSame(s.calls, s.threads, t, th');
  }

  lemma StepKeeps(s: State, e: Event)
    requires Inv(s) && Enabled(s, e) && Harmless(s, e)
    ensures Inv(Next(s, e))
  {
    hide Inv, Loose;
    match e {
      case Startup(t) => StartupKeeps(s, t);
      case ResumeCheck(c, t) => CheckKeeps(s, c, if ThreadIn(s.threads, t).stat == Suspended then Resuming(t) else Idle);
      case ResumeUnlink(c) => UnlinkKeeps(s, c);
      case ResumeInsert(c) =>
        InsertKeeps(s, CallIn(s.calls, c).t);
        CheckKeeps(Appended(s, CallIn(s.calls, c).t, ThreadIn(s.threads, CallIn(s.calls, c).t).(stat := Ready)), c, Idle);
      case ResumeLocked(t) => ResumeKeeps(s, t);
      case SuspendCheck(c, t) => CheckKeeps(s, c, if ThreadIn(s.threads, t).stat == Ready then Suspending(t) else Idle);
      case SuspendDo(c) => SuspendDoKeeps(s, c);
      case Block(t, o, flag, timed) => BlockKeeps(s, t, o, flag, timed);
      case Sleep(t) => SuspendKeeps(s, t, true);
      case Wake(o) => ResumeKeeps(s, WaitOf(s.waits, o)[0]);
      case Timeout(t) =>
        TimeoutFindsSuspended(s, t);
        PrioFits(s, t);
        ReadiedKeeps(s, t, ThreadIn(s.threads, t).(stat := Ready, timer := false));
      case ChangePriority(t, p) => PriorityKeeps(s, t, p);
      case Yield(t) => YieldKeeps(s, t);
    }
  }

  /** A step keeps the lists right if and only if it is not a resume going on with a thread that somebody else
      has made ready, put to sleep or queued meanwhile. */
  lemma StepKeepsIff(s: State, e: Event)
    requires Inv(s) && Enabled(s, e)
    ensures Inv(Next(s, e)) <==> Harmless(s, e)
  {
    if Harmless(s, e) { StepKeeps(s, e); }
    else {
      match e {
        case ResumeUnlink(c) => UnlinkedReady(s, c);
        case ResumeInsert(c) => InsertedTwice(s, CallIn(s.calls, c).t);
      }
    }
  }

  lemma UnlinkedReady(s: State, c: nat)
    requires Inv(s) && Enabled(s, ResumeUnlink(c)) && ThreadIn(s.threads, CallIn(s.calls, c).t).stat == Ready
    ensures !Inv(Next(s, ResumeUnlink(c)))
  {
    var t := CallIn(s.calls, c).t;
    var th := ThreadIn(s.threads, t);
    PrioFits(s, t);
    var r := Next(s, ResumeUnlink(c));
    WithoutMembers(s.ready[th.prio], t);
    assert ThreadIn(r.threads, t) == th.(timer := false);
    assert t !in r.ready[th.prio];
  }

  lemma InsertedTwice(s: State, t: Tid)
    requires Inv(s) && !Loose(s, t) && ThreadIn(s.threads, t).stat != Born
    ensures var r := Appended(s, t, ThreadIn(s.threads, t).(stat := Ready));
      !(ReadyOk(r.ready, r.threads) && WaitsOk(r.waits, r.threads) && TimersOk(r.threads))
  {
    var th := ThreadIn(s.threads, t);
    PrioFits(s, t);
    var r := Appended(s, t, th.(stat := Ready));
    assert ThreadIn(r.threads, t) == th.(stat := Ready);
    if th.stat == Ready {
      var q := s.ready[th.prio];
      assert t in q;
      var i :| 0 <= i < |q| && q[i] == t;
      assert r.ready[th.prio] == q + [t] && (q + [t])[i] == (q + [t])[|q|];
    } else if !th.timer {
      var o: nat :| t in WaitOf(s.waits, o);
      assert t in WaitOf(r.waits, o);
    }
  }

  // ---------- Whole runs ----------

  ghost predicate Legal(s: State, es: seq<Event>)
    decreases |es|
  {
    es == [] || (Enabled(s, es[0]) && Legal(Next(s, es[0]), es[1..]))
  }

  ghost function Run(s: State, es: seq<Event>): State
    requires Legal(s, es)
    decreases |es|
  {
    if es == [] then s else Run(Next(s, es[0]), es[1..])
  }

  ghost predicate AllInv(s: State, es: seq<Event>)
    requires Legal(s, es)
    decreases |es|
  {
    Inv(s) && (es != [] ==> AllInv(Next(s, es[0]), es[1..]))
  }

  ghost predicate AllHarmless(s: State, es: seq<Event>)
    requires Legal(s, es)
    decreases |es|
  {
    es != [] ==> Harmless(s, es[0]) && AllHarmless(Next(s, es[0]), es[1..])
  }

  /** Over any run: in every state on the way a thread's list node is in at most one ready or wait list, the one
      its state and priority name, and a running thread timer belongs to a suspended thread, if and only if no
      resume goes on with a thread that was taken from under it. */
  lemma {:induction false} RunKeepsIff(s: State, es: seq<Event>)
    requires Inv(s) && Legal(s, es)
    ensures AllInv(s, es) <==> AllHarmless(s, es)
    decreases |es|
  {
    hide Inv, Harmless;
    if es != [] {
      StepKeepsIff(s, es[0]);
      if Inv(Next(s, es[0])) { RunKeepsIff(Next(s, es[0]), es[1..]); }
    }
  }

  /** The event is the end of a resume of t. */
  predicate Readies(s: State, e: Event, t: Tid)
    requires Enabled(s, e)
  {
    match e
    case ResumeInsert(c) => CallIn(s.calls, c).t == t
    case ResumeLocked(u) => u == t
    case _ => false
  }

  ghost predicate NeverReadied(s: State, es: seq<Event>, t: Tid)
    requires Legal(s, es)
    decreases |es|
  {
    es != [] ==> !Readies(s, es[0], t) && NeverReadied(Next(s, es[0]), es[1..], t)
  }

  /** In the window between the two regions of a resume, only another resume of the same thread touches it. */
  lemma LooseStays(s: State, e: Event, t: Tid)
    requires Inv(s) && Loose(s, t) && Enabled(s, e) && Harmless(s, e) && !Readies(s, e, t)
    ensures Loose(Next(s, e), t)
  {
    var r := Next(s, e);
    assert ThreadIn(s.threads, t).stat == Suspended && !ThreadIn(s.threads, t).timer;
    assert e.Wake? ==> WaitOf(s.waits, e.o)[0] in WaitOf(s.waits, e.o) && WaitOf(s.waits, e.o)[0] != t;
    hide Inv, Loose, Unwait, Harmless;
    match e {
      case Startup(u) => LooseVia(s, r, t, u, ThreadIn(s.threads, u).(stat := Suspended, prio := ThreadIn(s.threads, u).initPrio, timer := false));
      case ResumeCheck(c, u) => LooseSame(s, r, t);
      case ResumeUnlink(c) => LooseVia(s, r, t, CallIn(s.calls, c).t, ThreadIn(s.threads, CallIn(s.calls, c).t).(timer := false));
      case ResumeInsert(c) => LooseVia(s, r, t, CallIn(s.calls, c).t, ThreadIn(s.threads, CallIn(s.calls, c).t).(stat := Ready));
      case ResumeLocked(u) => LooseResume(s, t, u);
      case SuspendCheck(c, u) => LooseSame(s, r, t);
      case SuspendDo(c) =>
        LooseVia(s, r, t, CallIn(s.calls, c).t, ThreadIn(s.threads, CallIn(s.calls, c).t).(stat := Suspended, timer := false));
      case Block(u, o, flag, timed) => LooseBlock(s, t, u, o, flag, timed);
      case Sleep(u) => LooseVia(s, r, t, u, ThreadIn(s.threads, u).(stat := Suspended, timer := true));
      case Wake(o) => LooseResume(s, t, WaitOf(s.waits, o)[0]);
      case Timeout(u) => LooseVia(s, r, t, u, ThreadIn(s.threads, u).(stat := Ready, timer := false));
      case ChangePriority(u, p) => LoosePriority(s, t, u, p);
      case Yield(u) => LooseSame(s, r, t);
    }
  }

  lemma LooseSame(s: State, r: State, t: Tid)
    requires Loose(s, t) && r.threads == s.threads && r.waits == s.waits
    ensures Loose(r, t)
  {
  }

  lemma LooseVia(s: State, r: State, t: Tid, u: Tid, th: Thread)
    requires Inv(s) && Loose(s, t) && r.threads == s.threads[u := th] && (r.waits == s.waits || r.waits == Unwait(s.waits, u))
    requires u == t ==> th.stat == Suspended && !th.timer
    ensures Loose(r, t)
  {
    ThreadAfter(s.threads, u, th);
    forall o: nat ensures t !in WaitOf(Unwait(s.waits, u), o) {
      assert Distinct(WaitOf(s.waits, o));
      WithoutMembers(WaitOf(s.waits, o), u);
    }
  }

  lemma LooseResume(s: State, t: Tid, u: Tid)
    requires Inv(s) && Loose(s, t) && u != t
    ensures Loose(Resume(s, u), t)
  {
    hide Inv, Loose, Unwait;
    if ThreadIn(s.threads, u).stat == Suspended {
      LooseVia(s, Resume(s, u), t, u, ThreadIn(s.threads, u).(stat := Ready, timer := false));
    }
  }

  lemma LooseBlock(s: State, t: Tid, u: Tid, o: nat, flag: Flag, timed: bool)
    requires Inv(s) && Loose(s, t) && ThreadIn(s.threads, u).stat == Ready
    ensures Loose(Next(s, Block(u, o, flag, timed)), t)
  {
    var r, list := Suspend(s, u, timed), WaitOf(s.waits, o);
    assert Distinct(list) && u !in list && t !in list && u != t;
    InsertMembers(list, u, flag, ByPrio(r.threads));
    hide Insert;
    LooseVia(s, r, t, u, ThreadIn(s.threads, u).(stat := Suspended, timer := timed));
    var w := r.waits[o := Insert(list, u, flag, ByPrio(r.threads))];
    forall q: nat ensures t !in WaitOf(w, q) { if q != o { assert WaitOf(w, q) == WaitOf(r.waits, q); } }
  }

  lemma LoosePriority(s: State, t: Tid, u: Tid, p: nat)
    requires Inv(s) && Loose(s, t) && p < |s.ready|
    ensures Loose(Next(s, ChangePriority(u, p)), t)
  {
    var th := ThreadIn(s.threads, u);
    if th.stat == Ready { PrioFits(s, u); }
    hide Inv, Loose;
    LooseVia(s, Next(s, ChangePriority(u, p)), t, u, th.(prio := p)) by { LooseThread(s, t); }
  }

  lemma LooseThread(s: State, t: Tid)
    requires Loose(s, t)
    ensures ThreadIn(s.threads, t).stat == Suspended && !ThreadIn(s.threads, t).timer
  {
  }

  lemma {:induction false} LooseOverRun(s: State, es: seq<Event>, t: Tid)
    requires Inv(s) && Loose(s, t) && Legal(s, es) && AllHarmless(s, es) && NeverReadied(s, es, t)
    ensures Inv(Run(s, es)) && Loose(Run(s, es), t)
    decreases |es|
  {
    hide Inv, Harmless, Loose, Readies;
    if es != [] {
      StepKeeps(s, es[0]);
      LooseStays(s, es[0], t);
      LooseOverRun(Next(s, es[0]), es[1..], t);
    }
  }

  /** Whatever runs between the two regions of a resume, the resume may go on if nobody else has made the
      thread ready. */
  lemma WindowSafe(s: State, c: nat, es: seq<Event>)
    requires Inv(s) && Enabled(s, ResumeUnlink(c)) && Harmless(s, ResumeUnlink(c))
    requires var s1, t := Next(s, ResumeUnlink(c)), CallIn(s.calls, c).t;
      Legal(s1, es) && AllHarmless(s1, es) && NeverReadied(s1, es, t) && CallIn(Run(s1, es).calls, c) == Unlinked(t)
    ensures var r := Run(Next(s, ResumeUnlink(c)), es); Harmless(r, ResumeInsert(c)) && Inv(Next(r, ResumeInsert(c)))
  {
    hide Inv, Loose;
    UnlinkKeeps(s, c);
    LooseOverRun(Next(s, ResumeUnlink(c)), es, CallIn(s.calls, c).t);
    StepKeeps(Run(Next(s, ResumeUnlink(c)), es), ResumeInsert(c));
  }

  // ---------- What a step leaves alone ----------

  predicate Names(e: Event, t: Tid) {
    match e
    case Startup(u) => u == t
    case ResumeCheck(c, u) => u == t
    case ResumeLocked(u) => u == t
    case SuspendCheck(c, u) => u == t
    case Block(u, o, flag, timed) => u == t
    case Sleep(u) => u == t
    case Timeout(u) => u == t
    case ChangePriority(u, p) => u == t
    case Yield(u) => u == t
    case _ => false
  }

  /** Nobody waits on t's behalf, and no caller is in the middle of resuming or suspending it. */
  ghost predicate Away(s: State, t: Tid) {
    && (forall o: nat :: t !in WaitOf(s.waits, o))
    && (forall c: nat {:trigger CallIn(s.calls, c)} :: !CallIn(s.calls, c).Idle? ==> CallIn(s.calls, c).t != t)
  }

  lemma AwayVia(s: State, r: State, t: Tid, u: Tid, th: Thread)
    requires Inv(s) && Away(s, t) && u != t && r.threads == s.threads[u := th] && r.calls == s.calls
    requires r.waits == s.waits || r.waits == Unwait(s.waits, u)
    ensures Away(r, t) && ThreadIn(r.threads, t) == ThreadIn(s.threads, t)
  {
    forall o: nat ensures t !in WaitOf(Unwait(s.waits, u), o) {
      assert Distinct(WaitOf(s.waits, o));
      WithoutMembers(WaitOf(s.waits, o), u);
    }
  }

  lemma AwayCalls(s: State, t: Tid, c: nat, p: Phase)
    requires Away(s, t) && (!p.Idle? ==> p.t != t)
    ensures Away(s.(calls := s.calls[c := p]), t)
  {
    forall d: nat {:trigger CallIn(s.calls[c := p], d)} | !CallIn(s.calls[c := p], d).Idle? ensures CallIn(s.calls[c := p], d).t != t {
      if d != c { assert CallIn(s.calls[c := p], d) == CallIn(s.calls, d); }
    }
  }

  lemma AwayResume(s: State, t: Tid, u: Tid)
    requires Inv(s) && Away(s, t) && u != t
    ensures Away(Resume(s, u), t) && ThreadIn(Resume(s, u).threads, t) == ThreadIn(s.threads, t)
  {
    hide Inv, Away, Unwait;
    if ThreadIn(s.threads, u).stat == Suspended {
      AwayVia(s, Resume(s, u), t, u, ThreadIn(s.threads, u).(stat := Ready, timer := false));
    }
  }

  lemma AwayBlock(s: State, t: Tid, u: Tid, o: nat, flag: Flag, timed: bool)
    requires Inv(s) && Away(s, t) && u != t && ThreadIn(s.threads, u).stat == Ready
    ensures var r := Next(s, Block(u, o, flag, timed)); Away(r, t) && ThreadIn(r.threads, t) == ThreadIn(s.threads, t)
  {
    var r, list := Suspend(s, u, timed), WaitOf(s.waits, o);
    assert Distinct(list) && u !in list && t !in list;
    InsertMembers(list, u, flag, ByPrio(r.threads));
    hide Insert;
    AwayVia(s, r, t, u, ThreadIn(s.threads, u).(stat := Suspended, timer := timed));
    var w := r.waits[o := Insert(list, u, flag, ByPrio(r.threads))];
    forall q: nat ensures t !in WaitOf(w, q) { if q != o { assert WaitOf(w, q) == WaitOf(r.waits, q); } }
  }

  lemma AwayMoved(s: State, t: Tid, u: Tid, p: nat)
    requires Inv(s) && Away(s, t) && u != t && p < |s.ready|
    ensures var r := Next(s, ChangePriority(u, p)); Away(r, t) && ThreadIn(r.threads, t) == ThreadIn(s.threads, t)
  {
    var th := ThreadIn(s.threads, u);
    if th.stat == Ready { PrioFits(s, u); }
    hide Inv, Away;
    AwayVia(s, Next(s, ChangePriority(u, p)), t, u, th.(prio := p));
  }

  /** A step that does not name such a thread does not touch it. */
  lemma StepLeaves(s: State, e: Event, t: Tid)
    requires Inv(s) && Enabled(s, e) && Away(s, t) && !Names(e, t)
    ensures var r := Next(s, e); Away(r, t) && ThreadIn(r.threads, t) == ThreadIn(s.threads, t)
  {
    assert e.Wake? ==> WaitOf(s.waits, e.o)[0] in WaitOf(s.waits, e.o) && WaitOf(s.waits, e.o)[0] != t;
    assert e.ResumeUnlink? || e.ResumeInsert? || e.SuspendDo? ==> CallIn(s.calls, e.c).t != t;
    var r := Next(s, e);
    hide Inv, Away, Unwait;
    match e {
      case Startup(u) => AwayVia(s, r, t, u, ThreadIn(s.threads, u).(stat := Suspended, prio := ThreadIn(s.threads, u).initPrio, timer := false));
      case ResumeCheck(c, u) => AwayCalls(s, t, c, if ThreadIn(s.threads, u).stat == Suspended then Resuming(u) else Idle);
      case ResumeUnlink(c) =>
        var u := CallIn(s.calls, c).t;
        var th := ThreadIn(s.threads, u).(timer := false);
        AwayVia(s, Unlisted(s, u, th), t, u, th);
        AwayCalls(Unlisted(s, u, th), t, c, Unlinked(u));
      case ResumeInsert(c) =>
        var u := CallIn(s.calls, c).t;
        var th := ThreadIn(s.threads, u).(stat := Ready);
        AwayVia(s, Appended(s, u, th), t, u, th);
        AwayCalls(Appended(s, u, th), t, c, Idle);
      case ResumeLocked(u) => AwayResume(s, t, u);
      case SuspendCheck(c, u) => AwayCalls(s, t, c, if ThreadIn(s.threads, u).stat == Ready then Suspending(u) else Idle);
      case SuspendDo(c) =>
        var u := CallIn(s.calls, c).t;
        var th := ThreadIn(s.threads, u).(stat := Suspended, timer := false);
        AwayVia(s, Unlisted(s, u, th), t, u, th);
        AwayCalls(Unlisted(s, u, th), t, c, Idle);
      case Block(u, o, flag, timed) => AwayBlock(s, t, u, o, flag, timed);
      case Sleep(u) => AwayVia(s, r, t, u, ThreadIn(s.threads, u).(stat := Suspended, timer := true));
      case Wake(o) => AwayResume(s, t, WaitOf(s.waits, o)[0]);
      case Timeout(u) => AwayVia(s, r, t, u, ThreadIn(s.threads, u).(stat := Ready, timer := false));
      case ChangePriority(u, p) => AwayMoved(s, t, u, p);
      case Yield(u) => AwaySame(s, r, t);
    }
  }

  lemma AwaySame(s: State, r: State, t: Tid)
    requires Away(s, t) && r.waits == s.waits && r.calls == s.calls
    ensures Away(r, t)
  {
  }

  /** With interrupts off the three steps are one resume. */
  lemma ResumeWhole(s: State, c: nat, t: Tid)
    requires Inv(s) && CallIn(s.calls, c).Idle? && ThreadIn(s.threads, t).stat == Suspended
    ensures Legal(s, [ResumeCheck(c, t), ResumeUnlink(c), ResumeInsert(c)])
    ensures Run(s, [ResumeCheck(c, t), ResumeUnlink(c), ResumeInsert(c)]) == Resume(s, t).(calls := s.calls[c := Idle])
    ensures Inv(Resume(s, t))
  {
    var es := [ResumeCheck(c, t), ResumeUnlink(c), ResumeInsert(c)];
    var s1 := Next(s, es[0]);
    assert CallIn(s1.calls, c) == Resuming(t);
    var s2 := Next(s1, es[1]);
    assert CallIn(s2.calls, c) == Unlinked(t);
    var s3 := Next(s2, es[2]);
    var th := ThreadIn(s.threads, t);
    assert s.threads[t := th.(timer := false)][t := th.(stat := Ready, timer := false)] == s.threads[t := th.(stat := Ready, timer := false)];
    assert s.calls[c := Resuming(t)][c := Unlinked(t)][c := Idle] == s.calls[c := Idle];
    ThreeSteps(s, es[0], es[1], es[2]);
    ResumeKeeps(s, t);
  }

  lemma ThreeSteps(s: State, a: Event, b: Event, c: Event)
    requires Enabled(s, a) && Enabled(Next(s, a), b) && Enabled(Next(Next(s, a), b), c)
    ensures Legal(s, [a, b, c]) && Run(s, [a, b, c]) == Next(Next(Next(s, a), b), c)
  {
    assert [a, b, c][1..] == [b, c] && [b, c][1..] == [c] && [c][1..] == [];
    var s2 := Next(Next(s, a), b);
    assert Legal(s2, [c]) && Run(s2, [c]) == Next(s2, c);
    assert Legal(Next(s, a), [b, c]);
  }

  /** Caller c has unlinked t; caller d, in between, resumes it. */
  ghost predicate Overtaken(s: State, t: Tid, c: nat, d: nat, r: State) {
    && Enabled(s, ResumeCheck(c, t))
    && var s1 := Next(s, ResumeCheck(c, t));
    && Enabled(s1, ResumeUnlink(c))
    && var s2 := Next(s1, ResumeUnlink(c));
    && Legal(s2, [ResumeCheck(d, t), ResumeUnlink(d), ResumeInsert(d)])
    && r == Run(s2, [ResumeCheck(d, t), ResumeUnlink(d), ResumeInsert(d)])
  }

  lemma Overtake(s: State, t: Tid, c: nat, d: nat) returns (r: State)
    requires Inv(s) && ThreadIn(s.threads, t).stat == Suspended && c != d && CallIn(s.calls, c).Idle? && CallIn(s.calls, d).Idle?
    ensures Overtaken(s, t, c, d, r) && Inv(r) && CallIn(r.calls, c) == Unlinked(t)
    ensures var th := ThreadIn(s.threads, t);
      && th.prio < |s.ready| && r.ready == s.ready[th.prio := s.ready[th.prio] + [t]]
      && ThreadIn(r.threads, t) == th.(stat := Ready, timer := false)
  {
    PrioFits(s, t);
    StepKeeps(s, ResumeCheck(c, t));
    hide Inv, Loose;
    var s1 := Next(s, ResumeCheck(c, t));
    assert CallIn(s1.calls, c) == Resuming(t);
    UnlinkKeeps(s1, c);
    var s2 := Next(s1, ResumeUnlink(c));
    ResumeWhole(s2, d, t);
    r := Run(s2, [ResumeCheck(d, t), ResumeUnlink(d), ResumeInsert(d)]);
    CheckKeeps(Resume(s2, t), d, Idle);
  }

  /** Two callers resume the same suspended thread, one inside the other's window: it ends up in its ready queue
      twice. */
  lemma DoubleResume(s: State, t: Tid, c: nat, d: nat)
    requires Inv(s) && ThreadIn(s.threads, t).stat == Suspended && c != d && CallIn(s.calls, c).Idle? && CallIn(s.calls, d).Idle?
    ensures exists r :: Overtaken(s, t, c, d, r) && Enabled(r, ResumeInsert(c)) && DoubledIn(s, t, Next(r, ResumeInsert(c)))
  {
    hide Overtaken, Inv;
    var r := Overtake(s, t, c, d);
    StepKeepsIff(r, ResumeInsert(c));
    var p := ThreadIn(s.threads, t).prio;
    assert s.ready[p] + [t] + [t] == s.ready[p] + [t, t];
  }

  ghost predicate DoubledIn(s: State, t: Tid, r: State) {
    var p := ThreadIn(s.threads, t).prio;
    p < |s.ready| && r.ready == s.ready[p := s.ready[p] + [t, t]] && !Inv(r)
  }

  /** If the thread goes to sleep again before the first caller goes on, it ends up ready with its timer running:
      the assertion of rt_thread_timeout can fail. */
  lemma SleepInWindow(s: State, t: Tid, c: nat, d: nat)
    requires Inv(s) && ThreadIn(s.threads, t).stat == Suspended && c != d && CallIn(s.calls, c).Idle? && CallIn(s.calls, d).Idle?
    ensures exists r ::
              && Overtaken(s, t, c, d, r) && Enabled(r, Sleep(t)) && Enabled(Next(r, Sleep(t)), ResumeInsert(c))
              && ReadyAndTimed(Next(Next(r, Sleep(t)), ResumeInsert(c)), t)
  {
    hide Overtaken, Inv;
    var r := Overtake(s, t, c, d);
    StepKeeps(r, Sleep(t));
    StepKeepsIff(Next(r, Sleep(t)), ResumeInsert(c));
  }

  ghost predicate ReadyAndTimed(s: State, t: Tid) { !Inv(s) && Enabled(s, Timeout(t)) && ThreadIn(s.threads, t).stat == Ready }

  /** The lowest-numbered queue with a thread in it. */
  ghost function Lowest(ready: seq<seq<Tid>>): (p: nat)
    requires exists q :: 0 <= q < |ready| && ready[q] != []
    ensures p < |ready| && ready[p] != [] && forall q :: 0 <= q < p ==> ready[q] == []
  {
    if ready[0] != [] then 0
    else
      assert forall q :: 0 < q < |ready| ==> ready[q] == ready[1..][q - 1];
      1 + Lowest(ready[1..])
  }
}
