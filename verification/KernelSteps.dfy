/** Where each call of rt-thread/src/thread.c, scheduler.c and ipc.c leaves its thread: in which list, at which
    place, with which priority. */
module KernelSteps {
  import opened WaitList
  import opened KernelModel

  /** Only thread t may have changed. */
  ghost predicate Others(s: State, r: State, t: Tid) {
    forall u: Tid {:trigger ThreadIn(r.threads, u)} :: u != t ==> ThreadIn(r.threads, u) == ThreadIn(s.threads, u)
  }

  /** Thread t has come last in ready queue p, and no other ready queue has changed. */
  ghost predicate LastIn(before: seq<seq<Tid>>, after: seq<seq<Tid>>, t: Tid, p: nat) {
    && p < |before| == |after|
    && after[p] == before[p] + [t]
    && forall q :: 0 <= q < |before| && q != p ==> after[q] == before[q]
  }

  /** Thread t has left ready queue p, in which the others keep their order, and no other ready queue has changed. */
  ghost predicate Left(before: seq<seq<Tid>>, after: seq<seq<Tid>>, t: Tid, p: nat) {
    && p < |before| == |after| && t in before[p] && Loses(before[p], after[p], t)
    && forall q :: 0 <= q < |before| && q != p ==> after[q] == before[q]
  }

  /** No wait list holds t, and the others have only lost it. */
  ghost predicate Gone(s: State, r: State, t: Tid) {
    forall o: nat {:trigger WaitOf(r.waits, o)} ::
      t !in WaitOf(r.waits, o) && Loses(WaitOf(s.waits, o), WaitOf(r.waits, o), t)
  }

  lemma GoneFrom(s: State, t: Tid)
    requires Inv(s)
    ensures Gone(s, s.(waits := Unwait(s.waits, t)), t)
  {
    var w := Unwait(s.waits, t);
    forall o: nat {:trigger WaitOf(w, o)} | true
      ensures t !in WaitOf(w, o) && Loses(WaitOf(s.waits, o), WaitOf(w, o), t)
    {
      assert Distinct(WaitOf(s.waits, o));
      WithoutMembers(WaitOf(s.waits, o), t);
      WithoutLoses(WaitOf(s.waits, o), t);
    }
  }

  /** A new thread starts with its initial priority, suspended and in no list. */
  lemma StartupIs(s: State, t: Tid)
    requires Inv(s) && Enabled(s, Startup(t))
    ensures var r, th := Next(s, Startup(t)), ThreadIn(s.threads, t);
      && ThreadIn(r.threads, t) == Thread(Suspended, th.initPrio, th.initPrio, false)
      && Others(s, r, t) && r.ready == s.ready && r.waits == s.waits
      && forall o: nat :: t !in WaitOf(r.waits, o)
  {
    assert forall o: nat :: t !in WaitOf(s.waits, o);
  }

  /** A resumed or timed-out thread comes last in the ready queue of its priority and leaves any wait list. */
  lemma ResumeIs(s: State, t: Tid)
    requires Inv(s) && ThreadIn(s.threads, t).stat == Suspended
    ensures var r, th := Resume(s, t), ThreadIn(s.threads, t);
      && ThreadIn(r.threads, t) == th.(stat := Ready, timer := false)
      && Others(s, r, t) && LastIn(s.ready, r.ready, t, th.prio) && Gone(s, r, t)
    ensures Enabled(s, Timeout(t)) ==> Next(s, Timeout(t)) == Resume(s, t)
  {
    GoneFrom(s, t);
    PrioFits(s, t);
    hide Unwait, Inv;
  }

  /** So rt_thread_startup, if nothing comes between its steps, puts the thread last in the queue of its initial
      priority. */
  lemma StartedRuns(s: State, t: Tid, c: nat)
    requires Inv(s) && Enabled(s, Startup(t)) && CallIn(s.calls, c).Idle?
    ensures var es := [Startup(t), ResumeCheck(c, t), ResumeUnlink(c), ResumeInsert(c)];
      && Legal(s, es)
      && var r, p := Run(s, es), ThreadIn(s.threads, t).initPrio;
         && ThreadIn(r.threads, t) == Thread(Ready, p, p, false)
         && LastIn(s.ready, r.ready, t, p) && Others(s, r, t) && forall o: nat {:trigger WaitOf(r.waits, o)} :: WaitOf(r.waits, o) == WaitOf(s.waits, o)
  {
    StartupKeeps(s, t);
    StartupIs(s, t);
    var s1 := Next(s, Startup(t));
    ResumeWhole(s1, c, t);
    ResumeIs(s1, t);
    var es := [ResumeCheck(c, t), ResumeUnlink(c), ResumeInsert(c)];
    assert ([Startup(t)] + es)[1..] == es;
    assert [Startup(t), ResumeCheck(c, t), ResumeUnlink(c), ResumeInsert(c)] == [Startup(t)] + es;
    hide Next, Enabled, Resume, Inv;
  }

  /** A thread that suspends itself or sleeps leaves its ready queue and keeps its priority; only sleep starts its
      timer. */
  lemma SuspendIs(s: State, t: Tid, timed: bool)
    requires Inv(s) && ThreadIn(s.threads, t).stat == Ready
    ensures var r, th := KernelModel.Suspend(s, t, timed), ThreadIn(s.threads, t);
      && ThreadIn(r.threads, t) == th.(stat := Suspended, timer := timed)
      && Others(s, r, t) && Left(s.ready, r.ready, t, th.prio) && r.waits == s.waits
    ensures Next(s, Sleep(t)) == KernelModel.Suspend(s, t, true)
  {
    PrioFits(s, t);
    var q := s.ready[ThreadIn(s.threads, t).prio];
    assert t in q && Distinct(q);
    WithoutLoses(q, t);
  }

  /** rt_thread_suspend, if nothing comes between its test and its region, is such a step for a ready thread and does
      nothing for another. */
  lemma SuspendWhole(s: State, c: nat, t: Tid)
    requires Inv(s) && CallIn(s.calls, c).Idle? && ThreadIn(s.threads, t).stat != Born
    ensures var r := Next(s, SuspendCheck(c, t));
      if ThreadIn(s.threads, t).stat == Ready then
        Enabled(r, SuspendDo(c)) && Next(r, SuspendDo(c)).(calls := s.calls) == KernelModel.Suspend(s, t, false)
      else CallIn(r.calls, c).Idle? && r.(calls := s.calls) == s
  {
    PrioFits(s, t);
  }

  /** A thread that blocks leaves its ready queue and stands in the wait list of the object, last in a FIFO one,
      behind all that are no less urgent in a priority one; no other list changes. */
  lemma BlockIs(s: State, t: Tid, o: nat, flag: Flag, timed: bool)
    requires Inv(s) && ThreadIn(s.threads, t).stat == Ready
    ensures var r, th, list := Next(s, Block(t, o, flag, timed)), ThreadIn(s.threads, t), WaitOf(s.waits, o);
      && ThreadIn(r.threads, t) == th.(stat := Suspended, timer := timed)
      && Others(s, r, t) && Left(s.ready, r.ready, t, th.prio)
      && (forall p: nat {:trigger WaitOf(r.waits, p)} :: p != o ==> WaitOf(r.waits, p) == WaitOf(s.waits, p))
      && Joins(list, WaitOf(r.waits, o), t, flag, u => ThreadIn(s.threads, u).prio)
  {
    SuspendIs(s, t, timed);
    var r, list := KernelModel.Suspend(s, t, timed), WaitOf(s.waits, o);
    InsertJoins(list, t, flag, ByPrio(r.threads));
    JoinsSame(list, Insert(list, t, flag, ByPrio(r.threads)), t, flag, ByPrio(r.threads), u => ThreadIn(s.threads, u).prio);
    hide KernelModel.Suspend, Left, Joins;
  }

  /** Waking an object's list makes its first thread ready. */
  lemma WakeIs(s: State, o: nat)
    requires Inv(s) && Enabled(s, Wake(o))
    ensures var r, t := Next(s, Wake(o)), WaitOf(s.waits, o)[0];
      && ThreadIn(r.threads, t) == ThreadIn(s.threads, t).(stat := Ready, timer := false)
      && Others(s, r, t) && LastIn(s.ready, r.ready, t, ThreadIn(s.threads, t).prio)
      && WaitOf(r.waits, o) == WaitOf(s.waits, o)[1..]
      && forall p: nat {:trigger WaitOf(r.waits, p)} :: p != o ==> WaitOf(r.waits, p) == WaitOf(s.waits, p)
  {
    var t, list := WaitOf(s.waits, o)[0], WaitOf(s.waits, o);
    assert t in list;
    ResumeIs(s, t);
    forall p: nat | p != o ensures t !in WaitOf(s.waits, p) { }
    assert Distinct(list) && list == [list[0]] + list[1..];
    assert WaitOf(Unwait(s.waits, t), o) == list[1..];
  }

  /** A priority change takes effect at once: a ready thread goes to the end of its new queue, any other stays in
      its list. */
  lemma PriorityIs(s: State, t: Tid, p: nat)
    requires Inv(s) && p < |s.ready|
    ensures var r, th := Next(s, ChangePriority(t, p)), ThreadIn(s.threads, t);
      && ThreadIn(r.threads, t) == th.(prio := p) && Others(s, r, t) && r.waits == s.waits
      && (th.stat != Ready ==> r.ready == s.ready)
      && (th.stat == Ready ==> exists mid: seq<seq<Tid>> :: Left(s.ready, mid, t, th.prio) && LastIn(mid, r.ready, t, p))
  {
    var r, th := Next(s, ChangePriority(t, p)), ThreadIn(s.threads, t);
    if th.stat == Ready {
      SuspendIs(s, t, false);
      var mid := KernelModel.Suspend(s, t, false).ready;
      assert Left(s.ready, mid, t, th.prio) && LastIn(mid, r.ready, t, p);
    }
  }

  /** A ready thread that yields goes behind all others of its priority, and no other queue changes. */
  lemma YieldIs(s: State, t: Tid)
    requires Inv(s) && ThreadIn(s.threads, t).stat == Ready
    ensures var r, p := Next(s, Yield(t)), ThreadIn(s.threads, t).prio;
      && r.threads == s.threads && r.waits == s.waits
      && exists mid: seq<seq<Tid>> :: Left(s.ready, mid, t, p) && LastIn(mid, r.ready, t, p)
  {
    SuspendIs(s, t, false);
    PrioFits(s, t);
    var r, p, mid := Next(s, Yield(t)), ThreadIn(s.threads, t).prio, KernelModel.Suspend(s, t, false).ready;
    assert Loses(s.ready[p], mid[p], t);
    if |s.ready[p]| < 2 { assert s.ready[p] == [t] && mid[p] == []; }
    assert LastIn(mid, r.ready, t, p);
  }
}
