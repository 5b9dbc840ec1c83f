/** Threads and their timers together (rt-thread/src/thread.c, timer.c and clock.c): timer t is the thread_timer of
    thread t for every thread number t below threads; higher numbers are other hard timers.

    Every call that suspends or resumes a thread stops, or sets and starts, that thread's timer in the same
    interrupt-disabled region; when the timer fires, its callback is rt_thread_timeout. */
module ThreadTimers {
  import opened WaitList
  import opened TimerModel
  import opened TimerRuns
  import TimerTicks
  import K = KernelModel

  datatype World = World(threads: nat, k: K.State, s: St)

  /** A call of a thread or of a callback. */
  datatype Op =
    | Kernel(e: K.Event)
    | SleepFor(t: Tid, n: nat)
    | BlockFor(t: Tid, o: nat, flag: Flag, n: nat)
    | TimerCall(a: Act)

  /** What a call does to thread timers. */
  datatype Effect = Nothing | Clears(t: Tid) | Arms(t: Tid, n: nat) | Other(a: Act)

  predicate OpEnabled(k: K.State, op: Op) {
    match op
    case Kernel(e) => K.Enabled(k, e)
    case SleepFor(t, n) => K.Enabled(k, K.Sleep(t))
    case BlockFor(t, o, flag, n) => K.Enabled(k, K.Block(t, o, flag, true))
    case TimerCall(a) => true
  }

  function EffectOf(k: K.State, op: Op): Effect
    requires OpEnabled(k, op)
  {
    match op
    case Kernel(e) => (
      match e
      case ResumeUnlink(c) => Clears(K.CallIn(k.calls, c).t)
      case ResumeLocked(t) => if K.ThreadIn(k.threads, t).stat == K.Suspended then Clears(t) else Nothing
      case SuspendDo(c) => Clears(K.CallIn(k.calls, c).t)
      case Block(t, o, flag, timed) => Clears(t)
      case Wake(o) => Clears(K.WaitOf(k.waits, o)[0])
      case _ => Nothing
    )
    case SleepFor(t, n) => Arms(t, n)
    case BlockFor(t, o, flag, n) => Arms(t, n)
    case TimerCall(a) => Other(a)
  }

  /** rt_timer_stop; or that, rt_timer_control and rt_timer_start. */
  function ActsOf(f: Effect): seq<During> {
    match f
    case Nothing => []
    case Clears(t) => [Does(Stop(t))]
    case Arms(t, n) => [Does(Stop(t)), Does(SetTime(t, n)), Does(Start(t))]
    case Other(a) => [Does(a)]
  }

  function KernelAfter(k: K.State, op: Op): K.State
    requires OpEnabled(k, op)
  {
    match op
    case Kernel(e) => K.Next(k, e)
    case SleepFor(t, n) => K.Next(k, K.Sleep(t))
    case BlockFor(t, o, flag, n) => K.Next(k, K.Block(t, o, flag, true))
    case TimerCall(a) => k
  }

  function DoOp(w: World, op: Op): World
    requires OpEnabled(w.k, op)
  {
    World(w.threads, KernelAfter(w.k, op), AfterAll(w.s, ActsOf(EffectOf(w.k, op))))
  }

  /** The calls a program may make: the timed waits and timeouts go through their timers, a resume goes on only
      with a thread it still has in hand, and threads and other timers have their own numbers. */
  ghost predicate OpOk(w: World, op: Op, lag: nat) {
    && OpEnabled(w.k, op)
    && match op
       case Kernel(e) =>
         && K.Harmless(w.k, e) && !e.Timeout? && !e.Sleep? && (e.Block? ==> !e.timed) && (e.Startup? ==> e.t < w.threads)
       case SleepFor(t, n) => InitOk(n, lag)
       case BlockFor(t, o, flag, n) => InitOk(n, lag)
       case TimerCall(a) => a.u >= w.threads && ActOk(a, lag)
  }

  function DoOps(w: World, ops: seq<Op>, lag: nat): World
    requires OpsOk(w, ops, lag)
    decreases |ops|
  {
    if ops == [] then w else DoOps(DoOp(w, ops[0]), ops[1..], lag)
  }

  ghost predicate OpsOk(w: World, ops: seq<Op>, lag: nat)
    decreases |ops|
  {
    ops == [] || (OpOk(w, ops[0], lag) && OpsOk(DoOp(w, ops[0]), ops[1..], lag))
  }

  // ---------- A thread timer runs exactly while its thread is suspended for a time ----------

  ghost predicate Tied(w: World) {
    && (forall t: Tid {:trigger K.ThreadIn(w.k.threads, t)} :: K.ThreadIn(w.k.threads, t).stat != K.Born ==> t < w.threads)
    && (forall t: Tid {:trigger K.ThreadIn(w.k.threads, t)} :: t < w.threads ==> (K.ThreadIn(w.k.threads, t).timer <==> t in w.s.q))
    && (forall t: Tid {:trigger TimerIn(w.s.timers, t)} :: t < w.threads ==> !TimerIn(w.s.timers, t).periodic)
    && (forall t :: t in w.s.temp ==> t >= w.threads)
  }

  ghost predicate Good(w: World, lag: nat) { K.Inv(w.k) && Inv(w.s, lag) && Tied(w) }

  /** When a thread timer is at the head of the list, its thread is suspended: the assertion of rt_thread_timeout. */
  lemma TimeoutFindsSuspended(w: World, lag: nat)
    requires Good(w, lag) && w.s.q != [] && w.s.q[0] < w.threads
    ensures K.Enabled(w.k, K.Timeout(w.s.q[0])) && K.ThreadIn(w.k.threads, w.s.q[0]).stat == K.Suspended
  {
    assert w.s.q[0] in w.s.q;
    K.TimeoutFindsSuspended(w.k, w.s.q[0]);
  }

  /** What an effect makes of the running timers. */
  predicate Runs(f: Effect, before: bool, u: Tid) {
    match f
    case Nothing => before
    case Clears(t) => u != t && before
    case Arms(t, n) => u == t || before
    case Other(a) => before
  }

  predicate SubjectOk(f: Effect, threads: nat) {
    match f
    case Nothing => true
    case Clears(t) => t < threads
    case Arms(t, n) => t < threads
    case Other(a) => a.u >= threads
  }

  predicate EffectOk(f: Effect, lag: nat) {
    match f
    case Arms(t, n) => InitOk(n, lag)
    case Other(a) => ActOk(a, lag)
    case _ => true
  }

  lemma OneAct(s: St, a: Act)
    ensures AfterAll(s, [Does(a)]) == Do(s, a)
  {
    assert [Does(a)][1..] == [];
  }

  lemma ThreeActs(s: St, a: Act, b: Act, c: Act)
    ensures AfterAll(s, [Does(a), Does(b), Does(c)]) == Do(Do(Do(s, a), b), c)
  {
    assert [Does(a), Does(b), Does(c)][1..] == [Does(b), Does(c)];
    assert [Does(b), Does(c)][1..] == [Does(c)];
    OneAct(Do(Do(s, a), b), c);
  }

  lemma StopRuns(s: St, t: Tid, u: Tid, lag: nat)
    requires Inv(s, lag)
    ensures u in Do(s, Stop(t)).q <==> u != t && u in s.q
  {
    WithoutMembers(s.q, t);
  }

  lemma StartRuns(s: St, t: Tid, u: Tid, lag: nat)
    requires Inv(s, lag)
    ensures u in Do(s, Start(t)).q <==> u == t || u in s.q
  {
    StartedMembers(s, t);
  }

  lemma OtherRuns(s: St, a: Act, u: Tid, lag: nat)
    requires Inv(s, lag) && u != a.u
    ensures u in Do(s, a).q <==> u in s.q
    ensures TimerIn(Do(s, a).timers, u) == TimerIn(s.timers, u)
  {
    WithoutMembers(s.q, a.u);
    if a.Start? { StartedMembers(s, a.u); }
  }

  lemma PeriodicSame(s: St, a: Act)
    requires !a.SetPeriodic?
    ensures TimerIn(Do(s, a).timers, a.u).periodic ==> TimerIn(s.timers, a.u).periodic
  {
  }

  lemma TempShrinks(s: St, a: Act)
    requires |s.temp| <= 1
    ensures forall t :: t in Do(s, a).temp ==> t in s.temp
    ensures Do(s, a).now == s.now
  {
    WithoutTemp(s.temp, a.u);
  }

  /** The timer side of a call. */
  lemma ActsKeep(s: St, f: Effect, threads: nat, lag: nat, u: Tid)
    requires Inv(s, lag) && SubjectOk(f, threads) && EffectOk(f, lag)
    ensures var r := AfterAll(s, ActsOf(f));
      && Inv(r, lag) && r.now == s.now && (forall t :: t in r.temp ==> t in s.temp)
      && (u < threads ==> (u in r.q <==> Runs(f, u in s.q, u)) && (TimerIn(r.timers, u).periodic ==> TimerIn(s.timers, u).periodic))
  {
    hide Inv, Do;
    InvTemp(s, lag);
    match f {
      case Nothing =>
      case Clears(t) =>
        OneAct(s, Stop(t));
        DoKeeps(s, Stop(t), lag);
        TempShrinks(s, Stop(t));
        StopRuns(s, t, u, lag);
        if u == t { PeriodicSame(s, Stop(t)); } else { OtherRuns(s, Stop(t), u, lag); }
      case Arms(t, n) =>
        ArmKeeps(s, t, n, lag, u);
      case Other(a) =>
        OneAct(s, a);
        DoKeeps(s, a, lag);
        TempShrinks(s, a);
        if u < threads { OtherRuns(s, a, u, lag); }
    }
  }

  lemma InvTemp(s: St, lag: nat)
    requires Inv(s, lag)
    ensures |s.temp| <= 1
  {
  }

  lemma ArmKeeps(s: St, t: Tid, n: nat, lag: nat, u: Tid)
    requires Inv(s, lag) && InitOk(n, lag)
    ensures var r := AfterAll(s, ActsOf(Arms(t, n)));
      && Inv(r, lag) && r.now == s.now && (forall v :: v in r.temp ==> v in s.temp)
      && (u in r.q <==> u == t || u in s.q) && (TimerIn(r.timers, u).periodic ==> TimerIn(s.timers, u).periodic)
      && TimerIn(r.timers, t).due == s.now + n && TimerIn(r.timers, t).init == n
      && (u != t ==> TimerIn(r.timers, u) == TimerIn(s.timers, u))
  {
    ThreeActs(s, Stop(t), SetTime(t, n), Start(t));
    var s1 := Do(s, Stop(t));
    var s2 := Do(s1, SetTime(t, n));
    DueThen(s2, t);
    assert TimerIn(s2.timers, t).init == n && s2.now == s.now;
    hide Inv, Do;
    InvTemp(s, lag);
    DoKeeps(s, Stop(t), lag);
    TempShrinks(s, Stop(t));
    StopRuns(s, t, u, lag);
    InvTemp(s1, lag);
    DoKeeps(s1, SetTime(t, n), lag);
    TempShrinks(s1, SetTime(t, n));
    SetRuns(s1, t, n);
    InvTemp(s2, lag);
    DoKeeps(s2, Start(t), lag);
    TempShrinks(s2, Start(t));
    StartRuns(s2, t, u, lag);
    if u == t {
      PeriodicSame(s, Stop(t));
      PeriodicSame(s1, SetTime(t, n));
      PeriodicSame(s2, Start(t));
    } else {
      OtherRuns(s, Stop(t), u, lag);
      OtherRuns(s1, SetTime(t, n), u, lag);
      OtherRuns(s2, Start(t), u, lag);
    }
  }

  lemma DueThen(s: St, t: Tid)
    ensures TimerIn(Do(s, Start(t)).timers, t).due == s.now + TimerIn(s.timers, t).init
    ensures TimerIn(Do(s, Start(t)).timers, t).init == TimerIn(s.timers, t).init
  {
  }

  lemma SetRuns(s: St, t: Tid, n: nat)
    ensures Do(s, SetTime(t, n)).q == s.q
  {
  }

  /** The kernel side: whose timer flag changes, and who has been started. */
  lemma KernelKeeps(w: World, op: Op, lag: nat, u: Tid)
    requires K.Inv(w.k) && OpOk(w, op, lag)
    ensures var r, f := KernelAfter(w.k, op), EffectOf(w.k, op);
      && K.Inv(r)
      && K.ThreadIn(r.threads, u).timer == Runs(f, K.ThreadIn(w.k.threads, u).timer, u)
      && (K.ThreadIn(r.threads, u).stat != K.Born ==> K.ThreadIn(w.k.threads, u).stat != K.Born || u < w.threads)
  {
    KernelInv(w, op, lag);
    KernelTimers(w.k, op, u);
    assert op.Kernel? && op.e.Wake? ==> K.WaitOf(w.k.waits, op.e.o)[0] in K.WaitOf(w.k.waits, op.e.o);
    assert op.Kernel? && op.e.ResumeInsert? ==> !K.CallIn(w.k.calls, op.e.c).Idle?;
    assert op.Kernel? && op.e.SuspendDo? ==> !K.CallIn(w.k.calls, op.e.c).Idle?;
  }

  lemma KernelInv(w: World, op: Op, lag: nat)
    requires K.Inv(w.k) && OpOk(w, op, lag)
    ensures K.Inv(KernelAfter(w.k, op))
  {
    match op {
      case Kernel(e) => K.StepKeeps(w.k, e);
      case SleepFor(t, n) => K.StepKeeps(w.k, K.Sleep(t));
      case BlockFor(t, o, flag, n) => K.StepKeeps(w.k, K.Block(t, o, flag, true));
      case TimerCall(a) =>
    }
  }

  lemma KernelTimers(k: K.State, op: Op, u: Tid)
    requires K.Inv(k) && OpEnabled(k, op) && (op.Kernel? ==> !op.e.Timeout? && !op.e.Sleep? && (op.e.Block? ==> !op.e.timed))
    ensures K.ThreadIn(KernelAfter(k, op).threads, u).timer == Runs(EffectOf(k, op), K.ThreadIn(k.threads, u).timer, u)
  {
    match op {
      case Kernel(e) => if e.Wake? || e.Startup? || e.ResumeLocked? { WakeTimers(k, e, u); } else { StepTimers(k, e, u); }
      case _ => hide K.Inv, K.Unwait, K.WaitOf, Insert, Without, K.ByPrio, K.Readied, K.Resume;
    }
  }

  lemma StepTimers(k: K.State, e: K.Event, u: Tid)
    requires K.Enabled(k, e) && !e.Wake? && !e.Startup? && !e.ResumeLocked? && !e.Timeout? && !e.Sleep? && (e.Block? ==> !e.timed)
    ensures K.ThreadIn(K.Next(k, e).threads, u).timer == Runs(EffectOf(k, Kernel(e)), K.ThreadIn(k.threads, u).timer, u)
  {
    hide K.Unwait, K.WaitOf, K.CallIn, Insert, Without, K.ByPrio, K.Readied, K.Resume;
  }

  lemma WakeTimers(k: K.State, e: K.Event, u: Tid)
    requires K.Inv(k) && K.Enabled(k, e) && (e.Wake? || e.Startup? || e.ResumeLocked?)
    ensures OpEnabled(k, Kernel(e))
    ensures K.ThreadIn(K.Next(k, e).threads, u).timer == Runs(EffectOf(k, Kernel(e)), K.ThreadIn(k.threads, u).timer, u)
  {
    assert e.Wake? ==> K.WaitOf(k.waits, e.o)[0] in K.WaitOf(k.waits, e.o);
    assert e.Startup? ==> !K.ThreadIn(k.threads, e.t).timer;
    hide K.Inv, K.Unwait, K.WaitOf, K.CallIn, Insert, Without, K.ByPrio;
  }

  lemma SubjectIs(w: World, op: Op, lag: nat)
    requires Good(w, lag) && OpOk(w, op, lag)
    ensures SubjectOk(EffectOf(w.k, op), w.threads) && EffectOk(EffectOf(w.k, op), lag)
  {
    assert op.Kernel? && op.e.Wake? ==> K.WaitOf(w.k.waits, op.e.o)[0] in K.WaitOf(w.k.waits, op.e.o);
    assert op.Kernel? && op.e.ResumeUnlink? ==> !K.CallIn(w.k.calls, op.e.c).Idle?;
    assert op.Kernel? && op.e.SuspendDo? ==> !K.CallIn(w.k.calls, op.e.c).Idle?;
  }

  lemma OpKeeps(w: World, op: Op, lag: nat)
    requires Good(w, lag) && OpOk(w, op, lag)
    ensures Good(DoOp(w, op), lag) && DoOp(w, op).s.now == w.s.now
  {
    hide K.Inv, Inv, AfterAll, EffectOf, ActsOf, KernelAfter, Runs;
    SubjectIs(w, op, lag);
    var r, f := DoOp(w, op), EffectOf(w.k, op);
    forall u: Tid ensures
      && (K.ThreadIn(r.k.threads, u).stat != K.Born ==> u < w.threads)
      && (u < w.threads ==> (K.ThreadIn(r.k.threads, u).timer <==> u in r.s.q) && !TimerIn(r.s.timers, u).periodic)
    {
      KernelKeeps(w, op, lag, u);
      ActsKeep(w.s, f, w.threads, lag, u);
      assert K.ThreadIn(w.k.threads, u).stat != K.Born ==> u < w.threads;
    }
    KernelKeeps(w, op, lag, 0);
    ActsKeep(w.s, f, w.threads, lag, 0);
  }

  lemma {:induction false} OpsKeep(w: World, ops: seq<Op>, lag: nat)
    requires Good(w, lag) && OpsOk(w, ops, lag)
    ensures Good(DoOps(w, ops, lag), lag) && DoOps(w, ops, lag).s.now == w.s.now && DoOps(w, ops, lag).threads == w.threads
    decreases |ops|
  {
    hide Good;
    if ops != [] {
      OpKeeps(w, ops[0], lag);
      OpsKeep(DoOp(w, ops[0]), ops[1..], lag);
    }
  }

  // ---------- The firing loop ----------

  type Agenda = seq<seq<Op>>

  function FirstOps(agenda: Agenda): seq<Op> { if agenda == [] then [] else agenda[0] }
  function OtherOps(agenda: Agenda): Agenda { if agenda == [] then [] else agenda[1..] }

  /** The head timer has left the list and its callback begins. */
  function Opened(w: World): World
    requires w.s.q != []
  {
    w.(s := Begin(w.s))
  }

  /** One turn of rt_timer_check: rt_thread_timeout for a thread timer, anything else for another one. */
  function Turn(w: World, ops: seq<Op>, lag: nat): World
    requires w.s.q != [] && (w.s.q[0] >= w.threads ==> OpsOk(Opened(w), ops, lag))
  {
    var t := w.s.q[0];
    if t < w.threads then World(w.threads, K.TimedOut(w.k, t), Fire(w.s, []))
    else
      var r := DoOps(Opened(w), ops, lag);
      r.(s := Finish(r.s, t))
  }

  ghost predicate TurnOk(w: World, ops: seq<Op>, lag: nat)
    requires w.s.q != []
  {
    w.s.q[0] >= w.threads ==> OpsOk(Opened(w), ops, lag)
  }

  /** Every callback makes proper calls, and once callbacks do nothing more, every turn leaves fewer timers due. */
  ghost predicate Closes(w: World, agenda: Agenda, lag: nat)
    decreases |agenda|, DueSet(w.s)
  {
    Done(w.s)
    || (TurnOk(w, FirstOps(agenda), lag)
        && if agenda == [] then DueSet(Turn(w, [], lag).s) < DueSet(w.s) && Closes(Turn(w, [], lag), [], lag)
           else Closes(Turn(w, agenda[0], lag), agenda[1..], lag))
  }

  function CheckWorld(w: World, agenda: Agenda, lag: nat): World
    requires Closes(w, agenda, lag)
    decreases |agenda|, DueSet(w.s)
  {
    if Done(w.s) then w else CheckWorld(Turn(w, FirstOps(agenda), lag), OtherOps(agenda), lag)
  }

  /** A thread's timer is a one-shot: it is gone after its turn. */
  lemma TimeoutTurn(s: St, lag: nat, u: Tid)
    requires Inv(s, lag) && s.q != [] && !TimerIn(s.timers, s.q[0]).periodic
    ensures var r, t := Fire(s, []), s.q[0];
      && Inv(r, lag) && r.temp == [] && r.now == s.now && (u in r.q <==> u != t && u in s.q)
      && (u != t ==> TimerIn(r.timers, u) == TimerIn(s.timers, u)) && !TimerIn(r.timers, t).periodic
  {
    InvLate(s, lag);
    BeginKeeps(s, lag, lag);
    WithoutMembers(s.q, s.q[0]);
    assert AfterAll(Begin(s), []) == Begin(s);
    FinishKeeps(Begin(s), s.q[0], lag, lag);
    WithoutTemp(Begin(s).temp, s.q[0]);
  }

  lemma OpenedGood(w: World, lag: nat)
    requires Good(w, lag) && w.s.q != [] && w.s.q[0] >= w.threads
    ensures Good(Opened(w), lag) && Opened(w).s.now == w.s.now && Opened(w).s.temp == [w.s.q[0]]
    ensures forall u :: u != w.s.q[0] ==> (u in Opened(w).s.q <==> u in w.s.q) && TimerIn(Opened(w).s.timers, u) == TimerIn(w.s.timers, u)
  {
    hide K.Inv;
    var b, t := Begin(w.s), w.s.q[0];
    InvLate(w.s, lag);
    BeginKeeps(w.s, lag, lag);
    QueueDistinct(w.s, lag);
    WithoutMembers(w.s.q, t);
    forall u: Tid | u < w.threads ensures (u in b.q <==> u in w.s.q) && TimerIn(b.timers, u) == TimerIn(w.s.timers, u) { assert u != t; }
  }

  /** The end of another timer's turn. */
  lemma FinishOther(m: St, t: Tid, lag: nat, u: Tid)
    requires Inv(m, lag) && (m.temp == [] || m.temp == [t]) && u != t
    ensures var r := Finish(m, t);
      Inv(r, lag) && r.temp == [] && r.now == m.now && (u in r.q <==> u in m.q) && TimerIn(r.timers, u) == TimerIn(m.timers, u)
  {
    InvLate(m, lag);
    FinishKeeps(m, t, lag, lag);
    if Restarts(m, t) { QueueDistinct(m, lag); StartedMembers(m, t); }
  }

  lemma {:induction false} OpsTemp(w: World, ops: seq<Op>, lag: nat, t: Tid)
    requires Good(w, lag) && OpsOk(w, ops, lag) && (w.s.temp == [] || w.s.temp == [t])
    ensures var r := DoOps(w, ops, lag); r.s.temp == [] || r.s.temp == [t]
    decreases |ops|
  {
    hide Good;
    if ops != [] {
      var w1 := DoOp(w, ops[0]);
      OpKeeps(w, ops[0], lag);
      TempIs(w.s, ActsOf(EffectOf(w.k, ops[0])), t);
      OpsTemp(w1, ops[1..], lag, t);
    }
  }

  lemma TimedOutKeeps(w: World, lag: nat)
    requires Good(w, lag) && w.s.q != [] && w.s.q[0] < w.threads
    ensures var r := World(w.threads, K.TimedOut(w.k, w.s.q[0]), Fire(w.s, [])); Good(r, lag) && r.s.now == w.s.now && r.s.temp == []
  {
    var t := w.s.q[0];
    TimeoutFindsSuspended(w, lag);
    K.StepKeeps(w.k, K.Timeout(t));
    hide K.Inv, Inv;
    var r := World(w.threads, K.TimedOut(w.k, t), Fire(w.s, []));
    forall u: Tid ensures
      && (K.ThreadIn(r.k.threads, u).stat != K.Born ==> u < w.threads)
      && (u < w.threads ==> (K.ThreadIn(r.k.threads, u).timer <==> u in r.s.q) && !TimerIn(r.s.timers, u).periodic)
    {
      assert !TimerIn(w.s.timers, t).periodic;
      TimeoutTurn(w.s, lag, u);
      assert K.ThreadIn(w.k.threads, u).stat != K.Born ==> u < w.threads;
    }
    TimeoutTurn(w.s, lag, t);
  }

  lemma TurnKeeps(w: World, ops: seq<Op>, lag: nat)
    requires Good(w, lag) && w.s.q != [] && TurnOk(w, ops, lag)
    ensures var r := Turn(w, ops, lag); Good(r, lag) && r.s.now == w.s.now && r.threads == w.threads && r.s.temp == []
  {
    var t := w.s.q[0];
    if t < w.threads {
      TimedOutKeeps(w, lag);
    } else {
      OpenedGood(w, lag);
      OpsKeep(Opened(w), ops, lag);
      OpsTemp(Opened(w), ops, lag, t);
      var m := DoOps(Opened(w), ops, lag);
      ClosedGood(m, t, lag);
    }
  }

  lemma ClosedGood(m: World, t: Tid, lag: nat)
    requires Good(m, lag) && t >= m.threads && (m.s.temp == [] || m.s.temp == [t])
    ensures var r := m.(s := Finish(m.s, t)); Good(r, lag) && r.s.now == m.s.now && r.s.temp == []
  {
    hide K.Inv, Inv, Finish;
    var r := Finish(m.s, t);
    forall u: Tid | u < m.threads ensures (u in r.q <==> u in m.s.q) && TimerIn(r.timers, u) == TimerIn(m.s.timers, u) {
      FinishOther(m.s, t, lag, u);
    }
    FinishOther(m.s, t, lag, t + 1);
  }

  /** A check keeps every thread timer tied to its thread, and leaves nothing due. */
  lemma {:induction false} CheckKeeps(w: World, agenda: Agenda, lag: nat)
    requires Good(w, lag) && Closes(w, agenda, lag) && w.s.temp == []
    ensures var r := CheckWorld(w, agenda, lag);
      Good(r, lag) && r.s.now == w.s.now && r.threads == w.threads && r.s.temp == [] && DueSet(r.s) == {}
    decreases |agenda|, DueSet(w.s)
  {
    hide K.Inv, Inv, Tied, Turn, DueSet;
    NoneDue(w.s, lag);
    if !Done(w.s) {
      TurnKeeps(w, FirstOps(agenda), lag);
      CheckKeeps(Turn(w, FirstOps(agenda), lag), OtherOps(agenda), lag);
    }
  }

  // ---------- The timers' side is the loop of TimerRuns ----------

  function OpsActs(w: World, ops: seq<Op>, lag: nat): seq<During>
    requires OpsOk(w, ops, lag)
    decreases |ops|
  {
    if ops == [] then [] else ActsOf(EffectOf(w.k, ops[0])) + OpsActs(DoOp(w, ops[0]), ops[1..], lag)
  }

  function TurnActs(w: World, ops: seq<Op>, lag: nat): seq<During>
    requires w.s.q != [] && TurnOk(w, ops, lag)
  {
    if w.s.q[0] < w.threads then [] else OpsActs(Opened(w), ops, lag)
  }

  /** The timer calls of each callback, turn by turn. */
  function CourseOf(w: World, agenda: Agenda, lag: nat): Course
    requires Closes(w, agenda, lag)
    decreases |agenda|, DueSet(w.s)
  {
    if Done(w.s) then []
    else [TurnActs(w, FirstOps(agenda), lag)] + CourseOf(Turn(w, FirstOps(agenda), lag), OtherOps(agenda), lag)
  }

  lemma {:induction false} AfterConcat(s: St, a: seq<During>, b: seq<During>)
    ensures AfterAll(s, a + b) == AfterAll(AfterAll(s, a), b)
    decreases |a|
  {
    if a == [] {
      assert a + b == b;
    } else {
      assert (a + b)[1..] == a[1..] + b;
      AfterConcat(After(s, a[0]), a[1..], b);
    }
  }

  lemma {:induction false} OpsProject(w: World, ops: seq<Op>, lag: nat)
    requires OpsOk(w, ops, lag)
    ensures DoOps(w, ops, lag).s == AfterAll(w.s, OpsActs(w, ops, lag))
    ensures DoOps(w, ops, lag).threads == w.threads
    decreases |ops|
  {
    hide ActsOf, EffectOf, KernelAfter;
    if ops != [] {
      var w1 := DoOp(w, ops[0]);
      OpsProject(w1, ops[1..], lag);
      AfterConcat(w.s, ActsOf(EffectOf(w.k, ops[0])), OpsActs(w1, ops[1..], lag));
    }
  }

  /** What a check does to the timers is what rt_timer_check does to them when callbacks make just those calls. */
  lemma {:induction false} CheckProjects(w: World, agenda: Agenda, lag: nat)
    requires Closes(w, agenda, lag)
    ensures Ends(w.s, CourseOf(w, agenda, lag))
    ensures CheckWorld(w, agenda, lag).s == Check(w.s, CourseOf(w, agenda, lag)).0
    decreases |agenda|, DueSet(w.s)
  {
    hide DueSet, Fire;
    if !Done(w.s) {
      var r, acts := Turn(w, FirstOps(agenda), lag), TurnActs(w, FirstOps(agenda), lag);
      TurnProjects(w, FirstOps(agenda), lag);
      CheckProjects(r, OtherOps(agenda), lag);
      var rest := CourseOf(r, OtherOps(agenda), lag);
      assert ([acts] + rest)[1..] == rest && ([acts] + rest)[0] == acts;
    }
  }

  lemma TurnProjects(w: World, ops: seq<Op>, lag: nat)
    requires w.s.q != [] && TurnOk(w, ops, lag)
    ensures Turn(w, ops, lag).s == Fire(w.s, TurnActs(w, ops, lag)) && Turn(w, ops, lag).threads == w.threads
  {
    if w.s.q[0] >= w.threads { OpsProject(Opened(w), ops, lag); }
  }

  // ---------- A sleeping thread ----------

  predicate OpNames(op: Op, t: Tid) {
    match op
    case Kernel(e) => K.Names(e, t)
    case SleepFor(u, n) => u == t
    case BlockFor(u, o, flag, n) => u == t
    case TimerCall(a) => false
  }

  ghost predicate NoneNames(ops: seq<Op>, t: Tid) { forall i :: 0 <= i < |ops| ==> !OpNames(ops[i], t) }

  ghost predicate AgendaIgnores(agenda: Agenda, t: Tid) { forall i :: 0 <= i < |agenda| ==> NoneNames(agenda[i], t) }

  /** r leaves thread t and its timer as they are in w. */
  ghost predicate Leaves(w: World, r: World, t: Tid) {
    && r.threads == w.threads && K.Away(r.k, t)
    && K.ThreadIn(r.k.threads, t) == K.ThreadIn(w.k.threads, t)
    && (t in r.s.q <==> t in w.s.q) && TimerIn(r.s.timers, t) == TimerIn(w.s.timers, t)
  }

  lemma LeavesTrans(w: World, m: World, r: World, t: Tid)
    requires Leaves(w, m, t) && Leaves(m, r, t)
    ensures Leaves(w, r, t)
  {
  }

  lemma KernelLeaves(w: World, op: Op, lag: nat, t: Tid)
    requires K.Inv(w.k) && OpOk(w, op, lag) && K.Away(w.k, t) && t < w.threads && !OpNames(op, t)
    ensures var r := KernelAfter(w.k, op); K.Away(r, t) && K.ThreadIn(r.threads, t) == K.ThreadIn(w.k.threads, t)
    ensures Avoids(ActsOf(EffectOf(w.k, op)), t)
    ensures Runs(EffectOf(w.k, op), true, t) && !Runs(EffectOf(w.k, op), false, t)
  {
    assert op.Kernel? && op.e.Wake? ==> K.WaitOf(w.k.waits, op.e.o)[0] in K.WaitOf(w.k.waits, op.e.o);
    assert op.Kernel? && op.e.ResumeUnlink? ==> K.CallIn(w.k.calls, op.e.c).t != t;
    assert op.Kernel? && op.e.SuspendDo? ==> K.CallIn(w.k.calls, op.e.c).t != t;
    match op {
      case Kernel(e) => K.StepLeaves(w.k, e, t);
      case SleepFor(u, n) => K.StepLeaves(w.k, K.Sleep(u), t);
      case BlockFor(u, o, flag, n) => K.StepLeaves(w.k, K.Block(u, o, flag, true), t);
      case TimerCall(a) =>
    }
  }

  lemma OpLeaves(w: World, op: Op, lag: nat, t: Tid)
    requires Good(w, lag) && OpOk(w, op, lag) && K.Away(w.k, t) && t < w.threads && !OpNames(op, t)
    ensures Leaves(w, DoOp(w, op), t)
  {
    hide K.Inv, Inv, K.Away, ActsOf, EffectOf, KernelAfter, AfterAll, Avoids;
    KernelLeaves(w, op, lag, t);
    SubjectIs(w, op, lag);
    ActsKeep(w.s, EffectOf(w.k, op), w.threads, lag, t);
    AvoidsKeeps(w.s, ActsOf(EffectOf(w.k, op)), t);
  }

  lemma {:induction false} OpsLeave(w: World, ops: seq<Op>, lag: nat, t: Tid)
    requires Good(w, lag) && OpsOk(w, ops, lag) && K.Away(w.k, t) && t < w.threads && NoneNames(ops, t)
    ensures Leaves(w, DoOps(w, ops, lag), t)
    decreases |ops|
  {
    hide Good, K.Away, DoOp;
    if ops == [] {
    } else {
      var w1 := DoOp(w, ops[0]);
      assert forall i :: 0 <= i < |ops[1..]| ==> ops[1..][i] == ops[i + 1];
      OpKeeps(w, ops[0], lag);
      OpLeaves(w, ops[0], lag, t);
      OpsLeave(w1, ops[1..], lag, t);
      LeavesTrans(w, w1, DoOps(w1, ops[1..], lag), t);
    }
  }

  /** A turn of another timer. */
  lemma TurnLeaves(w: World, ops: seq<Op>, lag: nat, t: Tid)
    requires Good(w, lag) && w.s.q != [] && w.s.q[0] != t && TurnOk(w, ops, lag)
    requires K.Away(w.k, t) && t < w.threads && NoneNames(ops, t)
    ensures Leaves(w, Turn(w, ops, lag), t)
  {
    var h := w.s.q[0];
    if h < w.threads {
      TimeoutFindsSuspended(w, lag);
      K.StepLeaves(w.k, K.Timeout(h), t);
      assert !TimerIn(w.s.timers, h).periodic;
      hide K.Inv, Inv, Fire, K.Away;
      TimeoutTurn(w.s, lag, t);
    } else {
      OpenedGood(w, lag);
      OpsLeave(Opened(w), ops, lag, t);
      OpsKeep(Opened(w), ops, lag);
      OpsTemp(Opened(w), ops, lag, h);
      hide K.Inv, Inv, Finish, K.Away;
      FinishOther(DoOps(Opened(w), ops, lag).s, h, lag, t);
    }
  }

  /** The turn of t's own timer makes t ready. */
  lemma TurnWakes(w: World, ops: seq<Op>, lag: nat)
    requires Good(w, lag) && w.s.q != [] && w.s.q[0] < w.threads && K.Away(w.k, w.s.q[0])
    ensures var r, t := Turn(w, ops, lag), w.s.q[0];
      K.ThreadIn(r.k.threads, t).stat == K.Ready && K.Away(r.k, t) && r.threads == w.threads && t !in r.s.q
  {
    var t := w.s.q[0];
    assert !TimerIn(w.s.timers, t).periodic;
    TimeoutTurn(w.s, lag, t);
    hide Fire;
    TimeoutFindsSuspended(w, lag);
    forall o: nat ensures t !in K.WaitOf(K.Unwait(w.k.waits, t), o) {
      assert Distinct(K.WaitOf(w.k.waits, o));
      WithoutMembers(K.WaitOf(w.k.waits, o), t);
    }
  }

  lemma AgendaStep(agenda: Agenda, t: Tid)
    requires AgendaIgnores(agenda, t)
    ensures NoneNames(FirstOps(agenda), t) && AgendaIgnores(OtherOps(agenda), t)
  {
    if agenda != [] { assert forall i :: 0 <= i < |agenda[1..]| ==> agenda[1..][i] == agenda[i + 1]; }
  }

  /** Over a check that otherwise ignores it, thread t is left alone as long as its timer is not due ... */
  lemma {:induction false} CheckLeavesThread(w: World, agenda: Agenda, lag: nat, t: Tid)
    requires Good(w, lag) && Closes(w, agenda, lag) && K.Away(w.k, t) && t < w.threads && AgendaIgnores(agenda, t)
    requires t in w.s.q ==> TimerIn(w.s.timers, t).due > w.s.now
    ensures Leaves(w, CheckWorld(w, agenda, lag), t)
    decreases |agenda|, DueSet(w.s)
  {
    hide Good, K.Away, Turn, DueSet, NoneNames, AgendaIgnores;
    if !Done(w.s) {
      var r := Turn(w, FirstOps(agenda), lag);
      assert w.s.q[0] in w.s.q;
      AgendaStep(agenda, t);
      TurnKeeps(w, FirstOps(agenda), lag);
      TurnLeaves(w, FirstOps(agenda), lag, t);
      CheckLeavesThread(r, OtherOps(agenda), lag, t);
      LeavesTrans(w, r, CheckWorld(r, OtherOps(agenda), lag), t);
    }
  }

  /** ... and is ready at the end of the check in which its timer is due. */
  lemma {:induction false} CheckWakes(w: World, agenda: Agenda, lag: nat, t: Tid)
    requires Good(w, lag) && Closes(w, agenda, lag) && K.Away(w.k, t) && t < w.threads && AgendaIgnores(agenda, t)
    requires t in w.s.q && TimerIn(w.s.timers, t).due <= w.s.now
    ensures K.ThreadIn(CheckWorld(w, agenda, lag).k.threads, t).stat == K.Ready
    decreases |agenda|, DueSet(w.s)
  {
    DueHead(w, lag, t);
    hide Good, K.Away, Turn, DueSet, NoneNames, AgendaIgnores;
    var r := Turn(w, FirstOps(agenda), lag);
    AgendaStep(agenda, t);
    TurnKeeps(w, FirstOps(agenda), lag);
    if w.s.q[0] == t {
      TurnWakes(w, FirstOps(agenda), lag);
      CheckLeavesThread(r, OtherOps(agenda), lag, t);
    } else {
      TurnLeaves(w, FirstOps(agenda), lag, t);
      CheckWakes(r, OtherOps(agenda), lag, t);
    }
  }

  lemma DueHead(w: World, lag: nat, t: Tid)
    requires Good(w, lag) && t in w.s.q && TimerIn(w.s.timers, t).due <= w.s.now
    ensures !Done(w.s)
  {
    NoneDue(w.s, lag);
    assert t in DueSet(w.s);
  }

  // ---------- Whole runs of calls and ticks ----------

  datatype Event = Call(op: Op) | Tick(agenda: Agenda)

  /** The state between two ticks. */
  ghost predicate Between(w: World) { Good(w, 0) && w.s.temp == [] }

  function Ticked(w: World): World { w.(s := TimerTicks.Later(w.s)) }

  ghost predicate EventOk(w: World, e: Event) {
    match e
    case Call(op) => OpOk(w, op, 0)
    case Tick(agenda) => Closes(Ticked(w), agenda, 1)
  }

  function Step(w: World, e: Event): World
    requires EventOk(w, e)
  {
    match e
    case Call(op) => DoOp(w, op)
    case Tick(agenda) => CheckWorld(Ticked(w), agenda, 1)
  }

  lemma TickedGood(w: World)
    requires Between(w)
    ensures Good(Ticked(w), 1)
  {
  }

  lemma StepKeeps(w: World, e: Event)
    requires Between(w) && EventOk(w, e)
    ensures Between(Step(w, e)) && Step(w, e).threads == w.threads && Step(w, e).s.now == w.s.now + if e.Tick? then 1 else 0
  {
    match e {
      case Call(op) =>
        OpKeeps(w, op, 0);
        SubjectIs(w, op, 0);
        ActsKeep(w.s, EffectOf(w.k, op), w.threads, 0, 0);
        HeadIn(Step(w, e).s.temp);
      case Tick(agenda) =>
        TickedGood(w);
        CheckKeeps(Ticked(w), agenda, 1);
        TimerTicks.NothingOverdue(Step(w, e).s);
    }
  }

  lemma HeadIn(list: seq<Tid>)
    ensures list != [] ==> list[0] in list
  {
  }

  ghost predicate Legal(w: World, es: seq<Event>)
    decreases |es|
  {
    es == [] || (EventOk(w, es[0]) && Legal(Step(w, es[0]), es[1..]))
  }

  /** In every reachable state a thread timer runs if and only if the kernel has its thread suspended for a time. */
  lemma {:induction false} RunKeeps(w: World, es: seq<Event>)
    requires Between(w) && Legal(w, es)
    ensures Between(Run(w, es))
    decreases |es|
  {
    hide Between, EventOk;
    if es != [] {
      StepKeeps(w, es[0]);
      RunKeeps(Step(w, es[0]), es[1..]);
    }
  }

  function Run(w: World, es: seq<Event>): World
    requires Legal(w, es)
    decreases |es|
  {
    if es == [] then w else Run(Step(w, es[0]), es[1..])
  }

  ghost predicate Ignores(e: Event, t: Tid) {
    match e
    case Call(op) => !OpNames(op, t)
    case Tick(agenda) => AgendaIgnores(agenda, t)
  }

  function Ticks(es: seq<Event>): nat {
    if es == [] then 0 else (if es[0].Tick? then 1 else 0) + Ticks(es[1..])
  }

  /** The number of ticks up to the first event after which thread t is ready; 0 if it never is. */
  ghost function ReadyAt(w: World, es: seq<Event>, t: Tid): nat
    requires Legal(w, es)
    decreases |es|
  {
    if es == [] then 0
    else
      var r := Step(w, es[0]);
      if K.ThreadIn(r.k.threads, t).stat == K.Ready then 1
      else
        var n := ReadyAt(r, es[1..], t);
        if n == 0 then 0 else n + if es[0].Tick? then 1 else 0
  }

  /** t is suspended in no list, nobody is about to resume it, and its timer runs. */
  ghost predicate Asleep(w: World, t: Tid) {
    t < w.threads && K.Away(w.k, t) && K.ThreadIn(w.k.threads, t).stat == K.Suspended && t in w.s.q
  }

  lemma StepOn(w: World, e: Event, t: Tid)
    requires Between(w) && EventOk(w, e) && Asleep(w, t) && Ignores(e, t)
    ensures var r := Step(w, e);
      if e.Tick? && TimerIn(w.s.timers, t).due <= w.s.now + 1 then K.ThreadIn(r.k.threads, t).stat == K.Ready
      else Asleep(r, t) && TimerIn(r.s.timers, t).due == TimerIn(w.s.timers, t).due
    ensures w.s.now <= TimerIn(w.s.timers, t).due
  {
    hide K.Away;
    match e {
      case Call(op) => OpLeaves(w, op, 0, t);
      case Tick(agenda) =>
        TickedGood(w);
        if TimerIn(w.s.timers, t).due <= w.s.now + 1 {
          CheckWakes(Ticked(w), agenda, 1, t);
        } else {
          CheckLeavesThread(Ticked(w), agenda, 1, t);
        }
    }
  }

  lemma {:induction false} WakesOnTime(w: World, es: seq<Event>, t: Tid)
    requires Between(w) && Legal(w, es) && Asleep(w, t) && forall i :: 0 <= i < |es| ==> Ignores(es[i], t)
    requires w.s.now + Ticks(es) >= TimerIn(w.s.timers, t).due && Ticks(es) >= 1
    ensures ReadyAt(w, es, t) == if TimerIn(w.s.timers, t).due > w.s.now then TimerIn(w.s.timers, t).due - w.s.now else 1
    decreases |es|
  {
    hide Between, EventOk, Ignores, Step, K.Away;
    StepKeeps(w, es[0]);
    StepOn(w, es[0], t);
    if K.ThreadIn(Step(w, es[0]).k.threads, t).stat != K.Ready {
      assert forall i :: 0 <= i < |es[1..]| ==> es[1..][i] == es[i + 1];
      WakesOnTime(Step(w, es[0]), es[1..], t);
    }
  }

  /** rt_thread_sleep(n) by a thread nobody is resuming or suspending: whatever all other threads, timers and
      callbacks do, the thread becomes ready at exactly the n-th tick that follows, or at the first for n = 0. */
  lemma SleepsExactly(w: World, es: seq<Event>, t: Tid, n: nat)
    requires Between(w) && EventOk(w, Call(SleepFor(t, n))) && K.Away(w.k, t)
    requires Legal(Step(w, Call(SleepFor(t, n))), es) && forall i :: 0 <= i < |es| ==> Ignores(es[i], t)
    requires Ticks(es) >= n && Ticks(es) >= 1
    ensures ReadyAt(Step(w, Call(SleepFor(t, n))), es, t) == if n > 0 then n else 1
  {
    var r := Step(w, Call(SleepFor(t, n)));
    FallsAsleep(w, t, n);
    hide Between, EventOk, Ignores, Step, K.Away;
    StepKeeps(w, Call(SleepFor(t, n)));
    WakesOnTime(r, es, t);
  }

  lemma FallsAsleep(w: World, t: Tid, n: nat)
    requires Between(w) && EventOk(w, Call(SleepFor(t, n))) && K.Away(w.k, t)
    ensures var r := Step(w, Call(SleepFor(t, n))); Asleep(r, t) && TimerIn(r.s.timers, t).due == r.s.now + n && r.s.now == w.s.now
  {
    assert t < w.threads by { assert K.ThreadIn(w.k.threads, t).stat != K.Born; }
    hide K.Inv, Inv;
    ArmKeeps(w.s, t, n, 0, t);
  }
}
