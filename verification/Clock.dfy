/** Ticks from milliseconds, rt-thread/src/clock.c:101-117, and the delays built on them. */
module Clock {
  import opened WaitList
  import KernelModel
  import opened ThreadTimers

  /** hz is RT_TICK_PER_SECOND; up to 1000 no 32-bit delay overflows.  A negative one waits forever. */
  function TickFromMillisecond(ms: int, hz: nat): nat
    requires hz <= 1000 && ms < 0x8000_0000
  {
    if ms < 0 then 0xFFFF_FFFF
    else hz * (ms / 1000) + (hz * (ms % 1000) + 999) / 1000
  }

  /** A negative delay is RT_WAITING_FOREVER; any other becomes ms * hz / 1000 rounded up. */
  lemma MillisecondsRoundUp(ms: int, hz: nat)
    requires hz <= 1000 && ms < 0x8000_0000
    ensures var tick := TickFromMillisecond(ms, hz);
      if ms < 0 then tick == 0xFFFF_FFFF else tick * 1000 - 1000 < ms * hz <= tick * 1000
  {
    if ms >= 0 {
      var q, r := ms / 1000, ms % 1000;
      assert ms == 1000 * q + r;
      assert ms * hz == 1000 * (hz * q) + hz * r by {
        assert ms * hz == (1000 * q) * hz + r * hz;
      }
    }
  }

  lemma DelayIs(ms: nat, hz: nat)
    requires hz <= 1000 && ms < 0x8000_0000
    ensures var n := TickFromMillisecond(ms, hz); if ms * hz == 0 then n == 0 else n > 0 && n * 1000 - 1000 < ms * hz <= n * 1000
  {
    MillisecondsRoundUp(ms, hz);
  }

  /** rt_thread_mdelay(ms): the calling thread becomes ready at the tick that is ms * hz / 1000 rounded up, and at
      the first one for a delay of 0. */
  lemma DelaysExactly(w: World, es: seq<Event>, t: Tid, ms: nat, hz: nat)
    requires hz <= 1000 && ms < 0x8000_0000
    requires var e := Call(SleepFor(t, TickFromMillisecond(ms, hz))); Between(w) && EventOk(w, e) && KernelModel.Away(w.k, t) && Legal(Step(w, e), es)
    requires forall i :: 0 <= i < |es| ==> Ignores(es[i], t)
    requires Ticks(es) >= TickFromMillisecond(ms, hz) && Ticks(es) >= 1
    ensures var at := ReadyAt(Step(w, Call(SleepFor(t, TickFromMillisecond(ms, hz)))), es, t);
      if ms * hz == 0 then at == 1 else at * 1000 - 1000 < ms * hz <= at * 1000
  {
    hide TickFromMillisecond, Ignores, Between, EventOk, Step, Legal, ReadyAt, KernelModel.Away, Ticks;
    SleepsExactly(w, es, t, TickFromMillisecond(ms, hz));
    DelayIs(ms, hz);
  }
}
