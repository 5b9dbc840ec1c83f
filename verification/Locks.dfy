/** Mutex and semaphore of rt-thread/src/ipc.c in place. */
module Locks {
  import opened WaitList
  import opened MutexModel
  import SemModel

  class Mutex {
    const flag: Flag
    var value: nat
    var hold: nat
    var owner: Owner
    var original: nat
    var wait: seq<Tid>
    var prio: map<Tid, nat>      // current_priority of every thread

    ghost function Value(): MutexModel.State
      reads this
    {
      MutexModel.State(value, hold, owner, original, wait, prio)
    }

    constructor (f: Flag, p: map<Tid, nat>)
      ensures Value() == Init(p) && flag == f && Owned(Value())
    {
      flag, value, hold, owner, original, wait, prio := f, 1, 0, Nobody, 0xFF, [], p;
    }

    /** rt_mutex_take up to the point where it returns or blocks. */
    method Take(t: Tid, mayWait: bool) returns (status: Status)
      requires Owned(Value()) && t !in wait
      modifies this
      ensures Owned(Value()) && (Value(), status) == Taken(old(Value()), t, mayWait, flag)
    {
      OwnedKept(Value(), MutexModel.Take(t, mayWait), flag);
      hide Insert;
      if owner == By(t) {
        if hold >= 0xFF { return Full; }
        hold := hold + 1;
        return Ok;
      }
      if value > 0 {
        value := value - 1;
        owner := By(t);
        original := PrioIn(prio, t);
        if hold >= 0xFF { return Full; }
        hold := hold + 1;
        return Ok;
      }
      if !mayWait { return TimedOut; }
      if PrioIn(prio, t) < PrioIn(prio, owner.t) { prio := prio[owner.t := PrioIn(prio, t)]; }
      wait := Suspend(wait, t, flag, ByPrio(prio));
      return Blocked;
    }

    /** rt_mutex_release. */
    method Release(t: Tid) returns (status: Status)
      requires Owned(Value()) && t !in wait
      modifies this
      ensures Owned(Value()) && (Value(), status) == Released(old(Value()), t)
    {
      OwnedKept(Value(), MutexModel.Release(t), flag);
      if owner != By(t) { return NotOwner; }
      hold := hold - 1;
      if hold == 0 {
        if original != PrioIn(prio, t) { prio := prio[t := original]; }
        if wait != [] {
          var h := wait[0];
          owner := By(h);
          original := PrioIn(prio, h);
          if hold >= 0xFF { return Full; }
          hold := hold + 1;
          wait := wait[1..];
        } else {
          if value >= 0xFFFF { return Full; }
          value := value + 1;
          owner := Nobody;
          original := 0xFF;
        }
      }
      return Ok;
    }
  }

  class Semaphore {
    const flag: Flag
    var value: nat
    var wait: seq<Tid>
    ghost var takes: nat         // takes that have succeeded or been handed over
    ghost var releases: nat      // releases that have succeeded

    ghost function Value(): SemModel.State
      reads this
    {
      SemModel.State(value, wait, takes, releases)
    }

    /** rt_sem_take up to the point where it returns or blocks. */
    method Take(t: Tid, mayWait: bool, prio: Tid -> nat) returns (outcome: SemModel.Outcome)
      modifies this
      ensures (Value(), outcome) == SemModel.Taken(old(Value()), t, mayWait, flag, prio)
    {
      if value > 0 {
        value := value - 1;
        takes := takes + 1;
        return SemModel.Done;
      }
      if !mayWait { return SemModel.Refused; }
      wait := Suspend(wait, t, flag, prio);
      return SemModel.Asleep;
    }

    /** rt_sem_release. */
    method Release() returns (outcome: SemModel.Outcome)
      modifies this
      ensures (Value(), outcome) == SemModel.Released(old(Value()))
    {
      if wait != [] {
        wait := wait[1..];
        takes, releases := takes + 1, releases + 1;
      } else {
        if value >= 0xFFFF { return SemModel.Overflow; }
        value := value + 1;
        releases := releases + 1;
      }
      return SemModel.Done;
    }

    /** The reset command. */
    method Reset(v: nat)
      modifies this
      ensures Value() == SemModel.State(v % 0x1_0000, [], 0, 0)
    {
      wait := [];
      value := v % 0x1_0000;
      takes, releases := 0, 0;
    }
  }
}
