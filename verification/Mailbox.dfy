/** The mailbox of rt-thread/src/ipc.c:1476-1810: a ring of words with a list of waiting receivers and one
    of waiting senders. */
module Mailbox {
  import opened WaitList
  import opened Wakeups

  /** Position i of a ring of the given size that starts at first. */
  function Slot(first: nat, i: nat, size: nat): nat { if first + i < size then first + i else first + i - size }

  /** The ring holds items from first on. */
  ghost predicate Holds(pool: seq<nat>, first: nat, items: seq<nat>) {
    && |items| <= |pool| && (first < |pool| || items == [])
    && forall i {:trigger items[i]} :: 0 <= i < |items| ==> pool[Slot(first, i, |pool|)] == items[i]
  }

  lemma Pushed(pool: seq<nat>, first: nat, items: seq<nat>, value: nat)
    requires Holds(pool, first, items) && |items| < |pool| && first < |pool|
    ensures var k := Slot(first, |items|, |pool|);
      && k < |pool| && Holds(pool[k := value], first, items + [value])
      && Slot(first, |items| + 1, |pool|) == if k + 1 >= |pool| then 0 else k + 1
  {
  }

  lemma Popped(pool: seq<nat>, first: nat, items: seq<nat>)
    requires Holds(pool, first, items) && items != []
    ensures var next := if first + 1 >= |pool| then 0 else first + 1;
      && pool[first] == items[0] && Holds(pool, next, items[1..])
      && Slot(next, |items| - 1, |pool|) == Slot(first, |items|, |pool|)
  {
    var next := if first + 1 >= |pool| then 0 else first + 1;
    assert Slot(first, 0, |pool|) == first;
    forall i | 0 <= i < |items[1..]| ensures pool[Slot(next, i, |pool|)] == items[1..][i] {
      assert Slot(next, i, |pool|) == Slot(first, i + 1, |pool|) && items[1..][i] == items[i + 1];
    }
  }

  class Mailbox {
    const flag: Flag
    const pool: array<nat>
    var inOffset: nat
    var outOffset: nat
    var entry: nat
    var recvWait: seq<Tid>
    var sendWait: seq<Tid>
    ghost var items: seq<nat>
    ghost var recvWoken: set<Tid>
    ghost var sendWoken: set<Tid>

    ghost function Receivers(): Side
      reads this
    {
      Side(entry, recvWait, recvWoken)
    }

    ghost function Senders(): Side
      requires entry <= pool.Length
      reads this
    {
      Side(pool.Length - entry, sendWait, sendWoken)
    }

    ghost predicate Valid()
      reads this, pool
    {
      && pool.Length < 0x1_0000 && entry == |items| <= pool.Length
      && (outOffset < pool.Length || outOffset == 0) && inOffset == Slot(outOffset, entry, pool.Length)
      && Holds(pool[..], outOffset, items)
      && NoneLost(Receivers()) && NoneLost(Senders())
    }

    /** rt_mb_init; the size is kept in 16 bits, and may be 0. */
    constructor (size: nat, f: Flag)
      ensures Valid() && fresh(pool) && pool.Length == size % 0x1_0000 && items == [] && flag == f
    {
      flag, pool := f, new nat[size % 0x1_0000];
      inOffset, outOffset, entry, recvWait, sendWait := 0, 0, 0, [], [];
      items, recvWoken, sendWoken := [], {}, {};
    }

    /** Store at the in offset and step it round. */
    method Store(value: nat)
      requires pool.Length < 0x1_0000 && entry == |items| < pool.Length && outOffset < pool.Length
      requires inOffset == Slot(outOffset, entry, pool.Length) && Holds(pool[..], outOffset, items)
      modifies this`inOffset, this`entry, this`items, pool
      ensures items == old(items) + [value] && entry == old(entry) + 1
      ensures inOffset == Slot(outOffset, entry, pool.Length) && Holds(pool[..], outOffset, items)
    {
      Pushed(pool[..], outOffset, items, value);
      hide Holds, Slot;
      pool[inOffset] := value;
      assert pool[..] == old(pool[..])[inOffset := value];
      inOffset := inOffset + 1;
      if inOffset >= pool.Length { inOffset := 0; }
      if entry < 0xFFFF {
        entry := entry + 1;
      } else {
        assert false;       // the overflow exit is never taken
      }
      items := items + [value];
    }

    /** Fetch at the out offset and step it round. */
    method Fetch() returns (value: nat)
      requires 0 < entry == |items| <= pool.Length && outOffset < pool.Length
      requires inOffset == Slot(outOffset, entry, pool.Length) && Holds(pool[..], outOffset, items)
      modifies this`outOffset, this`entry, this`items
      ensures old(items) == [value] + items && entry == old(entry) - 1 && outOffset < pool.Length
      ensures inOffset == Slot(outOffset, entry, pool.Length) && Holds(pool[..], outOffset, items)
    {
      Popped(pool[..], outOffset, items);
      hide Holds, Slot;
      value := pool[outOffset];
      outOffset := outOffset + 1;
      if outOffset >= pool.Length { outOffset := 0; }
      entry := entry - 1;
      items := items[1..];
    }

    /** rt_mb_send_wait, one look: append the word and wake a receiver, or refuse, or wait.  The entry
        counter never overflows. */
    method Send(t: Tid, value: nat, mayWait: bool, prio: Tid -> nat) returns (outcome: Outcome)
      requires Valid() && t !in sendWait
      modifies this, pool
      ensures Valid()
      ensures (Senders(), outcome) == Take(old(Senders()), t, mayWait, Listed(flag), prio)
      ensures outcome == Got ==> items == old(items) + [value] && Receivers() == Give(old(Receivers()))
      ensures outcome != Got ==> items == old(items) && Receivers() == old(Receivers())
    {
      hide NoneLost, Insert, Holds, Slot;
      TakeKeeps(Senders(), t, mayWait, Listed(flag), prio);
      GiveKeeps(Receivers());
      sendWoken := sendWoken - {t};
      if entry == pool.Length {
        if !mayWait { return Refused; }
        sendWait := Suspend(sendWait, t, flag, prio);
        return Asleep;
      }
      Store(value);
      if recvWait != [] {
        recvWait, recvWoken := recvWait[1..], recvWoken + {recvWait[0]};
      }
      outcome := Got;
    }

    /** rt_mb_recv, one look: take the oldest word and wake a sender, or refuse, or wait. */
    method Recv(t: Tid, mayWait: bool, prio: Tid -> nat) returns (outcome: Outcome, value: nat)
      requires Valid() && t !in recvWait
      modifies this
      ensures Valid()
      ensures (Receivers(), outcome) == Take(old(Receivers()), t, mayWait, Listed(flag), prio)
      ensures outcome == Got ==> old(items) == [value] + items && Senders() == Give(old(Senders()))
      ensures outcome != Got ==> items == old(items) && Senders() == old(Senders())
    {
      hide NoneLost, Insert, Holds, Slot;
      TakeKeeps(Receivers(), t, mayWait, Listed(flag), prio);
      GiveKeeps(Senders());
      value := 0;
      recvWoken := recvWoken - {t};
      if entry == 0 {
        if !mayWait { return Refused, 0; }
        recvWait := Suspend(recvWait, t, flag, prio);
        return Asleep, 0;
      }
      value := Fetch();
      if sendWait != [] {
        sendWait, sendWoken := sendWait[1..], sendWoken + {sendWait[0]};
      }
      outcome := Got;
    }

    /** The reset command: all words are dropped and every waiter is released with an error. */
    method Reset()
      requires Valid()
      modifies this
      ensures Valid() && items == [] && recvWait == [] && sendWait == []
    {
      recvWait, sendWait := [], [];
      entry, inOffset, outOffset := 0, 0, 0;
      items := [];
    }
  }
}
