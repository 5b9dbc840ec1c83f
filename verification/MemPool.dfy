/** The memory pool of rt-thread/src/mempool.c: equal blocks on a free list threaded through the blocks
    themselves, and threads that wait for one. */
module MemPool {
  import opened WaitList
  import opened Chains
  import opened Wakeups

  const POOL := -2    // the link of a block that is handed out holds the pool's own address

  /** Each block is on the free list, once, or handed out. */
  ghost predicate Accounted(next: seq<int>, free: seq<nat>, first: int) {
    && Chain(next, free, first) && Distinct(free)
    && forall b: nat {:trigger b in free} :: b < |next| ==> (b in free <==> next[b] != POOL)
  }

  lemma TookFirst(next: seq<int>, free: seq<nat>, first: int)
    requires Accounted(next, free, first) && free != []
    ensures 0 <= first < |next| && first == free[0] && Accounted(next[first := POOL], free[1..], next[first])
  {
    ChainFrame(next, free[1..], next[first], first, POOL);
    assert forall b: nat :: b in free <==> b == free[0] || b in free[1..];
  }

  lemma GaveBack(next: seq<int>, free: seq<nat>, first: int, b: nat)
    requires Accounted(next, free, first) && b < |next| && next[b] == POOL && (first == NULL || 0 <= first)
    ensures Accounted(next[b := first], [b] + free, b)
  {
    assert b !in free;
    ChainFrame(next, free, first, b, first);
    assert ([b] + free)[1..] == free;
  }

  lemma FirstOk(next: seq<int>, free: seq<nat>, first: int)
    requires Chain(next, free, first)
    ensures first == NULL || 0 <= first
    ensures first == NULL <==> free == []
  {
  }

  function Ascending(from: nat, end: nat): (r: seq<nat>)
    requires from <= end
    ensures |r| == end - from
    ensures forall i :: 0 <= i < |r| ==> r[i] == from + i
    decreases end - from
  {
    if from == end then [] else [from] + Ascending(from + 1, end)
  }

  lemma {:induction false} InitialChain(next: seq<int>, from: nat)
    requires from < |next| && forall i :: from <= i < |next| ==> next[i] == if i + 1 < |next| then i + 1 else NULL
    ensures Chain(next, Ascending(from, |next|), from)
    decreases |next| - from
  {
    if from + 1 < |next| { InitialChain(next, from + 1); }
    assert Ascending(from, |next|)[1..] == Ascending(from + 1, |next|);
  }

  /** The offset in the pool at which rt_mp_init ends the free list, for blocks of blockSize bytes and a link. */
  function LastLinkAt(total: nat, blockSize: nat): int { (total - 1) * (blockSize + 4) }

  /** It lies in the pool if and only if there is a block. */
  lemma LastLinkInside(total: nat, blockSize: nat)
    ensures 0 <= LastLinkAt(total, blockSize) < total * (blockSize + 4) <==> total > 0
  {
    assert total * (blockSize + 4) - LastLinkAt(total, blockSize) == blockSize + 4;
    if total > 0 { assert LastLinkAt(total, blockSize) >= 0; }
  }

  class Pool {
    const next: array<int>
    var freeCount: nat
    var blockList: int
    var wait: seq<Tid>
    ghost var free: seq<nat>
    ghost var woken: set<Tid>

    ghost function Takers(): Side
      reads this
    {
      Side(freeCount, wait, woken)
    }

    ghost predicate Valid()
      reads this, next
    {
      Accounted(next[..], free, blockList) && freeCount == |free| && NoneLost(Takers())
    }

    /** rt_mp_init for total blocks; with none the program would write in front of the pool. */
    constructor (total: nat)
      requires total >= 1
      ensures Valid() && fresh(next) && next.Length == total && free == Ascending(0, total) && wait == []
    {
      next := new int[total](i => if i + 1 < total then i + 1 else NULL);
      freeCount, blockList, wait := total, 0, [];
      free, woken := Ascending(0, total), {};
      new;
      InitialChain(next[..], 0);
      forall b: nat {:trigger b in free} | b < total ensures b in free && next[b] != POOL { assert free[b] == b; }
    }

    /** rt_mp_alloc, one look: the first free block, or none, or a wait at the front of the list. */
    method Alloc(t: Tid, mayWait: bool, prio: Tid -> nat) returns (outcome: Outcome, block: int)
      requires Valid() && t !in wait
      modifies this, next
      ensures Valid()
      ensures (Takers(), outcome) == Take(old(Takers()), t, mayWait, Front, prio)
      ensures outcome == Got ==> 0 <= block < next.Length && old(free) == [block] + free && next[..] == old(next[..])[block := POOL]
      ensures outcome != Got ==> block == NULL && free == old(free) && next[..] == old(next[..])
    {
      hide NoneLost, Accounted;
      TakeKeeps(Takers(), t, mayWait, Front, prio);
      woken := woken - {t};
      if freeCount == 0 {
        if !mayWait { return Refused, NULL; }
        wait := [t] + wait;
        return Asleep, NULL;
      }
      TookFirst(next[..], free, blockList);
      freeCount := freeCount - 1;
      block := blockList;
      blockList := next[block];
      next[block] := POOL;
      assert next[..] == old(next[..])[block := POOL];
      free := free[1..];
      outcome := Got;
    }

    /** rt_mp_free: the block goes on top of the list and the first waiter is woken. */
    method Free(block: nat)
      requires Valid() && block < next.Length && next[block] == POOL
      modifies this, next
      ensures Valid() && free == [block] + old(free) && Takers() == Give(old(Takers()))
      ensures next[..] == old(next[..])[block := old(blockList)]
    {
      FreeEnds(next[..], free, blockList);
      hide NoneLost, Accounted;
      GiveKeeps(Takers());
      GaveBack(next[..], free, blockList, block);
      freeCount := freeCount + 1;
      next[block] := blockList;
      blockList := block;
      assert next[..] == old(next[..])[block := old(blockList)];
      free := [block] + free;
      if wait != [] {
        wait, woken := wait[1..], woken + {wait[0]};
      }
    }
  }

  lemma FreeEnds(next: seq<int>, free: seq<nat>, first: int)
    requires Accounted(next, free, first)
    ensures first == NULL || 0 <= first
  {
    FirstOk(next, free, first);
  }
}
