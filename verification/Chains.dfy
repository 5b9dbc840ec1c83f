/** Singly linked lists of cells, as the message queue and the memory pool keep them: next[c] is the cell
    after c, NULL the end. */
module Chains {
  import opened WaitList

  const NULL := -1

  /** first leads through next over exactly the cells of list. */
  ghost predicate Chain(next: seq<int>, list: seq<nat>, first: int) {
    if list == [] then first == NULL
    else first == list[0] && list[0] < |next| && Chain(next, list[1..], next[list[0]])
  }

  lemma {:induction false} ChainFrame(next: seq<int>, list: seq<nat>, first: int, cell: nat, x: int)
    requires Chain(next, list, first) && cell !in list && cell < |next|
    ensures Chain(next[cell := x], list, first)
  {
    if list != [] { ChainFrame(next, list[1..], next[list[0]], cell, x); }
  }

  lemma {:induction false} ChainEnd(next: seq<int>, list: seq<nat>, first: int)
    requires Chain(next, list, first) && list != []
    ensures list[|list| - 1] < |next| && next[list[|list| - 1]] == NULL
  {
    if |list| > 1 { ChainEnd(next, list[1..], next[list[0]]); }
  }

  lemma {:induction false} ChainAppend(next: seq<int>, list: seq<nat>, first: int, cell: nat)
    requires Chain(next, list, first) && Distinct(list) && list != []
    requires cell !in list && cell < |next| && next[cell] == NULL
    ensures list[|list| - 1] < |next| && Chain(next[list[|list| - 1] := cell], list + [cell], first)
  {
    ChainEnd(next, list, first);
    var last := list[|list| - 1];
    var next' := next[last := cell];
    assert (list + [cell])[1..] == list[1..] + [cell];
    if |list| > 1 {
      ChainAppend(next, list[1..], next[list[0]], cell);
    } else {
      assert list[1..] + [cell] == [cell];
      assert [cell][1..] == [];
      assert Chain(next', [cell], cell);
    }
  }

  lemma ChainCells(next: seq<int>, list: seq<nat>, first: int)
    requires Chain(next, list, first)
    ensures first == NULL <==> list == []
  {
  }
}
