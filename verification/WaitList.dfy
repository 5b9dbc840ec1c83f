/** The list of suspended threads of an IPC object (rt-thread/src/ipc.c:83-129).  A list is a
    sequence of thread numbers; prio gives each thread's current priority, lower is more urgent. */
module WaitList {
  type Tid = nat

  datatype Flag = Fifo | Prio

  /** Where rt_ipc_list_suspend puts thread t. */
  function Place(list: seq<Tid>, t: Tid, flag: Flag, prio: Tid -> nat): (k: nat)
    ensures k <= |list|
  {
    if flag == Fifo then |list|
    else if list == [] then 0
    else if prio(t) < prio(list[0]) then 0
    else 1 + Place(list[1..], t, flag, prio)
  }

  function Insert(list: seq<Tid>, t: Tid, flag: Flag, prio: Tid -> nat): seq<Tid> {
    var k := Place(list, t, flag, prio);
    list[..k] + [t] + list[k..]
  }

  function Without(list: seq<Tid>, t: Tid): seq<Tid> {
    if list == [] then [] else if list[0] == t then list[1..] else [list[0]] + Without(list[1..], t)
  }

  ghost predicate Distinct(list: seq<Tid>) {
    forall i, j :: 0 <= i < j < |list| ==> list[i] != list[j]
  }

  ghost predicate Sorted(list: seq<Tid>, prio: Tid -> nat) {
    forall i, j :: 0 <= i < j < |list| ==> prio(list[i]) <= prio(list[j])
  }

  /** rt_ipc_list_suspend: the list loop. */
  method Suspend(list: seq<Tid>, t: Tid, flag: Flag, prio: Tid -> nat) returns (r: seq<Tid>)
    ensures r == Insert(list, t, flag, prio)
  {
    match flag {
      case Fifo =>
        r := list + [t];
      case Prio =>
        var n := 0;
        while n < |list|
          invariant n <= |list|
          invariant Place(list, t, flag, prio) == n + Place(list[n..], t, flag, prio)
        {
          if prio(t) < prio(list[n]) {
            return list[..n] + [t] + list[n..];
          }
          assert list[n..][1..] == list[n + 1..];
          n := n + 1;
        }
        r := list + [t];
        assert list[..n] + [t] + list[n..] == r;
    }
  }

  lemma {:induction false} PlaceSplits(list: seq<Tid>, t: Tid, prio: Tid -> nat)
    ensures var k := Place(list, t, Prio, prio);
      && (forall i :: 0 <= i < k ==> prio(list[i]) <= prio(t))
      && (k < |list| ==> prio(t) < prio(list[k]))
  {
    if list != [] && prio(t) >= prio(list[0]) {
      PlaceSplits(list[1..], t, prio);
      var k := Place(list[1..], t, Prio, prio);
      forall i | 0 <= i < k + 1 ensures prio(list[i]) <= prio(t) {
        if i > 0 { assert list[i] == list[1..][i - 1]; }
      }
    }
  }

  /** A priority list stays sorted, and the newcomer stands behind its equals. */
  lemma InsertKeepsSorted(list: seq<Tid>, t: Tid, prio: Tid -> nat)
    requires Sorted(list, prio)
    ensures var r, k := Insert(list, t, Prio, prio), Place(list, t, Prio, prio);
      && Sorted(r, prio)
      && r[k] == t && r[..k] == list[..k] && r[k + 1..] == list[k..]
      && (forall i :: 0 <= i < |list| ==> (i < k <==> prio(list[i]) <= prio(t)))
  {
    var r, k := Insert(list, t, Prio, prio), Place(list, t, Prio, prio);
    PlaceSplits(list, t, prio);
    SplitSorted(list, t, prio, k);
  }

  lemma SplitSorted(list: seq<Tid>, t: Tid, prio: Tid -> nat, k: nat)
    requires Sorted(list, prio) && k <= |list|
    requires forall i :: 0 <= i < k ==> prio(list[i]) <= prio(t)
    requires k < |list| ==> prio(t) < prio(list[k])
    ensures forall i :: k <= i < |list| ==> prio(t) < prio(list[i])
    ensures Sorted(list[..k] + [t] + list[k..], prio)
  {
    assert forall i :: k <= i < |list| ==> prio(list[k]) <= prio(list[i]);
  }

  /** A FIFO list takes the newcomer last. */
  lemma InsertLast(list: seq<Tid>, t: Tid, prio: Tid -> nat)
    ensures Insert(list, t, Fifo, prio) == list + [t]
  {
    assert list[|list|..] == [] && list[..|list|] == list;
  }

  /** Thread t has joined the list: last in a FIFO one, behind all no less urgent ones in a priority one. */
  ghost predicate Joins(before: seq<Tid>, after: seq<Tid>, t: Tid, flag: Flag, prio: Tid -> nat) {
    exists k: nat {:trigger before[..k]} ::
      && k <= |before| && after == before[..k] + [t] + before[k..]
      && (flag == Fifo ==> k == |before|)
      && (flag == Prio ==> (forall i :: 0 <= i < k ==> prio(before[i]) <= prio(t)) && (k < |before| ==> prio(t) < prio(before[k])))
  }

  lemma InsertJoins(list: seq<Tid>, t: Tid, flag: Flag, prio: Tid -> nat)
    ensures Joins(list, Insert(list, t, flag, prio), t, flag, prio)
  {
    PlaceSplits(list, t, prio);
    var k := Place(list, t, flag, prio);
    assert Insert(list, t, flag, prio) == list[..k] + [t] + list[k..];
    hide Insert;
  }

  lemma JoinsSame(list: seq<Tid>, after: seq<Tid>, t: Tid, flag: Flag, f: Tid -> nat, g: Tid -> nat)
    requires Joins(list, after, t, flag, f) && forall u: Tid :: f(u) == g(u)
    ensures Joins(list, after, t, flag, g)
  {
  }

  lemma InsertMembers(list: seq<Tid>, t: Tid, flag: Flag, prio: Tid -> nat)
    requires Distinct(list) && t !in list
    ensures var r := Insert(list, t, flag, prio);
      Distinct(r) && r != [] && (forall u :: u in r <==> u in list || u == t)
  {
    var k, r := Place(list, t, flag, prio), Insert(list, t, flag, prio);
    assert list == list[..k] + list[k..];
    forall u | u in list ensures u in r { assert u in list[..k] || u in list[k..]; }
    assert r[k] == t;
  }

  lemma {:induction false} WithoutMembers(list: seq<Tid>, t: Tid)
    requires Distinct(list)
    ensures var r := Without(list, t);
      Distinct(r) && (forall u :: u in r <==> u in list && u != t) && |r| == |list| - (if t in list then 1 else 0)
  {
    if list != [] {
      assert list == [list[0]] + list[1..];
      WithoutMembers(list[1..], t);
      var rest := Without(list[1..], t);
      assert list[0] !in list[1..];
      assert forall u :: u in list <==> u == list[0] || u in list[1..];
      if list[0] != t {
        forall j | 0 <= j < |rest| ensures rest[j] != list[0] { assert rest[j] in list[1..]; }
      }
    }
  }

  /** Leaving a list does not reorder the others. */
  lemma WithoutBetween(a: seq<Tid>, t: Tid, b: seq<Tid>)
    requires t !in a
    ensures Without(a + [t] + b, t) == a + b
  {
    WithoutBehind(a, t, b);
    assert a + [t] + b == a + ([t] + b);
  }

  lemma {:induction false} WithoutBehind(a: seq<Tid>, t: Tid, b: seq<Tid>)
    requires t !in a
    ensures Without(a + ([t] + b), t) == a + b
  {
    if a == [] {
      assert a + ([t] + b) == [t] + b && a + b == b;
    } else {
      assert (a + ([t] + b))[1..] == a[1..] + ([t] + b);
      WithoutBehind(a[1..], t, b);
      assert a + b == [a[0]] + (a[1..] + b);
    }
  }

  lemma {:induction false} AbsentWithout(q: seq<Tid>, u: Tid)
    requires u !in q
    ensures Without(q, u) == q
  {
    if q != [] { AbsentWithout(q[1..], u); }
  }

  /** The list without t, if it was there, the others in their order. */
  ghost predicate Loses(before: seq<Tid>, after: seq<Tid>, t: Tid) {
    if t in before then exists i :: 0 <= i < |before| && before[i] == t && after == before[..i] + before[i + 1..] else after == before
  }

  lemma WithoutLoses(list: seq<Tid>, t: Tid)
    requires Distinct(list)
    ensures Loses(list, Without(list, t), t)
  {
    if t in list {
      var i :| 0 <= i < |list| && list[i] == t;
      assert list == list[..i] + [t] + list[i + 1..];
      WithoutBetween(list[..i], t, list[i + 1..]);
    } else {
      AbsentWithout(list, t);
    }
  }

  lemma {:induction false} WithoutKeepsSorted(list: seq<Tid>, t: Tid, prio: Tid -> nat)
    requires Sorted(list, prio)
    ensures Sorted(Without(list, t), prio)
    ensures forall u :: u in Without(list, t) ==> u in list
  {
    if list != [] && list[0] != t {
      WithoutKeepsSorted(list[1..], t, prio);
      var r := Without(list[1..], t);
      forall j | 0 <= j < |r| ensures prio(list[0]) <= prio(r[j]) { assert r[j] in list[1..]; }
    }
  }

  /** Distinct numbers below n are at most n many. */
  lemma {:induction false} DistinctBound(list: seq<nat>, n: nat)
    requires Distinct(list) && forall x :: x in list ==> x < n
    ensures |list| <= n
    decreases n
  {
    if list != [] {
      assert list[0] in list;
      WithoutMembers(list, n - 1);
      DistinctBound(Without(list, n - 1), n - 1);
    }
  }
}
