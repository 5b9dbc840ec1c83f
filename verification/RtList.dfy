/** The circular doubly linked lists of rt-thread/include/rtservice.h, which every kernel structure
    rests on.  Nodes are numbers; one map holds every node's `next`, another every node's `prev`. */
module RtList {
  type Node = int
  type Links = map<Node, Node>

  function To(m: Links, n: Node): Node { if n in m then m[n] else n }

  /** next leads through c from first to last, and prev leads back. */
  ghost predicate Steps(next: Links, prev: Links, c: seq<Node>) {
    |c| >= 2 ==> To(next, c[0]) == c[1] && To(prev, c[1]) == c[0] && Steps(next, prev, c[1..])
  }

  ghost predicate NoRepeat(s: seq<Node>) { s != [] ==> s[0] !in s[1..] && NoRepeat(s[1..]) }

  lemma {:induction false} NoRepeatConcat(a: seq<Node>, b: seq<Node>)
    ensures NoRepeat(a + b) <==> NoRepeat(a) && NoRepeat(b) && forall n :: n in a ==> n !in b
  {
    if a == [] {
      assert a + b == b;
    } else {
      assert (a + b)[1..] == a[1..] + b;
      NoRepeatConcat(a[1..], b);
      assert forall n :: n in a <==> n == a[0] || n in a[1..];
    }
  }

  /** The list with header h holds the nodes s. */
  ghost predicate Ring(next: Links, prev: Links, h: Node, s: seq<Node>) {
    Steps(next, prev, [h] + s + [h]) && h !in s && NoRepeat(s)
  }

  function Last(s: seq<Node>): Node
    requires s != []
  {
    s[|s| - 1]
  }

  lemma {:induction false} StepsConcat(next: Links, prev: Links, a: seq<Node>, b: seq<Node>)
    requires a != [] && b != []
    ensures Steps(next, prev, a + b) <==>
            Steps(next, prev, a) && Steps(next, prev, b) && To(next, Last(a)) == b[0] && To(prev, b[0]) == Last(a)
  {
    assert (a + b)[1..] == a[1..] + b;
    if |a| > 1 { StepsConcat(next, prev, a[1..], b); }
  }

  /** Steps depend on next of all nodes but the last and on prev of all but the first. */
  lemma {:induction false} StepsFrame(next: Links, prev: Links, next': Links, prev': Links, c: seq<Node>)
    requires c != [] && Steps(next, prev, c)
    requires forall n :: n in c[..|c| - 1] ==> To(next', n) == To(next, n)
    requires forall n :: n in c[1..] ==> To(prev', n) == To(prev, n)
    ensures Steps(next', prev', c)
  {
    if |c| >= 2 {
      assert c[0] in c[..|c| - 1] && c[1] in c[1..];
      var r := c[1..];
      assert c[1..|c| - 1] == r[..|r| - 1];
      assert c[..|c| - 1] == [c[0]] + r[..|r| - 1];
      StepsFrame(next, prev, next', prev', r);
    }
  }

  lemma RingFrame(next: Links, prev: Links, next': Links, prev': Links, h: Node, s: seq<Node>)
    requires Ring(next, prev, h, s)
    requires forall n :: n == h || n in s ==> To(next', n) == To(next, n) && To(prev', n) == To(prev, n)
    ensures Ring(next', prev', h, s)
  {
    var c := [h] + s + [h];
    assert c[1..] == s + [h] && c[..|c| - 1] == [h] + s;
    StepsFrame(next, prev, next', prev', c);
  }

  /** A ring cut between a and b. */
  lemma RingParts(next: Links, prev: Links, h: Node, a: seq<Node>, b: seq<Node>)
    ensures Ring(next, prev, h, a + b) <==>
      && Steps(next, prev, [h] + a) && Steps(next, prev, b + [h])
      && To(next, Last([h] + a)) == (b + [h])[0] && To(prev, (b + [h])[0]) == Last([h] + a)
      && NoRepeat(a) && NoRepeat(b) && h !in a && h !in b && forall n :: n in a ==> n !in b
  {
    hide Steps, NoRepeat;
    assert [h] + (a + b) + [h] == ([h] + a) + (b + [h]);
    StepsConcat(next, prev, [h] + a, b + [h]);
    NoRepeatConcat(a, b);
  }

  /** The last of a list occurs only at its end. */
  lemma LastOnce(h: Node, a: seq<Node>)
    requires NoRepeat(a) && h !in a
    ensures Last([h] + a) !in ([h] + a)[..|a|]
  {
    if a != [] {
      assert a == a[..|a| - 1] + [a[|a| - 1]];
      NoRepeatConcat(a[..|a| - 1], [a[|a| - 1]]);
      assert ([h] + a)[..|a|] == [h] + a[..|a| - 1];
    }
  }

  // ---------- Linking and unlinking, on the maps ----------

  /** The four stores of rt_list_insert_after(l, n). */
  function LinkNext(next: Links, l: Node, n: Node): Links { next[n := To(next, l)][l := n] }
  function LinkPrev(next: Links, prev: Links, l: Node, n: Node): Links { prev[To(next, l) := n][n := l] }

  lemma Linked(next: Links, prev: Links, h: Node, a: seq<Node>, b: seq<Node>, n: Node)
    requires Ring(next, prev, h, a + b) && n != h && n !in a && n !in b
    ensures var l := Last([h] + a); Ring(LinkNext(next, l, n), LinkPrev(next, prev, l, n), h, a + ([n] + b))
  {
    hide Steps, NoRepeat;
    var p, q, l := [h] + a, b + [h], Last([h] + a);
    var next', prev' := LinkNext(next, l, n), LinkPrev(next, prev, l, n);
    RingParts(next, prev, h, a, b);
    LastOnce(h, a);
    FirstOnce(b, h);
    assert p[1..] == a && p[..|p| - 1] == p[..|a|] && q[..|q| - 1] == b;
    assert Last(p) == h || Last(p) in a;
    assert q[0] == h || q[0] in b;
    StepsFrame(next, prev, next', prev', p);
    StepsFrame(next, prev, next', prev', q);
    Joined(next', prev', n, q);
    NoRepeatConcat([n], b);
    assert [n] + q == ([n] + b) + [h];
    RingParts(next', prev', h, a, [n] + b);
  }

  lemma FirstOnce(b: seq<Node>, h: Node)
    requires NoRepeat(b) && h !in b
    ensures (b + [h])[0] !in (b + [h])[1..]
  {
    if b != [] { assert (b + [h])[1..] == b[1..] + [h]; }
  }

  lemma Joined(next: Links, prev: Links, n: Node, q: seq<Node>)
    requires Steps(next, prev, q) && q != [] && To(next, n) == q[0] && To(prev, q[0]) == n
    ensures Steps(next, prev, [n] + q) && NoRepeat([n])
  {
    StepsConcat(next, prev, [n], q);
  }

  /** The stores of rt_list_remove(n) to n's neighbours. */
  function UnlinkNext(next: Links, prev: Links, n: Node): Links { next[To(prev, n) := To(next, n)] }
  function UnlinkPrev(next: Links, prev: Links, n: Node): Links { prev[To(next, n) := To(prev, n)] }

  lemma Unlinked(next: Links, prev: Links, h: Node, a: seq<Node>, n: Node, b: seq<Node>)
    requires Ring(next, prev, h, a + ([n] + b))
    ensures Ring(UnlinkNext(next, prev, n), UnlinkPrev(next, prev, n), h, a + b)
    ensures To(prev, n) == Last([h] + a) && To(next, n) == (b + [h])[0]
    ensures n != h && n !in a && n !in b
  {
    hide Steps, NoRepeat;
    var next', prev' := UnlinkNext(next, prev, n), UnlinkPrev(next, prev, n);
    var p, q := [h] + a, b + [h];
    RingParts(next, prev, h, a, [n] + b);
    assert ([n] + b) + [h] == [n] + q;
    StepsConcat(next, prev, [n], q);
    NoRepeatConcat([n], b);
    LastOnce(h, a);
    FirstOnce(b, h);
    assert p[1..] == a && p[..|p| - 1] == p[..|a|] && q[..|q| - 1] == b;
    assert Last(p) == h || Last(p) in a;
    assert q[0] == h || q[0] in b;
    StepsFrame(next, prev, next', prev', p);
    StepsFrame(next, prev, next', prev', q);
    RingParts(next', prev', h, a, b);
  }

  /** n is in no list: rt_list_init and rt_list_remove leave it so. */
  ghost predicate Alone(next: Links, prev: Links, n: Node) { Ring(next, prev, n, []) }

  lemma AloneIff(next: Links, prev: Links, n: Node)
    ensures Alone(next, prev, n) <==> To(next, n) == n && To(prev, n) == n
  {
    var empty: seq<Node> := [];
    assert [n] + empty + [n] == [n, n] && [n, n][1..] == [n];
    assert Steps(next, prev, [n, n]) <==> To(next, n) == n && To(prev, n) == n;
  }

  /** Every node of the system. */
  class Lists {
    var next: Links
    var prev: Links

    /** rt_list_insert_after: n comes right after l, wherever l stands in the ring. */
    method InsertAfter(l: Node, n: Node, ghost h: Node, ghost a: seq<Node>, ghost b: seq<Node>)
      requires Ring(next, prev, h, a + b) && l == Last([h] + a) && n != h && n !in a && n !in b
      modifies this
      ensures Ring(next, prev, h, a + ([n] + b))
      ensures OthersKept(old(next), old(prev), next, prev, [h, n] + a + b)
    {
      hide Ring;
      Linked(next, prev, h, a, b, n);
      NeighboursIn(next, prev, h, a, b);
      var ln := To(next, l);
      prev := prev[ln := n];
      next := next[n := ln];
      next := next[l := n];
      prev := prev[n := l];
    }

    /** rt_list_insert_before: with l the header this appends. */
    method InsertBefore(l: Node, n: Node, ghost h: Node, ghost a: seq<Node>, ghost b: seq<Node>)
      requires Ring(next, prev, h, a + b) && l == (b + [h])[0] && n != h && n !in a && n !in b
      modifies this
      ensures Ring(next, prev, h, a + ([n] + b))
      ensures OthersKept(old(next), old(prev), next, prev, [h, n] + a + b)
    {
      hide Ring;
      Linked(next, prev, h, a, b, n);
      NeighboursIn(next, prev, h, a, b);
      var lp := To(prev, l);
      next := next[n := l][lp := n];
      prev := prev[l := n][n := lp];
    }

    /** rt_list_remove. */
    method Remove(n: Node, ghost h: Node, ghost a: seq<Node>, ghost b: seq<Node>)
      requires Ring(next, prev, h, a + ([n] + b))
      modifies this
      ensures Ring(next, prev, h, a + b) && Alone(next, prev, n)
      ensures OthersKept(old(next), old(prev), next, prev, [h, n] + a + b)
    {
      hide Ring;
      Unlinked(next, prev, h, a, n, b);
      prev := prev[To(next, n) := To(prev, n)];
      next := next[To(prev, n) := To(next, n)];
      assert next == UnlinkNext(old(next), old(prev), n) && prev == UnlinkPrev(old(next), old(prev), n);
      RingFrame(next, prev, next[n := n], prev[n := n], h, a + b);
      next, prev := next[n := n], prev[n := n];
      AloneIff(next, prev, n);
    }

    /** Removing a node that is in no list changes nothing: why a stopped timer may be stopped again. */
    method RemoveAlone(n: Node)
      requires Alone(next, prev, n)
      modifies this
      ensures forall m: Node {:trigger To(next, m)} :: To(next, m) == To(old(next), m) && To(prev, m) == To(old(prev), m)
    {
      AloneIff(next, prev, n);
      prev := prev[To(next, n) := To(prev, n)];
      next := next[To(prev, n) := To(next, n)];
      next, prev := next[n := n], prev[n := n];
    }

    method IsEmpty(l: Node, ghost s: seq<Node>) returns (empty: bool)
      requires Ring(next, prev, l, s)
      ensures empty <==> s == []
    {
      assert s == [] + s;
      RingParts(next, prev, l, [], s);
      empty := To(next, l) == l;
    }

    /** rt_list_len. */
    method Len(l: Node, ghost s: seq<Node>) returns (len: nat)
      requires Ring(next, prev, l, s)
      ensures len == |s|
    {
      hide Ring;
      var p := l;
      len := 0;
      NextOf(next, prev, l, s, 0);
      while To(next, p) != l
        invariant len <= |s| && p == ([l] + s)[len]
        invariant To(next, p) == (s + [l])[len] && l !in s
        decreases |s| - len
      {
        p := To(next, p);
        len := len + 1;
        NextOf(next, prev, l, s, len);
      }
    }
  }

  lemma NextOf(next: Links, prev: Links, h: Node, s: seq<Node>, k: nat)
    requires Ring(next, prev, h, s) && k <= |s|
    ensures To(next, ([h] + s)[k]) == (s + [h])[k] && To(prev, (s + [h])[k]) == ([h] + s)[k] && h !in s
  {
    assert s == s[..k] + s[k..];
    RingParts(next, prev, h, s[..k], s[k..]);
    assert Last([h] + s[..k]) == ([h] + s)[k];
  }

  ghost predicate OthersKept(next: Links, prev: Links, next': Links, prev': Links, s: seq<Node>) {
    forall m: Node {:trigger To(next', m)} {:trigger To(prev', m)} :: m !in s ==> To(next', m) == To(next, m) && To(prev', m) == To(prev, m)
  }

  lemma NeighboursIn(next: Links, prev: Links, h: Node, a: seq<Node>, b: seq<Node>)
    requires Ring(next, prev, h, a + b)
    ensures To(next, Last([h] + a)) == (b + [h])[0] && To(prev, (b + [h])[0]) == Last([h] + a)
  {
    RingParts(next, prev, h, a, b);
  }
}
