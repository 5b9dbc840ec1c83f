/** rt_event_send and rt_event_recv in place. */
module EventObject {
  import opened WaitList
  import opened EventModel

  datatype Status = Ok | Error | TimedOut | Blocked | Invalid

  /** A woken AND waiter asked for bits that are all there; a woken OR waiter's field is narrowed first.
      Either way, clearing the field's bits clears what was asked for. */
  lemma ClearedSame(ev: bv32, want: bv32)
    ensures Minus(ev, Both(want, ev)) == Minus(ev, want)
    ensures Both(want, ev) == Both(ev, want)
  {
  }

  /** One turn of the loop of rt_event_send. */
  lemma ServeOne(ev: bv32, a: seq<Tid>, t: Tid, z: seq<Tid>, want: map<Tid, bv32>, info: map<Tid, Opt>)
    ensures
      var here := Serve(ev, [t] + z, want, info);
      if !OptOf(info, t).Valid() then here == (ev, [t] + z, want) && !AllValid([t] + z, info)
      else
        && (AllValid([t] + z, info) <==> AllValid(z, info))
        && match TryRecv(ev, WantOf(want, t), OptOf(info, t))
           case Got(bits, left) => here == Serve(left, z, want[t := bits], info)
           case NotYet =>
             var (ev1, rest, want1) := Serve(ev, z, want, info);
             here.0 == ev1 && here.2 == want1 && a + here.1 == a + [t] + rest
  {
    hide TryRecv, Serve, AllValid;
    ServeHead(ev, t, z, want, info);
    var (ev1, rest, want1) := Serve(ev, z, want, info);
    assert a + ([t] + rest) == a + [t] + rest;
  }

  lemma ServeHead(ev: bv32, t: Tid, z: seq<Tid>, want: map<Tid, bv32>, info: map<Tid, Opt>)
    ensures
      var here := Serve(ev, [t] + z, want, info);
      if !OptOf(info, t).Valid() then here == (ev, [t] + z, want) && !AllValid([t] + z, info)
      else
        && (AllValid([t] + z, info) <==> AllValid(z, info))
        && match TryRecv(ev, WantOf(want, t), OptOf(info, t))
           case Got(bits, left) => here == Serve(left, z, want[t := bits], info)
           case NotYet => here == (Serve(ev, z, want, info).0, [t] + Serve(ev, z, want, info).1, Serve(ev, z, want, info).2)
  {
    hide TryRecv, WantOf;
    var w := [t] + z;
    assert w[0] == t && w[1..] == z && t in w;
    assert forall u :: u in w <==> u == t || u in z;
  }

  lemma ServeNone(ev: bv32, want: map<Tid, bv32>, info: map<Tid, Opt>)
    ensures Serve(ev, [], want, info) == (ev, [], want) && AllValid([], info)
  {
  }

  lemma Dropped(wait: seq<Tid>, n: nat)
    requires n < |wait|
    ensures var r := wait[..n] + wait[n + 1..]; r[n..] == wait[n + 1..] && r[..n] == wait[..n]
  {
  }

  class EventObj {
    var ev: bv32
    var wait: seq<Tid>
    var want: map<Tid, bv32>        // thread->event_set
    var info: map<Tid, Opt>         // thread->event_info

    ghost function Value(): State
      reads this
    {
      State(ev, wait, want, info)
    }

    /** rt_event_send. */
    method Send(bits: bv32) returns (status: Status)
      modifies this
      ensures Value() == Sent(old(Value()), bits)
      ensures status == if bits == 0 then Error else if AllValid(old(wait), info) then Ok else Invalid
    {
      hide TryRecv, Either, Serve, AllValid;
      if bits == 0 { return Error; }
      ev := Either(ev, bits);
      ghost var all := Serve(ev, wait, want, info);
      var n := 0;
      assert wait[n..] == wait && [] + all.1 == all.1;
      while n < |wait|
        invariant n <= |wait| && info == old(info)
        invariant var (ev1, rest, want1) := Serve(ev, wait[n..], want, info); all == (ev1, wait[..n] + rest, want1)
        invariant AllValid(old(wait), info) <==> AllValid(wait[n..], info)
        decreases |wait| - n
      {
        var t := wait[n];
        assert wait[n..] == [t] + wait[n + 1..];
        ServeOne(ev, wait[..n], t, wait[n + 1..], want, info);
        if !OptOf(info, t).all && !OptOf(info, t).any {
          assert wait[..n] + wait[n..] == wait;
          return Invalid;
        }
        var hit := Check(t);
        if hit {
          Dropped(wait, n);
          wait := wait[..n] + wait[n + 1..];
        } else {
          assert wait[..n + 1] == wait[..n] + [t];
          n := n + 1;
        }
      }
      ServeNone(ev, want, info);
      assert wait[n..] == [] && wait[..n] + [] == wait;
      return Ok;
    }

    /** The test of one waiter, with what a satisfied one takes. */
    method Check(t: Tid) returns (hit: bool)
      requires OptOf(info, t).Valid()
      modifies this`ev, this`want
      ensures hit <==> TryRecv(old(ev), WantOf(old(want), t), OptOf(info, t)).Got?
      ensures if hit then
                && ev == TryRecv(old(ev), WantOf(old(want), t), OptOf(info, t)).left
                && want == old(want)[t := TryRecv(old(ev), WantOf(old(want), t), OptOf(info, t)).bits]
              else ev == old(ev) && want == old(want)
    {
      var o, w := OptOf(info, t), WantOf(want, t);
      ClearedSame(ev, w);
      hide Both, Minus;
      hit := false;
      if o.all {
        if Both(w, ev) == w {
          hit := true;
          want := want[t := w];
        }
      } else if Both(w, ev) != 0 {
        want := want[t := Both(w, ev)];
        hit := true;
      }
      if hit && o.clear { ev := Minus(ev, WantOf(want, t)); }
    }

    /** rt_event_recv up to the point where it returns or blocks. */
    method Recv(t: Tid, bits: bv32, opt: Opt, mayWait: bool, flag: Flag, prio: Tid -> nat) returns (status: Status, got: bv32)
      modifies this
      ensures Value() == Received(old(Value()), t, bits, opt, mayWait, flag, prio)
      ensures status == if bits == 0 then Error else if TryRecv(old(ev), bits, opt).Got? then Ok else if mayWait then Blocked else Status.TimedOut
      ensures status == Ok ==> got == TryRecv(old(ev), bits, opt).bits
    {
      hide Both, Minus, Insert;
      got := 0;
      if bits == 0 { return Error, 0; }
      status := Error;
      if opt.all {
        if Both(ev, bits) == bits { status := Ok; }
      } else if opt.any {
        if Both(ev, bits) != 0 { status := Ok; }
      }
      if status == Ok {
        got := Both(ev, bits);
        want := want[t := Both(ev, bits)];
        info := info[t := opt];
        if opt.clear { ev := Minus(ev, bits); }
      } else if !mayWait {
        status := Status.TimedOut;
      } else {
        want := want[t := bits];
        info := info[t := opt];
        wait := Suspend(wait, t, flag, prio);
        status := Blocked;
      }
    }

    /** The thread timer of a waiter fires. */
    method TimedOut(t: Tid)
      modifies this`wait
      ensures Value() == old(Value()).(wait := Without(old(wait), t))
    {
      wait := Without(wait, t);
    }

    /** The reset command. */
    method Reset()
      modifies this
      ensures Value() == old(Value()).(ev := 0, wait := [])
    {
      wait := [];
      ev := 0;
    }
  }
}
