/** The event object of rt-thread/src/ipc.c:1054-1316: thirty-two bits that threads wait for in
    all-of or any-of combinations. */
module EventModel {
  import opened WaitList

  /** The option bits RT_EVENT_FLAG_AND, RT_EVENT_FLAG_OR and RT_EVENT_FLAG_CLEAR. */
  datatype Opt = Opt(all: bool, any: bool, clear: bool) {
    predicate Valid() { all || any }
  }

  datatype Outcome = Got(bits: bv32, left: bv32) | NotYet

  function Both(a: bv32, b: bv32): bv32 { a & b }
  function Either(a: bv32, b: bv32): bv32 { a | b }
  function Minus(a: bv32, b: bv32): bv32 { a & !b }

  predicate Meets(ev: bv32, want: bv32, opt: Opt) {
    if opt.all then Both(ev, want) == want else opt.any && Both(ev, want) != 0
  }

  /** One non-blocking rt_event_recv: the bits received and the event set that is left. */
  function TryRecv(ev: bv32, want: bv32, opt: Opt): Outcome {
    if Meets(ev, want, opt) then Got(Both(ev, want), if opt.clear then Minus(ev, want) else ev) else NotYet
  }

  /** want and info are the fields event_set and event_info of the threads; a woken thread finds the
      bits it received in want. */
  datatype State = State(ev: bv32, wait: seq<Tid>, want: map<Tid, bv32>, info: map<Tid, Opt>)

  function WantOf(want: map<Tid, bv32>, t: Tid): bv32 { if t in want then want[t] else 0 }
  function OptOf(info: map<Tid, Opt>, t: Tid): Opt { if t in info then info[t] else Opt(true, false, false) }

  /** Serving the waiters in queue order, each by one non-blocking receive on what its predecessors left;
      a waiter that asked for neither all nor any ends the pass. */
  function Serve(ev: bv32, wait: seq<Tid>, want: map<Tid, bv32>, info: map<Tid, Opt>): (bv32, seq<Tid>, map<Tid, bv32>)
    decreases |wait|
  {
    if wait == [] || !OptOf(info, wait[0]).Valid() then (ev, wait, want)
    else
      var t := wait[0];
      match TryRecv(ev, WantOf(want, t), OptOf(info, t))
      case Got(bits, left) => Serve(left, wait[1..], want[t := bits], info)
      case NotYet =>
        var (ev', wait', want') := Serve(ev, wait[1..], want, info);
        (ev', [t] + wait', want')
  }

  function Sent(s: State, bits: bv32): State {
    if bits == 0 then s
    else
      var (ev, wait, want) := Serve(Either(s.ev, bits), s.wait, s.want, s.info);
      s.(ev := ev, wait := wait, want := want)
  }

  /** rt_event_recv up to the point where it returns or blocks. */
  function Received(s: State, t: Tid, want: bv32, opt: Opt, mayWait: bool, flag: Flag, prio: Tid -> nat): State {
    if want == 0 then s
    else match TryRecv(s.ev, want, opt)
      case Got(bits, left) => s.(ev := left, want := s.want[t := bits], info := s.info[t := opt])
      case NotYet =>
        if mayWait then s.(wait := Insert(s.wait, t, flag, prio), want := s.want[t := want], info := s.info[t := opt])
        else s
  }

  // ---------- Which bits a receive needs, gets and leaves ----------

  function Missing(ev: bv32, want: bv32): bv32 { want & !ev }
  function Common(a: bv32, b: bv32): bv32 { a & b }
  function All(a: bv32, b: bv32): bv32 { a | b }

  /** A receive for all of its bits succeeds when none is missing, one for any when not all are missing, one for
      neither never.  It gets those of its bits that are there, and if it clears leaves just the others. */
  lemma RecvIs(ev: bv32, want: bv32, opt: Opt)
    ensures var r := TryRecv(ev, want, opt);
      && (opt.all ==> (r.Got? <==> Missing(ev, want) == 0))
      && (!opt.all && opt.any ==> (r.Got? <==> Missing(ev, want) != want))
      && (!opt.all && !opt.any ==> r.NotYet?)
      && (r.Got? ==> Missing(ev, r.bits) == 0 && Missing(want, r.bits) == 0 && All(r.bits, Missing(ev, want)) == want)
      && (r.Got? && opt.clear ==> Common(r.left, want) == 0 && All(r.left, r.bits) == ev)
      && (r.Got? && !opt.clear ==> r.left == ev)
  {
    hide Both, Minus, Either, Missing, Common, All;
    AllIff(ev, want);
    AnyIff(ev, want);
    GotParts(ev, want);
    GotAndMissing(ev, want);
    LeftParts(ev, want);
  }

  lemma AllIff(ev: bv32, want: bv32)
    ensures Both(ev, want) == want <==> Missing(ev, want) == 0
  {
    hide Both, Missing, Either;
    GotParts(ev, want);
    EitherNone(Both(ev, want));
  }

  lemma AnyIff(ev: bv32, want: bv32)
    ensures Both(ev, want) != 0 <==> Missing(ev, want) != want
  {
    hide Both, Missing, Either;
    GotParts(ev, want);
    EitherNone(Missing(ev, want));
    MissingApart(ev, want);
  }

  lemma EitherNone(a: bv32)
    ensures Either(a, 0) == a && Either(0, a) == a
  {
  }

  lemma MissingApart(ev: bv32, want: bv32)
    ensures Both(ev, Missing(ev, want)) == 0
  {
  }

  lemma GotParts(ev: bv32, want: bv32)
    ensures Missing(ev, Both(ev, want)) == 0
    ensures Missing(want, Both(ev, want)) == 0
    ensures Either(Both(ev, want), Missing(ev, want)) == want
  {
  }

  lemma GotAndMissing(ev: bv32, want: bv32)
    ensures All(Both(ev, want), Missing(ev, want)) == want
  {
  }

  lemma LeftParts(ev: bv32, want: bv32)
    ensures Common(Minus(ev, want), want) == 0
    ensures All(Minus(ev, want), Both(ev, want)) == ev
  {
  }

  /** A receive that succeeds returns at once; one that does not waits in the list or changes nothing. */
  lemma ReceivedIs(s: State, t: Tid, want: bv32, opt: Opt, mayWait: bool, flag: Flag, prio: Tid -> nat)
    requires want != 0
    ensures var r, out := Received(s, t, want, opt, mayWait, flag, prio), TryRecv(s.ev, want, opt);
      && (out.Got? ==> r.ev == out.left && r.wait == s.wait && WantOf(r.want, t) == out.bits)
      && (out.NotYet? && !mayWait ==> r == s)
      && (out.NotYet? && mayWait ==> r.ev == s.ev && WantOf(r.want, t) == want && OptOf(r.info, t) == opt)
      && (out.NotYet? && mayWait ==> Joins(s.wait, r.wait, t, flag, prio))
      && forall u :: u != t ==> WantOf(r.want, u) == WantOf(s.want, u) && OptOf(r.info, u) == OptOf(s.info, u)
  {
    InsertJoins(s.wait, t, flag, prio);
    hide TryRecv, Insert, Joins;
  }

  /** A send adds its bits and then serves the list. */
  lemma SentIs(s: State, bits: bv32)
    ensures var r := Sent(s, bits);
      && r.info == s.info && (bits == 0 ==> r == s)
      && (bits != 0 ==> (r.ev, r.wait, r.want) == Serve(s.ev | bits, s.wait, s.want, s.info))
  {
    hide Serve;
  }

  // ---------- Nobody waits for what is already there ----------

  ghost predicate Unserved(ev: bv32, wait: seq<Tid>, want: map<Tid, bv32>, info: map<Tid, Opt>) {
    forall t :: t in wait ==> TryRecv(ev, WantOf(want, t), OptOf(info, t)) == NotYet
  }

  ghost predicate AllValid(wait: seq<Tid>, info: map<Tid, Opt>) {
    forall t :: t in wait ==> OptOf(info, t).Valid()
  }

  ghost predicate Served(s: State) {
    Distinct(s.wait) && Unserved(s.ev, s.wait, s.want, s.info)
  }

  ghost predicate Inv(s: State) {
    Served(s) && AllValid(s.wait, s.info)
  }

  predicate Below(a: bv32, b: bv32) { Both(a, b) == a }

  /** A condition that fails on a set fails on every smaller one. */
  lemma NotYetBelow(ev: bv32, less: bv32, want: bv32, opt: Opt)
    requires TryRecv(ev, want, opt) == NotYet && Below(less, ev)
    ensures TryRecv(less, want, opt) == NotYet
  {
    MeetsBelow(ev, less, want);
  }

  lemma MeetsBelow(ev: bv32, less: bv32, want: bv32)
    requires Below(less, ev)
    ensures Both(less, want) == want ==> Both(ev, want) == want
    ensures Both(less, want) != 0 ==> Both(ev, want) != 0
  {
  }

  lemma LeftBelow(ev: bv32, want: bv32, opt: Opt)
    requires TryRecv(ev, want, opt).Got?
    ensures Below(TryRecv(ev, want, opt).left, ev)
  {
    MinusBelow(ev, want);
    BelowSelf(ev);
    hide Below, Both, Minus;
  }

  lemma MinusBelow(ev: bv32, want: bv32)
    ensures Below(Minus(ev, want), ev)
  {
    var m := Minus(ev, want);
    MaskBelow(ev, want, m);
    assert Both(m, ev) == m & ev;
    hide Both, Minus;
  }

  lemma MaskBelow(a: bv32, b: bv32, m: bv32)
    requires m == a & !b
    ensures m & a == m
  {
  }

  lemma BelowSelf(a: bv32)
    ensures Below(a, a)
  {
  }

  lemma BelowTrans(a: bv32, b: bv32, c: bv32)
    requires Below(a, b) && Below(b, c)
    ensures Below(a, c)
  {
  }

  /** A pass only takes waiters off the list. */
  lemma {:induction false} ServeSubset(ev: bv32, wait: seq<Tid>, want: map<Tid, bv32>, info: map<Tid, Opt>)
    requires Distinct(wait)
    ensures var (_, wait', _) := Serve(ev, wait, want, info); Distinct(wait') && forall t :: t in wait' ==> t in wait
    decreases |wait|
  {
    hide TryRecv;
    if wait != [] && OptOf(info, wait[0]).Valid() {
      var t := wait[0];
      assert forall u :: u in wait[1..] ==> u in wait && u != t;
      match TryRecv(ev, WantOf(want, t), OptOf(info, t)) {
        case Got(bits, left) => ServeSubset(left, wait[1..], want[t := bits], info);
        case NotYet =>
          ServeSubset(ev, wait[1..], want, info);
          var rest := Serve(ev, wait[1..], want, info).1;
          assert Serve(ev, wait, want, info).1 == [t] + rest;
          assert forall i :: 0 <= i < |rest| ==> rest[i] in rest;
      }
    }
  }

  /** It only takes bits away. */
  lemma {:induction false} ServeShrinks(ev: bv32, wait: seq<Tid>, want: map<Tid, bv32>, info: map<Tid, Opt>)
    ensures Below(Serve(ev, wait, want, info).0, ev)
    decreases |wait|
  {
    hide TryRecv, Below;
    BelowSelf(ev);
    if wait != [] && OptOf(info, wait[0]).Valid() {
      var t := wait[0];
      match TryRecv(ev, WantOf(want, t), OptOf(info, t)) {
        case Got(bits, left) =>
          ServeShrinks(left, wait[1..], want[t := bits], info);
          LeftBelow(ev, WantOf(want, t), OptOf(info, t));
          BelowTrans(Serve(left, wait[1..], want[t := bits], info).0, left, ev);
        case NotYet => ServeShrinks(ev, wait[1..], want, info);
      }
    }
  }

  /** It changes nothing for a thread that is not woken. */
  lemma {:induction false} ServeLeaves(ev: bv32, wait: seq<Tid>, want: map<Tid, bv32>, info: map<Tid, Opt>, u: Tid)
    requires Distinct(wait) && (u !in wait || u in Serve(ev, wait, want, info).1)
    ensures WantOf(Serve(ev, wait, want, info).2, u) == WantOf(want, u)
    decreases |wait|
  {
    hide TryRecv;
    if wait != [] && OptOf(info, wait[0]).Valid() {
      var t := wait[0];
      assert t !in wait[1..] && forall v :: v in wait[1..] ==> v in wait;
      match TryRecv(ev, WantOf(want, t), OptOf(info, t)) {
        case Got(bits, left) =>
          ServeSubset(left, wait[1..], want[t := bits], info);
          ServeLeaves(left, wait[1..], want[t := bits], info, u);
        case NotYet =>
          ServeLeaves(ev, wait[1..], want, info, u);
      }
    }
  }

  /** After a pass over valid waiters nobody is left whose condition holds. */
  lemma {:induction false} ServeKeeps(ev: bv32, wait: seq<Tid>, want: map<Tid, bv32>, info: map<Tid, Opt>)
    requires Distinct(wait) && AllValid(wait, info)
    ensures var (ev', wait', want') := Serve(ev, wait, want, info); Unserved(ev', wait', want', info)
    decreases |wait|
  {
    hide TryRecv, Below, WantOf;
    if wait != [] {
      var t := wait[0];
      assert t in wait && forall u :: u in wait[1..] ==> u in wait;
      assert t !in wait[1..];
      match TryRecv(ev, WantOf(want, t), OptOf(info, t)) {
        case Got(bits, left) => ServeKeeps(left, wait[1..], want[t := bits], info);
        case NotYet =>
          ServeKeeps(ev, wait[1..], want, info);
          ServeShrinks(ev, wait[1..], want, info);
          ServeLeaves(ev, wait[1..], want, info, t);
          NotYetBelow(ev, Serve(ev, wait[1..], want, info).0, WantOf(want, t), OptOf(info, t));
      }
    }
  }

  // ---------- Whole runs ----------

  datatype Event =
    | Send(bits: bv32)
    | Recv(t: Tid, want: bv32, opt: Opt, mayWait: bool)
    | Timeout(t: Tid)
    | Reset

  /** A thread that waits makes no call. */
  predicate Enabled(s: State, e: Event) {
    e.Recv? ==> e.t !in s.wait
  }

  /** A receive that may wait names one of the two conditions. */
  predicate Named(e: Event) {
    e.Recv? && e.mayWait ==> e.opt.Valid()
  }

  /** The waiters in front of the first one with neither flag. */
  function Front(wait: seq<Tid>, info: map<Tid, Opt>): (k: nat)
    ensures k <= |wait| && AllValid(wait[..k], info) && (k < |wait| ==> !OptOf(info, wait[k]).Valid())
  {
    if wait == [] || !OptOf(info, wait[0]).Valid() then 0
    else
      var k := Front(wait[1..], info);
      assert wait[..k + 1] == [wait[0]] + wait[1..][..k];
      k + 1
  }

  /** None of those who stand behind is satisfied by what the waiters in front leave of the updated set. */
  ghost predicate Prompt(s: State, e: Event) {
    e.Send? && e.bits != 0 ==>
      var k := Front(s.wait, s.info);
      var left := Serve(Either(s.ev, e.bits), s.wait[..k], s.want, s.info).0;
      forall t :: t in s.wait[k..] ==> TryRecv(left, WantOf(s.want, t), OptOf(s.info, t)) == NotYet
  }

  function Next(s: State, e: Event, flag: Flag, prio: Tid -> nat): State {
    match e
    case Send(bits) => Sent(s, bits)
    case Recv(t, want, opt, mayWait) => Received(s, t, want, opt, mayWait, flag, prio)
    case Timeout(t) => s.(wait := Without(s.wait, t))
    case Reset => s.(ev := 0, wait := [])
  }

  lemma ReceivedKeeps(s: State, t: Tid, want: bv32, opt: Opt, mayWait: bool, flag: Flag, prio: Tid -> nat)
    requires Served(s) && t !in s.wait
    ensures var r := Received(s, t, want, opt, mayWait, flag, prio);
      Served(r) && (AllValid(s.wait, s.info) && (mayWait ==> opt.Valid()) ==> AllValid(r.wait, r.info))
  {
    hide TryRecv, Insert;
    match TryRecv(s.ev, want, opt) {
      case Got(bits, left) =>
        LeftBelow(s.ev, want, opt);
        forall u | u in s.wait ensures TryRecv(left, WantOf(s.want, u), OptOf(s.info, u)) == NotYet {
          NotYetBelow(s.ev, left, WantOf(s.want, u), OptOf(s.info, u));
        }
      case NotYet => InsertMembers(s.wait, t, flag, prio);
    }
  }

  ghost predicate Legal(s: State, es: seq<Event>, flag: Flag, prio: Tid -> nat)
    decreases |es|
  {
    es == [] || (Enabled(s, es[0]) && Legal(Next(s, es[0], flag, prio), es[1..], flag, prio))
  }

  ghost function Run(s: State, es: seq<Event>, flag: Flag, prio: Tid -> nat): State
    requires Legal(s, es, flag, prio)
    decreases |es|
  {
    if es == [] then s else Run(Next(s, es[0], flag, prio), es[1..], flag, prio)
  }

  // ---------- The order of service ----------

  /** A pass in two halves: who stands behind is served on what the front has left. */
  lemma {:induction false} ServeInOrder(ev: bv32, a: seq<Tid>, b: seq<Tid>, want: map<Tid, bv32>, info: map<Tid, Opt>)
    requires AllValid(a, info)
    ensures var (ev1, a1, want1) := Serve(ev, a, want, info);
      var (ev2, b1, want2) := Serve(ev1, b, want1, info);
      Serve(ev, a + b, want, info) == (ev2, a1 + b1, want2)
    decreases |a|
  {
    hide TryRecv, WantOf;
    if a == [] {
      assert a + b == b;
      assert [] + Serve(ev, b, want, info).1 == Serve(ev, b, want, info).1;
    } else {
      var t := a[0];
      assert (a + b)[1..] == a[1..] + b && forall u :: u in a[1..] ==> u in a;
      match TryRecv(ev, WantOf(want, t), OptOf(info, t)) {
        case Got(bits, left) => ServeInOrder(left, a[1..], b, want[t := bits], info);
        case NotYet =>
          ServeInOrder(ev, a[1..], b, want, info);
          var (ev1, a1, want1) := Serve(ev, a[1..], want, info);
          assert [t] + (a1 + Serve(ev1, b, want1, info).1) == [t] + a1 + Serve(ev1, b, want1, info).1;
      }
    }
  }

  /** A waiter with neither flag shields everyone behind it.  On a fresh event thread 0 waits so, then thread 1
      waits for bit 0; sending bit 0 leaves thread 1 suspended with its condition true. */
  lemma InvalidWaiterShields()
    ensures var none, all := Opt(false, false, false), Opt(true, false, false);
      var s0 := State(0, [], map[], map[]);
      var s1 := Received(s0, 0, 1, none, true, Fifo, _ => 0);
      var s := Sent(Received(s1, 1, 1, all, true, Fifo, _ => 0), 1);
      s.wait == [0, 1] && TryRecv(s.ev, WantOf(s.want, 1), OptOf(s.info, 1)).Got?
  {
    var none, all := Opt(false, false, false), Opt(true, false, false);
    var s1 := Received(State(0, [], map[], map[]), 0, 1, none, true, Fifo, _ => 0);
    assert s1 == State(0, [0], map[0 := 1], map[0 := none]);
    var s2 := Received(s1, 1, 1, all, true, Fifo, _ => 0);
    assert s2 == State(0, [0, 1], map[0 := 1, 1 := 1], map[0 := none, 1 := all]);
    assert Both(0, 1) == 0 && Either(0, 1) == 1;
  }

  /** The pass stops at the first waiter with neither flag. */
  lemma ServeFront(ev: bv32, wait: seq<Tid>, want: map<Tid, bv32>, info: map<Tid, Opt>, k: nat)
    requires k == Front(wait, info)
    ensures var (ev1, a1, want1) := Serve(ev, wait[..k], want, info); Serve(ev, wait, want, info) == (ev1, a1 + wait[k..], want1)
  {
    hide TryRecv, WantOf;
    assert wait == wait[..k] + wait[k..];
    ServeInOrder(ev, wait[..k], wait[k..], want, info);
  }

  lemma BehindSame(ev: bv32, wait: seq<Tid>, want: map<Tid, bv32>, info: map<Tid, Opt>, k: nat)
    requires Distinct(wait) && k <= |wait|
    ensures forall t :: t in wait[k..] ==> WantOf(Serve(ev, wait[..k], want, info).2, t) == WantOf(want, t)
  {
    hide Serve, WantOf;
    forall t | t in wait[k..] ensures WantOf(Serve(ev, wait[..k], want, info).2, t) == WantOf(want, t) {
      var j :| k <= j < |wait| && wait[j] == t;
      ServeLeaves(ev, wait[..k], want, info, t);
    }
  }

  /** rt_event_send leaves nobody satisfied if and only if none of those who stood behind the first waiter with
      neither flag is satisfied by what the waiters in front of that one leave of the updated set. */
  lemma ServedIff(s: State, bits: bv32)
    requires Served(s)
    ensures Served(Sent(s, bits)) <==> Prompt(s, Send(bits))
  {
    hide TryRecv, Either, Serve, WantOf, OptOf, Front;
    if bits != 0 {
      var ev, k := Either(s.ev, bits), Front(s.wait, s.info);
      ServeSubset(ev, s.wait, s.want, s.info);
      ServeFront(ev, s.wait, s.want, s.info, k);
      BehindSame(ev, s.wait, s.want, s.info, k);
      ServeKeeps(ev, s.wait[..k], s.want, s.info);
      var a1 := Serve(ev, s.wait[..k], s.want, s.info).1;
      assert forall t :: t in a1 + s.wait[k..] <==> t in a1 || t in s.wait[k..];
    }
  }

  /** The steps that can leave a satisfied thread suspended are those sends, and no others. */
  lemma StepKeepsIff(s: State, e: Event, flag: Flag, prio: Tid -> nat)
    requires Served(s) && Enabled(s, e)
    ensures Served(Next(s, e, flag, prio)) <==> Prompt(s, e)
  {
    hide TryRecv, Sent, Received;
    match e {
      case Send(bits) => ServedIff(s, bits);
      case Recv(t, want, opt, mayWait) => ReceivedKeeps(s, t, want, opt, mayWait, flag, prio);
      case Timeout(t) => WithoutMembers(s.wait, t);
      case Reset =>
    }
  }

  ghost predicate AllServed(s: State, es: seq<Event>, flag: Flag, prio: Tid -> nat)
    requires Legal(s, es, flag, prio)
    decreases |es|
  {
    Served(s) && (es != [] ==> AllServed(Next(s, es[0], flag, prio), es[1..], flag, prio))
  }

  ghost predicate AllPrompt(s: State, es: seq<Event>, flag: Flag, prio: Tid -> nat)
    requires Legal(s, es, flag, prio)
    decreases |es|
  {
    es != [] ==> Prompt(s, es[0]) && AllPrompt(Next(s, es[0], flag, prio), es[1..], flag, prio)
  }

  /** Over any run, whatever flags the receives name: in no state on the way does a thread wait although its
      condition holds, if and only if no send has a satisfied waiter behind one with neither flag. */
  lemma {:induction false} RunKeepsIff(s: State, es: seq<Event>, flag: Flag, prio: Tid -> nat)
    requires Served(s) && Legal(s, es, flag, prio)
    ensures AllServed(s, es, flag, prio) <==> AllPrompt(s, es, flag, prio)
    decreases |es|
  {
    hide Served, Prompt, Next, Enabled;
    if es != [] {
      StepKeepsIff(s, es[0], flag, prio);
      if Served(Next(s, es[0], flag, prio)) { RunKeepsIff(Next(s, es[0], flag, prio), es[1..], flag, prio); }
    }
  }

  /** While every receive that waits names a condition, every send is of that kind. */
  lemma NamedKeeps(s: State, e: Event, flag: Flag, prio: Tid -> nat)
    requires Inv(s) && Enabled(s, e) && Named(e)
    ensures Prompt(s, e) && Inv(Next(s, e, flag, prio))
  {
    hide TryRecv, Unserved, Received, Serve;
    assert Prompt(s, e) by {
      var k := Front(s.wait, s.info);
      if k < |s.wait| { assert s.wait[k] in s.wait; }
    }
    StepKeepsIff(s, e, flag, prio);
    match e {
      case Send(bits) => ServeSubset(Either(s.ev, bits), s.wait, s.want, s.info);
      case Recv(t, want, opt, mayWait) => ReceivedKeeps(s, t, want, opt, mayWait, flag, prio);
      case Timeout(t) => WithoutMembers(s.wait, t);
      case Reset =>
    }
  }

  /** So then no reachable state has a suspended thread whose condition holds. */
  lemma {:induction false} RunKeeps(s: State, es: seq<Event>, flag: Flag, prio: Tid -> nat)
    requires Inv(s) && Legal(s, es, flag, prio) && forall i :: 0 <= i < |es| ==> Named(es[i])
    ensures Inv(Run(s, es, flag, prio)) && AllServed(s, es, flag, prio)
    decreases |es|
  {
    hide Served, Named, Enabled, Next, AllValid;
    if es != [] {
      NamedKeeps(s, es[0], flag, prio);
      assert forall i :: 0 <= i < |es[1..]| ==> es[1..][i] == es[i + 1];
      RunKeeps(Next(s, es[0], flag, prio), es[1..], flag, prio);
    }
  }
}
