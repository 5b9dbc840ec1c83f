/** The timer skip list of rt-thread/src/timer.c in place.

    rows[0] is the sparse top row and the last row holds every running timer.  The tick and the
    deadlines are 32-bit numbers; all proofs are against the true times of TimerModel. */
module TimerList {
  import opened WaitList
  import opened TimerModel
  import opened TimerRuns
  import TimerTicks

  /** The 32-bit shadow of a timer. */
  function Wrapped(tm: Timer): Timer { tm.(due := tm.due % 0x1_0000_0000) }

  ghost predicate SameTimers(a: map<Tid, Timer>, b: map<Tid, Timer>) {
    forall u: Tid {:trigger TimerIn(a, u)} {:trigger TimerIn(b, u)} :: TimerIn(a, u) == Wrapped(TimerIn(b, u))
  }

  /** The comparison of rt_timer_start: unsigned difference below RT_TICK_MAX/2 and not zero. */
  predicate Later(a: nat, b: nat) { 0 < (a - b) % 0x1_0000_0000 < HALF }

  /** Between times less than 2^32 apart it agrees with true order if and only if the one is less than
      RT_TICK_MAX/2 ahead, or at most RT_TICK_MAX/2 + 2 behind. */
  lemma LaterIff(x: nat, y: nat)
    requires -0x1_0000_0000 < x - y < 0x1_0000_0000
    ensures (Later(x % 0x1_0000_0000, y % 0x1_0000_0000) <==> x > y) <==> -HALF - 2 <= x - y < HALF
  {
    WrapDifference(x, y);
    WrapSmall(x - y);
  }

  /** Nor does it mistake different times for equal ones. */
  lemma SameTick(x: nat, y: nat)
    requires -0x1_0000_0000 < x - y < 0x1_0000_0000
    ensures (x % 0x1_0000_0000 - y % 0x1_0000_0000) % 0x1_0000_0000 == 0 <==> x == y
  {
    WrapDifference(x, y);
    WrapSmall(x - y);
  }

  lemma WrapDifference(x: nat, y: nat)
    ensures (x % 0x1_0000_0000 - y % 0x1_0000_0000) % 0x1_0000_0000 == (x - y) % 0x1_0000_0000
  {
  }

  lemma WrapSmall(d: int)
    requires -0x1_0000_0000 < d < 0x1_0000_0000
    ensures d % 0x1_0000_0000 == if d >= 0 then d else d + 0x1_0000_0000
  {
  }

  // ---------- Rows ----------

  /** row is q with some timers left out. */
  ghost predicate Thins(row: seq<Tid>, q: seq<Tid>) { row == Keep(q, Members(row)) }

  ghost predicate Layers(rows: seq<seq<Tid>>, q: seq<Tid>) {
    && rows != [] && rows[|rows| - 1] == q
    && (forall i :: 0 <= i < |rows| ==> Thins(rows[i], q))
    && (forall i, j, u: Tid :: 0 <= i <= j < |rows| && u in rows[i] ==> u in rows[j])
  }

  lemma {:induction false} KeepMembers(q: seq<Tid>, a: set<Tid>)
    ensures forall u :: u in Keep(q, a) <==> u in q && u in a
    ensures Distinct(q) ==> Distinct(Keep(q, a))
  {
    if q != [] {
      KeepMembers(q[1..], a);
      assert forall u :: u in q <==> u == q[0] || u in q[1..];
    }
  }

  lemma {:induction false} KeepSorted(q: seq<Tid>, a: set<Tid>, prio: Tid -> nat)
    requires Sorted(q, prio)
    ensures Sorted(Keep(q, a), prio)
  {
    if q != [] {
      KeepSorted(q[1..], a, prio);
      KeepMembers(q[1..], a);
      forall j | 0 <= j < |Keep(q[1..], a)| ensures prio(q[0]) <= prio(Keep(q[1..], a)[j]) {
        assert Keep(q[1..], a)[j] in q[1..];
      }
    }
  }

  lemma {:induction false} KeepOnly(q: seq<Tid>, a: set<Tid>, b: set<Tid>)
    requires forall u :: u in q ==> (u in a <==> u in b)
    ensures Keep(q, a) == Keep(q, b)
  {
    if q != [] { KeepOnly(q[1..], a, b); }
  }

  lemma {:induction false} WithoutKeep(q: seq<Tid>, a: set<Tid>, u: Tid)
    requires Distinct(q)
    ensures Keep(Without(q, u), a) == Without(Keep(q, a), u)
  {
    if q != [] {
      KeepMembers(q[1..], a);
      if q[0] == u {
        assert u !in q[1..];
        AbsentWithout(Keep(q[1..], a), u);
      } else {
        WithoutKeep(q[1..], a, u);
      }
    }
  }

  lemma ThinsWithout(row: seq<Tid>, q: seq<Tid>, u: Tid)
    requires Thins(row, q) && Distinct(q)
    ensures Thins(Without(row, u), Without(q, u)) && forall v :: v in Without(row, u) <==> v in row && v != u
  {
    KeepMembers(q, Members(row));
    WithoutKeep(q, Members(row), u);
    WithoutMembers(row, u);
    WithoutMembers(q, u);
    KeepOnly(Without(q, u), Members(row), Members(Without(row, u)));
  }

  /** Inserting commutes with leaving others out. */
  lemma {:induction false} InsertKeep(q: seq<Tid>, a: set<Tid>, u: Tid, prio: Tid -> nat)
    requires Sorted(q, prio) && u !in q && u in a
    ensures Keep(Insert(q, u, Prio, prio), a) == Insert(Keep(q, a), u, Prio, prio)
  {
    hide Insert, Place;
    if q == [] {
      InsertFirst(q, u, prio);
    } else if prio(u) < prio(q[0]) {
      KeepSorted(q, a, prio);
      KeepMembers(q, a);
      var kept := Keep(q, a);
      assert kept != [] ==> kept[0] in q;
      InsertFirst(q, u, prio);
      InsertFirst(kept, u, prio);
    } else {
      assert Sorted(q[1..], prio);
      hide Sorted;
      InsertKeep(q[1..], a, u, prio);
      InsertSecond(q, u, prio);
      KeepCons(q[0], Insert(q[1..], u, Prio, prio), a);
      if q[0] in a {
        var kept := Keep(q, a);
        assert kept[1..] == Keep(q[1..], a);
        InsertSecond(kept, u, prio);
      }
    }
  }

  lemma KeepCons(x: Tid, q: seq<Tid>, a: set<Tid>)
    ensures Keep([x] + q, a) == if x in a then [x] + Keep(q, a) else Keep(q, a)
  {
    assert ([x] + q)[1..] == q;
  }

  lemma InsertFirst(q: seq<Tid>, u: Tid, prio: Tid -> nat)
    requires q == [] || prio(u) < prio(q[0])
    ensures Insert(q, u, Prio, prio) == [u] + q
  {
  }

  lemma InsertSecond(q: seq<Tid>, u: Tid, prio: Tid -> nat)
    requires q != [] && prio(u) >= prio(q[0])
    ensures Insert(q, u, Prio, prio) == [q[0]] + Insert(q[1..], u, Prio, prio)
  {
  }

  lemma ThinsInserted(row: seq<Tid>, q: seq<Tid>, u: Tid, prio: Tid -> nat)
    requires Thins(row, q) && Sorted(q, prio) && Distinct(q) && u !in q
    ensures Thins(Insert(row, u, Prio, prio), Insert(q, u, Prio, prio))
    ensures Thins(row, Insert(q, u, Prio, prio))
    ensures forall v :: v in Insert(row, u, Prio, prio) <==> v in row || v == u
  {
    var a := Members(row);
    KeepMembers(q, a);
    InsertMembers(row, u, Prio, prio);
    KeepOnly(q, a, a + {u});
    InsertKeep(q, a + {u}, u, prio);
    assert Members(Insert(row, u, Prio, prio)) == a + {u};
    KeepInsert(q, u, Prio, prio, a);
  }

  // ---------- Where the walk stops ----------

  function PositionOf(row: seq<Tid>, t: Tid): (k: nat)
    ensures t in row ==> k < |row| && row[k] == t
  {
    if row == [] || row[0] == t then 0 else 1 + PositionOf(row[1..], t)
  }

  /** How many rows above the last one the insertion counter puts a timer in. */
  function Height(nr: nat, base: nat, cap: nat): nat
    requires base >= 2
    decreases cap
  {
    if cap == 0 || nr % base != 0 then 0 else 1 + Height(nr / base, base, cap - 1)
  }

  lemma LayersWithout(rows: seq<seq<Tid>>, rows': seq<seq<Tid>>, q: seq<Tid>, u: Tid)
    requires Layers(rows, q) && Distinct(q) && |rows'| == |rows|
    requires forall i :: 0 <= i < |rows| ==> rows'[i] == Without(rows[i], u)
    ensures Layers(rows', Without(q, u))
  {
    hide Thins, Without;
    forall i | 0 <= i < |rows| ensures Thins(rows'[i], Without(q, u)) && forall v :: v in rows'[i] <==> v in rows[i] && v != u {
      ThinsWithout(rows[i], q, u);
    }
  }

  lemma LayersInserted(rows: seq<seq<Tid>>, rows': seq<seq<Tid>>, q: seq<Tid>, u: Tid, prio: Tid -> nat, h: nat)
    requires Layers(rows, q) && Distinct(q) && Sorted(q, prio) && u !in q && |rows'| == |rows|
    requires forall i :: 0 <= i < |rows| ==> rows'[i] == if |rows| - 1 - i <= h then Insert(rows[i], u, Prio, prio) else rows[i]
    ensures Layers(rows', Insert(q, u, Prio, prio))
  {
    hide Thins, Insert;
    forall i | 0 <= i < |rows|
      ensures Thins(rows'[i], Insert(q, u, Prio, prio))
      ensures forall v :: v in rows'[i] <==> v in rows[i] || (v == u && |rows| - 1 - i <= h)
    {
      ThinsInserted(rows[i], q, u, prio);
    }
  }

  /** Every deadline in q is comparable with u's. */
  ghost predicate Near(q: seq<Tid>, u: Tid, due: Tid -> nat) {
    forall t :: t in q ==> -HALF - 2 <= due(t) - due(u) < HALF
  }

  ghost predicate Shadows(timers: map<Tid, Timer>, due: Tid -> nat) {
    forall t: Tid {:trigger TimerIn(timers, t)} :: TimerIn(timers, t).due == due(t) % 0x1_0000_0000
  }

  lemma RowSorted(row: seq<Tid>, q: seq<Tid>, prio: Tid -> nat)
    requires Thins(row, q) && Sorted(q, prio)
    ensures Sorted(row, prio) && forall t :: t in row ==> t in q
  {
    KeepSorted(q, Members(row), prio);
    KeepMembers(q, Members(row));
  }

  /** A timer no later than u stands before u's place. */
  lemma BeforePlace(row: seq<Tid>, u: Tid, prio: Tid -> nat, k: nat)
    requires Sorted(row, prio) && k < |row| && prio(row[k]) <= prio(u)
    ensures k < Place(row, u, Prio, prio)
  {
    PlaceSplits(row, u, prio);
  }

  lemma HeightStep(nr: nat, base: nat, cap: nat)
    requires base >= 2
    ensures nr / base >= 0
    ensures Height(nr, base, cap) == if cap == 0 || nr % base != 0 then 0 else 1 + Height(nr / base, base, cap - 1)
  {
  }

  class Timers {
    const base: nat            // RT_TIMER_SKIP_LIST_MASK + 1
    const rows: array<seq<Tid>>
    ghost const lag: nat
    var temp: seq<Tid>
    var timers: map<Tid, Timer>
    var tick: nat
    var randomNr: nat
    ghost var s: St

    ghost predicate Valid()
      reads this, rows
    {
      && base >= 2 && randomNr < 0x1_0000_0000
      && Inv(s, lag)
      && Layers(rows[..], s.q)
      && temp == s.temp && tick == s.now % 0x1_0000_0000
      && SameTimers(timers, s.timers)
    }

    /** rt_system_timer_init with the timers as rt_timer_init left them. */
    constructor (levels: nat, base0: nat, timers0: map<Tid, Timer>, tick0: nat, random0: nat, ghost lag0: nat)
      requires levels >= 1 && base0 >= 2 && tick0 < 0x1_0000_0000 && random0 < 0x1_0000_0000
      requires InitsOk(timers0, lag0) && forall u: Tid {:trigger TimerIn(timers0, u)} :: TimerIn(timers0, u).due == 0
      ensures Valid() && fresh(rows) && rows.Length == levels && s == St([], [], timers0, tick0)
    {
      base, lag, temp, timers, tick, randomNr := base0, lag0, [], timers0, tick0, random0;
      rows := new seq<Tid>[levels](_ => []);
      s := St([], [], timers0, tick0);
    }

    /** _rt_timer_remove: unlink u from every row, and from the temporary list. */
    method Erase(u: Tid, ghost q: seq<Tid>)
      requires Layers(rows[..], q) && Distinct(q)
      modifies this`temp, rows
      ensures Layers(rows[..], Without(q, u)) && temp == Without(old(temp), u)
      ensures forall i :: 0 <= i < rows.Length ==> rows[i] == Without(old(rows[i]), u)
    {
      hide Thins, Without;
      var i := 0;
      while i < rows.Length
        invariant 0 <= i <= rows.Length && temp == old(temp)
        invariant forall j :: 0 <= j < i ==> rows[j] == Without(old(rows[j]), u)
        invariant forall j :: i <= j < rows.Length ==> rows[j] == old(rows[j])
      {
        rows[i] := Without(rows[i], u);
        i := i + 1;
      }
      temp := Without(temp, u);
      LayersWithout(old(rows[..]), rows[..], q, u);
    }

    /** The inner loop of rt_timer_start: step past timers that are not later. */
    method Walk(row: seq<Tid>, u: Tid, start: nat, ghost due: Tid -> nat) returns (k: nat)
      requires Shadows(timers, due) && Near(row, u, due) && start <= Place(row, u, Prio, due)
      ensures k == Place(row, u, Prio, due)
    {
      PlaceSplits(row, u, due);
      k := start;
      while k < |row|
        invariant k <= Place(row, u, Prio, due)
      {
        var t := row[k];
        LaterIff(due(t), due(u));
        SameTick(due(t), due(u));
        var a, b := TimerIn(timers, t).due, TimerIn(timers, u).due;
        if (a - b) % 0x1_0000_0000 == 0 {
          k := k + 1;
          continue;
        } else if (a - b) % 0x1_0000_0000 < HALF {
          break;
        }
        k := k + 1;
      }
    }

    /** The outer loop: each row is entered below the timer the row above stopped at. */
    method FindPlaces(u: Tid, ghost q: seq<Tid>, ghost due: Tid -> nat) returns (heads: array<nat>)
      requires Layers(rows[..], q) && Sorted(q, due) && Shadows(timers, due) && Near(q, u, due)
      ensures fresh(heads) && heads.Length == rows.Length
      ensures forall i :: 0 <= i < rows.Length ==> heads[i] == Place(rows[i], u, Prio, due)
    {
      hide Place, Sorted, Thins;
      heads := new nat[rows.Length];
      heads[0] := 0;
      var i := 0;
      while i < rows.Length
        invariant 0 <= i <= rows.Length
        invariant i < rows.Length ==> heads[i] <= Place(rows[i], u, Prio, due)
        invariant forall j :: 0 <= j < i ==> heads[j] == Place(rows[j], u, Prio, due)
      {
        RowSorted(rows[i], q, due);
        heads[i] := Walk(rows[i], u, heads[i], due);
        if i + 1 < rows.Length {
          heads[i + 1] := Below(i, heads[i], u, q, due);
        }
        i := i + 1;
      }
    }

    /** row_head[lvl] + 1: the same timer's node one row down. */
    method Below(i: nat, k: nat, u: Tid, ghost q: seq<Tid>, ghost due: Tid -> nat) returns (m: nat)
      requires Layers(rows[..], q) && Sorted(q, due) && i + 1 < rows.Length && k == Place(rows[i], u, Prio, due)
      ensures m <= Place(rows[i + 1], u, Prio, due)
    {
      if k == 0 { return 0; }
      var t := rows[i][k - 1];
      PlaceSplits(rows[i], u, due);
      RowSorted(rows[i + 1], q, due);
      assert rows[..][i] == rows[i] && rows[..][i + 1] == rows[i + 1] && t in rows[..][i];
      m := PositionOf(rows[i + 1], t) + 1;
      BeforePlace(rows[i + 1], u, due, m - 1);
    }

    /** rt_list_insert_after in one row. */
    method PutIn(i: nat, k: nat, u: Tid, ghost due: Tid -> nat)
      requires i < rows.Length && k == Place(rows[i], u, Prio, due)
      modifies rows
      ensures rows[i] == Insert(old(rows[i]), u, Prio, due)
      ensures forall j :: 0 <= j < rows.Length && j != i ==> rows[j] == old(rows[j])
    {
      rows[i] := rows[i][..k] + [u] + rows[i][k..];
    }

    /** The linking loops of rt_timer_start: the last row always, a higher one while the counter's
        next digit is zero. */
    method Link(u: Tid, heads: array<nat>, ghost q: seq<Tid>, ghost due: Tid -> nat)
      requires Layers(rows[..], q) && Distinct(q) && Sorted(q, due) && u !in q && base >= 2
      requires heads.Length == rows.Length && forall i :: 0 <= i < rows.Length ==> heads[i] == Place(rows[i], u, Prio, due)
      modifies this`randomNr, rows
      ensures Layers(rows[..], Insert(q, u, Prio, due)) && randomNr == (old(randomNr) + 1) % 0x1_0000_0000
      ensures forall i :: 0 <= i < rows.Length ==>
        rows[i] == if rows.Length - 1 - i <= Height(randomNr, base, rows.Length - 1) then Insert(old(rows[i]), u, Prio, due) else old(rows[i])
    {
      assert rows[..] != [];
      hide Thins, Place, Sorted, Distinct, Height, Layers, Insert;
      randomNr := (randomNr + 1) % 0x1_0000_0000;
      var last := rows.Length - 1;
      var tst: nat := randomNr;
      PutIn(last, heads[last], u, due);
      var r := 2;
      while r <= rows.Length
        invariant 2 <= r <= rows.Length + 1
        invariant randomNr == (old(randomNr) + 1) % 0x1_0000_0000
        invariant Height(randomNr, base, last) == r - 2 + Height(tst, base, rows.Length + 1 - r)
        invariant forall i :: 0 <= i < rows.Length ==>
          rows[i] == if last - i <= r - 2 then Insert(old(rows[i]), u, Prio, due) else old(rows[i])
      {
        HeightStep(tst, base, rows.Length + 1 - r);
        if tst % base != 0 { break; }
        var i := rows.Length - r;
        PutIn(i, heads[i], u, due);
        tst := tst / base;
        r := r + 1;
      }
      HeightStep(tst, base, 0);
      LayersInserted(old(rows[..]), rows[..], q, u, due, Height(randomNr, base, last));
    }

    /** rt_timer_start. */
    method StartTimer(u: Tid)
      requires Valid()
      modifies this, rows
      ensures Valid() && s == Started(old(s), u)
      ensures randomNr == (old(randomNr) + 1) % 0x1_0000_0000
      ensures forall i :: 0 <= i < rows.Length ==>
        rows[i] == (var rest := Without(old(rows[i]), u);
          if rows.Length - 1 - i <= Height(randomNr, base, rows.Length - 1) then Insert(rest, u, Prio, DueOf(s.timers)) else rest)
    {
      hide Inv, Layers, Near, Sorted, Distinct, Insert, Without, Shadows, SameTimers;
      ghost var s1 := Started(s, u);
      ghost var due, q := DueOf(s1.timers), Without(s.q, u);
      StartFacts(s, u, lag);
      StartShadows(timers, s.timers, u, s.now);
      Erase(u, s.q);
      var tm := TimerIn(timers, u);
      timers := timers[u := tm.(due := (tick + tm.init) % 0x1_0000_0000, active := false)];
      var heads := FindPlaces(u, q, due);
      Link(u, heads, q, due);
      timers := timers[u := TimerIn(timers, u).(active := true)];
      s := s1;
    }

    /** rt_timer_stop: an error if the timer is not active. */
    method StopTimer(u: Tid) returns (ok: bool)
      requires Valid()
      modifies this`temp, this`timers, this`s, rows
      ensures Valid() && s == Do(old(s), Stop(u)) && ok == TimerIn(old(s.timers), u).active
    {
      assert TimerIn(timers, u) == Wrapped(TimerIn(s.timers, u));
      if !TimerIn(timers, u).active { return false; }
      DetachTimer(u);
      return true;
    }

    /** rt_timer_detach (without the object bookkeeping). */
    method DetachTimer(u: Tid)
      requires Valid()
      modifies this`temp, this`timers, this`s, rows
      ensures Valid() && s == Removed(old(s), u)
    {
      hide Inv, Layers, Without, SameTimers;
      DoKeeps(s, Detach(u), lag);
      QueueDistinct(s, lag);
      SameAfter(timers, s.timers, u, TimerIn(s.timers, u).(active := false));
      Erase(u, s.q);
      SameAt(timers, s.timers, u);
      timers := timers[u := TimerIn(timers, u).(active := false)];
      s := Removed(s, u);
    }

    /** rt_timer_control. */
    method Control(a: Act)
      requires Valid() && (a.SetTime? || a.SetOneshot? || a.SetPeriodic?) && ActOk(a, lag)
      modifies this`timers, this`s
      ensures Valid() && s == Do(old(s), a)
    {
      hide Inv, Layers, SameTimers;
      DoKeeps(s, a, lag);
      SameAt(timers, s.timers, a.u);
      var tm := TimerIn(timers, a.u);
      match a {
        case SetTime(u, n) => tm := tm.(init := n);
        case SetOneshot(u) => tm := tm.(periodic := false);
        case SetPeriodic(u) => tm := tm.(periodic := true);
      }
      SameAfter(timers, s.timers, a.u, TimerIn(Do(s, a).timers, a.u));
      timers := timers[a.u := tm];
      s := Do(s, a);
    }

    method Perform(a: Act)
      requires Valid() && ActOk(a, lag)
      modifies this, rows
      ensures Valid() && s == Do(old(s), a)
    {
      match a {
        case Start(u) => StartTimer(u);
        case Stop(u) => var _ := StopTimer(u);
        case Detach(u) => DetachTimer(u);
        case _ => Control(a);
      }
    }

    /** What happens while a callback runs: its own calls and, for a soft timer, ticks and other threads' calls. */
    method Callback(es: seq<During>, ghost late: nat)
      requires Valid() && ActsOk(es, lag) && Late(s, late) && late + TicksIn(es) <= lag
      modifies this, rows
      ensures Valid() && s == AfterAll(old(s), es)
    {
      hide Inv, Layers, SameTimers, Late, Do;
      var i := 0;
      ghost var now: nat := late;
      while i < |es|
        invariant 0 <= i <= |es| && Valid() && Late(s, now) && now + TicksIn(es[i..]) <= lag
        invariant AfterAll(old(s), es) == AfterAll(s, es[i..])
      {
        assert es[i..][1..] == es[i + 1..];
        AfterKeeps(s, es[i], lag, now);
        match es[i] {
          case Does(a) => Perform(a);
          case Passes => PassTick();
        }
        now := now + if es[i].Passes? then 1 else 0;
        i := i + 1;
      }
    }

    method PassTick()
      requires Valid() && Inv(s.(now := s.now + 1), lag)
      modifies this`tick, this`s
      ensures Valid() && s == old(s).(now := old(s).now + 1)
    {
      hide Inv, Layers, SameTimers;
      tick := (tick + 1) % 0x1_0000_0000;
      s := s.(now := s.now + 1);
    }

    /** One turn: the head timer is due and es happens during its callback. */
    method FireHead(es: seq<During>, ghost late: nat) returns (t: Tid)
      requires Valid() && s.q != [] && s.temp == [] && Late(s, late) && ActsOk(es, lag) && late + TicksIn(es) <= lag
      modifies this, rows
      ensures Valid() && s == Fire(old(s), es) && old(s.q)[0] == t
    {
      hide AfterAll, Inv, Layers, SameTimers, Thins, Without, Late, Begin;
      BeginKeeps(s, lag, late);
      TempIs(Begin(s), es, s.q[0]);
      t := TakeHead();
      Callback(es, late);
      PutBack(t);
    }

    method TakeHead() returns (t: Tid)
      requires Valid() && s.q != [] && s.temp == []
      modifies this`temp, this`timers, this`s, rows
      ensures Valid() && s == Begin(old(s)) && t == old(s.q)[0]
    {
      hide Inv, Layers, SameTimers, Without;
      HeadOf(rows[..], s.q);
      ghost var b := Begin(s);
      InvLate(s, lag);
      BeginKeeps(s, lag, lag);
      QueueDistinct(s, lag);
      t := rows[rows.Length - 1][0];
      SameAt(timers, s.timers, t);
      SameAfter(timers, s.timers, t, TimerIn(b.timers, t));
      Erase(t, s.q);
      var tm := TimerIn(timers, t);
      timers := timers[t := if !tm.periodic then tm.(active := false) else tm];
      temp := [t];
      s := b;
    }

    /** After the callback. */
    method PutBack(t: Tid)
      requires Valid() && (s.temp == [] || s.temp == [t])
      modifies this, rows
      ensures Valid() && s == Finish(old(s), t)
    {
      if temp == [] { return; }
      InvLate(s, lag);
      FinishKeeps(s, t, lag, lag);
      SameAt(timers, s.timers, t);
      if TimerIn(timers, t).periodic && TimerIn(timers, t).active {
        StartTimer(t);
      } else {
        temp := Without(temp, t);
        s := s.(temp := Without(s.temp, t));
      }
    }

    /** rt_timer_check.  Its local current_tick is read before the loop and again after each callback. */
    method CheckTimers(course: Course, ghost late0: nat) returns (ghost shots: seq<Shot>)
      requires Valid() && s.temp == [] && Fit(s, course, late0, lag) && Ends(s, course)
      modifies this, rows
      ensures Valid() && s.temp == [] && (s, shots) == Check(old(s), course)
    {
      hide Inv, Layers, SameTimers, Check, Fire, Fit, Ends;
      shots := [];
      var rest := course;
      ghost var late: nat := late0;
      ghost var all := Check(s, course);
      assert all.1 == [] + all.1;
      var currentTick := tick;
      while true
        invariant Valid() && s.temp == [] && Fit(s, rest, late, lag) && Ends(s, rest) && currentTick == tick
        invariant all == (Check(s, rest).0, shots + Check(s, rest).1)
        decreases |rest|, DueSet(s)
      {
        HeadOf(rows[..], s.q);
        CheckTurn(s, rest, late, lag);
        var row := rows[rows.Length - 1];
        if row == [] { break; }
        HeadDue(s, lag, timers, currentTick);
        if (currentTick - TimerIn(timers, row[0]).due) % 0x1_0000_0000 >= HALF { break; }
        shots := shots + [Shot(s.q[0], TimerIn(s.timers, s.q[0]).due, s.now)];
        var es := First(rest);
        var t := FireHead(es, late);
        currentTick := tick;
        rest, late := Others(rest), late + TicksIn(es);
      }
      assert shots + [] == shots;
    }

    /** rt_soft_timer_check, which reads the tick before each turn. */
    method SoftCheckTimers(course: Course, ghost late0: nat) returns (ghost shots: seq<Shot>)
      requires Valid() && s.temp == [] && Fit(s, course, late0, lag) && Ends(s, course)
      modifies this, rows
      ensures Valid() && s.temp == [] && (s, shots) == Check(old(s), course)
    {
      hide Inv, Layers, SameTimers, Check, Fire, Fit, Ends;
      shots := [];
      var rest := course;
      ghost var late: nat := late0;
      ghost var all := Check(s, course);
      assert all.1 == [] + all.1;
      while true
        invariant Valid() && s.temp == [] && Fit(s, rest, late, lag) && Ends(s, rest)
        invariant all == (Check(s, rest).0, shots + Check(s, rest).1)
        decreases |rest|, DueSet(s)
      {
        HeadOf(rows[..], s.q);
        CheckTurn(s, rest, late, lag);
        var row := rows[rows.Length - 1];
        if row == [] { break; }
        var currentTick := tick;
        HeadDue(s, lag, timers, currentTick);
        if (currentTick - TimerIn(timers, row[0]).due) % 0x1_0000_0000 >= HALF { break; }
        shots := shots + [Shot(s.q[0], TimerIn(s.timers, s.q[0]).due, s.now)];
        var es := First(rest);
        var t := FireHead(es, late);
        rest, late := Others(rest), late + TicksIn(es);
      }
      assert shots + [] == shots;
    }

    /** The timer part of rt_tick_increase. */
    method TickIncrease(course: Course) returns (ghost shots: seq<Shot>)
      requires Valid() && lag == 1 && TimerTicks.Between(s) && TimerTicks.EventOk(s, TimerTicks.Tick(course))
      modifies this, rows
      ensures Valid() && (s, shots) == TimerTicks.Step(old(s), TimerTicks.Tick(course)) && TimerTicks.Between(s)
    {
      TickReady(s, course);
      hide Inv, Layers, SameTimers, Check, Fit, Ends, TimerTicks.Between, TimerTicks.EventOk, TimerTicks.Step;
      PassTick();
      shots := CheckTimers(course, 1);
    }
  }

  lemma TickReady(s: St, course: Course)
    requires TimerTicks.Between(s) && TimerTicks.EventOk(s, TimerTicks.Tick(course))
    ensures var s1 := s.(now := s.now + 1);
      && Inv(s1, 1) && s1.temp == [] && Fit(s1, course, 1, 1) && Ends(s1, course)
      && TimerTicks.Step(s, TimerTicks.Tick(course)) == Check(s1, course) && TimerTicks.Between(Check(s1, course).0)
  {
    TimerTicks.TickFits(s, course);
    TimerTicks.StepKeeps(s, TimerTicks.Tick(course));
  }

  lemma CheckTurn(s: St, course: Course, late: nat, lag: nat)
    requires Fit(s, course, late, lag) && Ends(s, course)
    ensures Inv(s, lag)
    ensures
      if Done(s) then Check(s, course) == (s, [])
      else
        var es, rest := First(course), Others(course); var s1 := Fire(s, es);
        && ActsOk(es, lag) && Late(s, late) && late + TicksIn(es) <= lag
        && Fit(s1, rest, late + TicksIn(es), lag) && Ends(s1, rest) && s1.temp == []
        && (|rest| < |course| || (|rest| == |course| && DueSet(s1) < DueSet(s)))
        && Check(s, course).0 == Check(s1, rest).0
        && forall shots: seq<Shot> {:trigger shots + Check(s, course).1} ::
             shots + Check(s, course).1 == shots + [Shot(s.q[0], TimerIn(s.timers, s.q[0]).due, s.now)] + Check(s1, rest).1
  {
    hide Inv, Fire, DueSet, Late;
    if !Done(s) { TurnFits(s, course, late, lag); }
  }

  lemma HeadOf(rows: seq<seq<Tid>>, q: seq<Tid>)
    requires Layers(rows, q)
    ensures rows != [] && rows[|rows| - 1] == q
  {
  }

  lemma SameAt(a: map<Tid, Timer>, b: map<Tid, Timer>, u: Tid)
    requires SameTimers(a, b)
    ensures TimerIn(a, u) == Wrapped(TimerIn(b, u))
  {
  }

  lemma SameAfter(a: map<Tid, Timer>, b: map<Tid, Timer>, u: Tid, tm: Timer)
    requires SameTimers(a, b)
    ensures SameTimers(a[u := Wrapped(tm)], b[u := tm])
  {
    var a1, b1 := a[u := Wrapped(tm)], b[u := tm];
    assert forall v: Tid {:trigger TimerIn(a1, v)} {:trigger TimerIn(b1, v)} :: v != u ==> TimerIn(a1, v) == TimerIn(a, v) && TimerIn(b1, v) == TimerIn(b, v);
  }

  /** The expiry test of rt_timer_check is true-time expiry. */
  lemma HeadDue(s: St, lag: nat, timers: map<Tid, Timer>, tick: nat)
    requires Inv(s, lag) && s.q != [] && SameTimers(timers, s.timers) && tick == s.now % 0x1_0000_0000
    ensures (tick - TimerIn(timers, s.q[0]).due) % 0x1_0000_0000 < HALF <==> TimerIn(s.timers, s.q[0]).due <= s.now
  {
    var due := TimerIn(s.timers, s.q[0]).due;
    assert s.q[0] in s.q && InitOk(TimerIn(s.timers, s.q[0]).init, lag);
    WrapDifference(s.now, due);
    WrapSmall(s.now - due);
  }

  lemma StartShadows(a: map<Tid, Timer>, b: map<Tid, Timer>, u: Tid, now: nat)
    requires SameTimers(a, b)
    ensures var tm, bm := TimerIn(a, u), TimerIn(b, u);
      var a1 := a[u := tm.(due := (now % 0x1_0000_0000 + tm.init) % 0x1_0000_0000, active := false)];
      var b1 := b[u := bm.(due := now + bm.init, active := true)];
      Shadows(a1, DueOf(b1)) && SameTimers(a1[u := TimerIn(a1, u).(active := true)], b1)
  {
    var tm, bm := TimerIn(a, u), TimerIn(b, u);
    var a1 := a[u := tm.(due := (now % 0x1_0000_0000 + tm.init) % 0x1_0000_0000, active := false)];
    var b1 := b[u := bm.(due := now + bm.init, active := true)];
    assert forall v: Tid {:trigger TimerIn(a1, v)} {:trigger TimerIn(b1, v)} :: v != u ==> TimerIn(a1, v) == TimerIn(a, v) && TimerIn(b1, v) == TimerIn(b, v);
  }

  lemma StartFacts(s: St, u: Tid, lag: nat)
    requires Inv(s, lag)
    ensures var s1 := Started(s, u);
      var due, q := DueOf(s1.timers), Without(s.q, u);
      && Inv(s1, lag) && Distinct(s.q) && Distinct(q) && Sorted(q, due) && u !in q && Near(q, u, due)
  {
    var s1 := Started(s, u);
    StartedKeeps(s, u, lag);
    QueuedWithout(s, u, lag, s1.timers);
  }
}
