/** Task states and the ready list (thread/thread.c). A PANIC or a failed ASSERT is the result `Panic`. */
module Scheduler {

  type Tid = int

  datatype Status = RUNNING | READY | BLOCKED | WAITING | HANGING

  predicate Parked(s: Status) { s == BLOCKED || s == WAITING || s == HANGING }

  datatype Result<T> = Ok(v: T) | Panic

  /** Live threads with their status, the ready list, the running thread and the idle thread. */
  datatype Sched = Sched(status: map<Tid, Status>, ready: seq<Tid>, cur: Tid, idle: Tid)

  /** Put a parked thread at the head of the ready list. */
  function Unblock(s: Sched, t: Tid): Result<Sched> {
    if t !in s.status || !Parked(s.status[t]) || t in s.ready then Panic
    else Ok(s.(status := s.status[t := READY], ready := [t] + s.ready))
  }

  /** A thread still RUNNING goes to the tail; with nobody ready idle is woken; the head runs.
      `list_pop` on an empty list would hand out the tail sentinel: that is a panic here. */
  function Schedule(s: Sched): Result<Sched> {
    var s1 :=
      if s.cur in s.status && s.status[s.cur] == RUNNING then
        if s.cur in s.ready then Panic
        else Ok(s.(status := s.status[s.cur := READY], ready := s.ready + [s.cur]))
      else Ok(s);
    if s1.Panic? then Panic
    else
      var s2 := if s1.v.ready == [] then Unblock(s1.v, s1.v.idle) else s1;
      if s2.Panic? || s2.v.ready == [] then Panic
      else
        var next := s2.v.ready[0];
        Ok(s2.v.(status := s2.v.status[next := RUNNING], ready := s2.v.ready[1..], cur := next))
  }

  function Block(s: Sched, stat: Status): Result<Sched> {
    if !Parked(stat) then Panic else Schedule(s.(status := s.status[s.cur := stat]))
  }

  function Yield(s: Sched): Result<Sched> {
    if s.cur in s.ready then Panic
    else Schedule(s.(status := s.status[s.cur := READY], ready := s.ready + [s.cur]))
  }

  function Create(s: Sched, t: Tid): Result<Sched> {
    if t in s.ready || t in s.status then Panic
    else Ok(s.(status := s.status[t := READY], ready := s.ready + [t]))
  }

  function Without(q: seq<Tid>, t: Tid): (r: seq<Tid>)
    ensures t !in q ==> r == q
    ensures forall x :: x in r <==> x in q && x != t
  {
    if q == [] then [] else if q[0] == t then Without(q[1..], t) else [q[0]] + Without(q[1..], t)
  }

  /** `thread_exit`: off the ready list and out of the list of all threads; the caller may be the thread itself. */
  function Exit(s: Sched, t: Tid): Result<Sched> {
    if t !in s.status then Panic
    else
      var gone := s.(status := s.status - {t}, ready := Without(s.ready, t));
      if t == s.cur then Schedule(gone) else Ok(gone)
  }

  // ---------------------------------------------------------------- invariant

  predicate Distinct(q: seq<Tid>) { forall i, j :: 0 <= i < j < |q| ==> q[i] != q[j] }

  /** A thread is on the ready list, once, iff it is READY. */
  ghost predicate ReadyOk(s: Sched) {
    && Distinct(s.ready)
    && (forall t :: t in s.ready <==> t in s.status && s.status[t] == READY)
  }

  ghost predicate IdleOk(s: Sched) {
    s.idle in s.status && s.status[s.idle] != WAITING && s.status[s.idle] != HANGING
  }

  /** Between steps exactly one thread is RUNNING, and it is `cur`. */
  ghost predicate Inv(s: Sched) {
    && ReadyOk(s) && IdleOk(s)
    && (forall t | t in s.status :: s.status[t] == RUNNING <==> t == s.cur)
    && s.cur in s.status
  }

  /** What `schedule` may count on: nobody but the caller is RUNNING. */
  ghost predicate Pre(s: Sched) {
    && ReadyOk(s) && IdleOk(s)
    && (forall t | t in s.status && s.status[t] == RUNNING :: t == s.cur)
  }

  /** Apart from idle being woken, a scheduling decision parks and unparks nobody. */
  ghost predicate SameParked(a: Sched, b: Sched) {
    && a.status.Keys == b.status.Keys && a.idle == b.idle
    && (forall t | t in a.status && t != a.idle ::
       Parked(a.status[t]) || Parked(b.status[t]) ==> b.status[t] == a.status[t])
  }

  lemma Appended(q: seq<Tid>, t: Tid)
    requires Distinct(q) && t !in q
    ensures Distinct(q + [t]) && Distinct([t] + q)
    ensures forall x :: (x in q + [t] <==> x in q || x == t) && (x in [t] + q <==> x in q || x == t)
  {
  }

  lemma Popped(q: seq<Tid>)
    requires Distinct(q) && q != []
    ensures Distinct(q[1..])
    ensures forall x :: x in q[1..] <==> x in q && x != q[0]
  {
    forall x ensures x in q[1..] <==> x in q && x != q[0] {
      if x in q && x != q[0] {
        var i :| 0 <= i < |q| && q[i] == x;
        assert q[1..][i - 1] == x;
      }
    }
  }

  lemma UnblockKeeps(s: Sched, t: Tid)
    requires Pre(s) && t in s.status && Parked(s.status[t])
    ensures Unblock(s, t).Ok? && Pre(Unblock(s, t).v)
  {
    Appended(s.ready, t);
  }

  lemma WakeKeeps(s: Sched, t: Tid)
    requires Inv(s) && t in s.status && Parked(s.status[t])
    ensures Unblock(s, t).Ok? && Inv(Unblock(s, t).v)
  {
    UnblockKeeps(s, t);
  }

  /** `schedule` never pops an empty list: with nobody ready, idle is parked and can be woken. */
  lemma ScheduleKeeps(s: Sched)
    requires Pre(s)
    ensures Schedule(s).Ok? && Inv(Schedule(s).v) && SameParked(s, Schedule(s).v)
  {
    var s1 := s;
    if s.cur in s.status && s.status[s.cur] == RUNNING {
      Appended(s.ready, s.cur);
      s1 := s.(status := s.status[s.cur := READY], ready := s.ready + [s.cur]);
    }
    assert Pre(s1);
    assert forall t | t in s1.status :: s1.status[t] != RUNNING;
    var s2 := s1;
    if s1.ready == [] {
      assert s1.status[s1.idle] == BLOCKED;
      UnblockKeeps(s1, s1.idle);
      s2 := Unblock(s1, s1.idle).v;
    }
    assert ReadyOk(s2) && forall t | t in s2.status :: s2.status[t] != RUNNING;
    Popped(s2.ready);
  }

  lemma BlockKeeps(s: Sched, stat: Status)
    requires Inv(s) && Parked(stat) && (s.cur == s.idle ==> stat == BLOCKED)
    ensures Block(s, stat).Ok? && Inv(Block(s, stat).v)
    ensures SameParked(s.(status := s.status[s.cur := stat]), Block(s, stat).v)
  {
    ScheduleKeeps(s.(status := s.status[s.cur := stat]));
  }

  lemma YieldKeeps(s: Sched)
    requires Inv(s)
    ensures Yield(s).Ok? && Inv(Yield(s).v) && SameParked(s, Yield(s).v)
  {
    Appended(s.ready, s.cur);
    var s1 := s.(status := s.status[s.cur := READY], ready := s.ready + [s.cur]);
    assert Pre(s1);
    ScheduleKeeps(s1);
  }

  lemma CreateKeeps(s: Sched, t: Tid)
    requires Inv(s) && t !in s.status
    ensures Create(s, t).Ok? && Inv(Create(s, t).v)
  {
    Appended(s.ready, t);
  }

  lemma {:induction false} WithoutDistinct(q: seq<Tid>, t: Tid)
    requires Distinct(q)
    ensures Distinct(Without(q, t))
    decreases |q|
  {
    if q != [] {
      assert forall i, j :: 0 <= i < j < |q[1..]| ==> q[1..][i] == q[i + 1] && q[1..][j] == q[j + 1];
      WithoutDistinct(q[1..], t);
      if q[0] != t {
        var r := Without(q[1..], t);
        assert q[0] !in r;
        Appended(r, q[0]);
      }
    }
  }

  lemma ExitKeeps(s: Sched, t: Tid)
    requires Inv(s) && t in s.status && t != s.idle
    ensures Exit(s, t).Ok? && Inv(Exit(s, t).v)
    ensures SameParked(s.(status := s.status - {t}), Exit(s, t).v)
  {
    WithoutDistinct(s.ready, t);
    var gone := s.(status := s.status - {t}, ready := Without(s.ready, t));
    assert Pre(gone);
    if t == s.cur {
      ScheduleKeeps(gone);
    }
  }

  // ---------------------------------------------------------------- who runs next

  /** The first of the list runs, the others move up, and `back` is the new end of the list. */
  function Turned(s: Sched, stat: Status, back: seq<Tid>): Sched
    requires s.ready != []
  {
    Sched(s.status[s.cur := stat][s.ready[0] := RUNNING], s.ready[1..] + back, s.ready[0], s.idle)
  }

  /** A tick: the first ready thread runs and the old one goes to the end; with nobody ready it goes on. */
  lemma TickTurns(s: Sched)
    requires Inv(s)
    ensures Schedule(s) == Ok(if s.ready == [] then s else Turned(s, READY, [s.cur]))
  {
    assert s.cur !in s.ready;
    var q := s.ready + [s.cur];
    if s.ready == [] {
      assert q == [s.cur] && q[1..] == [];
      assert s.status[s.cur := READY][s.cur := RUNNING] == s.status;
    } else {
      assert q[0] == s.ready[0] && q[1..] == s.ready[1..] + [s.cur];
    }
  }

  /** `n` ticks and nothing else. */
  function Ticks(s: Sched, n: nat): Result<Sched> {
    if n == 0 then Ok(s)
    else
      var m := Ticks(s, n - 1);
      if m.Ok? then Schedule(m.v) else Panic
  }

  /** Round robin: in as many ticks as there are threads that can run, each of them runs once, in the order of the list,
      and then everything is as before. */
  lemma RoundRobin(s: Sched, n: nat)
    requires Inv(s) && n <= |s.ready| + 1
    ensures Ticks(s, n).Ok?
    ensures var ring, r := [s.cur] + s.ready, Ticks(s, n).v;
      if n <= |s.ready| then r.cur == ring[n] && r.ready == ring[n + 1..] + ring[..n] else r == s
  {
    hide Schedule, Inv;
    TickOrder(s, n);
    var ring, r := [s.cur] + s.ready, Ticks(s, n).v;
    if n <= |s.ready| {
      assert r.cur == ([r.cur] + r.ready)[0] && r.ready == ([r.cur] + r.ready)[1..];
      assert (ring[n..] + ring[..n])[1..] == ring[n + 1..] + ring[..n];
    } else {
      assert ring[0..] + ring[..0] == ring;
      assert r.cur == ([r.cur] + r.ready)[0] && r.ready == ([r.cur] + r.ready)[1..];
      assert s.cur == ring[0] && s.ready == ring[1..];
      FullCircle(s, r);
    }
  }

  /** The ring of threads that can run has turned by `n` places, and nothing else has happened. */
  lemma {:induction false} TickOrder(s: Sched, n: nat)
    requires Inv(s) && n <= |s.ready| + 1
    ensures Ticks(s, n).Ok? && Inv(Ticks(s, n).v) && SameParked(s, Ticks(s, n).v)
    ensures var ring, r, k := [s.cur] + s.ready, Ticks(s, n).v, if n <= |s.ready| then n else 0;
      [r.cur] + r.ready == ring[k..] + ring[..k]
    decreases n
  {
    hide Schedule, Inv, SameParked;
    var ring := [s.cur] + s.ready;
    if n == 0 {
      assert ring[0..] + ring[..0] == ring;
      SameItself(s);
    } else {
      TickOrder(s, n - 1);
      var m := Ticks(s, n - 1).v;
      TickRing(m);
      var r := Schedule(m).v;
      SameTwice(s, m, r);
      assert ring[n - 1..] + ring[..n - 1] == [ring[n - 1]] + (ring[n..] + ring[..n - 1]);
      assert m.cur == ([m.cur] + m.ready)[0] && m.ready == ([m.cur] + m.ready)[1..];
      assert m.cur == ring[n - 1] && m.ready == ring[n..] + ring[..n - 1];
      assert m.ready + [m.cur] == ring[n..] + ring[..n];
      if n == |ring| { assert ring[n..] + ring[..n] == ring[0..] + ring[..0]; }
    }
  }

  lemma TickRing(s: Sched)
    requires Inv(s)
    ensures Schedule(s).Ok? && Inv(Schedule(s).v) && SameParked(s, Schedule(s).v)
    ensures [Schedule(s).v.cur] + Schedule(s).v.ready == s.ready + [s.cur]
  {
    hide Schedule;
    ScheduleKeeps(s);
    TickTurns(s);
  }

  lemma SameItself(s: Sched)
    ensures SameParked(s, s)
  {
  }

  lemma SameTwice(a: Sched, b: Sched, c: Sched)
    requires SameParked(a, b) && SameParked(b, c)
    ensures SameParked(a, c)
  {
  }

  /** With the same threads able to run in the same order, the states are the same. */
  lemma FullCircle(s: Sched, r: Sched)
    requires Inv(s) && Inv(r) && SameParked(s, r) && r.cur == s.cur && r.ready == s.ready
    ensures r == s
  {
    forall t | t in s.status ensures r.status[t] == s.status[t] {
      assert t in s.ready <==> t in r.ready;
    }
    assert r.status == s.status;
  }

  /** Blocking: the first ready thread runs, or idle. */
  lemma BlockTurns(s: Sched, stat: Status)
    requires Inv(s) && Parked(stat) && (s.cur == s.idle ==> stat == BLOCKED)
    ensures Block(s, stat) ==
      Ok(if s.ready != [] then Turned(s, stat, [])
         else Sched(s.status[s.cur := stat][s.idle := RUNNING], [], s.idle, s.idle))
  {
    if s.ready == [] {
      var m := s.status[s.cur := stat];
      assert s.idle !in s.ready && m[s.idle] == BLOCKED;
      assert m[s.idle := READY][s.idle := RUNNING] == m[s.idle := RUNNING];
      assert ([s.idle] + s.ready)[1..] == [];
    } else {
      assert s.ready[1..] + [] == s.ready[1..];
    }
  }

  /** `thread_yield` is a tick. */
  lemma YieldIsTick(s: Sched)
    requires Inv(s)
    ensures Yield(s) == Schedule(s)
  {
    assert s.cur !in s.ready;
    var q := s.ready + [s.cur];
    assert q[0] != s.cur || |q| == 1;
  }

  /** A woken thread is the next to run; whoever was first comes after it. */
  lemma WakesFirst(s: Sched, t: Tid)
    requires Inv(s) && t in s.status && Parked(s.status[t])
    ensures Unblock(s, t) == Ok(s.(status := s.status[t := READY], ready := [t] + s.ready))
    ensures var n := Schedule(Unblock(s, t).v); n.Ok? && n.v.cur == t && n.v.ready == s.ready + [s.cur]
  {
    WakeKeeps(s, t);
    hide Schedule;
    TickTurns(Unblock(s, t).v);
  }

  /** A new thread is the last to run. */
  lemma CreatedLast(s: Sched, t: Tid)
    requires Inv(s) && t !in s.status
    ensures Create(s, t) == Ok(s.(status := s.status[t := READY], ready := s.ready + [t]))
    ensures Ticks(Create(s, t).v, |s.ready| + 1).Ok? && Ticks(Create(s, t).v, |s.ready| + 1).v.cur == t
  {
    CreateKeeps(s, t);
    var n := Create(s, t).v;
    hide Ticks, Schedule;
    RoundRobin(n, |s.ready| + 1);
  }

  /** Taking a thread out leaves the others in their order. */
  lemma {:induction false} WithoutOne(a: seq<Tid>, t: Tid, b: seq<Tid>)
    requires t !in a && t !in b
    ensures Without(a + [t] + b, t) == a + b
    decreases |a|
  {
    if a == [] {
      assert ([] + [t] + b)[1..] == b;
    } else {
      assert (a + [t] + b)[1..] == a[1..] + [t] + b;
      WithoutOne(a[1..], t, b);
    }
  }

  /** A thread that ends is gone from table and list; if it was running, the first ready thread runs, or idle. */
  lemma ExitTurns(s: Sched, t: Tid)
    requires Inv(s) && t in s.status && t != s.idle
    ensures Exit(s, t) ==
      Ok(if t != s.cur then s.(status := s.status - {t}, ready := Without(s.ready, t))
         else if s.ready != [] then Sched((s.status - {t})[s.ready[0] := RUNNING], s.ready[1..], s.ready[0], s.idle)
         else Sched((s.status - {t})[s.idle := RUNNING], [], s.idle, s.idle))
  {
    if t == s.cur {
      assert Without(s.ready, t) == s.ready;
      if s.ready == [] {
        var m := s.status - {t};
        assert m[s.idle] == BLOCKED;
        assert m[s.idle := READY][s.idle := RUNNING] == m[s.idle := RUNNING];
        assert ([s.idle] + s.ready)[1..] == [];
      }
    }
  }
}
