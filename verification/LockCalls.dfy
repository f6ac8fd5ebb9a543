/** What whole calls of `lock_acquire` and `lock_release` do: run alone, statement by statement; and over runs with any
    interleaving, where what a thread holds is what it has acquired and not released. */
module LockCalls {
  import opened Common
  import opened Scheduler
  import opened Locks

  /** The next `n` statements of the running thread, uninterrupted. */
  function Execs(k: Kernel, n: nat): Result<Kernel>
    decreases n
  {
    if n == 0 then Ok(k)
    else
      var r := Step(k, Exec);
      if r.Ok? then Execs(r.v, n - 1) else Panic
  }

  /** The call and then `n` statements. */
  function Call(k: Kernel, a: Action, n: nat): Result<Kernel> {
    var r := Step(k, a);
    if r.Ok? then Execs(r.v, n) else Panic
  }

  /** The running thread at a statement, with the lock as given. */
  function At(k: Kernel, l: LockId, at: Point, m: Lock): Kernel {
    k.(pc := k.pc[k.sched.cur := In(l, at)], locks := k.locks[l := m])
  }

  /** The running thread back from the call, with the lock and its own depth as given. */
  function Back(k: Kernel, l: LockId, m: Lock, d: nat): Kernel {
    k.(pc := k.pc[k.sched.cur := Outside], locks := k.locks[l := m], depth := k.depth[(k.sched.cur, l) := d])
  }

  lemma Goes(k: Kernel, l: LockId, at: Point, m: Lock, at2: Point, m2: Lock)
    ensures Goto(SetLock(At(k, l, at, m), l, m2), In(l, at2)) == At(k, l, at2, m2)
    ensures Goto(At(k, l, at, m), In(l, at2)) == At(k, l, at2, m)
  {
    var cur := k.sched.cur;
    assert k.pc[cur := In(l, at)][cur := In(l, at2)] == k.pc[cur := In(l, at2)];
    assert k.locks[l := m][l := m2] == k.locks[l := m2];
  }

  lemma Returns(k: Kernel, l: LockId, at: Point, m: Lock, m2: Lock, d: nat)
    ensures Goto(SetDepth(SetLock(At(k, l, at, m), l, m2), l, d), Outside) == Back(k, l, m2, d)
  {
    var cur := k.sched.cur;
    assert k.pc[cur := In(l, at)][cur := Outside] == k.pc[cur := Outside];
    assert k.locks[l := m][l := m2] == k.locks[l := m2];
  }

  /** A statement is executed where the thread is. */
  lemma ExecIs(k: Kernel, l: LockId, at: Point, m: Lock)
    ensures Step(At(k, l, at, m), Exec) == ExecAt(At(k, l, at, m), l, at)
    ensures At(k, l, at, m).locks[l] == m && At(k, l, at, m).sched == k.sched
    ensures Depth(At(k, l, at, m), k.sched.cur, l) == Depth(k, k.sched.cur, l)
  {
    hide ExecAt;
  }

  /** The statements of `lock_acquire` around `sema_down`. */
  lemma AcqMoves(k: Kernel, l: LockId, m: Lock)
    ensures var cur := k.sched.cur; var d := Depth(k, cur, l);
      && Step(At(k, l, AcqTest, m), Exec) == Ok(At(k, l, if m.holder == Some(cur) then AcqNest else AcqDown, m))
      && (m.value == 1 ==> Step(At(k, l, AcqDown, m), Exec) == Ok(At(k, l, AcqHolder, m.(value := 0))))
      && Step(At(k, l, AcqHolder, m), Exec) == Ok(At(k, l, AcqAssert, m.(holder := Some(cur))))
      && (m.repeat == 0 ==> Step(At(k, l, AcqAssert, m), Exec) == Ok(At(k, l, AcqCount, m)))
      && Step(At(k, l, AcqCount, m), Exec) == Ok(Back(k, l, m.(repeat := 1), d + 1))
      && Step(At(k, l, AcqNest, m), Exec) == Ok(Back(k, l, m.(repeat := m.repeat + 1), d + 1))
  {
    hide At, Back, Step, Depth, Goto, SetLock, SetDepth, Up;
    var cur := k.sched.cur;
    var d := Depth(k, cur, l);
    ExecIs(k, l, AcqTest, m);
    ExecIs(k, l, AcqDown, m);
    ExecIs(k, l, AcqHolder, m);
    ExecIs(k, l, AcqAssert, m);
    ExecIs(k, l, AcqCount, m);
    ExecIs(k, l, AcqNest, m);
    Goes(k, l, AcqTest, m, if m.holder == Some(cur) then AcqNest else AcqDown, m);
    Goes(k, l, AcqDown, m, AcqHolder, m.(value := 0));
    Goes(k, l, AcqHolder, m, AcqAssert, m.(holder := Some(cur)));
    Goes(k, l, AcqAssert, m, AcqCount, m);
    Returns(k, l, AcqCount, m, m.(repeat := 1), d + 1);
    Returns(k, l, AcqNest, m, m.(repeat := m.repeat + 1), d + 1);
  }

  /** The statements of `lock_release` that test and count. */
  lemma RelMoves(k: Kernel, l: LockId, m: Lock)
    ensures var cur := k.sched.cur; var d := Depth(k, cur, l);
      && (m.holder == Some(cur) ==> Step(At(k, l, RelOwner, m), Exec) == Ok(At(k, l, RelTest, m)))
      && Step(At(k, l, RelTest, m), Exec) == Ok(At(k, l, if m.repeat > 1 then RelDec else RelLast, m))
      && (m.repeat > 0 && d > 0 ==>
         Step(At(k, l, RelDec, m), Exec) == Ok(Back(k, l, m.(repeat := m.repeat - 1), d - 1)))
  {
    hide At, Back, Step, Depth, Goto, SetLock, SetDepth, Down, Up;
    var d := Depth(k, k.sched.cur, l);
    ExecIs(k, l, RelOwner, m);
    ExecIs(k, l, RelTest, m);
    ExecIs(k, l, RelDec, m);
    Goes(k, l, RelOwner, m, RelTest, m);
    Goes(k, l, RelTest, m, if m.repeat > 1 then RelDec else RelLast, m);
    if m.repeat > 0 && d > 0 { Returns(k, l, RelDec, m, m.(repeat := m.repeat - 1), d - 1); }
  }

  /** Those between the last count and `sema_up`. */
  lemma LastMoves(k: Kernel, l: LockId, m: Lock)
    ensures m.repeat == 1 ==> Step(At(k, l, RelLast, m), Exec) == Ok(At(k, l, RelHolder, m))
    ensures Step(At(k, l, RelHolder, m), Exec) == Ok(At(k, l, RelCount, m.(holder := None)))
    ensures Step(At(k, l, RelCount, m), Exec) == Ok(At(k, l, RelUp, m.(repeat := 0)))
  {
    hide At, Back, Step, Depth, Goto, SetLock, SetDepth, Down, Up;
    ExecIs(k, l, RelLast, m);
    ExecIs(k, l, RelHolder, m);
    ExecIs(k, l, RelCount, m);
    Goes(k, l, RelLast, m, RelHolder, m);
    Goes(k, l, RelHolder, m, RelCount, m.(holder := None));
    Goes(k, l, RelCount, m, RelUp, m.(repeat := 0));
  }

  // ---------------------------------------------------------------- lock_release

  lemma Entered(k: Kernel, l: LockId, at: Point)
    requires l in k.locks
    ensures Goto(k, In(l, at)) == At(k, l, at, k.locks[l])
  {
    assert k.locks[l := k.locks[l]] == k.locks;
  }

  lemma Next(k: Kernel, n: nat, m: Kernel)
    requires Step(k, Exec) == Ok(m)
    ensures Execs(k, n + 1) == Execs(m, n)
  {
    hide Step;
  }

  lemma Done(k: Kernel)
    ensures Execs(k, 0) == Ok(k)
  {
  }

  /** What the invariant says about a lock that the caller holds. */
  lemma Held(k: Kernel, l: LockId)
    requires KernelInv(k) && k.sched.cur in k.pc && k.pc[k.sched.cur] == Outside && Depth(k, k.sched.cur, l) > 0
    ensures l in k.locks
    ensures var m := k.locks[l]; m.value == 0 && m.holder == Some(k.sched.cur) && m.repeat == Depth(k, k.sched.cur, l)
  {
    hide KernelInv;
    OwnerFields(k, l);
    OwnedIsZero(k, l);
  }

  /** Releasing a lock held more than once: one less, still the owner's, nobody woken. */
  lemma ReleaseNested(k: Kernel, l: LockId)
    requires KernelInv(k) && Enabled(k, Release(l)) && Depth(k, k.sched.cur, l) > 1
    ensures var d := Depth(k, k.sched.cur, l);
      Call(k, Release(l), 3) == Ok(Back(k, l, Lock(0, k.locks[l].waiters, Some(k.sched.cur), d - 1), d - 1))
  {
    hide KernelInv, Step, At, Back, Execs, Depth;
    Held(k, l);
    var m, d := k.locks[l], Depth(k, k.sched.cur, l);
    Starts(k, l);
    RelMoves(k, l, m);
    Next(At(k, l, RelOwner, m), 2, At(k, l, RelTest, m));
    Next(At(k, l, RelTest, m), 1, At(k, l, RelDec, m));
    var n := Back(k, l, m.(repeat := d - 1), d - 1);
    Next(At(k, l, RelDec, m), 0, n);
    Done(n);
  }

  lemma Starts(k: Kernel, l: LockId)
    requires l in k.locks
    ensures Step(k, Release(l)) == Ok(At(k, l, RelOwner, k.locks[l]))
    ensures Step(k, Acquire(l)) == Ok(At(k, l, AcqTest, k.locks[l]))
  {
    hide At;
    Entered(k, l, RelOwner);
    Entered(k, l, AcqTest);
  }

  /** The last release: the lock is free, with no holder and a count of 0; the first waiter is off the list and the next
      to run. The caller goes on. */
  lemma ReleaseLast(k: Kernel, l: LockId)
    requires KernelInv(k) && Enabled(k, Release(l)) && Depth(k, k.sched.cur, l) == 1
    ensures var ws := k.locks[l].waiters;
      Call(k, Release(l), 6) == Ok(
        if ws == [] then Back(k, l, Lock(1, [], None, 0), 0)
        else Back(k, l, Lock(1, ws[1..], None, 0), 0).(sched := Woke(k.sched, ws[0])))
    ensures var ws := k.locks[l].waiters; ws != [] ==> Blocked(k, ws[0], l)
  {
    hide KernelInv, Step, At, Back, Execs, Depth, Unblock, Woke;
    Held(k, l);
    var m := k.locks[l];
    Starts(k, l);
    RelMoves(k, l, m);
    LastMoves(k, l, m);
    Next(At(k, l, RelOwner, m), 5, At(k, l, RelTest, m));
    Next(At(k, l, RelTest, m), 4, At(k, l, RelLast, m));
    Next(At(k, l, RelLast, m), 3, At(k, l, RelHolder, m));
    var m1 := m.(holder := None);
    Next(At(k, l, RelHolder, m), 2, At(k, l, RelCount, m1));
    LastMoves(k, l, m1);
    var m2 := m1.(repeat := 0);
    Next(At(k, l, RelCount, m1), 1, At(k, l, RelUp, m2));
    if m.waiters != [] {
      FirstBlocked(k, l);
      SchedInv(k);
      WakesFirst(k.sched, m.waiters[0]);
      WokeIs(k.sched, m.waiters[0]);
    }
    UpIs(k, l, m2);
    var n := Step(At(k, l, RelUp, m2), Exec).v;
    Next(At(k, l, RelUp, m2), 0, n);
    Done(n);
  }

  function Woke(s: Sched, t: Tid): Sched { s.(status := s.status[t := READY], ready := [t] + s.ready) }

  lemma WokeIs(s: Sched, t: Tid)
    ensures Woke(s, t) == s.(status := s.status[t := READY], ready := [t] + s.ready)
  {
  }

  lemma UpIs(k: Kernel, l: LockId, m: Lock)
    requires m.value == 0 && (m.waiters != [] ==> Unblock(k.sched, m.waiters[0]) == Ok(Woke(k.sched, m.waiters[0])))
    ensures Step(At(k, l, RelUp, m), Exec) == Ok(
      if m.waiters == [] then Back(k, l, m.(value := 1), 0)
      else Back(k, l, m.(value := 1, waiters := m.waiters[1..]), 0).(sched := Woke(k.sched, m.waiters[0])))
  {
    hide Unblock, Woke;
    ExecIs(k, l, RelUp, m);
    var m2 := m.(value := 1, waiters := if m.waiters == [] then [] else m.waiters[1..]);
    assert k.pc[k.sched.cur := In(l, RelUp)][k.sched.cur := Outside] == k.pc[k.sched.cur := Outside];
    assert k.locks[l := m][l := m2] == k.locks[l := m2];
  }

  // ---------------------------------------------------------------- lock_acquire

  /** Acquiring a lock one holds: one more. */
  lemma AcquireNested(k: Kernel, l: LockId)
    requires KernelInv(k) && Enabled(k, Acquire(l)) && Depth(k, k.sched.cur, l) > 0
    ensures var d := Depth(k, k.sched.cur, l);
      Call(k, Acquire(l), 2) == Ok(Back(k, l, Lock(0, k.locks[l].waiters, Some(k.sched.cur), d + 1), d + 1))
  {
    hide KernelInv, Step, At, Back, Execs, Depth;
    Held(k, l);
    var m, d := k.locks[l], Depth(k, k.sched.cur, l);
    Starts(k, l);
    AcqMoves(k, l, m);
    Next(At(k, l, AcqTest, m), 1, At(k, l, AcqNest, m));
    var n := Back(k, l, m.(repeat := d + 1), d + 1);
    Next(At(k, l, AcqNest, m), 0, n);
    Done(n);
  }

  /** Acquiring a free lock: the caller owns it, once; whoever waits goes on waiting. */
  lemma AcquireFree(k: Kernel, l: LockId)
    requires KernelInv(k) && Enabled(k, Acquire(l)) && k.locks[l].value == 1
    ensures Call(k, Acquire(l), 5) == Ok(Back(k, l, Lock(0, k.locks[l].waiters, Some(k.sched.cur), 1), 1))
  {
    hide KernelInv, Step, At, Back, Execs, Depth;
    var m := k.locks[l];
    FreeLock(k, l);
    Starts(k, l);
    AcqMoves(k, l, m);
    Next(At(k, l, AcqTest, m), 4, At(k, l, AcqDown, m));
    var m1 := m.(value := 0);
    Next(At(k, l, AcqDown, m), 3, At(k, l, AcqHolder, m1));
    AcqMoves(k, l, m1);
    var m2 := m1.(holder := Some(k.sched.cur));
    Next(At(k, l, AcqHolder, m1), 2, At(k, l, AcqAssert, m2));
    AcqMoves(k, l, m2);
    Next(At(k, l, AcqAssert, m2), 1, At(k, l, AcqCount, m2));
    var n := Back(k, l, m2.(repeat := 1), 1);
    Next(At(k, l, AcqCount, m2), 0, n);
    Done(n);
  }

  lemma FreeLock(k: Kernel, l: LockId)
    requires KernelInv(k) && l in k.locks && k.locks[l].value == 1 && k.sched.cur in k.pc
    ensures k.locks[l].holder == None && k.locks[l].repeat == 0 && Depth(k, k.sched.cur, l) == 0
  {
    assert LockOk(k, l);
    assert !Owns(k, k.sched.cur, l);
  }

  /** Acquiring a lock that somebody else owns: the caller is the last of the waiters, BLOCKED, and somebody else
      runs. The lock stays as it is. */
  lemma AcquireTaken(k: Kernel, l: LockId)
    requires KernelInv(k) && Enabled(k, Acquire(l)) && k.locks[l].value == 0 && Depth(k, k.sched.cur, l) == 0
    ensures var cur := k.sched.cur; var m := k.locks[l].(waiters := k.locks[l].waiters + [cur]);
      && cur !in k.locks[l].waiters && Block(k.sched, BLOCKED).Ok?
      && Call(k, Acquire(l), 2) == Ok(At(k, l, AcqRetry, m).(sched := Block(k.sched, BLOCKED).v))
      && Block(k.sched, BLOCKED).v.cur != cur && cur in Block(k.sched, BLOCKED).v.status
      && Block(k.sched, BLOCKED).v.status[cur] == BLOCKED
  {
    hide KernelInv, Step, At, Back, Execs, Depth, Block;
    var cur, m := k.sched.cur, k.locks[l];
    NotWaiting(k, l);
    Starts(k, l);
    AcqMoves(k, l, m);
    Next(At(k, l, AcqTest, m), 1, At(k, l, AcqDown, m));
    BlocksNow(k);
    DownIs(k, l, m);
    var n := Step(At(k, l, AcqDown, m), Exec).v;
    Next(At(k, l, AcqDown, m), 0, n);
    Done(n);
  }

  lemma NotWaiting(k: Kernel, l: LockId)
    requires KernelInv(k) && Enabled(k, Acquire(l)) && k.locks[l].value == 0 && Depth(k, k.sched.cur, l) == 0
    ensures k.sched.cur !in k.locks[l].waiters && k.locks[l].holder != Some(k.sched.cur)
  {
    NotHolder(k, l);
    assert WaitersOk(k, l) && !Blocked(k, k.sched.cur, l);
  }

  lemma BlocksNow(k: Kernel)
    requires KernelInv(k) && k.sched.cur in k.pc && k.pc[k.sched.cur] == Outside
    ensures Block(k.sched, BLOCKED).Ok?
    ensures var s := Block(k.sched, BLOCKED).v;
      s.cur != k.sched.cur && k.sched.cur in s.status && s.status[k.sched.cur] == BLOCKED
  {
    hide PcOk, LockOk, WaitersOk, NoLostWakeup, Block;
    assert ParkedOk(k, k.sched.cur);
    BlockTurns(k.sched, BLOCKED);
  }

  lemma DownIs(k: Kernel, l: LockId, m: Lock)
    requires m.value == 0 && k.sched.cur !in m.waiters && Block(k.sched, BLOCKED).Ok?
    ensures Step(At(k, l, AcqDown, m), Exec) ==
      Ok(At(k, l, AcqRetry, m.(waiters := m.waiters + [k.sched.cur])).(sched := Block(k.sched, BLOCKED).v))
  {
    hide Block, At, Goto, SetLock;
    ExecIs(k, l, AcqDown, m);
    Goes(k, l, AcqDown, m, AcqRetry, m.(waiters := m.waiters + [k.sched.cur]));
    AtSched(k, l, AcqRetry, m.(waiters := m.waiters + [k.sched.cur]));
    AtSched(k, l, AcqDown, m);
  }

  lemma AtSched(k: Kernel, l: LockId, at: Point, m: Lock)
    ensures At(k, l, at, m).sched == k.sched && l in At(k, l, at, m).locks
  {
  }

  // ---------------------------------------------------------------- over runs

  /** What the step adds to the calls of `t` on `l`: an acquire counts one, a release takes one away. */
  function Called(k: Kernel, a: Action, t: Tid, l: LockId): int {
    if k.sched.cur != t then 0 else if a == Acquire(l) then 1 else if a == Release(l) then -1 else 0
  }

  /** Acquires minus releases of `l` by `t` in the run. */
  function Balance(k: Kernel, acts: seq<Action>, t: Tid, l: LockId): int
    decreases |acts|
  {
    if acts == [] || Step(k, acts[0]).Panic? then 0
    else Called(k, acts[0], t, l) + Balance(Step(k, acts[0]).v, acts[1..], t, l)
  }

  /** The call a thread is in has not taken effect yet. */
  function Pending(k: Kernel, t: Tid, l: LockId): int {
    if t in k.pc && k.pc[t].In? && k.pc[t].l == l then
      if k.pc[t].at in {RelOwner, RelTest, RelDec, RelLast, RelHolder, RelCount, RelUp} then -1 else 1
    else 0
  }

  /** Each step adds its call to what a thread holds and is about to. */
  lemma StepCounts(k: Kernel, a: Action, t: Tid, l: LockId)
    requires KernelInv(k) && Enabled(k, a) && Step(k, a).Ok?
    ensures var n := Step(k, a).v;
      Depth(n, t, l) + Pending(n, t, l) == Depth(k, t, l) + Pending(k, t, l) + Called(k, a, t, l)
  {
    hide KernelInv, Schedule, Unblock, Block, Yield, Create, Exit, ExecOne;
    match a {
      case Exec => ExecCounts(k, t, l);
      case _ => CurPlace(k); Gone(k, t);
    }
  }

  lemma CurPlace(k: Kernel)
    requires KernelInv(k)
    ensures k.sched.cur in k.pc && (k.pc[k.sched.cur].In? ==> k.pc[k.sched.cur].l in k.locks)
    ensures k.pc[k.sched.cur].In? ==> PointOk(k.pc[k.sched.cur].at, Depth(k, k.sched.cur, k.pc[k.sched.cur].l))
  {
    CurRuns(k);
    assert PcOk(k, k.sched.cur);
  }

  lemma Gone(k: Kernel, t: Tid)
    requires KernelInv(k)
    ensures t !in k.pc ==> forall l :: Depth(k, t, l) == 0
  {
  }

  lemma ExecCounts(k: Kernel, t: Tid, l: LockId)
    requires KernelInv(k) && ExecOne(k).Ok?
    ensures var n := ExecOne(k).v; Depth(n, t, l) + Pending(n, t, l) == Depth(k, t, l) + Pending(k, t, l)
  {
    hide KernelInv, Schedule, Unblock, Block, Yield, Create, Exit, Fields;
    CurPlace(k);
    var pc := k.pc[k.sched.cur];
    if pc.In? && pc.at == RelTest {
      OwnsHere(k, pc.l);
      OwnerFields(k, pc.l);
      RepeatIs(k, pc.l);
    }
  }

  lemma OwnsHere(k: Kernel, l: LockId)
    requires k.sched.cur in k.pc && Depth(k, k.sched.cur, l) > 0
    ensures Owns(k, k.sched.cur, l)
  {
  }

  lemma RepeatIs(k: Kernel, l: LockId)
    requires k.sched.cur in k.pc && k.pc[k.sched.cur] == In(l, RelTest) && l in k.locks
    requires Fields(k.locks[l], k.pc[k.sched.cur], Depth(k, k.sched.cur, l), k.sched.cur, l)
    ensures k.locks[l].repeat == Depth(k, k.sched.cur, l)
  {
  }

  lemma {:induction false} RunCounts(k: Kernel, acts: seq<Action>, t: Tid, l: LockId)
    requires KernelInv(k) && Legal(k, acts)
    ensures Run(k, acts).Ok?
    ensures var n := Run(k, acts).v;
      Depth(n, t, l) + Pending(n, t, l) == Depth(k, t, l) + Pending(k, t, l) + Balance(k, acts, t, l)
    decreases |acts|
  {
    hide KernelInv, Step, Enabled, Depth, Pending, Called;
    if acts != [] {
      StepKeeps(k, acts[0]);
      StepCounts(k, acts[0], t, l);
      RunCounts(Step(k, acts[0]).v, acts[1..], t, l);
    }
  }

  /** In every reachable state a thread outside the lock functions that has acquired a lock more often than released it
      is the holder, with exactly that count; one that has released it as often does not hold it. */
  lemma HeldIsBalance(k: Kernel, acts: seq<Action>, t: Tid, l: LockId)
    requires Boot(k) && Legal(k, acts) && l in k.locks
    ensures Run(k, acts).Ok?
    ensures var n := Run(k, acts).v; var b := Balance(k, acts, t, l);
      t in n.pc && n.pc[t] == Outside ==>
        && l in n.locks && b == Depth(n, t, l) && b >= 0
        && (b > 0 ==> n.locks[l].value == 0 && n.locks[l].holder == Some(t) && n.locks[l].repeat == b)
        && (b == 0 ==> !Owns(n, t, l))
  {
    hide Legal, Run, Balance, Boot;
    BootOk(k);
    BootNone(k, t, l);
    RunCounts(k, acts, t, l);
    RunSafe(k, acts);
    RunLocks(k, acts);
    var n := Run(k, acts).v;
    if t in n.pc && n.pc[t] == Outside && Depth(n, t, l) > 0 { OwnerOf(n, t, l); }
  }

  lemma BootNone(k: Kernel, t: Tid, l: LockId)
    requires Boot(k)
    ensures Depth(k, t, l) == 0 && Pending(k, t, l) == 0
  {
  }

  lemma OwnerOf(n: Kernel, t: Tid, l: LockId)
    requires KernelInv(n) && t in n.pc && n.pc[t] == Outside && Depth(n, t, l) > 0 && l in n.locks
    ensures n.locks[l].value == 0 && n.locks[l].holder == Some(t) && n.locks[l].repeat == Depth(n, t, l)
  {
    assert LockOk(n, l) && Owns(n, t, l);
  }

  /** Once nobody is inside a call and every acquire has been released, the lock is as it was at boot. */
  lemma FreeAgain(k: Kernel, acts: seq<Action>, l: LockId)
    requires Boot(k) && Legal(k, acts) && l in k.locks && Run(k, acts).Ok?
    requires var n := Run(k, acts).v; forall t | t in n.pc :: !n.pc[t].In? && Balance(k, acts, t, l) == 0
    ensures l in Run(k, acts).v.locks && Run(k, acts).v.locks[l] == Lock(1, [], None, 0)
  {
    hide Legal, Run, Balance, Boot;
    BootOk(k);
    RunSafe(k, acts);
    RunLocks(k, acts);
    var n := Run(k, acts).v;
    forall t ensures !Owns(n, t, l) {
      BootNone(k, t, l);
      RunCounts(k, acts, t, l);
    }
    NobodyThere(n, l);
  }

  lemma NobodyThere(n: Kernel, l: LockId)
    requires KernelInv(n) && l in n.locks && (forall t :: !Owns(n, t, l)) && forall t | t in n.pc :: !n.pc[t].In?
    ensures n.locks[l] == Lock(1, [], None, 0)
  {
    assert LockOk(n, l) && WaitersOk(n, l);
    HeadIn(n.locks[l].waiters);
  }

  lemma HeadIn(q: seq<Tid>)
    ensures q != [] ==> q[0] in q
  {
  }

  // ---------------------------------------------------------------- steps outside the lock functions

  /** A tick or a yield between any two statements: the first ready thread goes on from where it is, the old one is
      last; positions, locks and holdings stay. */
  lemma TickSwitches(k: Kernel)
    requires KernelInv(k)
    ensures var s := k.sched;
      var n := Ok(k.(sched := if s.ready == [] then s else Turned(s, READY, [s.cur])));
      Step(k, Tick) == n && Step(k, YieldCpu) == n
  {
    hide KernelInv, Scheduler.Inv, Schedule, Yield, Turned;
    SchedInv(k);
    TickTurns(k.sched);
    YieldIsTick(k.sched);
  }

  /** The idle thread gives way to the first ready thread, and goes on if there is none. */
  lemma IdleGivesWay(k: Kernel)
    requires KernelInv(k) && k.pc[k.sched.cur] == IdleLoop
    ensures Step(k, Exec) == Ok(if k.sched.ready == [] then k else k.(sched := Turned(k.sched, BLOCKED, [])))
  {
    hide PcOk, LockOk, WaitersOk, NoLostWakeup, Block, Turned;
    assert ParkedOk(k, k.sched.cur);
    BlockTurns(k.sched, BLOCKED);
    var s := k.sched;
    assert s.status[s.cur := BLOCKED][s.idle := RUNNING] == s.status;
  }

  /** Waiting for something other than a lock parks the caller; the event puts it first in the list again. */
  lemma SleepAndWake(k: Kernel, stat: Status, t: Tid)
    requires KernelInv(k)
    ensures Enabled(k, Sleep(stat)) ==> var s := k.sched;
      Step(k, Sleep(stat)) == Ok(k.(pc := k.pc[s.cur := Asleep], sched :=
        if s.ready != [] then Turned(s, stat, []) else Sched(s.status[s.cur := stat][s.idle := RUNNING], [], s.idle,
          s.idle)))
    ensures Enabled(k, Wake(t)) ==>
      Step(k, Wake(t)) == Ok(k.(pc := k.pc[t := Outside], sched := Woke(k.sched, t)))
  {
    hide PcOk, LockOk, WaitersOk, NoLostWakeup, Block, Unblock, Turned, Scheduler.Inv;
    if Enabled(k, Sleep(stat)) {
      CurRuns(k);
      assert ParkedOk(k, k.sched.cur);
      BlockTurns(k.sched, stat);
    }
    if Enabled(k, Wake(t)) {
      WakesFirst(k.sched, t);
      WokeIs(k.sched, t);
    }
  }

  /** A new thread is ready behind all others, outside the lock functions, holding nothing. */
  lemma SpawnAppends(k: Kernel, t: Tid)
    requires KernelInv(k) && Enabled(k, Spawn(t))
    ensures Step(k, Spawn(t)) == Ok(k.(pc := k.pc[t := Outside],
      sched := k.sched.(status := k.sched.status[t := READY], ready := k.sched.ready + [t])))
    ensures forall l :: Depth(k, t, l) == 0
  {
    hide PcOk, LockOk, WaitersOk, NoLostWakeup, Create, Scheduler.Inv;
    CreatedLast(k.sched, t);
  }
}
