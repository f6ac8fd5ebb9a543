/** Semaphores and re-entrant locks (thread/sync.c) under arbitrary preemption. Every thread has a program
    counter inside `lock_acquire`/`lock_release`; one statement is one step, the interrupt-free
    parts of `sema_down` and `sema_up` are single steps, and a timer tick may come between any two steps. */
module Locks {
  import opened Common
  import opened Scheduler

  type LockId = int

  /** Statements of `lock_acquire` and `lock_release`. */
  datatype Point =
    | AcqTest      // if (holder != running_thread())
    | AcqDown      //   sema_down: first test of value
    | AcqRetry     //   sema_down: blocked, will test value again
    | AcqHolder    //   holder = running_thread()
    | AcqAssert    //   ASSERT(holder_repeat_nr == 0)
    | AcqCount     //   holder_repeat_nr = 1
    | AcqNest      // else holder_repeat_nr++
    | RelOwner     // ASSERT(holder == running_thread())
    | RelTest      // if (holder_repeat_nr > 1)
    | RelDec       //   holder_repeat_nr--; return
    | RelLast      // ASSERT(holder_repeat_nr == 1)
    | RelHolder    // holder = NULL
    | RelCount     // holder_repeat_nr = 0
    | RelUp        // sema_up

  datatype Pc =
    | Outside                       // in code that may call lock_acquire, lock_release, thread_block, ..
    | Asleep                        // in thread_block for some other event
    | IdleLoop                      // the idle thread
    | In(l: LockId, at: Point)      // about to execute that statement on lock l

  /** `value` and `waiters` make up the semaphore. */
  datatype Lock = Lock(value: nat, waiters: seq<Tid>, holder: Option<Tid>, repeat: nat)

  /** `depth` counts the acquires each thread has completed and not released. */
  datatype Kernel = Kernel(sched: Sched, pc: map<Tid, Pc>, depth: map<(Tid, LockId), nat>, locks: map<LockId, Lock>)

  datatype Action =
    | Exec                    // the running thread executes its next statement
    | Acquire(l: LockId)      // it calls lock_acquire
    | Release(l: LockId)      // it calls lock_release
    | Tick                    // its time slice ends
    | YieldCpu
    | Sleep(stat: Status)     // it waits for an event other than a lock
    | Wake(t: Tid)            // that event happens for t
    | Spawn(t: Tid)
    | ExitSelf
    | Reap(t: Tid)            // a hanging thread is removed by its waiting parent

  function Depth(k: Kernel, t: Tid, l: LockId): nat { if (t, l) in k.depth then k.depth[(t, l)] else 0 }

  function Goto(k: Kernel, pc: Pc): Kernel { k.(pc := k.pc[k.sched.cur := pc]) }

  function SetLock(k: Kernel, l: LockId, m: Lock): Kernel { k.(locks := k.locks[l := m]) }

  function SetDepth(k: Kernel, l: LockId, d: nat): Kernel { k.(depth := k.depth[(k.sched.cur, l) := d]) }

  function WithSched(k: Kernel, r: Result<Sched>): Result<Kernel> {
    if r.Ok? then Ok(k.(sched := r.v)) else Panic
  }

  /** The body of the while loop of `sema_down`, up to where it blocks or leaves. */
  function Down(k: Kernel, l: LockId): Result<Kernel>
    requires l in k.locks
  {
    var m := k.locks[l];
    var cur := k.sched.cur;
    if m.value == 0 then
      if cur in m.waiters then Panic
      else
        var k1 := Goto(SetLock(k, l, m.(waiters := m.waiters + [cur])), In(l, AcqRetry));
        WithSched(k1, Block(k1.sched, BLOCKED))
    else if m.value != 1 then Panic
    else Ok(Goto(SetLock(k, l, m.(value := 0)), In(l, AcqHolder)))
  }

  /** `sema_up`: wake the first waiter, who will test again, and make the value 1. */
  function Up(k: Kernel, l: LockId): Result<Kernel>
    requires l in k.locks
  {
    var m := k.locks[l];
    if m.value != 0 then Panic
    else
      var k1 := Goto(SetDepth(k, l, 0), Outside);
      if m.waiters == [] then Ok(SetLock(k1, l, m.(value := 1)))
      else
        WithSched(SetLock(k1, l, m.(value := 1, waiters := m.waiters[1..])), Unblock(k.sched, m.waiters[0]))
  }

  function ExecAt(k: Kernel, l: LockId, at: Point): Result<Kernel>
    requires l in k.locks
  {
    var m := k.locks[l];
    var cur := k.sched.cur;
    var d := Depth(k, cur, l);
    match at
    case AcqTest => Ok(Goto(k, In(l, if m.holder == Some(cur) then AcqNest else AcqDown)))
    case AcqDown => Down(k, l)
    case AcqRetry => Down(k, l)
    case AcqHolder => Ok(Goto(SetLock(k, l, m.(holder := Some(cur))), In(l, AcqAssert)))
    case AcqAssert => if m.repeat != 0 then Panic else Ok(Goto(k, In(l, AcqCount)))
    case AcqCount => Ok(Goto(SetDepth(SetLock(k, l, m.(repeat := 1)), l, d + 1), Outside))
    case AcqNest => Ok(Goto(SetDepth(SetLock(k, l, m.(repeat := m.repeat + 1)), l, d + 1), Outside))
    case RelOwner => if m.holder != Some(cur) then Panic else Ok(Goto(k, In(l, RelTest)))
    case RelTest => Ok(Goto(k, In(l, if m.repeat > 1 then RelDec else RelLast)))
    case RelDec =>
      if m.repeat == 0 || d == 0 then Panic
      else Ok(Goto(SetDepth(SetLock(k, l, m.(repeat := m.repeat - 1)), l, d - 1), Outside))
    case RelLast => if m.repeat != 1 then Panic else Ok(Goto(k, In(l, RelHolder)))
    case RelHolder => Ok(Goto(SetLock(k, l, m.(holder := None)), In(l, RelCount)))
    case RelCount => Ok(Goto(SetLock(k, l, m.(repeat := 0)), In(l, RelUp)))
    case RelUp => Up(k, l)
  }

  function ExecOne(k: Kernel): Result<Kernel> {
    if k.sched.cur !in k.pc then Panic
    else
      match k.pc[k.sched.cur]
      case Outside => Ok(k)
      case Asleep => Ok(k)
      case IdleLoop => WithSched(k, Block(k.sched, BLOCKED))
      case In(l, at) => if l in k.locks then ExecAt(k, l, at) else Panic
  }

  /** Paired use: calls come from code outside the lock functions, a lock is released only by a thread
      that has acquired it, and a thread that ends holds none. */
  predicate Enabled(k: Kernel, a: Action) {
    var cur := k.sched.cur;
    match a
    case Exec => true
    case Tick => true
    case YieldCpu => true
    case Acquire(l) => cur in k.pc && k.pc[cur] == Outside && l in k.locks
    case Release(l) => cur in k.pc && k.pc[cur] == Outside && l in k.locks && Depth(k, cur, l) > 0
    case Sleep(stat) => cur in k.pc && k.pc[cur] == Outside && Parked(stat)
    case Wake(t) => t in k.pc && k.pc[t] == Asleep && t in k.sched.status &&
      (k.sched.status[t] == BLOCKED || k.sched.status[t] == WAITING)
    case Spawn(t) => t !in k.pc
    case ExitSelf => cur in k.pc && k.pc[cur] == Outside && forall l | l in k.locks :: Depth(k, cur, l) == 0
    case Reap(t) =>
      && t in k.pc && k.pc[t] == Asleep && t in k.sched.status && k.sched.status[t] == HANGING
      && forall l | l in k.locks :: Depth(k, t, l) == 0
  }

  function Step(k: Kernel, a: Action): Result<Kernel> {
    match a
    case Exec => ExecOne(k)
    case Acquire(l) => Ok(Goto(k, In(l, AcqTest)))
    case Release(l) => Ok(Goto(k, In(l, RelOwner)))
    case Tick => WithSched(k, Schedule(k.sched))
    case YieldCpu => WithSched(k, Yield(k.sched))
    case Sleep(stat) => WithSched(Goto(k, Asleep), Block(k.sched, stat))
    case Wake(t) => WithSched(k.(pc := k.pc[t := Outside]), Unblock(k.sched, t))
    case Spawn(t) => WithSched(k.(pc := k.pc[t := Outside]), Create(k.sched, t))
    case ExitSelf => WithSched(k.(pc := k.pc - {k.sched.cur}), Exit(k.sched, k.sched.cur))
    case Reap(t) => WithSched(k.(pc := k.pc - {t}), Exit(k.sched, t))
  }

  // ---------------------------------------------------------------- invariant

  /** Between its completed `sema_down` and its `sema_up`. */
  predicate Owns(k: Kernel, t: Tid, l: LockId) {
    t in k.pc && (Depth(k, t, l) > 0 || k.pc[t] == In(l, AcqHolder) || k.pc[t] == In(l, AcqAssert) ||
      k.pc[t] == In(l, AcqCount))
  }

  /** `holder` and `holder_repeat_nr` as the owner's position dictates. */
  predicate Fields(m: Lock, pc: Pc, d: nat, t: Tid, l: LockId) {
    if pc == In(l, AcqHolder) then d == 0 && m.holder == None && m.repeat == 0
    else if pc == In(l, AcqAssert) || pc == In(l, AcqCount) then d == 0 && m.holder == Some(t) && m.repeat == 0
    else if pc == In(l, RelCount) then d == 1 && m.holder == None && m.repeat == 1
    else if pc == In(l, RelUp) then d == 1 && m.holder == None && m.repeat == 0
    else d > 0 && m.holder == Some(t) && m.repeat == d
  }

  /** What a position implies about the thread's own completed acquires of that lock. */
  predicate PointOk(at: Point, d: nat) {
    match at
    case AcqTest => true
    case AcqDown => d == 0
    case AcqRetry => d == 0
    case AcqHolder => d == 0
    case AcqAssert => d == 0
    case AcqCount => d == 0
    case AcqNest => d > 0
    case RelOwner => d > 0
    case RelTest => d > 0
    case RelDec => d > 1
    case RelLast => d == 1
    case RelHolder => d == 1
    case RelCount => d == 1
    case RelUp => d == 1
  }

  predicate PcOk(k: Kernel, t: Tid)
    requires t in k.pc
  {
    k.pc[t].In? ==> k.pc[t].l in k.locks && PointOk(k.pc[t].at, Depth(k, t, k.pc[t].l))
  }

  /** One lock: at most one owner; the value is 0 exactly while there is one; the fields fit. */
  ghost predicate LockOk(k: Kernel, l: LockId)
    requires l in k.locks
  {
    var m := k.locks[l];
    && m.value <= 1
    && (forall t, u :: Owns(k, t, l) && Owns(k, u, l) ==> t == u)
    && (m.value == 0 <==> exists t :: Owns(k, t, l))
    && (forall t :: Owns(k, t, l) ==> Fields(m, k.pc[t], Depth(k, t, l), t, l))
    && (m.value == 1 ==> m.holder == None && m.repeat == 0)
  }

  /** Blocked on lock `l`. */
  predicate Blocked(k: Kernel, t: Tid, l: LockId) {
    t in k.pc && t in k.sched.status && k.pc[t] == In(l, AcqRetry) && k.sched.status[t] == BLOCKED
  }

  /** Woken from the waiting list of `l` and about to test its value again. */
  predicate Woken(k: Kernel, t: Tid, l: LockId) {
    t in k.pc && t in k.sched.status && k.pc[t] == In(l, AcqRetry) &&
      (k.sched.status[t] == READY || k.sched.status[t] == RUNNING)
  }

  /** The waiting list holds exactly the threads blocked on the lock, each once. */
  ghost predicate WaitersOk(k: Kernel, l: LockId)
    requires l in k.locks
  {
    Distinct(k.locks[l].waiters) && forall t :: t in k.locks[l].waiters <==> Blocked(k, t, l)
  }

  ghost predicate NoLostWakeup(k: Kernel, l: LockId)
    requires l in k.locks
  {
    k.locks[l].value == 1 && k.locks[l].waiters != [] ==> exists t :: Woken(k, t, l)
  }

  /** A parked thread is parked for the reason its position names. */
  predicate ParkedOk(k: Kernel, t: Tid)
    requires t in k.pc && t in k.sched.status
  {
    var st := k.sched.status[t];
    match k.pc[t]
    case Outside => !Parked(st) && t != k.sched.idle
    case Asleep => Parked(st) && t != k.sched.idle
    case IdleLoop => st != WAITING && st != HANGING && t == k.sched.idle
    case In(_, at) => t != k.sched.idle && if at == AcqRetry then st != WAITING && st != HANGING else !Parked(st)
  }

  ghost predicate KernelInv(k: Kernel) {
    && Scheduler.Inv(k.sched)
    && k.pc.Keys == k.sched.status.Keys
    && (forall t | t in k.pc :: PcOk(k, t) && ParkedOk(k, t))
    && (forall t, l :: t !in k.pc || l !in k.locks ==> Depth(k, t, l) == 0)
    && (forall l | l in k.locks :: LockOk(k, l) && WaitersOk(k, l) && NoLostWakeup(k, l))
  }

  // ---------------------------------------------------------------- local steps

  /** A step of the running thread that changes its position, its acquires of `l` and the lock `l`, nothing else. */
  ghost predicate LocalTo(k: Kernel, n: Kernel, l: LockId) {
    var cur := k.sched.cur;
    && cur in k.pc && n.sched == k.sched && n.pc.Keys == k.pc.Keys && n.locks.Keys == k.locks.Keys && l in k.locks
    && (forall t | t in k.pc && t != cur :: n.pc[t] == k.pc[t])
    && (k.pc[cur] == Outside || (k.pc[cur].In? && k.pc[cur].l == l))
    && (n.pc[cur] == Outside || (n.pc[cur].In? && n.pc[cur].l == l && n.pc[cur].at != AcqRetry))
    && (forall t, j :: t != cur || j != l ==> Depth(n, t, j) == Depth(k, t, j))
    && (forall j | j in k.locks && j != l :: n.locks[j] == k.locks[j])
  }

  lemma OtherLock(k: Kernel, n: Kernel, l: LockId, j: LockId)
    requires KernelInv(k) && LocalTo(k, n, l) && j in k.locks && j != l
    ensures LockOk(n, j) && WaitersOk(n, j) && NoLostWakeup(n, j)
  {
    assert forall t :: Owns(n, t, j) <==> Owns(k, t, j);
    assert forall t :: Blocked(n, t, j) <==> Blocked(k, t, j);
    assert forall t :: Woken(n, t, j) <==> Woken(k, t, j);
    forall t | Owns(n, t, j) ensures Fields(n.locks[j], n.pc[t], Depth(n, t, j), t, j) {
      assert Fields(k.locks[j], k.pc[t], Depth(k, t, j), t, j);
    }
  }

  /** To keep the invariant, such a step has to look after its own thread and its own lock only. */
  lemma LocalKeeps(k: Kernel, n: Kernel, l: LockId)
    requires KernelInv(k) && LocalTo(k, n, l)
    requires PcOk(n, k.sched.cur) && LockOk(n, l) && WaitersOk(n, l) && NoLostWakeup(n, l)
    ensures KernelInv(n)
  {
    hide LockOk, WaitersOk, NoLostWakeup, Scheduler.Inv;
    forall j | j in n.locks ensures LockOk(n, j) && WaitersOk(n, j) && NoLostWakeup(n, j) {
      if j != l { OtherLock(k, n, l, j); }
    }
    assert k.sched.cur in k.sched.status && k.sched.status[k.sched.cur] == RUNNING by { CurRuns(k); }
    forall t | t in n.pc ensures PcOk(n, t) && ParkedOk(n, t) {
      assert PcOk(k, t) && ParkedOk(k, t);
    }
  }

  lemma CurRuns(k: Kernel)
    requires KernelInv(k)
    ensures k.sched.cur in k.pc && k.sched.cur in k.sched.status && k.sched.status[k.sched.cur] == RUNNING
  {
  }

  /** While the running thread owns the lock it may move and edit the two fields as `Fields` says. */
  lemma OwnerKeeps(k: Kernel, n: Kernel, l: LockId)
    requires KernelInv(k) && LocalTo(k, n, l)
    requires Owns(k, k.sched.cur, l) && Owns(n, k.sched.cur, l) && PcOk(n, k.sched.cur)
    requires n.locks[l].value == k.locks[l].value && n.locks[l].waiters == k.locks[l].waiters
    requires Fields(n.locks[l], n.pc[k.sched.cur], Depth(n, k.sched.cur, l), k.sched.cur, l)
    ensures KernelInv(n)
  {
    CurRuns(k);
    assert forall t :: Owns(n, t, l) <==> Owns(k, t, l);
    assert forall t :: Blocked(n, t, l) <==> Blocked(k, t, l);
    assert k.locks[l].value == 0;
    LocalKeeps(k, n, l);
  }

  lemma OwnerFields(k: Kernel, l: LockId)
    requires KernelInv(k) && Owns(k, k.sched.cur, l)
    ensures l in k.locks && Fields(k.locks[l], k.pc[k.sched.cur], Depth(k, k.sched.cur, l), k.sched.cur, l)
  {
    assert PcOk(k, k.sched.cur);
    assert Depth(k, k.sched.cur, l) > 0 ==> l in k.locks;
    assert LockOk(k, l);
  }

  lemma PointIn(k: Kernel, l: LockId, at: Point)
    requires KernelInv(k) && k.sched.cur in k.pc && k.pc[k.sched.cur] == In(l, at)
    ensures l in k.locks && PointOk(at, Depth(k, k.sched.cur, l))
  {
    assert PcOk(k, k.sched.cur);
  }

  predicate Acquiring(at: Point) { at == AcqTest || at == AcqHolder || at == AcqAssert || at == AcqCount ||
      at == AcqNest }

  predicate Releasing(at: Point) { at == RelOwner || at == RelTest || at == RelDec || at == RelLast ||
      at == RelHolder || at == RelCount }

  /** What a statement of `lock_acquire` touches. */
  lemma AcquireLocal(k: Kernel, l: LockId, at: Point)
    requires k.sched.cur in k.pc && k.pc[k.sched.cur] == In(l, at) && Acquiring(at) && l in k.locks
    requires at == AcqAssert ==> k.locks[l].repeat == 0
    ensures ExecAt(k, l, at).Ok? && LocalTo(k, ExecAt(k, l, at).v, l)
  {
    hide Down, Up;
  }

  /** The statements of `lock_acquire` around `sema_down`. Its ASSERT does not fire. */
  lemma AcquireKeeps(k: Kernel, l: LockId, at: Point)
    requires KernelInv(k) && k.sched.cur in k.pc && k.pc[k.sched.cur] == In(l, at) && Acquiring(at)
    ensures l in k.locks && ExecAt(k, l, at).Ok? && KernelInv(ExecAt(k, l, at).v)
  {
    hide KernelInv, LocalTo, Down, Up;
    PointIn(k, l, at);
    if at == AcqTest && !Owns(k, k.sched.cur, l) {
      NotHolder(k, l);
      AcquireLocal(k, l, at);
      FreeMove(k, ExecAt(k, l, at).v, l);
    } else {
      OwnerFields(k, l);
      AcquireLocal(k, l, at);
      OwnerKeeps(k, ExecAt(k, l, at).v, l);
    }
  }

  /** What a statement of `lock_release` touches. */
  lemma ReleaseLocal(k: Kernel, l: LockId, at: Point)
    requires k.sched.cur in k.pc && k.pc[k.sched.cur] == In(l, at) && Releasing(at) && l in k.locks &&
      PointOk(at, Depth(k, k.sched.cur, l))
    requires Fields(k.locks[l], k.pc[k.sched.cur], Depth(k, k.sched.cur, l), k.sched.cur, l)
    ensures ExecAt(k, l, at).Ok? && LocalTo(k, ExecAt(k, l, at).v, l)
  {
    hide Down, Up;
  }

  /** The statements of `lock_release` before `sema_up`. Neither of its ASSERTs fires. */
  lemma ReleaseKeeps(k: Kernel, l: LockId, at: Point)
    requires KernelInv(k) && k.sched.cur in k.pc && k.pc[k.sched.cur] == In(l, at) && Releasing(at)
    ensures l in k.locks && ExecAt(k, l, at).Ok? && KernelInv(ExecAt(k, l, at).v)
  {
    hide KernelInv, LocalTo, Down, Up;
    PointIn(k, l, at);
    OwnerFields(k, l);
    ReleaseLocal(k, l, at);
    OwnerKeeps(k, ExecAt(k, l, at).v, l);
  }

  /** Somebody else's lock, or nobody's, does not name this thread as holder. */
  lemma NotHolder(k: Kernel, l: LockId)
    requires KernelInv(k) && l in k.locks && !Owns(k, k.sched.cur, l)
    ensures k.locks[l].holder != Some(k.sched.cur)
  {
    assert LockOk(k, l);
    if k.locks[l].value == 0 {
      var o :| Owns(k, o, l);
      assert Fields(k.locks[l], k.pc[o], Depth(k, o, l), o, l);
    }
  }

  /** Moving without touching the lock. */
  lemma FreeMove(k: Kernel, n: Kernel, l: LockId)
    requires KernelInv(k) && LocalTo(k, n, l) && n.locks == k.locks && PcOk(n, k.sched.cur)
    requires !Owns(k, k.sched.cur, l) && !Owns(n, k.sched.cur, l) && k.pc[k.sched.cur] != In(l, AcqRetry)
    ensures KernelInv(n)
  {
    CurRuns(k);
    assert forall t :: Owns(n, t, l) <==> Owns(k, t, l);
    assert forall t :: Blocked(n, t, l) <==> Blocked(k, t, l);
    assert forall t :: Woken(n, t, l) <==> Woken(k, t, l);
    forall t | Owns(n, t, l) ensures Fields(n.locks[l], n.pc[t], Depth(n, t, l), t, l) {
      assert Fields(k.locks[l], k.pc[t], Depth(k, t, l), t, l);
    }
    LocalKeeps(k, n, l);
  }

  predicate Testing(k: Kernel, l: LockId) {
    k.sched.cur in k.pc && (k.pc[k.sched.cur] == In(l, AcqDown) || k.pc[k.sched.cur] == In(l, AcqRetry))
  }

  lemma Taken(k: Kernel, l: LockId)
    requires KernelInv(k) && Testing(k, l) && l in k.locks && k.locks[l].value == 1
    ensures var n := Down(k, l);
      n.Ok? && LockOk(n.v, l) && WaitersOk(n.v, l) && PcOk(n.v, k.sched.cur) && Owns(n.v, k.sched.cur, l)
  {
    CurRuns(k);
    var cur := k.sched.cur;
    assert PcOk(k, cur);
    var n := Down(k, l).v;
    assert LockOk(k, l) && forall t :: !Owns(k, t, l);
    assert Owns(n, cur, l);
    forall t | t != cur ensures !Owns(n, t, l) {
      assert !Owns(k, t, l);
    }
    assert WaitersOk(k, l) && forall t :: Blocked(n, t, l) <==> Blocked(k, t, l);
  }

  /** `sema_down` succeeding: the lock had no owner and now has this one. */
  lemma TakeKeeps(k: Kernel, l: LockId)
    requires KernelInv(k) && Testing(k, l) && l in k.locks && k.locks[l].value != 0
    ensures Down(k, l).Ok? && KernelInv(Down(k, l).v) && Owns(Down(k, l).v, k.sched.cur, l)
  {
    assert LockOk(k, l);
    Taken(k, l);
    hide KernelInv, LockOk, WaitersOk, PcOk;
    LocalKeeps(k, Down(k, l).v, l);
  }

  /** After a scheduling decision positions and locks still fit: nobody was parked or unparked but idle. */
  lemma SchedKeeps(k: Kernel, s: Sched)
    requires k.pc.Keys == k.sched.status.Keys && Scheduler.Inv(s) && SameParked(k.sched, s)
    requires forall t | t in k.pc :: PcOk(k, t) && ParkedOk(k, t)
    requires forall t, l :: t !in k.pc || l !in k.locks ==> Depth(k, t, l) == 0
    requires forall l | l in k.locks :: LockOk(k, l) && WaitersOk(k, l) && NoLostWakeup(k, l)
    requires forall t | t in k.sched.status && t != k.sched.idle && k.sched.status[t] == RUNNING :: k.pc[t] != Asleep
    ensures KernelInv(k.(sched := s))
  {
    hide LockOk, PcOk, ReadyOk;
    var n := k.(sched := s);
    assert forall t, l :: Depth(n, t, l) == Depth(k, t, l);
    forall t | t in n.pc ensures PcOk(n, t) && ParkedOk(n, t) {
      assert PcOk(k, t) && ParkedOk(k, t);
      SamePc(k, n, t);
    }
    forall l | l in n.locks ensures LockOk(n, l) && WaitersOk(n, l) && NoLostWakeup(n, l) {
      SameLock(k, n, l);
      assert LockOk(k, l) && WaitersOk(k, l) && NoLostWakeup(k, l);
      forall t ensures Blocked(n, t, l) <==> Blocked(k, t, l) {
        if t in k.pc { assert ParkedOk(k, t); }
      }
      forall t ensures Woken(n, t, l) <==> Woken(k, t, l) {
        if t in k.pc { assert ParkedOk(k, t); }
      }
    }
  }

  lemma SamePc(k: Kernel, n: Kernel, t: Tid)
    requires t in k.pc && n.pc == k.pc && n.depth == k.depth && n.locks == k.locks
    ensures PcOk(n, t) <==> PcOk(k, t)
  {
  }

  lemma SameLock(k: Kernel, n: Kernel, l: LockId)
    requires l in k.locks && n.pc == k.pc && n.depth == k.depth && n.locks == k.locks
    ensures LockOk(n, l) <==> LockOk(k, l)
  {
    assert forall t :: Owns(n, t, l) <==> Owns(k, t, l);
  }

  lemma TickKeeps(k: Kernel)
    requires KernelInv(k)
    ensures Step(k, Tick).Ok? && KernelInv(Step(k, Tick).v) && Step(k, YieldCpu).Ok? && KernelInv(Step(k, YieldCpu).v)
  {
    hide LockOk, WaitersOk, NoLostWakeup, PcOk, ReadyOk;
    ScheduleKeeps(k.sched);
    YieldKeeps(k.sched);
    SchedKeeps(k, Schedule(k.sched).v);
    SchedKeeps(k, Yield(k.sched).v);
  }

  /** Nobody's place inside the lock functions changed. */
  ghost predicate SamePlaces(k: Kernel, n: Kernel) {
    && n.locks == k.locks && n.depth == k.depth
    && (forall t, l :: Owns(n, t, l) <==> Owns(k, t, l))
    && (forall t, l | Owns(k, t, l) :: n.pc[t] == k.pc[t] || (!n.pc[t].In? && !k.pc[t].In?))
    && (forall t, l :: Blocked(n, t, l) <==> Blocked(k, t, l))
    && (forall t, l | Woken(k, t, l) :: Woken(n, t, l))
  }

  lemma PlacesKeep(k: Kernel, n: Kernel)
    requires KernelInv(k) && SamePlaces(k, n)
    ensures forall l | l in n.locks :: LockOk(n, l) && WaitersOk(n, l) && NoLostWakeup(n, l)
  {
    forall l | l in n.locks ensures LockOk(n, l) && WaitersOk(n, l) && NoLostWakeup(n, l) {
      assert LockOk(k, l) && WaitersOk(k, l) && NoLostWakeup(k, l);
      forall t | Owns(n, t, l) ensures Fields(n.locks[l], n.pc[t], Depth(n, t, l), t, l) {
        assert Owns(k, t, l) && Fields(k.locks[l], k.pc[t], Depth(k, t, l), t, l);
      }
    }
  }

  lemma EnterKeeps(k: Kernel, l: LockId, at: Point)
    requires KernelInv(k) && k.sched.cur in k.pc && k.pc[k.sched.cur] == Outside && l in k.locks
    requires at == AcqTest || (at == RelOwner && Depth(k, k.sched.cur, l) > 0)
    ensures KernelInv(Goto(k, In(l, at)))
  {
    var n := Goto(k, In(l, at));
    hide KernelInv;
    if Owns(k, k.sched.cur, l) {
      OwnerFields(k, l);
      OwnerKeeps(k, n, l);
    } else {
      FreeMove(k, n, l);
    }
  }

  /** The kernel with the running thread parked at `pc`, just before `schedule`. */
  function ParkCur(k: Kernel, pc: Pc, stat: Status): Kernel {
    Goto(k, pc).(sched := k.sched.(status := k.sched.status[k.sched.cur := stat]))
  }

  lemma ParkPlaces(k: Kernel, pc: Pc, stat: Status)
    requires KernelInv(k) && k.sched.cur in k.pc && Parked(stat)
    requires (k.pc[k.sched.cur] == Outside && pc == Asleep) ||
      (k.pc[k.sched.cur] == IdleLoop && pc == IdleLoop && stat == BLOCKED)
    ensures SamePlaces(k, ParkCur(k, pc, stat))
    ensures forall t | t in k.pc :: PcOk(ParkCur(k, pc, stat), t) && ParkedOk(ParkCur(k, pc, stat), t)
  {
    hide LockOk, WaitersOk, NoLostWakeup;
    CurRuns(k);
    var n := ParkCur(k, pc, stat);
    assert forall t, l :: Depth(n, t, l) == Depth(k, t, l);
    forall t, l ensures (Owns(n, t, l) <==> Owns(k, t, l)) && (Blocked(n, t, l) <==> Blocked(k, t, l)) { }
    forall t | t in n.pc ensures PcOk(n, t) && ParkedOk(n, t) {
      assert PcOk(k, t) && ParkedOk(k, t);
    }
  }

  /** Waiting for another event keeps the invariant, locks held or not. */
  lemma SleepKeeps(k: Kernel, stat: Status)
    requires KernelInv(k) && k.sched.cur in k.pc && k.pc[k.sched.cur] == Outside && Parked(stat)
    ensures Step(k, Sleep(stat)).Ok? && KernelInv(Step(k, Sleep(stat)).v)
  {
    hide LockOk, WaitersOk, NoLostWakeup, PcOk, ReadyOk;
    CurRuns(k);
    assert ParkedOk(k, k.sched.cur);
    BlockKeeps(k.sched, stat);
    var n := ParkCur(k, Asleep, stat);
    ParkPlaces(k, Asleep, stat);
    PlacesKeep(k, n);
    assert forall t, l :: Depth(n, t, l) == Depth(k, t, l);
    SchedKeeps(n, Block(k.sched, stat).v);
  }

  lemma IdleKeeps(k: Kernel)
    requires KernelInv(k) && k.sched.cur in k.pc && k.pc[k.sched.cur] == IdleLoop
    ensures ExecOne(k).Ok? && KernelInv(ExecOne(k).v)
  {
    hide LockOk, WaitersOk, NoLostWakeup, PcOk, ReadyOk;
    CurRuns(k);
    assert ParkedOk(k, k.sched.cur);
    BlockKeeps(k.sched, BLOCKED);
    var n := ParkCur(k, IdleLoop, BLOCKED);
    assert n.pc == k.pc;
    ParkPlaces(k, IdleLoop, BLOCKED);
    PlacesKeep(k, n);
    assert forall t, l :: Depth(n, t, l) == Depth(k, t, l);
    SchedKeeps(n, Block(k.sched, BLOCKED).v);
  }

  lemma Queued(k: Kernel, n: Kernel, l: LockId)
    requires KernelInv(k) && Testing(k, l) && l in k.locks && k.locks[l].value == 0
    requires n == ParkCur(SetLock(k, l, k.locks[l].(waiters := k.locks[l].waiters + [k.sched.cur])), In(l, AcqRetry),
      BLOCKED)
    ensures k.sched.cur !in k.locks[l].waiters
    ensures LockOk(n, l) && WaitersOk(n, l) && NoLostWakeup(n, l)
  {
    CurRuns(k);
    var cur := k.sched.cur;
    assert LockOk(k, l) && WaitersOk(k, l) && PcOk(k, cur);
    assert !Blocked(k, cur, l);
    Appended(k.locks[l].waiters, cur);
    forall t ensures Owns(n, t, l) <==> Owns(k, t, l) { }
    forall t ensures Blocked(n, t, l) <==> Blocked(k, t, l) || t == cur { }
    forall t | Owns(n, t, l) ensures Fields(n.locks[l], n.pc[t], Depth(n, t, l), t, l) {
      assert Fields(k.locks[l], k.pc[t], Depth(k, t, l), t, l);
    }
  }

  lemma QueuedOther(k: Kernel, n: Kernel, l: LockId, j: LockId)
    requires Testing(k, l) && l in k.locks && j in k.locks && j != l && k.sched.cur in k.sched.status
    requires LockOk(k, j) && WaitersOk(k, j) && NoLostWakeup(k, j)
    requires n == ParkCur(SetLock(k, l, k.locks[l].(waiters := k.locks[l].waiters + [k.sched.cur])), In(l, AcqRetry),
      BLOCKED)
    ensures LockOk(n, j) && WaitersOk(n, j) && NoLostWakeup(n, j)
  {
    forall t ensures Owns(n, t, j) <==> Owns(k, t, j) { }
    forall t ensures Blocked(n, t, j) <==> Blocked(k, t, j) { }
    forall t ensures Woken(k, t, j) ==> Woken(n, t, j) { }
    forall t | Owns(n, t, j) ensures Fields(n.locks[j], n.pc[t], Depth(n, t, j), t, j) {
      assert Fields(k.locks[j], k.pc[t], Depth(k, t, j), t, j);
    }
  }

  lemma QueuedPcs(k: Kernel, n: Kernel, l: LockId)
    requires KernelInv(k) && Testing(k, l) && l in k.locks
    requires n == ParkCur(SetLock(k, l, k.locks[l].(waiters := k.locks[l].waiters + [k.sched.cur])), In(l, AcqRetry),
      BLOCKED)
    ensures forall t | t in n.pc :: PcOk(n, t) && ParkedOk(n, t)
    ensures forall t, j :: Depth(n, t, j) == Depth(k, t, j)
  {
    hide LockOk, WaitersOk, NoLostWakeup;
    forall t | t in n.pc ensures PcOk(n, t) && ParkedOk(n, t) {
      assert PcOk(k, t) && ParkedOk(k, t);
    }
  }

  /** `sema_down` blocking: the thread is queued, once, and the lock keeps its owner. */
  lemma WaitKeeps(k: Kernel, l: LockId)
    requires KernelInv(k) && Testing(k, l) && l in k.locks && k.locks[l].value == 0
    ensures Down(k, l).Ok? && KernelInv(Down(k, l).v)
  {
    hide LockOk, WaitersOk, NoLostWakeup, PcOk, ReadyOk;
    CurRuns(k);
    var cur := k.sched.cur;
    assert ParkedOk(k, cur);
    BlockKeeps(k.sched, BLOCKED);
    var k1 := SetLock(k, l, k.locks[l].(waiters := k.locks[l].waiters + [cur]));
    var n := ParkCur(k1, In(l, AcqRetry), BLOCKED);
    Queued(k, n, l);
    QueuedPcs(k, n, l);
    forall j | j in n.locks ensures LockOk(n, j) && WaitersOk(n, j) && NoLostWakeup(n, j) {
      if j != l { QueuedOther(k, n, l, j); }
    }
    SchedKeeps(n, Block(k.sched, BLOCKED).v);
  }

  lemma DownKeeps(k: Kernel, l: LockId)
    requires KernelInv(k) && Testing(k, l) && l in k.locks
    ensures Down(k, l).Ok? && KernelInv(Down(k, l).v)
  {
    if k.locks[l].value == 0 { WaitKeeps(k, l); } else { TakeKeeps(k, l); }
  }

  // ---------------------------------------------------------------- sema_up

  predicate Leaving(k: Kernel, l: LockId) {
    k.sched.cur in k.pc && k.pc[k.sched.cur] == In(l, RelUp) && l in k.locks
  }

  /** Nothing panics: the value is 0 and the first waiter, if any, is blocked. */
  lemma UpOk(k: Kernel, l: LockId)
    requires KernelInv(k) && Leaving(k, l)
    ensures Up(k, l).Ok? && Owns(k, k.sched.cur, l) && Fields(k.locks[l], k.pc[k.sched.cur], Depth(k, k.sched.cur, l),
      k.sched.cur, l)
  {
    hide KernelInv, LockOk, WaitersOk, NoLostWakeup, ParkedOk, Scheduler.Inv;
    PointIn(k, l, RelUp);
    OwnerFields(k, l);
    OwnedIsZero(k, l);
    if k.locks[l].waiters != [] {
      FirstBlocked(k, l);
      SchedInv(k);
      WakeKeeps(k.sched, k.locks[l].waiters[0]);
    }
  }

  lemma OwnedIsZero(k: Kernel, l: LockId)
    requires KernelInv(k) && l in k.locks && Owns(k, k.sched.cur, l)
    ensures k.locks[l].value == 0
  {
    assert LockOk(k, l);
  }

  lemma SchedInv(k: Kernel)
    requires KernelInv(k)
    ensures Scheduler.Inv(k.sched)
  {
  }

  /** What `sema_up` changes: the caller's position and depth, the lock, and the status of the first waiter. */
  ghost predicate UpStep(k: Kernel, n: Kernel, l: LockId) {
    && n.sched.cur == k.sched.cur && n.sched.idle == k.sched.idle && k.sched.cur in k.pc
    && k.pc.Keys == k.sched.status.Keys == n.sched.status.Keys && n.locks.Keys == k.locks.Keys
    && n.pc == k.pc[k.sched.cur := Outside]
    && (forall j | j in k.locks && j != l :: n.locks[j] == k.locks[j])
    && (forall t, j :: Depth(n, t, j) == if t == k.sched.cur && j == l then 0 else Depth(k, t, j))
    && l in k.locks && (k.locks[l].waiters != [] ==> Blocked(k, k.locks[l].waiters[0], l))
    && (forall t | t in k.pc ::
       n.sched.status[t] == if k.locks[l].waiters != [] && t == k.locks[l].waiters[0] then READY else k.sched.status[t])
  }

  lemma FirstBlocked(k: Kernel, l: LockId)
    requires KernelInv(k) && l in k.locks && k.locks[l].waiters != []
    ensures Blocked(k, k.locks[l].waiters[0], l)
  {
    assert WaitersOk(k, l);
  }

  lemma UpParts(k: Kernel, l: LockId)
    requires KernelInv(k) && Leaving(k, l) && Up(k, l).Ok?
    ensures UpStep(k, Up(k, l).v, l) && Scheduler.Inv(Up(k, l).v.sched)
    ensures var ws := k.locks[l].waiters;
      Up(k, l).v.locks[l] == k.locks[l].(value := 1, waiters := if ws == [] then [] else ws[1..])
  {
    hide LockOk, WaitersOk, NoLostWakeup, PcOk, ParkedOk, Scheduler.Inv;
    CurRuns(k);
    var ws := k.locks[l].waiters;
    if ws != [] {
      FirstBlocked(k, l);
      WakeKeeps(k.sched, ws[0]);
    }
  }

  /** With a waiter, the one popped is READY and about to test a value of 1. */
  lemma UpLock(k: Kernel, n: Kernel, l: LockId)
    requires Leaving(k, l) && UpStep(k, n, l) && LockOk(k, l) && WaitersOk(k, l) && Owns(k, k.sched.cur, l)
    requires Fields(k.locks[l], k.pc[k.sched.cur], Depth(k, k.sched.cur, l), k.sched.cur, l)
    requires n.locks[l] == k.locks[l].(value := 1, waiters := n.locks[l].waiters)
    requires n.locks[l].waiters == if k.locks[l].waiters == [] then [] else k.locks[l].waiters[1..]
    ensures LockOk(n, l) && WaitersOk(n, l) && NoLostWakeup(n, l) && PcOk(n, k.sched.cur)
  {
    var cur := k.sched.cur;
    var ws := k.locks[l].waiters;
    if ws != [] { Popped(ws); }
    forall t ensures !Owns(n, t, l) {
      if t != cur { assert Owns(n, t, l) ==> Owns(k, t, l); }
    }
    forall t ensures Blocked(n, t, l) <==> Blocked(k, t, l) && (ws != [] ==> t != ws[0]) { }
    if ws != [] { assert Woken(n, ws[0], l); }
  }

  lemma UpOther(k: Kernel, n: Kernel, l: LockId, j: LockId)
    requires Leaving(k, l) && UpStep(k, n, l) && j in k.locks && j != l
    requires LockOk(k, j) && WaitersOk(k, j) && NoLostWakeup(k, j)
    ensures LockOk(n, j) && WaitersOk(n, j) && NoLostWakeup(n, j)
  {
    forall t ensures Owns(n, t, j) <==> Owns(k, t, j) { }
    forall t ensures Blocked(n, t, j) <==> Blocked(k, t, j) { }
    forall t ensures Woken(n, t, j) <==> Woken(k, t, j) { }
    forall t | Owns(n, t, j) ensures Fields(n.locks[j], n.pc[t], Depth(n, t, j), t, j) {
      assert Fields(k.locks[j], k.pc[t], Depth(k, t, j), t, j);
    }
  }

  lemma UpPc(k: Kernel, n: Kernel, l: LockId, t: Tid)
    requires UpStep(k, n, l) && t in k.pc && PcOk(k, t) && ParkedOk(k, t) && Leaving(k, l)
    ensures ParkedOk(n, t) && (t != k.sched.cur ==> PcOk(n, t))
  {
  }

  lemma UpKeeps(k: Kernel, l: LockId)
    requires KernelInv(k) && Leaving(k, l)
    ensures Up(k, l).Ok? && KernelInv(Up(k, l).v)
  {
    hide LockOk, WaitersOk, NoLostWakeup, PcOk, ParkedOk, Scheduler.Inv, Up;
    UpOk(k, l);
    UpParts(k, l);
    var n := Up(k, l).v;
    UpLock(k, n, l);
    forall t | t in n.pc ensures PcOk(n, t) && ParkedOk(n, t) {
      UpPc(k, n, l, t);
    }
    forall j | j in n.locks ensures LockOk(n, j) && WaitersOk(n, j) && NoLostWakeup(n, j) {
      if j != l { UpOther(k, n, l, j); }
    }
  }

  // ---------------------------------------------------------------- threads come and go

  lemma WakeThreadKeeps(k: Kernel, t: Tid)
    requires KernelInv(k) && Enabled(k, Wake(t))
    ensures Step(k, Wake(t)).Ok? && KernelInv(Step(k, Wake(t)).v)
  {
    hide LockOk, WaitersOk, NoLostWakeup;
    WakeKeeps(k.sched, t);
    var n := Step(k, Wake(t)).v;
    assert forall u, l :: Depth(n, u, l) == Depth(k, u, l);
    forall u, l ensures (Owns(n, u, l) <==> Owns(k, u, l)) && (Blocked(n, u, l) <==> Blocked(k, u, l)) { }
    PlacesKeep(k, n);
    assert ParkedOk(k, t);
    forall u | u in n.pc ensures PcOk(n, u) && ParkedOk(n, u) {
      assert PcOk(k, u) && ParkedOk(k, u);
    }
  }

  lemma SpawnKeeps(k: Kernel, t: Tid)
    requires KernelInv(k) && Enabled(k, Spawn(t))
    ensures Step(k, Spawn(t)).Ok? && KernelInv(Step(k, Spawn(t)).v)
  {
    hide LockOk, WaitersOk, NoLostWakeup;
    CreateKeeps(k.sched, t);
    var n := Step(k, Spawn(t)).v;
    assert forall u, l :: Depth(n, u, l) == Depth(k, u, l);
    forall u, l ensures (Owns(n, u, l) <==> Owns(k, u, l)) && (Blocked(n, u, l) <==> Blocked(k, u, l)) {
      if u == t && l in k.locks { assert Depth(k, u, l) == 0; }
    }
    PlacesKeep(k, n);
    forall u | u in n.pc ensures PcOk(n, u) && ParkedOk(n, u) {
      if u != t { assert PcOk(k, u) && ParkedOk(k, u); }
    }
  }

  /** A thread that holds no lock can be removed, whether it is running or hanging. */
  lemma GoneKeeps(k: Kernel, t: Tid)
    requires KernelInv(k) && t in k.pc && (k.pc[t] == Outside || k.pc[t] == Asleep)
    requires forall l | l in k.locks :: Depth(k, t, l) == 0
    ensures var n := WithSched(k.(pc := k.pc - {t}), Exit(k.sched, t)); n.Ok? && KernelInv(n.v)
  {
    hide LockOk, WaitersOk, NoLostWakeup, ReadyOk;
    CurRuns(k);
    assert ParkedOk(k, t);
    ExitKeeps(k.sched, t);
    var n := k.(pc := k.pc - {t}, sched := k.sched.(status := k.sched.status - {t}));
    assert forall u, l :: Depth(n, u, l) == Depth(k, u, l);
    forall u, l ensures (Owns(n, u, l) <==> Owns(k, u, l)) && (Blocked(n, u, l) <==> Blocked(k, u, l)) {
      if u == t && l !in k.locks { assert Depth(k, u, l) == 0; }
    }
    PlacesKeep(k, n);
    forall u | u in n.pc ensures PcOk(n, u) && ParkedOk(n, u) {
      assert PcOk(k, u) && ParkedOk(k, u);
    }
    hide PcOk, ParkedOk;
    SchedKeeps(n, Exit(k.sched, t).v);
  }

  // ---------------------------------------------------------------- theorems

  lemma ExecKeeps(k: Kernel)
    requires KernelInv(k)
    ensures ExecOne(k).Ok? && KernelInv(ExecOne(k).v)
  {
    hide KernelInv, Down, Up;
    CurRuns(k);
    match k.pc[k.sched.cur]
    case Outside =>
    case Asleep =>
    case IdleLoop => IdleKeeps(k);
    case In(l, at) =>
      PointIn(k, l, at);
      if at == AcqDown || at == AcqRetry {
        DownKeeps(k, l);
      } else if at == RelUp {
        UpKeeps(k, l);
      } else if Acquiring(at) {
        AcquireKeeps(k, l, at);
      } else {
        ReleaseKeeps(k, l, at);
      }
  }

  /** No step panics, and every step keeps the invariant. */
  lemma StepKeeps(k: Kernel, a: Action)
    requires KernelInv(k) && Enabled(k, a)
    ensures Step(k, a).Ok? && KernelInv(Step(k, a).v)
  {
    hide KernelInv, ExecOne;
    match a
    case Exec => ExecKeeps(k);
    case Acquire(l) => EnterKeeps(k, l, AcqTest);
    case Release(l) => EnterKeeps(k, l, RelOwner);
    case Tick => TickKeeps(k);
    case YieldCpu => TickKeeps(k);
    case Sleep(stat) => SleepKeeps(k, stat);
    case Wake(t) => WakeThreadKeeps(k, t);
    case Spawn(t) => SpawnKeeps(k, t);
    case ExitSelf => GoneKeeps(k, k.sched.cur);
    case Reap(t) => GoneKeeps(k, t);
  }

  /** A run: every action is enabled when it happens. */
  predicate Legal(k: Kernel, acts: seq<Action>)
    decreases |acts|
  {
    acts == [] || (Enabled(k, acts[0]) && (Step(k, acts[0]).Ok? ==> Legal(Step(k, acts[0]).v, acts[1..])))
  }

  function Run(k: Kernel, acts: seq<Action>): Result<Kernel>
    decreases |acts|
  {
    if acts == [] then Ok(k)
    else if Step(k, acts[0]).Ok? then Run(Step(k, acts[0]).v, acts[1..])
    else Panic
  }

  /** After boot: main runs, idle and the others are ready, nobody is in a lock function, all locks are free. */
  ghost predicate Boot(k: Kernel) {
    && Scheduler.Inv(k.sched) && k.pc.Keys == k.sched.status.Keys && k.depth == map[]
    && (forall t | t in k.pc ::
       k.pc[t] == (if t == k.sched.idle then IdleLoop else Outside) && !Parked(k.sched.status[t]))
    && (forall l | l in k.locks :: k.locks[l] == Lock(1, [], None, 0))
  }

  lemma BootOk(k: Kernel)
    requires Boot(k)
    ensures KernelInv(k)
  {
  }

  /** Over every run from boot, with any interleaving: no ASSERT or PANIC fires; at most one thread is between
      its `sema_down` and its `sema_up` of a lock; a free lock with waiters has a woken thread about to
      take it; and the scheduler's lists are consistent. */
  lemma {:induction false} RunSafe(k: Kernel, acts: seq<Action>)
    requires KernelInv(k) && Legal(k, acts)
    ensures Run(k, acts).Ok? && KernelInv(Run(k, acts).v)
    decreases |acts|
  {
    hide KernelInv, Step, Enabled;
    if acts != [] {
      StepKeeps(k, acts[0]);
      RunSafe(Step(k, acts[0]).v, acts[1..]);
    }
  }

  lemma MutualExclusion(k: Kernel, acts: seq<Action>, l: LockId, t: Tid, u: Tid)
    requires Boot(k) && Legal(k, acts) && l in k.locks
    requires Run(k, acts).Ok? ==> Owns(Run(k, acts).v, t, l) && Owns(Run(k, acts).v, u, l)
    ensures Run(k, acts).Ok? && t == u
  {
    hide Legal, Run, Enabled, Step, Owns;
    BootOk(k);
    RunSafe(k, acts);
    RunLocks(k, acts);
    assert LockOk(Run(k, acts).v, l);
  }

  lemma {:induction false} RunLocks(k: Kernel, acts: seq<Action>)
    requires Run(k, acts).Ok?
    ensures Run(k, acts).v.locks.Keys == k.locks.Keys
    decreases |acts|
  {
    if acts != [] {
      StepLocks(k, acts[0]);
      RunLocks(Step(k, acts[0]).v, acts[1..]);
    }
  }

  lemma StepLocks(k: Kernel, a: Action)
    requires Step(k, a).Ok?
    ensures Step(k, a).v.locks.Keys == k.locks.Keys
  {
    hide Schedule, Unblock, Block, Yield, Create, Exit;
  }

  /** In every reachable state: value 0 iff there is an owner; value 1 with waiters means a woken thread exists,
      and when that thread runs while the value is still 1 it gets the lock. */
  lemma NoWakeupLost(k: Kernel, acts: seq<Action>, l: LockId)
    requires Boot(k) && Legal(k, acts) && l in k.locks
    ensures Run(k, acts).Ok?
    ensures var n := Run(k, acts).v;
      && l in n.locks
      && (n.locks[l].value == 0 <==> exists t :: Owns(n, t, l))
      && (n.locks[l].value == 1 && n.locks[l].waiters != [] ==> exists t :: Woken(n, t, l))
      && (n.locks[l].value == 1 && Woken(n, n.sched.cur, l) ==>
         Step(n, Exec).Ok? && Owns(Step(n, Exec).v, n.sched.cur, l))
  {
    hide Legal, Run, Enabled, Owns;
    BootOk(k);
    RunSafe(k, acts);
    RunLocks(k, acts);
    var n := Run(k, acts).v;
    assert LockOk(n, l) && NoLostWakeup(n, l);
    if n.locks[l].value == 1 && Woken(n, n.sched.cur, l) {
      TakeKeeps(n, l);
    }
  }

  /** `general_tag` is linked into at most one list at a time, and there once: in every reachable state the ready list
      and the waiting lists of all locks have no thread twice and no thread in common, and whoever runs is on none. */
  lemma TagOnce(k: Kernel, acts: seq<Action>)
    requires Boot(k) && Legal(k, acts)
    ensures Run(k, acts).Ok?
    ensures var n := Run(k, acts).v;
      && Distinct(n.sched.ready) && n.sched.cur !in n.sched.ready
      && (forall l | l in n.locks :: Distinct(n.locks[l].waiters) && n.sched.cur !in n.locks[l].waiters)
      && (forall l, t | l in n.locks && t in n.locks[l].waiters :: t !in n.sched.ready)
      && (forall l, j, t | l in n.locks && j in n.locks && t in n.locks[l].waiters && t in n.locks[j].waiters :: l == j)
  {
    hide Legal, Run;
    BootOk(k);
    RunSafe(k, acts);
    OneList(Run(k, acts).v);
  }

  lemma OneList(n: Kernel)
    requires KernelInv(n)
    ensures Distinct(n.sched.ready) && n.sched.cur !in n.sched.ready
    ensures forall l | l in n.locks :: Distinct(n.locks[l].waiters) && n.sched.cur !in n.locks[l].waiters
    ensures forall l, t | l in n.locks && t in n.locks[l].waiters :: t !in n.sched.ready
    ensures forall l, j, t | l in n.locks && j in n.locks && t in n.locks[l].waiters && t in n.locks[j].waiters ::
      l == j
  {
    hide PcOk, LockOk, NoLostWakeup, ParkedOk, Depth;
    forall l, t | l in n.locks && t in n.locks[l].waiters ensures Blocked(n, t, l) { assert WaitersOk(n, l); }
    forall l | l in n.locks ensures Distinct(n.locks[l].waiters) { assert WaitersOk(n, l); }
  }
}
