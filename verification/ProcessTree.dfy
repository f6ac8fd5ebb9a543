/** fork, wait and exit (userprog/fork.c, userprog/wait_exit.c, thread/pid.c) on top of the scheduler. System calls
    run with interrupts off, so each is one step up to where it blocks; `sys_exit` is two, because giving back
    the files and memory of the process in the middle of it may block. */
module ProcessTree {
  import opened Scheduler
  import opened Bitmap

  const NO_PARENT := -1
  const INIT_PID := 1

  datatype Phase =
    | Kernel     // a kernel thread
    | User       // a process in its own code
    | Waiting    // inside sys_wait, about to look at its children (again)
    | Exiting    // inside sys_exit, children handed to init, resources being given back
    | Gone       // hanging: its status waits for the parent

  /** `exit` is `exit_status`. */
  datatype Info = Info(pid: int, parent: int, exit: int, phase: Phase)

  /** `sys_wait` of `receiver` returned the status of `child`. */
  datatype Delivery = Delivery(child: Tid, receiver: Tid, status: int)

  /** Thread identities are never reused here, pids are. `order` is `thread_all_list`; `bits` the pid bitmap; `exited`
      and `log` record what was passed to exit and what wait returned. */
  datatype Sys = Sys(sched: Sched, info: map<Tid, Info>, order: seq<Tid>, bits: seq<bool>, next: Tid, init: Tid,
                     exited: map<Tid, int>, log: seq<Delivery>)

  /** Assignment of an int to the `int8_t` field. */
  function Narrow(status: int): (r: int)
    ensures -128 <= r < 128 && (r - status) % 256 == 0
  {
    (status + 128) % 256 - 128
  }

  // ---------------------------------------------------------------- list_traversal

  function First(order: seq<Tid>, p: Tid -> bool): (r: int)
    ensures -1 <= r < |order|
    ensures r >= 0 ==> p(order[r]) && forall i | 0 <= i < r :: !p(order[i])
    ensures r == -1 ==> forall t | t in order :: !p(t)
  {
    if order == [] then -1
    else if p(order[0]) then 0
    else
      var r := First(order[1..], p);
      if r == -1 then -1 else r + 1
  }

  predicate HangingChild(s: Sys, t: Tid, pid: int) {
    t in s.info && t in s.sched.status && s.info[t].parent == pid && s.sched.status[t] == HANGING
  }

  predicate Child(s: Sys, t: Tid, pid: int) { t in s.info && s.info[t].parent == pid }

  predicate HasPid(s: Sys, t: Tid, pid: int) { t in s.info && s.info[t].pid == pid }

  // ---------------------------------------------------------------- the system calls

  function SetPhase(s: Sys, t: Tid, p: Phase): Sys
    requires t in s.info
  {
    s.(info := s.info[t := s.info[t].(phase := p)])
  }

  function WithSched(s: Sys, r: Result<Sched>): Result<Sys> {
    if r.Ok? then Ok(s.(sched := r.v)) else Panic
  }

  /** A new task: the lowest free pid, ready, last in the list of all threads. */
  function Add(s: Sys, parent: int, phase: Phase): Result<Sys> {
    var i := FirstClear(s.bits);
    if i == -1 then Panic
    else
      WithSched(s.(info := s.info[s.next := Info(i + 1, parent, 0, phase)], order := s.order + [s.next],
                   bits := s.bits[i := true], next := s.next + 1), Create(s.sched, s.next))
  }

  function Fork(s: Sys): Result<Sys>
    requires s.sched.cur in s.info
  {
    Add(s, s.info[s.sched.cur].pid, User)
  }

  /** `thread_exit`: off all lists, pid given back. */
  function Drop(s: Sys, t: Tid): Result<Sys>
    requires t in s.info
  {
    var i := s.info[t].pid - 1;
    if !(0 <= i < |s.bits|) then Panic
    else WithSched(s.(info := s.info - {t}, order := Without(s.order, t), bits := s.bits[i := false]), Exit(s.sched, t))
  }

  /** One turn of the loop in `sys_wait`. */
  function WaitTurn(s: Sys): Result<Sys>
    requires s.sched.cur in s.info
  {
    var cur := s.sched.cur;
    var pid := s.info[cur].pid;
    var h := First(s.order, t => HangingChild(s, t, pid));
    if h != -1 then
      var c := s.order[h];
      assert HangingChild(s, c, pid);
      var d := Drop(SetPhase(s, cur, User), c);
      if d.Ok? then Ok(d.v.(log := s.log + [Delivery(c, cur, s.info[c].exit)])) else Panic
    else if First(s.order, t => Child(s, t, pid)) == -1 then Ok(SetPhase(s, cur, User))
    else WithSched(SetPhase(s, cur, Waiting), Block(s.sched, WAITING))
  }

  function Adopted(info: map<Tid, Info>, pid: int): map<Tid, Info> {
    map t | t in info :: if info[t].parent == pid then info[t].(parent := INIT_PID) else info[t]
  }

  /** `sys_exit` up to where the resources are given back. */
  function ExitStart(s: Sys, status: int): Result<Sys>
    requires s.sched.cur in s.info
  {
    var cur := s.sched.cur;
    if s.info[cur].parent == NO_PARENT then Panic
    else
      var s1 := s.(info := s.info[cur := s.info[cur].(exit := Narrow(status), phase := Exiting)],
        exited := s.exited[cur := status]);
      Ok(s1.(info := Adopted(s1.info, s.info[cur].pid)))
  }

  /** The rest of `sys_exit`: wake the parent if it waits, then hang. */
  function ExitEnd(s: Sys): Result<Sys>
    requires s.sched.cur in s.info
  {
    var cur := s.sched.cur;
    var p := First(s.order, t => HasPid(s, t, s.info[cur].parent));
    if p == -1 then Panic
    else
      var parent := s.order[p];
      if parent !in s.sched.status then Panic
      else
        var woken := if s.sched.status[parent] == WAITING then Unblock(s.sched, parent) else Ok(s.sched);
        if woken.Panic? then Panic
        else WithSched(SetPhase(s, cur, Gone), Block(woken.v, HANGING))
  }

  datatype Action =
    | DoFork
    | DoWait             // sys_wait is called, or continues after having been woken
    | DoExit(status: int)
    | DoHang             // sys_exit continues
    | Tick
    | GiveWay
    | Sleep              // a lock, a disk or a key is waited for
    | Wake(t: Tid)       // and comes
    | Spawn              // thread_create or process_execute
    | EndKernelThread    // thread_exit of the running kernel thread

  predicate Enabled(s: Sys, a: Action) {
    var cur := s.sched.cur;
    cur in s.info && match a
    case DoFork => s.info[cur].phase == User && Free(s.bits) > 0
    case DoWait => s.info[cur].phase == User || s.info[cur].phase == Waiting
    case DoExit(_) => s.info[cur].phase == User
    case DoHang => s.info[cur].phase == Exiting
    case Tick => true
    case GiveWay => true
    case Sleep => s.info[cur].phase != Waiting
    case Wake(t) => t in s.sched.status && s.sched.status[t] == BLOCKED
    case Spawn => Free(s.bits) > 0
    case EndKernelThread => s.info[cur].phase == Kernel && cur != s.sched.idle
  }

  function Step(s: Sys, a: Action): Result<Sys> {
    if s.sched.cur !in s.info then Panic
    else match a
    case DoFork => Fork(s)
    case DoWait => WaitTurn(s)
    case DoExit(status) => ExitStart(s, status)
    case DoHang => ExitEnd(s)
    case Tick => WithSched(s, Schedule(s.sched))
    case GiveWay => WithSched(s, Yield(s.sched))
    case Sleep => WithSched(s, Block(s.sched, BLOCKED))
    case Wake(t) => WithSched(s, Unblock(s.sched, t))
    case Spawn => Add(s, NO_PARENT, Kernel)
    case EndKernelThread => Drop(s, s.sched.cur)
  }

  // ---------------------------------------------------------------- invariant

  ghost predicate LivePid(s: Sys, pid: int) { exists t :: HasPid(s, t, pid) }

  ghost predicate Childless(s: Sys, pid: int) { forall t :: !Child(s, t, pid) }

  /** Live pids are unique and are what the bitmap has set. */
  ghost predicate PidsOk(s: Sys) {
    && (forall t | t in s.info :: 1 <= s.info[t].pid <= |s.bits| && s.bits[s.info[t].pid - 1])
    && (forall t, u | t in s.info && u in s.info && s.info[t].pid == s.info[u].pid :: t == u)
    && (forall i | 0 <= i < |s.bits| && s.bits[i] :: LivePid(s, i + 1))
  }

  /** `p` is live, not exiting, older than `t` and its parent; so there are no cycles. */
  predicate Parents(s: Sys, p: Tid, t: Tid) {
    && p in s.info && t in s.info && p < t && s.info[p].pid == s.info[t].parent
    && (s.info[p].phase == User || s.info[p].phase == Waiting)
  }

  ghost predicate HasParent(s: Sys, t: Tid) {
    t in s.info && (s.info[t].parent == NO_PARENT || exists p :: Parents(s, p, t))
  }

  ghost predicate ParentsOk(s: Sys) { forall t | t in s.info :: HasParent(s, t) }

  ghost predicate InitOk(s: Sys) {
    && s.init in s.info && s.info[s.init].pid == INIT_PID && s.info[s.init].parent == NO_PARENT
    && (s.info[s.init].phase == User || s.info[s.init].phase == Waiting)
  }

  /** The status fits the phase; a thread hangs exactly when it is gone. */
  predicate StatusOk(s: Sys, t: Tid)
    requires t in s.info && t in s.sched.status
  {
    var st := s.sched.status[t];
    match s.info[t].phase
    case Kernel => st != WAITING && st != HANGING && s.info[t].parent == NO_PARENT
    case User => st != WAITING && st != HANGING && t != s.sched.idle
    case Exiting => st != WAITING && st != HANGING && t != s.sched.idle && s.info[t].parent != NO_PARENT
    case Waiting => st != BLOCKED && st != HANGING && t != s.sched.idle
    case Gone => st == HANGING && t != s.sched.idle && s.info[t].parent != NO_PARENT
  }

  ghost predicate ListsOk(s: Sys) {
    && Scheduler.Inv(s.sched) && s.info.Keys == s.sched.status.Keys
    && Distinct(s.order) && (forall t :: t in s.order <==> t in s.info)
    && (forall t | t in s.info :: StatusOk(s, t) && s.init <= t < s.next)
  }

  /** A thread blocked in `sys_wait` has a child, and, unless it is init, none of its children hangs. */
  ghost predicate WaitOk(s: Sys, t: Tid)
    requires t in s.info && t in s.sched.status
  {
    s.sched.status[t] == WAITING ==>
      && (exists c :: Child(s, c, s.info[t].pid))
      && (t != s.init ==> forall c | Child(s, c, s.info[t].pid) :: s.info[c].phase != Gone)
  }

  ghost predicate WaitsOk(s: Sys) { forall t | t in s.info && t in s.sched.status :: WaitOk(s, t) }

  /** What was delivered was passed to exit, by a thread that is no more, and never twice. */
  ghost predicate LogOk(s: Sys) {
    && (forall i, j | 0 <= i < j < |s.log| :: s.log[i].child != s.log[j].child)
    && (forall i | 0 <= i < |s.log| ::
       s.log[i].child !in s.info && s.log[i].child in s.exited && s.log[i].status == Narrow(s.exited[s.log[i].child]))
    && (forall t | t in s.exited :: t < s.next)
    && (forall t | t in s.info :: (t in s.exited <==> s.info[t].phase == Exiting || s.info[t].phase == Gone)
                                  && (t in s.exited ==> s.info[t].exit == Narrow(s.exited[t])))
  }

  ghost predicate TreeInv(s: Sys) {
    ListsOk(s) && PidsOk(s) && ParentsOk(s) && InitOk(s) && WaitsOk(s) && LogOk(s)
  }

  // ---------------------------------------------------------------- scheduling alone

  /** A scheduling decision after which everybody but idle is parked or not as before. */
  lemma Rescheduled(s: Sys, mid: Sched, r: Sched)
    requires TreeInv(s) && mid.status.Keys == s.sched.status.Keys && mid.idle == s.sched.idle
    requires forall t | t in mid.status ::
      mid.status[t] == s.sched.status[t] || (mid.status[t] != WAITING && mid.status[t] != HANGING &&
      s.sched.status[t] == RUNNING && s.info[t].phase != Waiting)
    requires Scheduler.Inv(r) && SameParked(mid, r)
    ensures TreeInv(s.(sched := r))
  {
    hide PidsOk, ParentsOk, InitOk, LogOk, ReadyOk;
    var n := s.(sched := r);
    assert PidsOk(n) && ParentsOk(n) && InitOk(n) && LogOk(n) by { SameTree(s, n); }
    forall t | t in n.info ensures StatusOk(n, t) && n.init <= t < n.next && WaitOk(n, t) {
      assert StatusOk(s, t) && WaitOk(s, t);
      assert forall c, p :: Child(n, c, p) <==> Child(s, c, p);
    }
  }

  lemma SameTree(s: Sys, n: Sys)
    requires n == s.(sched := n.sched)
    ensures PidsOk(s) ==> PidsOk(n)
    ensures ParentsOk(s) ==> ParentsOk(n)
    ensures InitOk(s) ==> InitOk(n)
    ensures LogOk(s) ==> LogOk(n)
  {
    hide PidsOk, ParentsOk;
    SamePids(s, n);
    SameParents(s, n);
  }

  lemma SamePids(s: Sys, n: Sys)
    requires n == s.(sched := n.sched)
    ensures PidsOk(s) ==> PidsOk(n)
  {
    assert forall t, p :: HasPid(n, t, p) <==> HasPid(s, t, p);
    assert forall p :: LivePid(n, p) <==> LivePid(s, p);
  }

  lemma SameParents(s: Sys, n: Sys)
    requires n == s.(sched := n.sched)
    ensures ParentsOk(s) ==> ParentsOk(n)
  {
    assert forall t, p :: Parents(n, p, t) <==> Parents(s, p, t);
    assert forall t :: HasParent(n, t) <==> HasParent(s, t);
  }

  lemma TickKeeps(s: Sys)
    requires TreeInv(s)
    ensures Schedule(s.sched).Ok? && TreeInv(s.(sched := Schedule(s.sched).v))
    ensures Yield(s.sched).Ok? && TreeInv(s.(sched := Yield(s.sched).v))
  {
    hide PidsOk, ParentsOk, InitOk, LogOk, ReadyOk, WaitsOk;
    ScheduleKeeps(s.sched);
    YieldKeeps(s.sched);
    Rescheduled(s, s.sched, Schedule(s.sched).v);
    Rescheduled(s, s.sched, Yield(s.sched).v);
  }

  lemma SleepKeeps(s: Sys)
    requires TreeInv(s) && Enabled(s, Sleep)
    ensures Block(s.sched, BLOCKED).Ok? && TreeInv(s.(sched := Block(s.sched, BLOCKED).v))
  {
    hide PidsOk, ParentsOk, InitOk, LogOk, ReadyOk, WaitsOk;
    BlockKeeps(s.sched, BLOCKED);
    Rescheduled(s, s.sched.(status := s.sched.status[s.sched.cur := BLOCKED]), Block(s.sched, BLOCKED).v);
  }

  /** Waking a BLOCKED thread, or one that waits. */
  lemma AwakenKeeps(s: Sys, t: Tid)
    requires TreeInv(s) && t in s.sched.status && (s.sched.status[t] == BLOCKED || s.sched.status[t] == WAITING)
    ensures Unblock(s.sched, t).Ok? && TreeInv(s.(sched := Unblock(s.sched, t).v))
  {
    hide PidsOk, ParentsOk, InitOk, LogOk, ReadyOk;
    WakeKeeps(s.sched, t);
    var n := s.(sched := Unblock(s.sched, t).v);
    SameTree(s, n);
    forall u | u in n.info ensures StatusOk(n, u) && WaitOk(n, u) {
      assert StatusOk(s, u) && WaitOk(s, u);
      assert forall c, p :: Child(n, c, p) <==> Child(s, c, p);
    }
  }

  // ---------------------------------------------------------------- new tasks

  ghost predicate MayParent(s: Sys, parent: int) {
    parent == NO_PARENT || exists p :: HasPid(s, p, parent) && (s.info[p].phase == User || s.info[p].phase == Waiting)
  }

  /** The state with one more task, before anything about it is known. */
  ghost predicate Grown(s: Sys, n: Sys, i: int, parent: int, phase: Phase) {
    && 0 <= i < |s.bits| && !s.bits[i] && (phase == User || (phase == Kernel && parent == NO_PARENT))
    && n == s.(sched := n.sched, info := s.info[s.next := Info(i + 1, parent, 0, phase)], order := s.order + [s.next],
               bits := s.bits[i := true], next := s.next + 1)
    && s.next !in s.info && (forall t | t in s.info :: t < s.next)
  }

  /** A pid whose bit is clear is nobody's, and nobody's parent's. */
  lemma FreshPid(s: Sys, i: int)
    requires PidsOk(s) && ParentsOk(s) && 0 <= i < |s.bits| && !s.bits[i]
    ensures !LivePid(s, i + 1) && Childless(s, i + 1)
  {
    var pid := i + 1;
    forall t ensures !Child(s, t, pid) {
      assert t in s.info ==> HasParent(s, t);
    }
  }

  lemma AddPids(s: Sys, n: Sys, i: int, parent: int, phase: Phase)
    requires Grown(s, n, i, parent, phase) && PidsOk(s) && !LivePid(s, i + 1)
    ensures PidsOk(n)
  {
    hide LivePid;
    AddLive(s, n, i, parent, phase);
    forall t | t in s.info ensures s.info[t].pid != i + 1 { NotLive(s, i + 1, t); }
  }

  lemma NotLive(s: Sys, pid: int, t: Tid)
    requires !LivePid(s, pid) && t in s.info
    ensures s.info[t].pid != pid
  {
    assert !HasPid(s, t, pid);
  }

  lemma AddLive(s: Sys, n: Sys, i: int, parent: int, phase: Phase)
    requires Grown(s, n, i, parent, phase) && PidsOk(s)
    ensures forall k | 0 <= k < |n.bits| && n.bits[k] :: LivePid(n, k + 1)
  {
    assert HasPid(n, s.next, i + 1);
    assert forall t, p :: HasPid(s, t, p) ==> HasPid(n, t, p);
    forall k | 0 <= k < |n.bits| && n.bits[k] ensures LivePid(n, k + 1) {
      assert k != i ==> LivePid(s, k + 1);
    }
  }

  lemma AddParents(s: Sys, n: Sys, i: int, parent: int, phase: Phase)
    requires Grown(s, n, i, parent, phase) && ParentsOk(s) && MayParent(s, parent)
    ensures ParentsOk(n)
  {
    forall t | t in n.info ensures HasParent(n, t) {
      if t == s.next {
        if parent != NO_PARENT {
          var p :| HasPid(s, p, parent) && (s.info[p].phase == User || s.info[p].phase == Waiting);
          assert Parents(n, p, t);
        }
      } else {
        assert HasParent(s, t);
        if s.info[t].parent != NO_PARENT {
          var p :| Parents(s, p, t);
          assert Parents(n, p, t);
        }
      }
    }
  }

  lemma AddWaits(s: Sys, n: Sys, i: int, parent: int, phase: Phase)
    requires Grown(s, n, i, parent, phase) && WaitsOk(s) && s.info.Keys == s.sched.status.Keys
    requires n.sched.status == s.sched.status[s.next := READY]
    ensures WaitsOk(n)
  {
    forall t | t in n.info && t in n.sched.status ensures WaitOk(n, t) {
      if t != s.next {
        assert WaitOk(s, t);
        if s.sched.status[t] == WAITING {
          var c :| Child(s, c, s.info[t].pid);
          assert Child(n, c, n.info[t].pid);
          forall c | Child(n, c, n.info[t].pid) && t != n.init ensures n.info[c].phase != Gone {
            assert c != s.next ==> Child(s, c, s.info[t].pid);
          }
        }
      }
    }
  }

  lemma AddLists(s: Sys, n: Sys, i: int, parent: int, phase: Phase)
    requires Grown(s, n, i, parent, phase) && ListsOk(s) && Create(s.sched, s.next).Ok? &&
      n.sched == Create(s.sched, s.next).v
    ensures ListsOk(n) && n.sched.status == s.sched.status[s.next := READY]
  {
    hide ReadyOk;
    CreateKeeps(s.sched, s.next);
    Appended(s.order, s.next);
    forall t | t in n.info ensures StatusOk(n, t) && n.init <= t < n.next {
      assert t != s.next ==> StatusOk(s, t);
    }
  }

  lemma AddLog(s: Sys, n: Sys, i: int, parent: int, phase: Phase)
    requires Grown(s, n, i, parent, phase) && LogOk(s) && InitOk(s)
    ensures LogOk(n) && InitOk(n)
  {
    hide Narrow;
  }

  /** A new task keeps everything; its pid was nobody's and nobody's parent's. */
  lemma AddKeeps(s: Sys, parent: int, phase: Phase)
    requires TreeInv(s) && Free(s.bits) > 0 && (phase == User || (phase == Kernel && parent == NO_PARENT)) &&
      MayParent(s, parent)
    ensures Add(s, parent, phase).Ok? && TreeInv(Add(s, parent, phase).v)
    ensures var pid := FirstClear(s.bits) + 1; pid > 0 && !LivePid(s, pid) && Childless(s, pid)
  {
    hide PidsOk, ParentsOk, InitOk, LogOk, WaitsOk, StatusOk, ReadyOk, MayParent, Childless, LivePid;
    var i := FirstClear(s.bits);
    CreateKeeps(s.sched, s.next);
    var n := Add(s, parent, phase).v;
    assert Grown(s, n, i, parent, phase);
    FreshPid(s, i);
    AddPids(s, n, i, parent, phase);
    AddParents(s, n, i, parent, phase);
    AddLists(s, n, i, parent, phase);
    AddLog(s, n, i, parent, phase);
    AddWaits(s, n, i, parent, phase);
  }

  // ---------------------------------------------------------------- tasks that go

  /** Nobody is the child of a thread that is exiting, gone or of the kernel. */
  lemma NoChildren(s: Sys, t: Tid)
    requires PidsOk(s) && ParentsOk(s) && t in s.info && s.info[t].phase != User && s.info[t].phase != Waiting
    ensures Childless(s, s.info[t].pid)
  {
    forall c ensures !Child(s, c, s.info[t].pid) {
      assert c in s.info ==> HasParent(s, c);
    }
  }

  ghost predicate Shrunk(s: Sys, n: Sys, t: Tid) {
    && t in s.info && 0 <= s.info[t].pid - 1 < |s.bits|
    && n == s.(sched := n.sched, info := s.info - {t}, order := Without(s.order, t),
       bits := s.bits[s.info[t].pid - 1 := false])
  }

  lemma DropPids(s: Sys, n: Sys, t: Tid)
    requires Shrunk(s, n, t) && PidsOk(s)
    ensures PidsOk(n)
  {
    forall k | 0 <= k < |n.bits| && n.bits[k] ensures LivePid(n, k + 1) {
      assert LivePid(s, k + 1);
      var u :| HasPid(s, u, k + 1);
      assert HasPid(n, u, k + 1);
    }
  }

  lemma DropParents(s: Sys, n: Sys, t: Tid)
    requires Shrunk(s, n, t) && ParentsOk(s) && Childless(s, s.info[t].pid)
    ensures ParentsOk(n)
  {
    forall u | u in n.info ensures HasParent(n, u) {
      assert HasParent(s, u) && !Child(s, u, s.info[t].pid);
      if s.info[u].parent != NO_PARENT {
        var p :| Parents(s, p, u);
        assert Parents(n, p, u);
      }
    }
  }

  lemma DropWaits(s: Sys, n: Sys, t: Tid)
    requires Shrunk(s, n, t) && WaitsOk(s) && s.info.Keys == s.sched.status.Keys
    requires forall u | u in n.info && u in n.sched.status && n.sched.status[u] == WAITING ::
      s.sched.status[u] == WAITING && !Child(s, t, s.info[u].pid)
    ensures WaitsOk(n)
  {
    forall u | u in n.info && u in n.sched.status ensures WaitOk(n, u) {
      assert WaitOk(s, u);
      if n.sched.status[u] == WAITING {
        var c :| Child(s, c, s.info[u].pid);
        assert Child(n, c, n.info[u].pid);
        assert forall c | Child(n, c, n.info[u].pid) :: Child(s, c, s.info[u].pid);
      }
    }
  }

  lemma DropLists(s: Sys, n: Sys, t: Tid)
    requires Shrunk(s, n, t) && ListsOk(s) && t != s.sched.idle
    requires Exit(s.sched, t).Ok? && n.sched == Exit(s.sched, t).v
    ensures ListsOk(n)
    ensures forall u | u in n.info :: n.sched.status[u] == WAITING <==> s.sched.status[u] == WAITING
  {
    hide ReadyOk, Exit, StatusOk;
    ExitKeeps(s.sched, t);
    WithoutDistinct(s.order, t);
    forall u | u in n.info ensures StatusOk(n, u) && (n.sched.status[u] == WAITING <==> s.sched.status[u] == WAITING) {
      DropStatus(s, n, t, u);
    }
  }

  lemma DropStatus(s: Sys, n: Sys, t: Tid, u: Tid)
    requires Shrunk(s, n, t) && ListsOk(s) && t != s.sched.idle && u in n.info
    requires Exit(s.sched, t).Ok? && n.sched == Exit(s.sched, t).v
    ensures u in n.sched.status && u in s.sched.status && StatusOk(n, u)
    ensures n.sched.status[u] == WAITING <==> s.sched.status[u] == WAITING
  {
    hide ReadyOk, Exit, Distinct;
    ExitKeeps(s.sched, t);
    assert StatusOk(s, u);
  }

  lemma DropLog(s: Sys, n: Sys, t: Tid)
    requires Shrunk(s, n, t) && LogOk(s) && InitOk(s) && t != s.init
    ensures LogOk(n) && InitOk(n)
  {
    hide Narrow;
  }

  /** `thread_exit` of a thread without children that nobody waits for. */
  lemma DropKeeps(s: Sys, t: Tid)
    requires TreeInv(s) && t in s.info && s.info[t].phase != User && s.info[t].phase != Waiting && t != s.sched.idle
    requires forall u | u in s.info && s.sched.status[u] == WAITING :: !Child(s, t, s.info[u].pid)
    ensures Drop(s, t).Ok? && TreeInv(Drop(s, t).v)
  {
    hide PidsOk, ParentsOk, WaitsOk, LogOk, StatusOk, Childless, Exit;
    PidRange(s, t);
    assert t != s.init && t in s.sched.status;
    ExitKeeps(s.sched, t);
    var n := Drop(s, t).v;
    assert Shrunk(s, n, t);
    NoChildren(s, t);
    DropPids(s, n, t);
    DropParents(s, n, t);
    DropLists(s, n, t);
    DropLog(s, n, t);
    DropWaits(s, n, t);
  }

  lemma PidRange(s: Sys, t: Tid)
    requires PidsOk(s) && t in s.info
    ensures 0 <= s.info[t].pid - 1 < |s.bits|
  {
  }

  lemma KernelEnds(s: Sys)
    requires TreeInv(s) && Enabled(s, EndKernelThread)
    ensures Step(s, EndKernelThread).Ok? && TreeInv(Step(s, EndKernelThread).v)
  {
    hide PidsOk, WaitsOk, LogOk, ParentsOk, Drop;
    var cur := s.sched.cur;
    assert StatusOk(s, cur);
    forall u | u in s.info ensures !Child(s, cur, s.info[u].pid) { PidRange(s, u); }
    DropKeeps(s, cur);
  }

  // ---------------------------------------------------------------- sys_wait

  /** The running process moves between its own code and `sys_wait`. */
  lemma PhaseKeeps(s: Sys, p: Phase)
    requires TreeInv(s) && (p == User || p == Waiting) && s.sched.cur in s.info &&
      (s.info[s.sched.cur].phase == User || s.info[s.sched.cur].phase == Waiting)
    ensures TreeInv(SetPhase(s, s.sched.cur, p))
  {
    hide ReadyOk, PidsOk, ParentsOk, LogOk, WaitsOk, ListsOk;
    var n := SetPhase(s, s.sched.cur, p);
    PhasePids(s, n);
    PhaseParents(s, n);
    PhaseLog(s, n);
    PhaseLists(s, p);
    PhaseWaits(s, p);
  }

  lemma PhaseLists(s: Sys, p: Phase)
    requires ListsOk(s) && (p == User || p == Waiting) && s.sched.cur in s.info &&
      (s.info[s.sched.cur].phase == User || s.info[s.sched.cur].phase == Waiting)
    ensures ListsOk(SetPhase(s, s.sched.cur, p))
  {
    hide ReadyOk;
    var n := SetPhase(s, s.sched.cur, p);
    forall t | t in n.info ensures StatusOk(n, t) { assert StatusOk(s, t); }
  }

  lemma PhaseWaits(s: Sys, p: Phase)
    requires WaitsOk(s) && (p == User || p == Waiting) && s.sched.cur in s.info &&
      (s.info[s.sched.cur].phase == User || s.info[s.sched.cur].phase == Waiting)
    ensures WaitsOk(SetPhase(s, s.sched.cur, p))
  {
    var n := SetPhase(s, s.sched.cur, p);
    assert forall c, q :: Child(n, c, q) <==> Child(s, c, q);
    forall t | t in n.info && t in n.sched.status ensures WaitOk(n, t) { assert WaitOk(s, t); }
  }

  /** Pids and parents are as they were, and nobody who could be a parent no longer can. */
  ghost predicate SameFamily(s: Sys, n: Sys) {
    && n.bits == s.bits && n.info.Keys == s.info.Keys
    && (forall t | t in s.info :: n.info[t].pid == s.info[t].pid && n.info[t].parent == s.info[t].parent)
  }

  lemma PhasePids(s: Sys, n: Sys)
    requires PidsOk(s) && n.bits == s.bits && n.info.Keys == s.info.Keys && forall t | t in s.info ::
      n.info[t].pid == s.info[t].pid
    ensures PidsOk(n)
  {
    assert forall t, p :: HasPid(n, t, p) <==> HasPid(s, t, p);
    assert forall p :: LivePid(n, p) <==> LivePid(s, p);
  }

  lemma PhaseLog(s: Sys, n: Sys)
    requires LogOk(s) && n.info.Keys == s.info.Keys && n.log == s.log && n.exited == s.exited && n.next == s.next
    requires forall t | t in s.info :: n.info[t].exit == s.info[t].exit
    requires forall t | t in s.info ::
      (n.info[t].phase == Exiting || n.info[t].phase == Gone) <==>
      (s.info[t].phase == Exiting || s.info[t].phase == Gone)
    ensures LogOk(n)
  {
  }

  lemma PhaseParents(s: Sys, n: Sys)
    requires ParentsOk(s) && SameFamily(s, n)
    requires forall t | t in s.info && (s.info[t].phase == User || s.info[t].phase == Waiting) ::
      n.info[t].phase == User || n.info[t].phase == Waiting
    ensures ParentsOk(n)
  {
    forall u | u in n.info ensures HasParent(n, u) {
      assert HasParent(s, u);
      if s.info[u].parent != NO_PARENT {
        var p :| Parents(s, p, u);
        assert Parents(n, p, u);
      }
    }
  }

  /** A hanging child: its status goes to the caller, its parent, and it is no more. */
  lemma ReapKeeps(s: Sys, c: Tid)
    requires TreeInv(s) && s.sched.cur in s.info && (s.info[s.sched.cur].phase == User ||
      s.info[s.sched.cur].phase == Waiting)
    requires HangingChild(s, c, s.info[s.sched.cur].pid)
    ensures var cur := s.sched.cur; var d := Drop(SetPhase(s, cur, User), c);
      c in s.exited && s.info[c].exit == Narrow(s.exited[c]) && d.Ok? &&
        TreeInv(d.v.(log := s.log + [Delivery(c, cur, s.info[c].exit)]))
  {
    hide PidsOk, ParentsOk, WaitsOk, ReadyOk, Drop;
    var cur := s.sched.cur;
    PhaseKeeps(s, User);
    var s1 := SetPhase(s, cur, User);
    assert StatusOk(s1, c);
    forall u | u in s1.info && s1.sched.status[u] == WAITING ensures !Child(s1, c, s1.info[u].pid) {
      if Child(s1, c, s1.info[u].pid) { PidUnique(s1, u, cur); }
    }
    DropKeeps(s1, c);
    DropFrame(s1, c);
    var n := Drop(s1, c).v.(log := s.log + [Delivery(c, cur, s.info[c].exit)]);
    LogMore(Drop(s1, c).v, n);
  }

  lemma PidUnique(s: Sys, t: Tid, u: Tid)
    requires PidsOk(s) && t in s.info && u in s.info && s.info[t].pid == s.info[u].pid
    ensures t == u
  {
  }

  lemma DropFrame(s: Sys, t: Tid)
    requires t in s.info && Drop(s, t).Ok?
    ensures var n := Drop(s, t).v;
      n.log == s.log && n.exited == s.exited && n.info == s.info - {t} && n.init == s.init && n.next == s.next
  {
  }

  lemma LogMore(s: Sys, n: Sys)
    requires TreeInv(s) && n == s.(log := n.log) && |n.log| == |s.log| + 1 && n.log[..|s.log|] == s.log
    requires var d := n.log[|s.log|];
      d.child !in s.info && d.child in s.exited && d.status == Narrow(s.exited[d.child]) &&
        forall i | 0 <= i < |s.log| :: s.log[i].child != d.child
    ensures TreeInv(n)
  {
    hide ListsOk, PidsOk, ParentsOk, WaitsOk;
    LogFrame(s, n);
    forall i | 0 <= i < |s.log| ensures n.log[i] == s.log[i] { assert n.log[..|s.log|][i] == s.log[i]; }
  }

  lemma LogFrame(s: Sys, n: Sys)
    requires n == s.(log := n.log)
    ensures ListsOk(s) ==> ListsOk(n)
    ensures PidsOk(s) ==> PidsOk(n)
    ensures ParentsOk(s) ==> ParentsOk(n)
    ensures WaitsOk(s) ==> WaitsOk(n)
  {
    hide ReadyOk;
    if PidsOk(s) { PhasePids(s, n); }
    if ParentsOk(s) { PhaseParents(s, n); }
    assert forall c, q :: Child(n, c, q) <==> Child(s, c, q);
    if WaitsOk(s) { forall t | t in n.info && t in n.sched.status ensures WaitOk(n, t) { assert WaitOk(s, t); } }
    if ListsOk(s) { forall t | t in n.info ensures StatusOk(n, t) && n.init <= t < n.next { assert StatusOk(s, t); } }
  }

  /** No hanging child but others: the caller waits, and has a child that does not hang. */
  lemma BlockWaits(s: Sys)
    requires TreeInv(s) && s.sched.cur in s.info && s.info[s.sched.cur].phase == Waiting
    requires forall t :: !HangingChild(s, t, s.info[s.sched.cur].pid)
    requires exists t :: Child(s, t, s.info[s.sched.cur].pid)
    ensures Block(s.sched, WAITING).Ok? && TreeInv(s.(sched := Block(s.sched, WAITING).v))
  {
    hide PidsOk, ParentsOk, InitOk, LogOk, ReadyOk;
    var cur := s.sched.cur;
    assert StatusOk(s, cur);
    BlockKeeps(s.sched, WAITING);
    var r := Block(s.sched, WAITING).v;
    var n := s.(sched := r);
    SameTree(s, n);
    assert forall c, p :: Child(n, c, p) <==> Child(s, c, p);
    forall t | t in n.info ensures StatusOk(n, t) {
      assert StatusOk(s, t);
    }
    forall t | t in n.info ensures WaitOk(n, t) {
      assert WaitOk(s, t);
      if t == cur {
        forall c | Child(n, c, n.info[t].pid) ensures n.info[c].phase != Gone {
          assert StatusOk(s, c) && !HangingChild(s, c, s.info[cur].pid);
        }
      }
    }
  }

  lemma WaitKeeps(s: Sys)
    requires TreeInv(s) && Enabled(s, DoWait)
    ensures WaitTurn(s).Ok? && TreeInv(WaitTurn(s).v)
  {
    hide PidsOk, ParentsOk, WaitsOk, LogOk, StatusOk, ReadyOk, Drop, Block, Child, HangingChild, InitOk, Scheduler.Inv;
    var cur := s.sched.cur;
    var pid := s.info[cur].pid;
    var h := First(s.order, t => HangingChild(s, t, pid));
    if h != -1 {
      ReapKeeps(s, s.order[h]);
    } else if First(s.order, t => Child(s, t, pid)) == -1 {
      PhaseKeeps(s, User);
    } else {
      var s1 := SetPhase(s, cur, Waiting);
      PhaseKeeps(s, Waiting);
      WaitSame(s, s1, pid);
      BlockWaits(s1);
    }
  }

  lemma WaitSame(s: Sys, s1: Sys, pid: int)
    requires s.sched.cur in s.info && s1 == SetPhase(s, s.sched.cur, Waiting) && forall t ::
      t in s.order <==> t in s.info
    requires First(s.order, t => HangingChild(s, t, pid)) == -1 && First(s.order, t => Child(s, t, pid)) != -1
    ensures forall t :: !HangingChild(s1, t, pid)
    ensures exists t :: Child(s1, t, pid)
  {
    var c := s.order[First(s.order, t => Child(s, t, pid))];
    assert Child(s1, c, pid);
    forall t ensures !HangingChild(s1, t, pid) {
      assert t in s.order ==> !HangingChild(s, t, pid);
    }
  }

  // ---------------------------------------------------------------- sys_exit

  lemma ExitStartKeeps(s: Sys, status: int)
    requires TreeInv(s) && Enabled(s, DoExit(status))
    ensures ExitStart(s, status).Panic? <==> s.info[s.sched.cur].parent == NO_PARENT
    ensures ExitStart(s, status).Ok? ==> TreeInv(ExitStart(s, status).v)
  {
    hide PidsOk, ParentsOk, ReadyOk, LogOk, WaitOk, StatusOk;
    if ExitStart(s, status).Panic? { return; }
    var n := ExitStart(s, status).v;
    var cur := s.sched.cur;
    assert cur != s.init;
    PidRange(s, cur);
    PhasePids(s, n);
    AdoptParents(s, n, status);
    AdoptLists(s, n, status);
    forall t | t in n.info ensures WaitOk(n, t) {
      if s.sched.status[t] == WAITING { AdoptWaits(s, n, status, t); } else { NotWaiting(n, t); }
    }
  }

  lemma NotWaiting(s: Sys, t: Tid)
    requires t in s.info && t in s.sched.status && s.sched.status[t] != WAITING
    ensures WaitOk(s, t)
  {
  }

  lemma AdoptLists(s: Sys, n: Sys, status: int)
    requires ListsOk(s) && LogOk(s) && s.sched.cur in s.info && s.info[s.sched.cur].phase == User &&
      s.info[s.sched.cur].pid != NO_PARENT && ExitStart(s, status).Ok? && n == ExitStart(s, status).v
    ensures ListsOk(n) && LogOk(n)
  {
    hide ReadyOk;
    forall t | t in n.info ensures StatusOk(n, t) && n.init <= t < n.next {
      assert StatusOk(s, t);
    }
  }

  /** Every child of the exiting process gets init as its parent. */
  lemma AdoptParents(s: Sys, n: Sys, status: int)
    requires ParentsOk(s) && InitOk(s) && s.sched.cur in s.info && s.sched.cur != s.init && ExitStart(s, status).Ok? &&
      n == ExitStart(s, status).v
    requires s.info[s.sched.cur].pid != NO_PARENT && forall t | t in s.info :: s.init <= t
    ensures ParentsOk(n)
  {
    var cur := s.sched.cur;
    forall u | u in n.info ensures HasParent(n, u) {
      assert HasParent(s, u);
      if s.info[u].parent == s.info[cur].pid {
        assert Parents(n, s.init, u);
      } else if s.info[u].parent != NO_PARENT {
        var p :| Parents(s, p, u);
        assert Parents(n, p, u);
      }
    }
  }

  lemma AdoptWaits(s: Sys, n: Sys, status: int, t: Tid)
    requires TreeInv(s) && s.sched.cur in s.info && s.sched.cur != s.init && ExitStart(s, status).Ok? &&
      n == ExitStart(s, status).v
    requires t in s.info && s.sched.status[t] == WAITING
    ensures WaitOk(n, t)
  {
    hide ParentsOk, LogOk, ReadyOk;
    var cur := s.sched.cur;
    assert WaitOk(s, t) && s.sched.status[cur] == RUNNING;
    assert s.info[t].pid != s.info[cur].pid by { if s.info[t].pid == s.info[cur].pid { PidUnique(s, t, cur); } }
    var c :| Child(s, c, s.info[t].pid);
    assert Child(n, c, n.info[t].pid);
    if t != n.init {
      assert s.info[t].pid != INIT_PID by { if s.info[t].pid == INIT_PID { PidUnique(s, t, s.init); } }
      forall c | Child(n, c, n.info[t].pid) ensures n.info[c].phase != Gone {
        assert Child(s, c, s.info[t].pid);
      }
    }
  }

  /** The parent that `pid2thread` finds. */
  lemma FindsParent(s: Sys, t: Tid) returns (p: Tid)
    requires TreeInv(s) && t in s.info && s.info[t].parent != NO_PARENT
    ensures var i := First(s.order, u => HasPid(s, u, s.info[t].parent)); i != -1 && s.order[i] == p
    ensures Parents(s, p, t) && p in s.sched.status
  {
    hide WaitsOk, LogOk, ReadyOk;
    assert HasParent(s, t);
    p :| Parents(s, p, t);
    assert HasPid(s, p, s.info[t].parent);
    var i := First(s.order, u => HasPid(s, u, s.info[t].parent));
    PidUnique(s, p, s.order[i]);
  }

  lemma HangKeeps(s: Sys)
    requires TreeInv(s) && s.sched.cur in s.info && s.info[s.sched.cur].phase == Exiting
    requires forall t | t in s.info && s.sched.status[t] == WAITING && t != s.init ::
      s.info[t].pid != s.info[s.sched.cur].parent
    ensures Block(s.sched, HANGING).Ok? && TreeInv(SetPhase(s, s.sched.cur, Gone).(sched := Block(s.sched, HANGING).v))
  {
    hide PidsOk, ParentsOk, ReadyOk, LogOk, WaitsOk, Block;
    HangLists(s);
    var n := SetPhase(s, s.sched.cur, Gone).(sched := Block(s.sched, HANGING).v);
    PhasePids(s, n);
    PhaseParents(s, n);
    PhaseLog(s, n);
    HangWaits(s, n);
  }

  /** The caller hangs; nobody starts or stops waiting. */
  lemma HangLists(s: Sys)
    requires ListsOk(s) && s.sched.cur in s.info && s.info[s.sched.cur].phase == Exiting
    ensures Block(s.sched, HANGING).Ok?
    ensures var n := SetPhase(s, s.sched.cur, Gone).(sched := Block(s.sched, HANGING).v);
      ListsOk(n) && forall t | t in s.info :: n.sched.status[t] == WAITING <==> s.sched.status[t] == WAITING
  {
    hide ReadyOk, Block;
    var cur := s.sched.cur;
    assert StatusOk(s, cur);
    BlockKeeps(s.sched, HANGING);
    var n := SetPhase(s, cur, Gone).(sched := Block(s.sched, HANGING).v);
    forall t | t in n.info ensures StatusOk(n, t) && (n.sched.status[t] == WAITING <==> s.sched.status[t] == WAITING) {
      assert StatusOk(s, t);
    }
  }

  lemma HangWaits(s: Sys, n: Sys)
    requires WaitsOk(s) && s.sched.cur in s.info && s.info.Keys == s.sched.status.Keys
    requires n == SetPhase(s, s.sched.cur, Gone).(sched := n.sched) && n.sched.status.Keys == s.sched.status.Keys
    requires forall t | t in s.info :: n.sched.status[t] == WAITING <==> s.sched.status[t] == WAITING
    requires forall t | t in s.info && s.sched.status[t] == WAITING && t != s.init ::
      s.info[t].pid != s.info[s.sched.cur].parent
    ensures WaitsOk(n)
  {
    assert forall c, q :: Child(n, c, q) <==> Child(s, c, q);
    forall t | t in n.info ensures WaitOk(n, t) { assert WaitOk(s, t); }
  }

  lemma ExitEndKeeps(s: Sys)
    requires TreeInv(s) && Enabled(s, DoHang)
    ensures ExitEnd(s).Ok? && TreeInv(ExitEnd(s).v)
  {
    hide PidsOk, ParentsOk, WaitsOk, LogOk, ReadyOk, Block;
    var cur := s.sched.cur;
    assert StatusOk(s, cur);
    var p := FindsParent(s, cur);
    var s1 := s;
    if s.sched.status[p] == WAITING {
      AwakenKeeps(s, p);
      s1 := s.(sched := Unblock(s.sched, p).v);
    }
    forall t | t in s1.info && s1.sched.status[t] == WAITING ensures s1.info[t].pid != s1.info[cur].parent {
      if s1.info[t].pid == s1.info[cur].parent { PidUnique(s, t, p); }
    }
    HangKeeps(s1);
  }

  // ---------------------------------------------------------------- every step

  lemma ForkKeeps(s: Sys)
    requires TreeInv(s) && Enabled(s, DoFork)
    ensures Fork(s).Ok? && TreeInv(Fork(s).v)
  {
    hide TreeInv, Add;
    var cur := s.sched.cur;
    assert HasPid(s, cur, s.info[cur].pid);
    AddKeeps(s, s.info[cur].pid, User);
  }

  /** A process without a parent, such as init, asks to exit. */
  predicate Parentless(s: Sys, a: Action) { a.DoExit? && s.sched.cur in s.info &&
      s.info[s.sched.cur].parent == NO_PARENT }

  /** The only step that panics is the exit of a process without a parent; every other step keeps the invariant. */
  lemma StepKeeps(s: Sys, a: Action)
    requires TreeInv(s) && Enabled(s, a)
    ensures Step(s, a).Panic? <==> Parentless(s, a)
    ensures Step(s, a).Ok? ==> TreeInv(Step(s, a).v)
  {
    hide TreeInv, WaitTurn, ExitStart, ExitEnd, Fork, Drop, Add;
    match a
    case DoFork => ForkKeeps(s);
    case DoWait => WaitKeeps(s);
    case DoExit(status) => ExitStartKeeps(s, status);
    case DoHang => ExitEndKeeps(s);
    case Tick => TickKeeps(s);
    case GiveWay => TickKeeps(s);
    case Sleep => SleepKeeps(s);
    case Wake(t) => AwakenKeeps(s, t);
    case Spawn => AddKeeps(s, NO_PARENT, Kernel);
    case EndKernelThread => KernelEnds(s);
  }
}
