/** Runs of the process tree from boot: what every reachable state satisfies, what wait delivered, and when init is left
    waiting on a child that hangs. */
module ProcessRuns {
  import opened Scheduler
  import opened Bitmap
  import opened ProcessTree

  predicate Legal(s: Sys, acts: seq<Action>)
    decreases |acts|
  {
    acts == [] || (Enabled(s, acts[0]) && (Step(s, acts[0]).Ok? ==> Legal(Step(s, acts[0]).v, acts[1..])))
  }

  function Run(s: Sys, acts: seq<Action>): Result<Sys>
    decreases |acts|
  {
    if acts == [] then Ok(s)
    else if Step(s, acts[0]).Ok? then Run(Step(s, acts[0]).v, acts[1..])
    else Panic
  }

  /** The first `k` pids in use, except the second if there is a hole. */
  function Marks(k: nat, hole: bool): seq<bool> { seq(1024, i => i < k && !(hole && i == 1)) }

  /** After boot: init, the kernel's main thread and idle, made in that order. */
  function Boot(): Sys {
    Sys(Sched(map[0 := READY, 1 := RUNNING, 2 := READY], [0, 2], 1, 2),
        map[0 := Info(1, NO_PARENT, 0, User), 1 := Info(2, NO_PARENT, 0, Kernel), 2 := Info(3, NO_PARENT, 0, Kernel)],
        [0, 1, 2], Marks(3, false), 3, 0, map[], [])
  }

  lemma BootOk()
    ensures TreeInv(Boot())
  {
    hide PidsOk, ListsOk, WaitsOk;
    BootPids();
    BootLists();
  }

  lemma BootPids()
    ensures PidsOk(Boot()) && WaitsOk(Boot())
  {
    var s := Boot();
    BootBits(s.bits);
    BootInfo(s);
    forall i | 0 <= i < |s.bits| && s.bits[i] ensures LivePid(s, i + 1) { assert HasPid(s, i, i + 1); }
  }

  lemma BootInfo(s: Sys)
    requires s == Boot()
    ensures s.info.Keys == {0, 1, 2} && (forall t | t in s.info :: s.info[t].pid == t + 1)
    ensures s.sched.status.Keys == {0, 1, 2} && (forall t | t in s.sched.status :: s.sched.status[t] != WAITING)
  {
  }

  lemma BootBits(bits: seq<bool>)
    requires bits == Boot().bits
    ensures |bits| == 1024 && forall i | 0 <= i < 1024 :: bits[i] <==> i < 3
  {
  }

  lemma BootLists()
    ensures ListsOk(Boot())
  {
    var s := Boot();
    assert s.info.Keys == {0, 1, 2} == s.sched.status.Keys;
  }

  /** Some action of the run is the exit of a process without a parent. */
  predicate EndsInPanic(s: Sys, acts: seq<Action>)
    decreases |acts|
  {
    acts != [] && (Parentless(s, acts[0]) || (Step(s, acts[0]).Ok? && EndsInPanic(Step(s, acts[0]).v, acts[1..])))
  }

  /** Over every run the invariant holds, and nothing panics but the exit of a process without a parent. */
  lemma {:induction false} RunSafe(s: Sys, acts: seq<Action>)
    requires TreeInv(s) && Legal(s, acts)
    ensures Run(s, acts).Panic? <==> EndsInPanic(s, acts)
    ensures Run(s, acts).Ok? ==> TreeInv(Run(s, acts).v)
    decreases |acts|
  {
    hide TreeInv, Step, Enabled, Parentless;
    if acts != [] {
      StepKeeps(s, acts[0]);
      if Step(s, acts[0]).Ok? { RunSafe(Step(s, acts[0]).v, acts[1..]); }
    }
  }

  // ---------------------------------------------------------------- history

  /** In the run thread `t` called exit with `status`. */
  predicate DidExit(s: Sys, acts: seq<Action>, t: Tid, status: int)
    decreases |acts|
  {
    acts != [] && Step(s, acts[0]).Ok? &&
    ((s.sched.cur == t && acts[0] == DoExit(status)) || DidExit(Step(s, acts[0]).v, acts[1..], t, status))
  }

  /** In the run `d.receiver` called wait while `d.child` was a hanging child of its own. */
  predicate Received(s: Sys, acts: seq<Action>, d: Delivery)
    decreases |acts|
  {
    && acts != [] && Step(s, acts[0]).Ok?
    && (|| (&& acts[0] == DoWait && s.sched.cur == d.receiver && d.receiver in s.info
            && HangingChild(s, d.child, s.info[d.receiver].pid))
        || Received(Step(s, acts[0]).v, acts[1..], d))
  }

  /** What a step adds to the record. */
  lemma StepHistory(s: Sys, a: Action)
    requires TreeInv(s) && Enabled(s, a) && Step(s, a).Ok?
    ensures var n := Step(s, a).v;
      || n.log == s.log
      || (a == DoWait && exists d ::
         n.log == s.log + [d] && d.receiver == s.sched.cur && HangingChild(s, d.child, s.info[s.sched.cur].pid))
    ensures var n := Step(s, a).v;
      n.exited == s.exited || (a.DoExit? && n.exited == s.exited[s.sched.cur := a.status])
  {
    hide TreeInv, Schedule, Unblock, Block, Yield, Create, Exit, HangingChild, Child, Narrow, Adopted, FirstClear;
    if a == DoWait { WaitHistory(s); }
  }

  lemma WaitHistory(s: Sys)
    requires s.sched.cur in s.info && WaitTurn(s).Ok?
    ensures var n := WaitTurn(s).v;
      && n.exited == s.exited
      && (n.log == s.log || exists d ::
         n.log == s.log + [d] && d.receiver == s.sched.cur && HangingChild(s, d.child, s.info[s.sched.cur].pid))
  {
    hide Block, Exit;
    var cur := s.sched.cur;
    var pid := s.info[cur].pid;
    var h := First(s.order, t => HangingChild(s, t, pid));
    if h != -1 {
      var c := s.order[h];
      var d := Delivery(c, cur, s.info[c].exit);
      assert WaitTurn(s).v.log == s.log + [d];
    }
  }

  /** Whatever was delivered was received by the parent at that time; whatever status is on record was passed to
      exit. */
  lemma {:induction false} RunHistory(s: Sys, acts: seq<Action>)
    requires TreeInv(s) && Legal(s, acts) && Run(s, acts).Ok?
    ensures var n := Run(s, acts).v;
      && s.log <= n.log && (forall i | |s.log| <= i < |n.log| :: Received(s, acts, n.log[i]))
      && (forall t | t in n.exited :: (t in s.exited && n.exited[t] == s.exited[t]) || DidExit(s, acts, t, n.exited[t]))
    decreases |acts|
  {
    hide TreeInv, Step, Enabled, HangingChild, Parentless;
    if acts != [] {
      InitThere(s);
      StepKeeps(s, acts[0]);
      StepHistory(s, acts[0]);
      var m := Step(s, acts[0]).v;
      RunHistory(m, acts[1..]);
      var n := Run(s, acts).v;
      assert n == Run(m, acts[1..]).v;
      forall i | |s.log| <= i < |n.log| ensures Received(s, acts, n.log[i]) {
        if i < |m.log| {
          assert n.log[i] == m.log[i];
        } else {
          assert Received(m, acts[1..], n.log[i]);
        }
      }
      forall t | t in n.exited
        ensures (t in s.exited && n.exited[t] == s.exited[t]) || DidExit(s, acts, t, n.exited[t])
      {
        if !(t in m.exited && n.exited[t] == m.exited[t]) { assert DidExit(m, acts[1..], t, n.exited[t]); }
      }
    }
  }

  /** The status delivered is the one this child passed to exit in the run, in 8 bits, and the receiver was its
      parent. */
  ghost predicate Genuine(s: Sys, acts: seq<Action>, d: Delivery) {
    && Received(s, acts, d) && -128 <= d.status < 128
    && exists status :: DidExit(s, acts, d.child, status) && d.status == Narrow(status)
  }

  /** In every reachable state live pids are unique, a forked process has a live parent that is neither exiting nor
      hanging, nobody but init stays WAITING while a child hangs, and every delivery is genuine and the only one of
      its child. */
  lemma Reachable(acts: seq<Action>)
    requires Legal(Boot(), acts) && !EndsInPanic(Boot(), acts)
    ensures Run(Boot(), acts).Ok?
    ensures var n := Run(Boot(), acts).v;
      && (forall t, u | t in n.info && u in n.info && n.info[t].pid == n.info[u].pid :: t == u)
      && (forall t | t in n.info && n.info[t].parent != NO_PARENT ::
            exists p :: Parents(n, p, t) && p in n.sched.status && n.sched.status[p] != HANGING)
      && (forall t, c | t in n.info && c in n.info && t != n.init && t in n.sched.status &&
         n.sched.status[t] == WAITING ::
            !HangingChild(n, c, n.info[t].pid))
      && (forall i, j | 0 <= i < j < |n.log| :: n.log[i].child != n.log[j].child)
      && (forall i | 0 <= i < |n.log| :: Genuine(Boot(), acts, n.log[i]))
  {
    hide Legal, Run, EndsInPanic, TreeInv, Received, DidExit, Narrow, Parents, HangingChild;
    BootOk();
    RunSafe(Boot(), acts);
    RunHistory(Boot(), acts);
    var n := Run(Boot(), acts).v;
    Promises(n);
    assert Boot().log == [] && Boot().exited == map[];
    forall i | 0 <= i < |n.log| ensures Genuine(Boot(), acts, n.log[i]) {
      var d := n.log[i];
      NarrowRange(n.exited[d.child]);
      assert DidExit(Boot(), acts, d.child, n.exited[d.child]);
    }
  }

  lemma NarrowRange(status: int)
    ensures -128 <= Narrow(status) < 128
  {
  }

  lemma Promises(n: Sys)
    requires TreeInv(n)
    ensures forall t, u | t in n.info && u in n.info && n.info[t].pid == n.info[u].pid :: t == u
    ensures forall t | t in n.info && n.info[t].parent != NO_PARENT ::
      exists p :: Parents(n, p, t) && p in n.sched.status && n.sched.status[p] != HANGING
    ensures forall t, c | t in n.info && c in n.info && t != n.init && t in n.sched.status &&
      n.sched.status[t] == WAITING :: !HangingChild(n, c, n.info[t].pid)
    ensures forall i, j | 0 <= i < j < |n.log| :: n.log[i].child != n.log[j].child
    ensures forall i | 0 <= i < |n.log| ::
      n.log[i].child in n.exited && n.log[i].status == Narrow(n.exited[n.log[i].child])
  {
    hide ReadyOk;
    forall t | t in n.info && n.info[t].parent != NO_PARENT
      ensures exists p :: Parents(n, p, t) && p in n.sched.status && n.sched.status[p] != HANGING
    {
      assert HasParent(n, t);
      var p :| Parents(n, p, t);
      assert StatusOk(n, p);
    }
    forall t, c | t in n.info && c in n.info && t != n.init && t in n.sched.status &&
      n.sched.status[t] == WAITING ensures !HangingChild(n, c, n.info[t].pid) {
      assert WaitOk(n, t) && StatusOk(n, c);
    }
  }

  /** With a hanging child `sys_wait` returns at once: the child is the caller's, its status is the one it exited with,
      and afterwards the child and its pid are free. Without one nothing is delivered. */
  lemma WaitDelivers(s: Sys)
    requires TreeInv(s) && Enabled(s, DoWait)
    ensures WaitTurn(s).Ok?
    ensures var n := WaitTurn(s).v; var pid := s.info[s.sched.cur].pid;
      if exists c :: HangingChild(s, c, pid) then
        exists c ::
          && HangingChild(s, c, pid) && c in s.exited && n.log ==
             s.log + [Delivery(c, s.sched.cur, Narrow(s.exited[c]))]
          && c !in n.info && !LivePid(n, s.info[c].pid)
      else n.log == s.log && n.info.Keys == s.info.Keys
  {
    hide TreeInv, Drop, Block, LivePid, HangingChild;
    WaitKeeps(s);
    var cur := s.sched.cur;
    var pid := s.info[cur].pid;
    var h := First(s.order, t => HangingChild(s, t, pid));
    OrderIs(s);
    if h != -1 {
      var c := s.order[h];
      ReapKeeps(s, c);
      forall t | t in s.info && s.info[t].pid == s.info[c].pid ensures t == c { OnePid(s, t, c); }
      PidFreed(SetPhase(s, cur, User), c, WaitTurn(s).v);
    } else {
      forall c ensures !HangingChild(s, c, pid) { ChildListed(s, c, pid); }
    }
  }

  lemma OrderIs(s: Sys)
    requires TreeInv(s)
    ensures forall t :: t in s.order <==> t in s.info
  {
  }

  lemma OnePid(s: Sys, t: Tid, u: Tid)
    requires TreeInv(s) && t in s.info && u in s.info && s.info[t].pid == s.info[u].pid
    ensures t == u
  {
  }

  lemma ChildListed(s: Sys, c: Tid, pid: int)
    requires TreeInv(s)
    ensures HangingChild(s, c, pid) ==> c in s.order
  {
  }

  lemma PidFreed(s: Sys, c: Tid, n: Sys)
    requires c in s.info && Drop(s, c).Ok? && n.info == Drop(s, c).v.info
    requires forall t | t in s.info && s.info[t].pid == s.info[c].pid :: t == c
    ensures c !in n.info && !LivePid(n, s.info[c].pid)
  {
  }

  // ---------------------------------------------------------------- init

  /** Init waits although one of its children hangs. */
  ghost predicate Stranded(s: Sys) {
    && s.init in s.info && s.init in s.sched.status && s.sched.status[s.init] == WAITING
    && exists c :: HangingChild(s, c, INIT_PID)
  }

  /** Init waits exactly if it did, and the same children of init hang. */
  ghost predicate SameForInit(s: Sys, n: Sys) {
    && n.init == s.init && s.init in s.info && s.init in n.info && s.init in s.sched.status && s.init in n.sched.status
    && (n.sched.status[s.init] == WAITING <==> s.sched.status[s.init] == WAITING)
    && (forall c :: HangingChild(n, c, INIT_PID) <==> HangingChild(s, c, INIT_PID))
  }

  lemma SameStranded(s: Sys, n: Sys)
    requires SameForInit(s, n)
    ensures Stranded(n) <==> Stranded(s)
  {
    hide HangingChild;
  }

  lemma InitThere(s: Sys)
    requires TreeInv(s)
    ensures s.init in s.info && s.init in s.sched.status && s.info[s.init].pid == INIT_PID && s.init != s.sched.idle
    ensures s.info.Keys == s.sched.status.Keys && s.sched.cur in s.info && s.sched.status[s.sched.cur] == RUNNING
    ensures s.info[s.init].parent == NO_PARENT && Scheduler.Inv(s.sched) && s.next !in s.info
    ensures s.sched.idle in s.info && s.info[s.sched.idle].phase == Kernel && s.info[s.sched.idle].parent == NO_PARENT
  {
    hide ReadyOk, PidsOk, ParentsOk, WaitsOk, LogOk;
    assert StatusOk(s, s.init) && StatusOk(s, s.sched.idle);
  }

  /** A decision of the scheduler about somebody other than init. */
  lemma SchedSame(s: Sys, mid: Sched, r: Sched)
    requires TreeInv(s) && mid.status.Keys == s.sched.status.Keys && mid.idle == s.sched.idle && Scheduler.Inv(r) &&
      SameParked(mid, r)
    requires forall t | t in mid.status ::
      (mid.status[t] == WAITING <==> s.sched.status[t] == WAITING) &&
        (mid.status[t] == HANGING <==> s.sched.status[t] == HANGING)
    ensures SameForInit(s, s.(sched := r))
  {
    hide TreeInv, Scheduler.Inv, SameParked;
    InitThere(s);
    var n := s.(sched := r);
    SameKeys(mid, r);
    IdleCalm(s);
    StaysParked(mid, r, s.init);
    forall c ensures HangingChild(n, c, INIT_PID) <==> HangingChild(s, c, INIT_PID) {
      if c in s.info { StaysParked(mid, r, c); }
    }
  }

  lemma IdleCalm(s: Sys)
    requires TreeInv(s)
    ensures s.sched.idle in s.sched.status && s.sched.status[s.sched.idle] != WAITING &&
      s.sched.status[s.sched.idle] != HANGING
  {
    hide ReadyOk, PidsOk, ParentsOk, WaitsOk, LogOk;
  }

  /** Ticks, yields, sleeping and waking do not matter to init and its hanging children. */
  lemma QuietStep(s: Sys, a: Action)
    requires TreeInv(s) && Enabled(s, a) && (a == Tick || a == GiveWay || a == Sleep || a.Wake?)
    ensures Step(s, a).Ok? && SameForInit(s, Step(s, a).v)
  {
    hide TreeInv, Scheduler.Inv, SameForInit, Schedule, Yield, Block, SameParked;
    InitThere(s);
    match a {
      case Tick =>
        FromInv(s.sched);
        ScheduleKeeps(s.sched);
        SchedSame(s, s.sched, Schedule(s.sched).v);
      case GiveWay =>
        YieldKeeps(s.sched);
        SchedSame(s, s.sched, Yield(s.sched).v);
      case Sleep =>
        SleepCalm(s);
        BlockKeeps(s.sched, BLOCKED);
        SchedSame(s, s.sched.(status := s.sched.status[s.sched.cur := BLOCKED]), Block(s.sched, BLOCKED).v);
      case Wake(t) => WakeSame(s, t);
    }
  }

  lemma FromInv(s: Sched)
    requires Scheduler.Inv(s)
    ensures Pre(s)
  {
  }

  lemma SleepCalm(s: Sys)
    requires TreeInv(s)
    ensures s.sched.status[s.sched.cur] == RUNNING && s.sched.cur in s.sched.status
  {
    hide PidsOk, ParentsOk, WaitsOk, LogOk, ReadyOk;
  }

  lemma WakeSame(s: Sys, t: Tid)
    requires TreeInv(s) && t in s.sched.status && s.sched.status[t] == BLOCKED
    ensures Unblock(s.sched, t).Ok? && SameForInit(s, s.(sched := Unblock(s.sched, t).v))
  {
    hide TreeInv;
    InitThere(s);
    hide Scheduler.Inv;
    WakeKeeps(s.sched, t);
  }

  /** A new task neither waits nor hangs. */
  lemma AddSame(s: Sys, parent: int, phase: Phase)
    requires TreeInv(s) && Add(s, parent, phase).Ok?
    ensures SameForInit(s, Add(s, parent, phase).v)
  {
    hide TreeInv, FirstClear, Scheduler.Inv;
    InitThere(s);
  }

  /** A thread that is no hanging child of init goes. */
  lemma DropSame(s: Sys, t: Tid)
    requires TreeInv(s) && t in s.info && t != s.init && t != s.sched.idle && !HangingChild(s, t, INIT_PID) &&
      Drop(s, t).Ok?
    ensures SameForInit(s, Drop(s, t).v)
  {
    hide TreeInv, Scheduler.Inv, SameParked, Exit;
    InitThere(s);
    IdleCalm(s);
    ExitKeeps(s.sched, t);
    var n := Drop(s, t).v;
    var mid := s.sched.(status := s.sched.status - {t});
    SameKeys(mid, n.sched);
    StaysParked(mid, n.sched, s.init);
    forall c ensures HangingChild(n, c, INIT_PID) <==> HangingChild(s, c, INIT_PID) {
      if c in n.info { StaysParked(mid, n.sched, c); }
    }
  }

  /** A turn of wait: another process only takes its own children; init only blocks when none of its children hangs. */
  lemma WaitStranded(s: Sys)
    requires TreeInv(s) && Enabled(s, DoWait)
    ensures WaitTurn(s).Ok? && (Stranded(WaitTurn(s).v) <==> Stranded(s))
  {
    hide TreeInv, Drop, Block, Child, Stranded;
    WaitKeeps(s);
    InitThere(s);
    var cur := s.sched.cur;
    if cur == s.init { InitWaits(s); } else { OtherWaits(s); }
  }

  lemma InitWaits(s: Sys)
    requires TreeInv(s) && Enabled(s, DoWait) && s.sched.cur == s.init && WaitTurn(s).Ok?
    ensures !Stranded(s) && !Stranded(WaitTurn(s).v)
  {
    hide TreeInv, Child;
    InitThere(s);
    var cur := s.sched.cur;
    var h := First(s.order, t => HangingChild(s, t, INIT_PID));
    OrderIs(s);
    if h != -1 {
      DropRunning(SetPhase(s, cur, User), s.order[h]);
    } else {
      forall t ensures !HangingChild(s, t, INIT_PID) { assert t in s.order ==> !HangingChild(s, t, INIT_PID); }
      hide Schedule;
      if First(s.order, t => Child(s, t, INIT_PID)) != -1 { InitBlocks(s); }
    }
  }

  /** Whoever runs still runs after a hanging thread was removed. */
  lemma DropRunning(s: Sys, c: Tid)
    requires c in s.info && c != s.sched.cur && s.sched.cur in s.sched.status &&
      s.sched.status[s.sched.cur] == RUNNING && Drop(s, c).Ok?
    ensures var n := Drop(s, c).v;
      s.sched.cur in n.sched.status && n.sched.status[s.sched.cur] == RUNNING && n.init == s.init
  {
  }

  lemma InitBlocks(s: Sys)
    requires TreeInv(s) && s.sched.cur == s.init && s.init in s.info && forall t :: !HangingChild(s, t, INIT_PID)
    ensures Block(s.sched, WAITING).Ok? && !Stranded(SetPhase(s, s.init, Waiting).(sched := Block(s.sched, WAITING).v))
  {
    hide TreeInv, Scheduler.Inv, SameParked, Block;
    InitThere(s);
    IdleCalm(s);
    BlockKeeps(s.sched, WAITING);
    var mid := s.sched.(status := s.sched.status[s.init := WAITING]);
    var r := Block(s.sched, WAITING).v;
    var n := SetPhase(s, s.init, Waiting).(sched := r);
    SameKeys(mid, r);
    forall c ensures !HangingChild(n, c, INIT_PID) {
      assert !HangingChild(s, c, INIT_PID);
      if c in s.info { StaysParked(mid, r, c); }
    }
  }

  lemma OtherWaits(s: Sys)
    requires TreeInv(s) && Enabled(s, DoWait) && s.sched.cur != s.init && WaitTurn(s).Ok?
    ensures Stranded(WaitTurn(s).v) <==> Stranded(s)
  {
    hide TreeInv, Child, Drop, Block, SameForInit, Stranded;
    InitThere(s);
    var cur := s.sched.cur;
    var pid := s.info[cur].pid;
    if pid == INIT_PID { OnePid(s, cur, s.init); }
    var h := First(s.order, t => HangingChild(s, t, pid));
    if h != -1 {
      ReapSame(s, s.order[h]);
    } else if First(s.order, t => Child(s, t, pid)) == -1 {
      PhaseSame(s, s.sched.cur, User);
      SameStranded(s, SetPhase(s, cur, User));
    } else {
      WaitBlockSame(s);
    }
  }

  lemma PhaseSame(s: Sys, t: Tid, p: Phase)
    requires TreeInv(s) && t in s.info
    ensures SameForInit(s, SetPhase(s, t, p))
  {
    hide TreeInv;
    InitThere(s);
  }

  lemma RealPid(s: Sys, t: Tid)
    requires TreeInv(s) && t in s.info
    ensures s.info[t].pid != NO_PARENT
  {
    hide ListsOk, ParentsOk, WaitsOk, LogOk, ReadyOk;
  }

  lemma ReapSame(s: Sys, c: Tid)
    requires TreeInv(s) && Enabled(s, DoWait) && s.sched.cur != s.init && HangingChild(s, c, s.info[s.sched.cur].pid)
    requires s.info[s.sched.cur].pid != INIT_PID
    ensures var d := Drop(SetPhase(s, s.sched.cur, User), c);
      d.Ok? && (Stranded(d.v.(log := s.log + [Delivery(c, s.sched.cur, s.info[c].exit)])) <==> Stranded(s))
  {
    hide TreeInv, Drop, SameForInit;
    InitThere(s);
    RealPid(s, s.sched.cur);
    var s1 := SetPhase(s, s.sched.cur, User);
    PhaseKeeps(s, User);
    ReapKeeps(s, c);
    IdleCalm(s);
    PhaseSame(s, s.sched.cur, User);
    DropSame(s1, c);
    SameStranded(s, s1);
    SameStranded(s1, Drop(s1, c).v);
    var n := Drop(s1, c).v;
    var m := n.(log := s.log + [Delivery(c, s.sched.cur, s.info[c].exit)]);
    assert forall x :: HangingChild(m, x, INIT_PID) <==> HangingChild(n, x, INIT_PID);
  }

  lemma WaitBlockSame(s: Sys)
    requires TreeInv(s) && s.sched.cur != s.init && s.sched.cur in s.info && s.info[s.sched.cur].phase != Kernel
    ensures Block(s.sched, WAITING).Ok?
    ensures Stranded(SetPhase(s, s.sched.cur, Waiting).(sched := Block(s.sched, WAITING).v)) <==> Stranded(s)
  {
    hide TreeInv, Scheduler.Inv, SameParked, Block;
    InitThere(s);
    IdleCalm(s);
    var cur := s.sched.cur;
    BlockKeeps(s.sched, WAITING);
    var mid := s.sched.(status := s.sched.status[cur := WAITING]);
    var r := Block(s.sched, WAITING).v;
    var n := SetPhase(s, cur, Waiting).(sched := r);
    SameKeys(mid, r);
    StaysParked(mid, r, s.init);
    forall c ensures HangingChild(n, c, INIT_PID) <==> HangingChild(s, c, INIT_PID) {
      if c in s.info { StaysParked(mid, r, c); }
    }
    SameStranded(s, n);
  }

  lemma StartEffect(s: Sys, status: int)
    requires TreeInv(s) && Enabled(s, DoExit(status)) && !Parentless(s, DoExit(status))
    ensures ExitStart(s, status).Ok?
    ensures var n := ExitStart(s, status).v; var cur := s.sched.cur;
      && n.sched == s.sched && n.init == s.init && n.info.Keys == s.info.Keys && n.info[cur].phase == Exiting
      && s.info[cur].pid != INIT_PID
      && (forall t | t in s.info ::
         n.info[t].pid == s.info[t].pid && n.info[t].parent == if s.info[t].parent == s.info[cur].pid then INIT_PID
         else s.info[t].parent)
      && s.info[cur].parent != s.info[cur].pid
  {
    hide WaitsOk, LogOk, ReadyOk;
    var cur := s.sched.cur;
    assert cur != s.init;
    if s.info[cur].pid == INIT_PID { PidUnique(s, cur, s.init); }
    var p := FindsParent(s, cur);
  }

  /** Who is WAITING or HANGING after `ExitEnd`: the parent no longer waits, the caller hangs. */
  lemma EndEffect(s: Sys)
    requires TreeInv(s) && Enabled(s, DoHang)
    ensures ExitEnd(s).Ok?
    ensures var n := ExitEnd(s).v; var cur := s.sched.cur;
      && n.init == s.init && n.info.Keys == s.info.Keys == n.sched.status.Keys
      && (forall t | t in s.info :: n.info[t].pid == s.info[t].pid && n.info[t].parent == s.info[t].parent)
      && n.sched.status[cur] == HANGING
      && (forall t | t in s.info && t != cur :: n.sched.status[t] == HANGING <==> s.sched.status[t] == HANGING)
      && (forall t | t in s.info ::
         n.sched.status[t] == WAITING <==> s.sched.status[t] == WAITING && s.info[t].pid != s.info[cur].parent)
  {
    hide PidsOk, ParentsOk, WaitsOk, LogOk, ReadyOk, Block, Scheduler.Inv, SameParked, InitOk;
    var cur := s.sched.cur;
    assert StatusOk(s, cur) && s.sched.status[cur] == RUNNING by { CurRuns(s); }
    var p := FindsParent(s, cur);
    var s1 := s.sched;
    if s.sched.status[p] == WAITING {
      WakeKeeps(s.sched, p);
      s1 := Unblock(s.sched, p).v;
    }
    BlockKeeps(s1, HANGING);
    var mid := s1.(status := s1.status[cur := HANGING]);
    var r := Block(s1, HANGING).v;
    forall t | t in s.info ensures
      && t in r.status && (r.status[t] == HANGING <==> t == cur || s.sched.status[t] == HANGING)
      && (r.status[t] == WAITING <==> s.sched.status[t] == WAITING && s.info[t].pid != s.info[cur].parent)
    {
      if s.info[t].pid == s.info[cur].parent { PidUnique(s, t, p); }
      assert StatusOk(s, t);
      StaysParked(mid, r, t);
    }
    SameKeys(mid, r);
  }

  lemma CurRuns(s: Sys)
    requires ListsOk(s)
    ensures s.sched.cur in s.info && s.sched.status[s.sched.cur] == RUNNING && StatusOk(s, s.sched.cur)
  {
  }

  lemma StaysParked(mid: Sched, r: Sched, t: Tid)
    requires Scheduler.Inv(r) && SameParked(mid, r) && t in mid.status &&
      (t == mid.idle ==> mid.status[t] != WAITING && mid.status[t] != HANGING)
    ensures t in r.status && (r.status[t] == HANGING <==> mid.status[t] == HANGING) &&
      (r.status[t] == WAITING <==> mid.status[t] == WAITING)
  {
  }

  lemma SameKeys(mid: Sched, r: Sched)
    requires SameParked(mid, r)
    ensures mid.status.Keys == r.status.Keys
  {
  }

  /** Exit, first half: the hanging children of the caller become init's. */
  lemma ExitStranded(s: Sys, status: int)
    requires TreeInv(s) && Enabled(s, DoExit(status)) && !Parentless(s, DoExit(status))
    ensures ExitStart(s, status).Ok?
    ensures Stranded(ExitStart(s, status).v) <==>
      Stranded(s) || (s.sched.status[s.init] == WAITING && exists c :: HangingChild(s, c, s.info[s.sched.cur].pid))
  {
    hide TreeInv, ExitStart;
    InitThere(s);
    StartEffect(s, status);
    var n := ExitStart(s, status).v;
    forall c ensures HangingChild(n, c, INIT_PID) <==>
      HangingChild(s, c, INIT_PID) || HangingChild(s, c, s.info[s.sched.cur].pid) { }
  }

  /** Exit, second half: a child of init wakes it; anybody else leaves init as it was. */
  lemma HangStranded(s: Sys)
    requires TreeInv(s) && Enabled(s, DoHang)
    ensures ExitEnd(s).Ok?
    ensures Stranded(ExitEnd(s).v) <==> Stranded(s) && s.info[s.sched.cur].parent != INIT_PID
  {
    hide TreeInv, ExitEnd;
    InitThere(s);
    EndEffect(s);
    var n := ExitEnd(s).v;
    var cur := s.sched.cur;
    forall c | c != cur ensures HangingChild(n, c, INIT_PID) <==> HangingChild(s, c, INIT_PID) { }
    assert HangingChild(n, cur, INIT_PID) <==> s.info[cur].parent == INIT_PID;
    assert !HangingChild(s, cur, INIT_PID);
  }

  /** Init becomes stranded by exactly one kind of step: a process with a hanging child calls exit while init waits.
      It stays so until a child of init hangs and wakes it. */
  lemma StrandsIff(s: Sys, a: Action)
    requires TreeInv(s) && Enabled(s, a) && !Parentless(s, a)
    ensures Step(s, a).Ok?
    ensures !Stranded(s) ==> (Stranded(Step(s, a).v) <==>
      a.DoExit? && s.init in s.sched.status && s.sched.status[s.init] == WAITING && exists c ::
        HangingChild(s, c, s.info[s.sched.cur].pid))
    ensures Stranded(s) ==> (Stranded(Step(s, a).v) <==> !(a == DoHang && s.info[s.sched.cur].parent == INIT_PID))
  {
    hide TreeInv, ExitStart, ExitEnd, WaitTurn, Add, Drop, Stranded, SameForInit, HangingChild;
    StepKeeps(s, a);
    InitThere(s);
    match a {
      case DoFork => AddSame(s, s.info[s.sched.cur].pid, User); SameStranded(s, Step(s, a).v);
      case DoWait => WaitStranded(s);
      case DoExit(status) => ExitStranded(s, status);
      case DoHang => HangStranded(s);
      case Spawn => AddSame(s, NO_PARENT, Kernel); SameStranded(s, Step(s, a).v);
      case EndKernelThread => KernelCalm(s); DropSame(s, s.sched.cur); SameStranded(s, Step(s, a).v);
      case _ => QuietStep(s, a); SameStranded(s, Step(s, a).v);
    }
  }

  lemma KernelCalm(s: Sys)
    requires TreeInv(s) && Enabled(s, EndKernelThread)
    ensures s.sched.cur != s.init && !HangingChild(s, s.sched.cur, INIT_PID)
  {
    hide ReadyOk, PidsOk, ParentsOk, WaitsOk, LogOk;
    assert StatusOk(s, s.sched.cur);
  }
}
