/** What one call of fork, one turn of wait and the two halves of exit do, for every caller: who is parked, who
    runs next, and that nothing else changes. */
module ProcessCalls {
  import opened Scheduler
  import opened Bitmap
  import opened ProcessTree
  import opened ProcessRuns

  /** Fork: the child has the lowest free pid and the caller for a parent, is READY behind all others, and the
      caller goes on. */
  lemma ForkReturns(s: Sys)
    requires TreeInv(s) && Enabled(s, DoFork)
    ensures var i := FirstClear(s.bits); var child := s.next; var caller := s.info[s.sched.cur].pid;
      && i >= 0 && child !in s.info
      && Step(s, DoFork) == Ok(s.(
           info := s.info[child := Info(i + 1, caller, 0, User)], order := s.order + [child],
           bits := s.bits[i := true], next := child + 1,
           sched := s.sched.(status := s.sched.status[child := READY], ready := s.sched.ready + [child])))
  {
    hide TreeInv, FirstClear, Scheduler.Inv, MayParent, Create, Childless, LivePid;
    InitThere(s);
    CallerMay(s);
    AddKeeps(s, s.info[s.sched.cur].pid, User);
    CreatedLast(s.sched, s.next);
  }

  lemma CallerMay(s: Sys)
    requires TreeInv(s) && Enabled(s, DoFork)
    ensures MayParent(s, s.info[s.sched.cur].pid)
  {
    hide ListsOk, PidsOk, ParentsOk, WaitsOk, LogOk;
    assert HasPid(s, s.sched.cur, s.info[s.sched.cur].pid);
  }

  /** The first hanging child of the caller, in the order of the list of all threads. */
  predicate FirstHanging(s: Sys, h: int) {
    && 0 <= h < |s.order| && s.sched.cur in s.info && HangingChild(s, s.order[h], s.info[s.sched.cur].pid)
    && forall i | 0 <= i < h :: !HangingChild(s, s.order[i], s.info[s.sched.cur].pid)
  }

  /** Wait with a hanging child: the first one is gone, with its pid, its status is delivered, and the caller goes
      on. */
  lemma WaitReaps(s: Sys, h: int)
    requires TreeInv(s) && Enabled(s, DoWait) && FirstHanging(s, h)
    ensures var cur, c := s.sched.cur, s.order[h];
      && c in s.info && c in s.exited && 0 <= s.info[c].pid - 1 < |s.bits| && c !in s.sched.ready
      && Step(s, DoWait) == Ok(s.(
           info := s.info[cur := s.info[cur].(phase := User)] - {c}, order := Without(s.order, c),
           bits := s.bits[s.info[c].pid - 1 := false], log := s.log + [Delivery(c, cur, Narrow(s.exited[c]))],
           sched := s.sched.(status := s.sched.status - {c})))
  {
    hide TreeInv, Scheduler.Inv, HangingChild, Exit, Narrow;
    InitThere(s);
    var cur := s.sched.cur;
    var pid := s.info[cur].pid;
    var c := s.order[h];
    HangingFacts(s, c, pid);
    FirstIs(s.order, t => HangingChild(s, t, pid), h);
    ExitTurns(s.sched, c);
    assert Without(s.sched.ready, c) == s.sched.ready;
  }

  lemma FirstIs(order: seq<Tid>, p: Tid -> bool, h: int)
    requires 0 <= h < |order| && p(order[h]) && forall i | 0 <= i < h :: !p(order[i])
    ensures First(order, p) == h
  {
    assert order[h] in order;
  }

  lemma HangingFacts(s: Sys, c: Tid, pid: int)
    requires TreeInv(s) && HangingChild(s, c, pid) && s.sched.cur in s.info
    ensures c in s.info && c in s.exited && s.info[c].exit == Narrow(s.exited[c]) && 0 <= s.info[c].pid - 1 < |s.bits|
    ensures c != s.sched.cur && c != s.sched.idle && c in s.sched.status && c !in s.sched.ready
  {
    assert StatusOk(s, c);
  }

  /** Wait with children of which none hangs: the caller is WAITING and the first ready thread runs, or idle. */
  lemma WaitSleeps(s: Sys)
    requires TreeInv(s) && Enabled(s, DoWait)
    requires var pid := s.info[s.sched.cur].pid;
      (exists t :: Child(s, t, pid)) && forall t :: !HangingChild(s, t, pid)
    ensures var cur := s.sched.cur; var q := s.sched.ready;
      && cur != s.sched.idle
      && Step(s, DoWait) == Ok(SetPhase(s, cur, Waiting).(sched :=
           if q != [] then Turned(s.sched, WAITING, [])
           else Sched(s.sched.status[cur := WAITING][s.sched.idle := RUNNING], [], s.sched.idle, s.sched.idle)))
  {
    hide TreeInv, Scheduler.Inv, HangingChild, Child, Block, Turned;
    InitThere(s);
    CallerReal(s);
    var pid := s.info[s.sched.cur].pid;
    NoneFirst(s.order, t => HangingChild(s, t, pid));
    SomeFirst(s, pid);
    BlockTurns(s.sched, WAITING);
  }

  /** Wait without children returns at once. */
  lemma WaitFails(s: Sys)
    requires TreeInv(s) && Enabled(s, DoWait) && forall t :: !Child(s, t, s.info[s.sched.cur].pid)
    ensures Step(s, DoWait) == Ok(SetPhase(s, s.sched.cur, User))
  {
    hide TreeInv;
    var pid := s.info[s.sched.cur].pid;
    assert forall t :: HangingChild(s, t, pid) ==> Child(s, t, pid);
    NoneFirst(s.order, t => HangingChild(s, t, pid));
    NoneFirst(s.order, t => Child(s, t, pid));
  }

  lemma CallerReal(s: Sys)
    requires TreeInv(s) && Enabled(s, DoWait)
    ensures s.sched.cur != s.sched.idle
  {
    hide PidsOk, ParentsOk, WaitsOk, LogOk, ReadyOk;
    assert StatusOk(s, s.sched.cur);
  }

  lemma NoneFirst(order: seq<Tid>, p: Tid -> bool)
    requires forall i | 0 <= i < |order| :: !p(order[i])
    ensures First(order, p) == -1
  {
    var r := First(order, p);
  }

  lemma SomeFirst(s: Sys, pid: int)
    requires TreeInv(s) && exists t :: Child(s, t, pid)
    ensures First(s.order, t => Child(s, t, pid)) != -1
  {
    hide PidsOk, ParentsOk, WaitsOk, LogOk, InitOk, StatusOk, Scheduler.Inv;
    var t :| Child(s, t, pid);
    assert t in s.order;
  }

  /** Exit, first half: the status is kept in 8 bits, the children are init's, and nothing else changes. */
  lemma ExitKept(s: Sys, status: int)
    requires TreeInv(s) && Enabled(s, DoExit(status)) && !Parentless(s, DoExit(status))
    ensures Step(s, DoExit(status)).Ok?
    ensures var n, cur := Step(s, DoExit(status)).v, s.sched.cur;
      && n == s.(info := n.info, exited := s.exited[cur := status]) && n.info.Keys == s.info.Keys
      && n.info[cur] == Info(s.info[cur].pid, s.info[cur].parent, Narrow(status), Exiting)
      && forall t | t in s.info && t != cur ::
           n.info[t] == if s.info[t].parent == s.info[cur].pid then s.info[t].(parent := INIT_PID) else s.info[t]
  {
    hide TreeInv, Narrow;
    StartEffect(s, status);
  }

  /** The parent if it waits, otherwise the first of the list, or idle. */
  predicate HandsOver(s: Sched, n: Sched, parent: Tid)
    requires parent in s.status
  {
    if s.status[parent] == WAITING then n.cur == parent && n.ready == s.ready
    else if s.ready != [] then n.cur == s.ready[0] && n.ready == s.ready[1..]
    else n.cur == s.idle && n.ready == []
  }

  /** Exit, second half: the caller hangs for its parent to find; a parent that waits runs next, otherwise the
      first ready thread does, or idle. */
  lemma ExitHands(s: Sys)
    requires TreeInv(s) && Enabled(s, DoHang)
    ensures Step(s, DoHang).Ok?
    ensures var n, cur := Step(s, DoHang).v, s.sched.cur;
      && n == SetPhase(s, cur, Gone).(sched := n.sched) && cur in n.sched.status && n.sched.status[cur] == HANGING
      && exists p :: HasPid(s, p, s.info[cur].parent) && p in s.sched.status && HandsOver(s.sched, n.sched, p)
  {
    hide TreeInv, Scheduler.Inv, Block, Unblock, Parents;
    InitThere(s);
    Hanger(s);
    var cur := s.sched.cur;
    var p := FindsParent(s, cur);
    EndEffect(s);
    ParentFound(s, p);
    HangSched(s.sched, p);
    assert HasPid(s, p, s.info[cur].parent);
  }

  lemma HangSched(s: Sched, p: Tid)
    requires Scheduler.Inv(s) && p in s.status && s.cur != s.idle
    ensures var w := if s.status[p] == WAITING then Unblock(s, p) else Ok(s);
      w.Ok? && Block(w.v, HANGING).Ok? && HandsOver(s, Block(w.v, HANGING).v, p)
  {
    hide Scheduler.Inv, Block, Unblock;
    if s.status[p] == WAITING {
      WakesFirst(s, p);
      WakeKeeps(s, p);
      BlockTurns(Unblock(s, p).v, HANGING);
      assert ([p] + s.ready)[1..] + [] == s.ready;
    } else {
      BlockTurns(s, HANGING);
      if s.ready != [] { assert s.ready[1..] + [] == s.ready[1..]; }
    }
  }

  lemma Hanger(s: Sys)
    requires TreeInv(s) && Enabled(s, DoHang)
    ensures s.sched.cur != s.sched.idle && ListsOk(s) && PidsOk(s) && ParentsOk(s) &&
      s.info[s.sched.cur].parent != NO_PARENT
  {
    hide WaitsOk, LogOk, ReadyOk;
    assert StatusOk(s, s.sched.cur);
  }

  lemma ParentFound(s: Sys, p: Tid)
    requires TreeInv(s) && Parents(s, p, s.sched.cur)
    ensures p in s.info && s.info[p].pid == s.info[s.sched.cur].parent && p in s.sched.status
  {
  }

  /** Ticks, yields, sleeping and waking are the scheduler's alone. */
  lemma SchedulerSteps(s: Sys, t: Tid)
    requires TreeInv(s)
    ensures var q := s.sched; var n := Ok(s.(sched := if q.ready == [] then q else Turned(q, READY, [q.cur])));
      Step(s, Tick) == n && Step(s, GiveWay) == n
    ensures var q := s.sched;
      Step(s, Sleep) == Ok(s.(sched := if q.ready != [] then Turned(q, BLOCKED, [])
                                       else Sched(q.status[q.cur := BLOCKED][q.idle := RUNNING], [], q.idle, q.idle)))
    ensures Enabled(s, Wake(t)) ==>
      Step(s, Wake(t)) == Ok(s.(sched := s.sched.(status := s.sched.status[t := READY], ready := [t] + s.sched.ready)))
  {
    hide TreeInv, Scheduler.Inv, Schedule, Yield, Block, Unblock, Turned;
    InitThere(s);
    TickTurns(s.sched);
    YieldIsTick(s.sched);
    BlockTurns(s.sched, BLOCKED);
    if Enabled(s, Wake(t)) { WakesFirst(s.sched, t); }
  }

  /** A new kernel thread has the lowest free pid and no parent; one that ends is gone with its pid, and the first ready
      thread runs, or idle. */
  lemma KernelThreads(s: Sys)
    requires TreeInv(s)
    ensures Enabled(s, Spawn) ==> var i, t := FirstClear(s.bits), s.next;
      && i >= 0 && t !in s.info
      && Step(s, Spawn) == Ok(s.(
           info := s.info[t := Info(i + 1, NO_PARENT, 0, Kernel)], order := s.order + [t], bits := s.bits[i := true],
           next := t + 1, sched := s.sched.(status := s.sched.status[t := READY], ready := s.sched.ready + [t])))
    ensures Enabled(s, EndKernelThread) ==> var q := s.sched;
      && q.cur in s.info && 0 <= s.info[q.cur].pid - 1 < |s.bits|
      && Step(s, EndKernelThread) == Ok(s.(
           info := s.info - {q.cur}, order := Without(s.order, q.cur), bits := s.bits[s.info[q.cur].pid - 1 := false],
           sched := if q.ready != [] then Sched((q.status - {q.cur})[q.ready[0] := RUNNING], q.ready[1..], q.ready[0],
             q.idle)
                    else Sched((q.status - {q.cur})[q.idle := RUNNING], [], q.idle, q.idle)))
  {
    hide TreeInv, FirstClear, Scheduler.Inv, Create, Exit, Childless, LivePid;
    InitThere(s);
    if Enabled(s, Spawn) {
      AddKeeps(s, NO_PARENT, Kernel);
      CreatedLast(s.sched, s.next);
    }
    if Enabled(s, EndKernelThread) {
      PidBit(s, s.sched.cur);
      ExitTurns(s.sched, s.sched.cur);
    }
  }

  lemma PidBit(s: Sys, t: Tid)
    requires TreeInv(s) && t in s.info
    ensures 0 <= s.info[t].pid - 1 < |s.bits|
  {
    hide ListsOk, ParentsOk, WaitsOk, LogOk, InitOk;
  }
}
