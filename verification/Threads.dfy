/** The functions of thread/thread.c as they update the task table, the ready list and the running thread in place.
    `false` stands for a failed ASSERT or a PANIC. */
module Threads {
  import opened Scheduler

  class ThreadTable {
    var status: map<Tid, Status>
    var ready: seq<Tid>
    var cur: Tid
    const idle: Tid

    ghost function View(): Sched
      reads this
    {
      Sched(status, ready, cur, idle)
    }

    /** After boot: main runs, idle is ready. */
    constructor (main: Tid, idle: Tid)
      requires main != idle
      ensures Inv(View()) && cur == main && this.idle == idle && status == map[main := RUNNING, idle := READY] &&
        ready == [idle]
    {
      status, ready, cur, this.idle := map[main := RUNNING, idle := READY], [idle], main, idle;
    }

    /** `thread_unblock` */
    method ThreadUnblock(t: Tid) returns (ok: bool)
      modifies this`status, this`ready
      ensures ok == Unblock(old(View()), t).Ok? && View() == if ok then Unblock(old(View()), t).v else old(View())
      ensures Inv(old(View())) && t in old(status) && Parked(old(status)[t]) ==> ok && Inv(View())
    {
      if t in status && Parked(status[t]) { ghost var s := View(); if Inv(s) { WakeKeeps(s, t); } }
      if t !in status || !Parked(status[t]) { return false; }
      if t in ready { return false; }
      ready := [t] + ready;
      status := status[t := READY];
      ok := true;
    }

    /** `schedule` */
    method Reschedule() returns (ok: bool)
      modifies this
      ensures ok == Schedule(old(View())).Ok? && (ok ==> View() == Schedule(old(View())).v)
      ensures Pre(old(View())) ==> ok && Inv(View()) && SameParked(old(View()), View())
    {
      hide Inv, Pre, SameParked;
      ghost var s := View();
      if Pre(s) { ScheduleKeeps(s); }
      if cur in status && status[cur] == RUNNING {
        if cur in ready { return false; }
        ready := ready + [cur];
        status := status[cur := READY];
      }
      if ready == [] {
        var woken := ThreadUnblock(idle);
        if !woken { return false; }
      }
      if ready == [] { return false; }
      var next := ready[0];
      ready := ready[1..];
      status := status[next := RUNNING];
      cur := next;
      ok := true;
    }

    /** `thread_block` */
    method ThreadBlock(stat: Status) returns (ok: bool)
      modifies this
      ensures ok == Block(old(View()), stat).Ok? && (ok ==> View() == Block(old(View()), stat).v)
      ensures Inv(old(View())) && Parked(stat) && (old(cur) == idle ==> stat == BLOCKED) ==> ok && Inv(View())
    {
      ghost var s := View();
      if Inv(s) && Parked(stat) && (cur == idle ==> stat == BLOCKED) { BlockKeeps(s, stat); }
      if !Parked(stat) { return false; }
      status := status[cur := stat];
      ok := Reschedule();
    }

    /** `thread_yield` */
    method ThreadYield() returns (ok: bool)
      modifies this
      ensures ok == Yield(old(View())).Ok? && (ok ==> View() == Yield(old(View())).v)
      ensures Inv(old(View())) ==> ok && Inv(View())
    {
      ghost var s := View();
      if Inv(s) { YieldKeeps(s); }
      if cur in ready { return false; }
      ready := ready + [cur];
      status := status[cur := READY];
      ok := Reschedule();
    }

    /** The end of `thread_create`, and of `process_execute` and `sys_fork`. */
    method ThreadCreate(t: Tid) returns (ok: bool)
      modifies this`status, this`ready
      ensures ok == Create(old(View()), t).Ok? && View() == if ok then Create(old(View()), t).v else old(View())
      ensures Inv(old(View())) && t !in old(status) ==> ok && Inv(View())
    {
      ghost var s := View();
      if Inv(s) && t !in status { CreateKeeps(s, t); }
      if t in ready || t in status { return false; }
      ready := ready + [t];
      status := status[t := READY];
      ok := true;
    }

    /** `thread_exit` */
    method ThreadExit(t: Tid) returns (ok: bool)
      modifies this
      ensures ok == Exit(old(View()), t).Ok? && (ok ==> View() == Exit(old(View()), t).v)
      ensures Inv(old(View())) && t in old(status) && t != idle ==> ok && Inv(View())
    {
      ghost var s := View();
      if Inv(s) && t in status && t != idle { ExitKeeps(s, t); }
      if t !in status { return false; }
      status := status - {t};
      if t in ready {
        ready := Without(ready, t);
      }
      if t == cur {
        ok := Reschedule();
      } else {
        ok := true;
      }
    }
  }
}
