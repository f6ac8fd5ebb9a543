/** A run of thirteen steps from boot after which init waits although a child of its own hangs: init forks a son and
    waits; the son forks a grandson, which forks a process that exits while the grandson does not wait for it; then the
    grandson itself exits, hanging child and all. */
module ProcessExample {
  import opened Scheduler
  import opened Bitmap
  import opened ProcessTree
  import opened ProcessRuns

  const INIT := Info(1, NO_PARENT, 0, User)
  const WAITER := Info(1, NO_PARENT, 0, Waiting)
  const IDLE := Info(3, NO_PARENT, 0, Kernel)
  const SON := Info(2, 1, 0, User)
  const GRANDSON := Info(4, 2, 0, User)
  const LAST := Info(5, 4, 0, User)

  function Script(): seq<Action> {
    [EndKernelThread, DoFork, DoWait, Sleep, DoFork, GiveWay, DoFork, GiveWay, GiveWay, DoExit(7), DoHang, DoExit(0),
      DoHang]
  }

  function Scene1(): Sys {
    Sys(Sched(map[0 := RUNNING, 2 := READY], [2], 0, 2),
        map[0 := INIT, 2 := IDLE],
        [0, 2], Marks(3, true), 3, 0, map[], [])
  }

  function Scene2(): Sys {
    Sys(Sched(map[0 := RUNNING, 2 := READY, 3 := READY], [2, 3], 0, 2),
        map[0 := INIT, 2 := IDLE, 3 := SON],
        [0, 2, 3], Marks(3, false), 4, 0, map[], [])
  }

  function Scene3(): Sys {
    Sys(Sched(map[0 := WAITING, 2 := RUNNING, 3 := READY], [3], 2, 2),
        map[0 := WAITER, 2 := IDLE, 3 := SON],
        [0, 2, 3], Marks(3, false), 4, 0, map[], [])
  }

  function Scene4(): Sys {
    Sys(Sched(map[0 := WAITING, 2 := BLOCKED, 3 := RUNNING], [], 3, 2),
        map[0 := WAITER, 2 := IDLE, 3 := SON],
        [0, 2, 3], Marks(3, false), 4, 0, map[], [])
  }

  function Scene5(): Sys {
    Sys(Sched(map[0 := WAITING, 2 := BLOCKED, 3 := RUNNING, 4 := READY], [4], 3, 2),
        map[0 := WAITER, 2 := IDLE, 3 := SON, 4 := GRANDSON],
        [0, 2, 3, 4], Marks(4, false), 5, 0, map[], [])
  }

  function Scene6(): Sys {
    Sys(Sched(map[0 := WAITING, 2 := BLOCKED, 3 := READY, 4 := RUNNING], [3], 4, 2),
        map[0 := WAITER, 2 := IDLE, 3 := SON, 4 := GRANDSON],
        [0, 2, 3, 4], Marks(4, false), 5, 0, map[], [])
  }

  function Scene7(): Sys {
    Sys(Sched(map[0 := WAITING, 2 := BLOCKED, 3 := READY, 4 := RUNNING, 5 := READY], [3, 5], 4, 2),
        map[0 := WAITER, 2 := IDLE, 3 := SON, 4 := GRANDSON, 5 := LAST],
        [0, 2, 3, 4, 5], Marks(5, false), 6, 0, map[], [])
  }

  function Scene8(): Sys {
    Sys(Sched(map[0 := WAITING, 2 := BLOCKED, 3 := RUNNING, 4 := READY, 5 := READY], [5, 4], 3, 2),
        map[0 := WAITER, 2 := IDLE, 3 := SON, 4 := GRANDSON, 5 := LAST],
        [0, 2, 3, 4, 5], Marks(5, false), 6, 0, map[], [])
  }

  function Scene9(): Sys {
    Sys(Sched(map[0 := WAITING, 2 := BLOCKED, 3 := READY, 4 := READY, 5 := RUNNING], [4, 3], 5, 2),
        map[0 := WAITER, 2 := IDLE, 3 := SON, 4 := GRANDSON, 5 := LAST],
        [0, 2, 3, 4, 5], Marks(5, false), 6, 0, map[], [])
  }

  function Scene10(): Sys {
    Sys(Sched(map[0 := WAITING, 2 := BLOCKED, 3 := READY, 4 := READY, 5 := RUNNING], [4, 3], 5, 2),
        map[0 := WAITER, 2 := IDLE, 3 := SON, 4 := GRANDSON, 5 := Info(5, 4, 7, Exiting)],
        [0, 2, 3, 4, 5], Marks(5, false), 6, 0, map[5 := 7], [])
  }

  function Scene11(): Sys {
    Sys(Sched(map[0 := WAITING, 2 := BLOCKED, 3 := READY, 4 := RUNNING, 5 := HANGING], [3], 4, 2),
        map[0 := WAITER, 2 := IDLE, 3 := SON, 4 := GRANDSON, 5 := Info(5, 4, 7, Gone)],
        [0, 2, 3, 4, 5], Marks(5, false), 6, 0, map[5 := 7], [])
  }

  function Scene12(): Sys {
    Sys(Sched(map[0 := WAITING, 2 := BLOCKED, 3 := READY, 4 := RUNNING, 5 := HANGING], [3], 4, 2),
        map[0 := WAITER, 2 := IDLE, 3 := SON, 4 := Info(4, 2, 0, Exiting), 5 := Info(5, 1, 7, Gone)],
        [0, 2, 3, 4, 5], Marks(5, false), 6, 0, map[5 := 7, 4 := 0], [])
  }

  function Scene13(): Sys {
    Sys(Sched(map[0 := WAITING, 2 := BLOCKED, 3 := RUNNING, 4 := HANGING, 5 := HANGING], [], 3, 2),
        map[0 := WAITER, 2 := IDLE, 3 := SON, 4 := Info(4, 2, 0, Gone), 5 := Info(5, 1, 7, Gone)],
        [0, 2, 3, 4, 5], Marks(5, false), 6, 0, map[5 := 7, 4 := 0], [])
  }

  // ---------------------------------------------------------------- one step at a time

  lemma YieldIs(s: Sched)
    requires s.cur !in s.ready && s.ready != []
    ensures Yield(s) == Ok(Sched(s.status[s.cur := READY][s.ready[0] := RUNNING], s.ready[1..] + [s.cur], s.ready[0],
      s.idle))
  {
    var q := s.ready + [s.cur];
    assert q[0] == s.ready[0] && q[1..] == s.ready[1..] + [s.cur];
  }

  lemma BlockIs(s: Sched, stat: Status)
    requires Parked(stat) && s.ready != []
    ensures Block(s, stat) == Ok(Sched(s.status[s.cur := stat][s.ready[0] := RUNNING], s.ready[1..], s.ready[0],
      s.idle))
  {
  }

  lemma HangIs(s: Sys, k: nat)
    requires k < |s.order| && s.sched.cur in s.info && s.sched.ready != []
    requires var parent := s.info[s.sched.cur].parent;
      HasPid(s, s.order[k], parent) && forall i | 0 <= i < k :: !HasPid(s, s.order[i], parent)
    requires s.order[k] in s.sched.status && s.sched.status[s.order[k]] != WAITING
    ensures ExitEnd(s) == WithSched(SetPhase(s, s.sched.cur, Gone), Block(s.sched, HANGING))
  {
    hide Block;
    var parent := s.info[s.sched.cur].parent;
    var p := First(s.order, t => HasPid(s, t, parent));
    assert s.order[k] in s.order;
    assert p == k;
  }

  lemma MarksFirst(k: nat)
    requires k < 1024
    ensures FirstClear(Marks(k, false)) == k && Marks(k, false)[k := true] == Marks(k + 1, false)
  {
    var b := Marks(k, false);
    var r := FirstClear(b);
    assert ClearRun(b, k, 1);
    assert r != -1 && !b[r];
    assert forall i :: 0 <= i < k ==> b[i];
  }

  lemma HoleFirst()
    ensures FirstClear(Marks(3, true)) == 1
    ensures Marks(3, true)[1 := true] == Marks(3, false) && Marks(3, false)[1 := false] == Marks(3, true)
  {
    var b := Marks(3, true);
    var r := FirstClear(b);
    assert ClearRun(b, 1, 1);
    assert !b[r] && b[0];
  }

  lemma Turn1()
    ensures Enabled(Boot(), EndKernelThread) && Step(Boot(), EndKernelThread) == Ok(Scene1())
  {
    hide FirstClear, Marks;
    var s, n := Boot(), Scene1();
    HoleFirst();
    assert s.info - {1} == n.info;
    assert Without(s.order, 1) == n.order;
    assert Without(s.sched.ready, 1) == s.sched.ready;
    assert Exit(s.sched, 1) == Ok(n.sched) by {
      assert s.sched.ready[1..] == n.sched.ready;
      assert (s.sched.status - {1})[0 := RUNNING] == n.sched.status;
    }
  }

  lemma Turn2()
    ensures Enabled(Scene1(), DoFork) && Step(Scene1(), DoFork) == Ok(Scene2())
  {
    hide FirstClear, Marks;
    var s, n := Scene1(), Scene2();
    HoleFirst();
    assert s.order + [3] == n.order && s.sched.ready + [3] == n.sched.ready;
    assert s.info[3 := Info(2, 1, 0, User)] == n.info;
    assert s.sched.status[3 := READY] == n.sched.status;
  }

  lemma Turn3()
    ensures Enabled(Scene2(), DoWait) && Step(Scene2(), DoWait) == Ok(Scene3())
  {
    hide Block, Schedule, Marks;
    var s, n := Scene2(), Scene3();
    BlockIs(s.sched, WAITING);
    assert forall t | t in s.order :: !HangingChild(s, t, 1);
    assert Child(s, 3, 1) && 3 in s.order;
    assert s.sched.ready[1..] == n.sched.ready;
    assert s.sched.status[0 := WAITING][2 := RUNNING] == n.sched.status;
    assert s.info[0 := s.info[0].(phase := Waiting)] == n.info;
  }

  lemma Turn4()
    ensures Enabled(Scene3(), Sleep) && Step(Scene3(), Sleep) == Ok(Scene4())
  {
    var s, n := Scene3(), Scene4();
    BlockIs(s.sched, BLOCKED);
    assert s.sched.ready[1..] == n.sched.ready;
    assert s.sched.status[2 := BLOCKED][3 := RUNNING] == n.sched.status;
  }

  lemma Turn5()
    ensures Enabled(Scene4(), DoFork) && Step(Scene4(), DoFork) == Ok(Scene5())
  {
    hide FirstClear, Marks;
    var s, n := Scene4(), Scene5();
    MarksFirst(3);
    assert s.order + [4] == n.order && s.sched.ready + [4] == n.sched.ready;
    assert s.info[4 := Info(4, 2, 0, User)] == n.info;
    assert s.sched.status[4 := READY] == n.sched.status;
  }

  lemma Turn6()
    ensures Enabled(Scene5(), GiveWay) && Step(Scene5(), GiveWay) == Ok(Scene6())
  {
    var s, n := Scene5(), Scene6();
    YieldIs(s.sched);
    assert s.sched.ready[1..] + [3] == n.sched.ready;
    assert s.sched.status[3 := READY][4 := RUNNING] == n.sched.status;
  }

  lemma Turn7()
    ensures Enabled(Scene6(), DoFork) && Step(Scene6(), DoFork) == Ok(Scene7())
  {
    hide FirstClear, Marks;
    var s, n := Scene6(), Scene7();
    MarksFirst(4);
    assert s.order + [5] == n.order && s.sched.ready + [5] == n.sched.ready;
    assert s.info[5 := Info(5, 4, 0, User)] == n.info;
    assert s.sched.status[5 := READY] == n.sched.status;
  }

  lemma Turn8()
    ensures Enabled(Scene7(), GiveWay) && Step(Scene7(), GiveWay) == Ok(Scene8())
  {
    var s, n := Scene7(), Scene8();
    YieldIs(s.sched);
    assert s.sched.ready[1..] + [4] == n.sched.ready;
    assert s.sched.status[4 := READY][3 := RUNNING] == n.sched.status;
  }

  lemma Turn9()
    ensures Enabled(Scene8(), GiveWay) && Step(Scene8(), GiveWay) == Ok(Scene9())
  {
    var s, n := Scene8(), Scene9();
    YieldIs(s.sched);
    assert s.sched.ready[1..] + [3] == n.sched.ready;
    assert s.sched.status[3 := READY][5 := RUNNING] == n.sched.status;
  }

  lemma Turn10()
    ensures Enabled(Scene9(), DoExit(7)) && Step(Scene9(), DoExit(7)) == Ok(Scene10())
  {
    var s, n := Scene9(), Scene10();
    assert s.exited[5 := 7] == n.exited;
    assert ExitStart(s, 7).v.info == n.info;
  }

  lemma Turn11()
    ensures Enabled(Scene10(), DoHang) && Step(Scene10(), DoHang) == Ok(Scene11())
  {
    hide Block, Schedule, Marks, ExitEnd;
    var s, n := Scene10(), Scene11();
    HangIs(s, 3);
    BlockIs(s.sched, HANGING);
    assert s.sched.ready[1..] == n.sched.ready;
    assert s.sched.status[5 := HANGING][4 := RUNNING] == n.sched.status;
    assert s.info[5 := s.info[5].(phase := Gone)] == n.info;
  }

  lemma Turn12()
    ensures Enabled(Scene11(), DoExit(0)) && Step(Scene11(), DoExit(0)) == Ok(Scene12())
  {
    var s, n := Scene11(), Scene12();
    assert s.exited[4 := 0] == n.exited;
    assert ExitStart(s, 0).v.info == n.info;
  }

  lemma Turn13()
    ensures Enabled(Scene12(), DoHang) && Step(Scene12(), DoHang) == Ok(Scene13())
  {
    hide Block, Schedule, Marks, ExitEnd;
    var s, n := Scene12(), Scene13();
    HangIs(s, 2);
    BlockIs(s.sched, HANGING);
    assert s.sched.ready[1..] == n.sched.ready;
    assert s.sched.status[4 := HANGING][3 := RUNNING] == n.sched.status;
    assert s.info[4 := s.info[4].(phase := Gone)] == n.info;
  }

  /** One more step of a run. */
  lemma OneMore(s: Sys, a: Action, n: Sys, rest: seq<Action>)
    requires Enabled(s, a) && Step(s, a) == Ok(n)
    ensures Legal(s, [a] + rest) <==> Legal(n, rest)
    ensures Run(s, [a] + rest) == Run(n, rest)
  {
    var acts := [a] + rest;
    assert acts[0] == a && acts[1..] == rest;
  }

  /** Boot, thirteen steps, and init is stranded. */
  lemma StrandedExample()
    ensures Legal(Boot(), Script()) && Run(Boot(), Script()).Ok? && Stranded(Run(Boot(), Script()).v)
  {
    hide Step, Enabled, Boot, Scene1, Scene2, Scene3, Scene4, Scene5, Scene6, Scene7, Scene8, Scene9, Scene10, Scene11,
         Scene12, Scene13, Legal, Run, Stranded;
    var acts := Script();
    Ends();
    Turn13();
    OneMore(Scene12(), DoHang, Scene13(), acts[13..]);
    assert [DoHang] + acts[13..] == acts[12..];
    Turn12();
    OneMore(Scene11(), DoExit(0), Scene12(), acts[12..]);
    assert [DoExit(0)] + acts[12..] == acts[11..];
    Turn11();
    OneMore(Scene10(), DoHang, Scene11(), acts[11..]);
    assert [DoHang] + acts[11..] == acts[10..];
    Turn10();
    OneMore(Scene9(), DoExit(7), Scene10(), acts[10..]);
    assert [DoExit(7)] + acts[10..] == acts[9..];
    Turn9();
    OneMore(Scene8(), GiveWay, Scene9(), acts[9..]);
    assert [GiveWay] + acts[9..] == acts[8..];
    Turn8();
    OneMore(Scene7(), GiveWay, Scene8(), acts[8..]);
    assert [GiveWay] + acts[8..] == acts[7..];
    Turn7();
    OneMore(Scene6(), DoFork, Scene7(), acts[7..]);
    assert [DoFork] + acts[7..] == acts[6..];
    Turn6();
    OneMore(Scene5(), GiveWay, Scene6(), acts[6..]);
    assert [GiveWay] + acts[6..] == acts[5..];
    Turn5();
    OneMore(Scene4(), DoFork, Scene5(), acts[5..]);
    assert [DoFork] + acts[5..] == acts[4..];
    Turn4();
    OneMore(Scene3(), Sleep, Scene4(), acts[4..]);
    assert [Sleep] + acts[4..] == acts[3..];
    Turn3();
    OneMore(Scene2(), DoWait, Scene3(), acts[3..]);
    assert [DoWait] + acts[3..] == acts[2..];
    Turn2();
    OneMore(Scene1(), DoFork, Scene2(), acts[2..]);
    assert [DoFork] + acts[2..] == acts[1..];
    Turn1();
    OneMore(Boot(), EndKernelThread, Scene1(), acts[1..]);
    assert [EndKernelThread] + acts[1..] == acts[0..];
    assert acts[0..] == acts;
  }

  lemma Ends()
    ensures Legal(Scene13(), Script()[13..]) && Run(Scene13(), Script()[13..]) == Ok(Scene13()) && Stranded(Scene13())
  {
    assert HangingChild(Scene13(), 5, INIT_PID);
  }
}
