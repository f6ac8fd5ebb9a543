/** The other half of compiler correctness: when the evaluator runs out of fuel, the machine
    is still going, so a machine that stops is one whose program the evaluator can finish. */
module C4Divergence {
  import opened C4Syntax
  import opened C4Machine
  import opened C4Semantics
  import opened C4Simulation

  ghost predicate TReady(cx: Cx, e: Expr, m: State, s: Store, fuel: nat) {
    && CxOk(cx) && Rel(cx, m, s) && WfExpr(cx.Sc(), e)
    && InText(cx.w, m.pc, ECode(cx, e, m.pc)) && Ev(cx, e, s, fuel).Timeout?
  }

  /** The machine can take at least `fuel` turns. */
  ghost predicate Long(m: State, n: nat, m2: State, fuel: nat) {
    Steps(m, n, m2) && n >= fuel
  }

  lemma After1(m: State, n1: nat, m1: State, n2: nat, m2: State, fuel: nat)
    requires Steps(m, n1, m1) && Long(m1, n2, m2, fuel)
    ensures Long(m, n1 + n2, m2, fuel)
  {
    StepsTrans(m, n1, m1, n2, m2);
  }

  lemma {:induction false} ExprLong(cx: Cx, e: Expr, m: State, s: Store, fuel: nat) returns (n: nat, m2: State)
    requires TReady(cx, e, m, s, fuel)
    ensures Long(m, n, m2, fuel)
    decreases fuel, e, 1
  {
    hide CxOk, Rel, Frame, InText, Steps, BodyScope, Long;
    match e
    case Paren(i) => n, m2 := ExprLong(cx, i, m, s, fuel);
    case Plus(i) => n, m2 := ExprLong(cx, i, m, s, fuel);
    case Assign(l, r) => n, m2 := AssignLong(cx, e, m, s, fuel);
    case Cond(c, t, f) => n, m2 := CondLong(cx, e, m, s, fuel);
    case Lor(l, r) => n, m2 := ShortLong(cx, e, m, s, fuel);
    case Lan(l, r) => n, m2 := ShortLong(cx, e, m, s, fuel);
    case Bin(op, l, r) => n, m2 := BinLong(cx, e, m, s, fuel);
    case Not(i) => TextSplit(cx.w, m.pc, ECode(cx, i, m.pc), [PSH, IMM, 0, Opcode(Eq)]);
      n, m2 := ExprLong(cx, i, m, s, fuel);
    case BitNot(i) => TextSplit(cx.w, m.pc, ECode(cx, i, m.pc), [PSH, IMM, -1, Opcode(Xor)]);
      n, m2 := ExprLong(cx, i, m, s, fuel);
    case Neg(i) => n, m2 := NegLong(cx, e, m, s, fuel);
    case Call(x, args) => n, m2 := CallLong(cx, e, m, s, fuel);
    case _ => assert false;
  }

  lemma {:induction false} BinLong(cx: Cx, e: Expr, m: State, s: Store, fuel: nat) returns (n: nat, m2: State)
    requires TReady(cx, e, m, s, fuel) && e.Bin?
    ensures Long(m, n, m2, fuel)
    decreases fuel, e, 0
  {
    hide CxOk, Rel, Frame, InText, Steps, Arith, BodyScope, Long;
    var c0 := ECode(cx, e.l, m.pc);
    var c1 := ECode(cx, e.r, m.pc + |c0| + 1);
    TextSplit(cx.w, m.pc, c0 + [PSH] + c1, [Opcode(e.op)]);
    TextSplit(cx.w, m.pc, c0 + [PSH], c1);
    TextSplit(cx.w, m.pc, c0, [PSH]);
    var o := Ev(cx, e.l, s, fuel);
    if o.Timeout? {
      n, m2 := ExprLong(cx, e.l, m, s, fuel);
    } else {
      var n1, m1 := ExprSim(cx, e.l, m, s, fuel);
      Fetch(cx, m1, o.s, m1.pc, [PSH], 0);
      var k := DoPush(cx, m1, o.s);
      var n3; n3, m2 := ExprLong(cx, e.r, k, o.s, fuel);
      After1(m1, 1, k, n3, m2, fuel);
      After1(m, n1, m1, 1 + n3, m2, fuel);
      n := n1 + (1 + n3);
    }
  }

  lemma {:induction false} NegLong(cx: Cx, e: Expr, m: State, s: Store, fuel: nat) returns (n: nat, m2: State)
    requires TReady(cx, e, m, s, fuel) && e.Neg?
    ensures Long(m, n, m2, fuel)
    decreases fuel, e, 0
  {
    hide CxOk, Rel, Frame, InText, Steps, BodyScope, Long;
    assert e.inner.Num? ==> Ev(cx, e.inner, s, fuel).Done?;
    var c0 := ECode(cx, e.inner, m.pc + 3);
    assert ECode(cx, e, m.pc) == [IMM, -1] + ([PSH] + (c0 + [Opcode(Mul)]));
    TextSplit(cx.w, m.pc, [IMM, -1], [PSH] + (c0 + [Opcode(Mul)]));
    TextSplit(cx.w, m.pc + 2, [PSH], c0 + [Opcode(Mul)]);
    TextSplit(cx.w, m.pc + 3, c0, [Opcode(Mul)]);
    var m1 := DoImm(cx, m, s, -1);
    Fetch(cx, m1, s, m1.pc, [PSH], 0);
    var k := DoPush(cx, m1, s);
    var n3; n3, m2 := ExprLong(cx, e.inner, k, s, fuel);
    After1(m1, 1, k, n3, m2, fuel);
    After1(m, 1, m1, 1 + n3, m2, fuel);
    n := 1 + (1 + n3);
  }

  lemma {:induction false} AssignLong(cx: Cx, e: Expr, m: State, s: Store, fuel: nat) returns (n: nat, m2: State)
    requires TReady(cx, e, m, s, fuel) && e.Assign?
    ensures Long(m, n, m2, fuel)
    decreases fuel, e, 0
  {
    hide CxOk, Rel, Frame, InText, Steps, BodyScope, Long;
    var y := cx.Sc()[LvalName(cx.Sc(), e.lhs)];
    var ca := AddrCode(y, cx.Loc());
    var c0 := ECode(cx, e.rhs, m.pc + 3);
    TextSplit(cx.w, m.pc, ca + [PSH] + c0, [SI]);
    TextSplit(cx.w, m.pc, ca + [PSH], c0);
    TextSplit(cx.w, m.pc, ca, [PSH]);
    var m1 := DoAddr(cx, m, s, y);
    Fetch(cx, m1, s, m1.pc, [PSH], 0);
    var k := DoPush(cx, m1, s);
    var n3; n3, m2 := ExprLong(cx, e.rhs, k, s, fuel);
    After1(m1, 1, k, n3, m2, fuel);
    After1(m, 1, m1, 1 + n3, m2, fuel);
    n := 1 + (1 + n3);
  }

  lemma {:induction false} CondLong(cx: Cx, e: Expr, m: State, s: Store, fuel: nat) returns (n: nat, m2: State)
    requires TReady(cx, e, m, s, fuel) && e.Cond?
    ensures Long(m, n, m2, fuel)
    decreases fuel, e, 0
  {
    hide CxOk, Rel, Frame, InText, Steps, BodyScope, Long;
    var c0 := ECode(cx, e.c, m.pc);
    var at1 := m.pc + |c0| + 2;
    var c1 := ECode(cx, e.t, at1);
    var at2 := at1 + |c1| + 2;
    var c2 := ECode(cx, e.f, at2);
    TextSplit(cx.w, m.pc, c0 + [BZ, at2] + c1 + [JMP, at2 + |c2|], c2);
    TextSplit(cx.w, m.pc, c0 + [BZ, at2] + c1, [JMP, at2 + |c2|]);
    TextSplit(cx.w, m.pc, c0 + [BZ, at2], c1);
    TextSplit(cx.w, m.pc, c0, [BZ, at2]);
    var o := Ev(cx, e.c, s, fuel);
    if o.Timeout? {
      n, m2 := ExprLong(cx, e.c, m, s, fuel);
    } else {
      var n1, m1 := ExprSim(cx, e.c, m, s, fuel);
      var k := DoBranch(cx, m1, o.s, BZ, at2);
      var n3; n3, m2 := ExprLong(cx, if o.v.value != 0 then e.t else e.f, k, o.s, fuel);
      After1(m1, 1, k, n3, m2, fuel);
      After1(m, n1, m1, 1 + n3, m2, fuel);
      n := n1 + (1 + n3);
    }
  }

  lemma {:induction false} ShortLong(cx: Cx, e: Expr, m: State, s: Store, fuel: nat) returns (n: nat, m2: State)
    requires TReady(cx, e, m, s, fuel) && (e.Lor? || e.Lan?)
    ensures Long(m, n, m2, fuel)
    decreases fuel, e, 0
  {
    hide CxOk, Rel, Frame, InText, Steps, BodyScope, Long;
    var c0 := ECode(cx, e.l, m.pc);
    var at1 := m.pc + |c0| + 2;
    var c1 := ECode(cx, e.r, at1);
    var i := if e.Lor? then BNZ else BZ;
    TextSplit(cx.w, m.pc, c0 + [i, at1 + |c1|], c1);
    TextSplit(cx.w, m.pc, c0, [i, at1 + |c1|]);
    var o := Ev(cx, e.l, s, fuel);
    if o.Timeout? {
      n, m2 := ExprLong(cx, e.l, m, s, fuel);
    } else {
      var n1, m1 := ExprSim(cx, e.l, m, s, fuel);
      var k := DoBranch(cx, m1, o.s, i, at1 + |c1|);
      var n3; n3, m2 := ExprLong(cx, e.r, k, o.s, fuel);
      After1(m1, 1, k, n3, m2, fuel);
      After1(m, n1, m1, 1 + n3, m2, fuel);
      n := n1 + (1 + n3);
    }
  }

  lemma {:induction false} ArgsLong(cx: Cx, args: Args, m: State, s: Store, fuel: nat) returns (n: nat, m2: State)
    requires CxOk(cx) && Rel(cx, m, s) && WfArgs(cx.Sc(), args)
    requires InText(cx.w, m.pc, ArgsCode(cx.Sc(), cx.Loc(), args, m.pc))
    requires EvalArgs(cx.w.p, cx.Sc(), args, s, fuel).0.Timeout?
    ensures Long(m, n, m2, fuel)
    decreases fuel, args, 0
  {
    hide CxOk, Rel, Frame, InText, BodyScope, Steps, Long;
    var c0 := ECode(cx, args.head, m.pc);
    var c1 := ArgsCode(cx.Sc(), cx.Loc(), args.tail, m.pc + |c0| + 1);
    TextSplit(cx.w, m.pc, c0 + [PSH], c1);
    TextSplit(cx.w, m.pc, c0, [PSH]);
    var o := Ev(cx, args.head, s, fuel);
    if o.Timeout? {
      n, m2 := ExprLong(cx, args.head, m, s, fuel);
    } else {
      var n1, m1 := ExprSim(cx, args.head, m, s, fuel);
      Fetch(cx, m1, o.s, m1.pc, [PSH], 0);
      var k := DoPush(cx, m1, o.s);
      var n3; n3, m2 := ArgsLong(cx, args.tail, k, o.s, fuel);
      After1(m1, 1, k, n3, m2, fuel);
      After1(m, n1, m1, 1 + n3, m2, fuel);
      n := n1 + (1 + n3);
    }
  }

  lemma Still(m: State)
    ensures Long(m, 0, m, 0)
  {
  }

  lemma {:induction false} CallLong(cx: Cx, e: Expr, m: State, s: Store, fuel: nat) returns (n: nat, m2: State)
    requires TReady(cx, e, m, s, fuel) && e.Call?
    ensures Long(m, n, m2, fuel)
    decreases fuel, e, 0
  {
    hide CxOk, Rel, Frame, InText, Steps, Pushed, BodyScope, Long, Invoke;
    var c0 := ArgsCode(cx.Sc(), cx.Loc(), e.args, m.pc);
    var addr := cx.Sc()[e.x].val;
    TextSplit(cx.w, m.pc, c0 + [JSR, addr], if e.args.ANil? then [] else [ADJ, e.args.Count()]);
    TextSplit(cx.w, m.pc, c0, [JSR, addr]);
    var (q, vs) := EvalArgs(cx.w.p, cx.Sc(), e.args, s, fuel);
    if q.Timeout? {
      n, m2 := ArgsLong(cx, e.args, m, s, fuel);
    } else if fuel == 0 {
      n, m2 := 0, m;
      Still(m);
    } else {
      RelBounds(cx, m, s);
      var n1, m1 := ArgsSim(cx, e.args, m, s, fuel);
      CalleeKnown(cx, e.x);
      var n3; n3, m2 := InvokeLong(cx, m, vs, m1, q.s, e.x, fuel - 1);
      After1(m, n1, m1, n3, m2, fuel);
      n := n1 + n3;
    }
  }

  lemma {:induction false} InvokeLong(cx: Cx, m: State, vs: seq<int>, m1: State, s: Store, x: int, fuel: nat)
    returns (n: nat, m2: State)
    requires CxOk(cx) && Rel(cx, m1, s) && Pushed(m, vs, m1) && m.sp <= m.bp - |cx.f.locals|
    requires x in cx.w.p.globals && InText(cx.w, m1.pc, [JSR, cx.w.p.globals[x].val]) &&
      Invoke(cx.w.p, x, vs, s, fuel).Timeout?
    ensures Long(m1, n, m2, fuel + 1)
    decreases fuel
  {
    hide Rel, Frame, InText, Steps, Pushed, BodyScope;
    var g := cx.w.p.funs[x];
    var addr := cx.w.p.globals[x].val;
    var dx := Cx(cx.w, g);
    assert FunOk(cx.w, addr, g);
    BodyCx(cx.w, g);
    var k := Enter(cx, m, vs, m1, s, addr, g);
    var c := StmtsCode(dx.Sc(), dx.Loc(), g.body, addr + 2);
    TextSplit(cx.w, addr, [ENT, |g.locals|] + c, [LEV]);
    TextSplit(cx.w, addr, [ENT, |g.locals|], c);
    var n3; n3, m2 := StmtsLong(dx, g.body, k, Frame0(g, vs, s), fuel);
    StepsTrans(m1, 2, k, n3, m2);
    n := 2 + n3;
  }

  ghost predicate STReady(cx: Cx, st: Stmt, m: State, s: Store, fuel: nat) {
    && CxOk(cx) && Rel(cx, m, s) && WfStmt(cx.Sc(), st)
    && InText(cx.w, m.pc, SCode(cx, st, m.pc)) && Ex(cx, st, s, fuel).Timeout?
  }

  lemma {:induction false} StmtLong(cx: Cx, st: Stmt, m: State, s: Store, fuel: nat) returns (n: nat, m2: State)
    requires STReady(cx, st, m, s, fuel)
    ensures Long(m, n, m2, fuel)
    decreases fuel, st, 1
  {
    hide CxOk, Rel, Frame, InText, BodyScope, Long, Steps;
    match st
    case If(c, t) => n, m2 := IfLong(cx, st, m, s, fuel);
    case IfElse(c, t, f) => n, m2 := IfElseLong(cx, st, m, s, fuel);
    case While(c, b) => n, m2 := WhileLong(cx, st, m, s, fuel);
    case Return(e) =>
      TextSplit(cx.w, m.pc, ECode(cx, e, m.pc), [LEV]);
      n, m2 := ExprLong(cx, e, m, s, fuel);
    case Block(ss) => n, m2 := StmtsLong(cx, ss, m, s, fuel);
    case ExprStmt(e) => n, m2 := ExprLong(cx, e, m, s, fuel);
    case _ => assert false;
  }

  lemma {:induction false} IfLong(cx: Cx, st: Stmt, m: State, s: Store, fuel: nat) returns (n: nat, m2: State)
    requires STReady(cx, st, m, s, fuel) && st.If?
    ensures Long(m, n, m2, fuel)
    decreases fuel, st, 0
  {
    hide CxOk, Rel, Frame, InText, Steps, BodyScope, Long, Code, Eval;
    var c0 := ECode(cx, st.c, m.pc);
    var c1 := SCode(cx, st.t, m.pc + |c0| + 2);
    var end := m.pc + |c0| + 2 + |c1|;
    TextSplit(cx.w, m.pc, c0 + [BZ, end], c1);
    TextSplit(cx.w, m.pc, c0, [BZ, end]);
    var o := Ev(cx, st.c, s, fuel);
    if o.Timeout? {
      n, m2 := ExprLong(cx, st.c, m, s, fuel);
    } else {
      var n1, m1 := ExprSim(cx, st.c, m, s, fuel);
      var k := DoBranch(cx, m1, o.s, BZ, end);
      var n3; n3, m2 := StmtLong(cx, st.t, k, o.s, fuel);
      After1(m1, 1, k, n3, m2, fuel);
      After1(m, n1, m1, 1 + n3, m2, fuel);
      n := n1 + (1 + n3);
    }
  }

  lemma {:induction false} IfElseLong(cx: Cx, st: Stmt, m: State, s: Store, fuel: nat) returns (n: nat, m2: State)
    requires STReady(cx, st, m, s, fuel) && st.IfElse?
    ensures Long(m, n, m2, fuel)
    decreases fuel, st, 0
  {
    hide CxOk, Rel, Frame, InText, Steps, BodyScope, Long, Code, Eval;
    var c0 := ECode(cx, st.c, m.pc);
    var at1 := m.pc + |c0| + 2;
    var c1 := SCode(cx, st.t, at1);
    var at2 := at1 + |c1| + 2;
    var c2 := SCode(cx, st.f, at2);
    TextSplit(cx.w, m.pc, c0 + [BZ, at2] + c1 + [JMP, at2 + |c2|], c2);
    TextSplit(cx.w, m.pc, c0 + [BZ, at2] + c1, [JMP, at2 + |c2|]);
    TextSplit(cx.w, m.pc, c0 + [BZ, at2], c1);
    TextSplit(cx.w, m.pc, c0, [BZ, at2]);
    var o := Ev(cx, st.c, s, fuel);
    if o.Timeout? {
      n, m2 := ExprLong(cx, st.c, m, s, fuel);
    } else {
      var n1, m1 := ExprSim(cx, st.c, m, s, fuel);
      var k := DoBranch(cx, m1, o.s, BZ, at2);
      var n3; n3, m2 := StmtLong(cx, if o.v.value != 0 then st.t else st.f, k, o.s, fuel);
      After1(m1, 1, k, n3, m2, fuel);
      After1(m, n1, m1, 1 + n3, m2, fuel);
      n := n1 + (1 + n3);
    }
  }

  lemma {:induction false} WhileLong(cx: Cx, st: Stmt, m: State, s: Store, fuel: nat) returns (n: nat, m2: State)
    requires STReady(cx, st, m, s, fuel) && st.While?
    ensures Long(m, n, m2, fuel)
    decreases fuel, st, 0
  {
    hide CxOk, Rel, Frame, InText, Steps, BodyScope, Code, Eval;
    var c0 := ECode(cx, st.c, m.pc);
    var at1 := m.pc + |c0| + 2;
    var c1 := SCode(cx, st.body, at1);
    var end := at1 + |c1| + 2;
    TextSplit(cx.w, m.pc, c0 + [BZ, end] + c1, [JMP, m.pc]);
    TextSplit(cx.w, m.pc, c0 + [BZ, end], c1);
    TextSplit(cx.w, m.pc, c0, [BZ, end]);
    var o := Ev(cx, st.c, s, fuel);
    if o.Timeout? {
      n, m2 := ExprLong(cx, st.c, m, s, fuel);
    } else {
      var n1, m1 := ExprSim(cx, st.c, m, s, fuel);
      var k := DoBranch(cx, m1, o.s, BZ, end);
      StepsTrans(m, n1, m1, 1, k);
      var q := Ex(cx, st.body, o.s, fuel);
      if q.Timeout? {
        var n3; n3, m2 := StmtLong(cx, st.body, k, o.s, fuel);
        After1(m, n1 + 1, k, n3, m2, fuel);
        n := n1 + 1 + n3;
      } else if fuel == 0 {
        n, m2 := n1 + 1, k;
      } else {
        var n3, m3 := StmtSim(cx, st.body, k, o.s, fuel);
        var j := DoBranch(cx, m3, q.s, JMP, m.pc);
        StepsTrans(k, n3, m3, 1, j);
        var n5; n5, m2 := StmtLong(cx, st, j, q.s, fuel - 1);
        StepsTrans(k, n3 + 1, j, n5, m2);
        StepsTrans(m, n1 + 1, k, n3 + 1 + n5, m2);
        n := n1 + 1 + (n3 + 1 + n5);
      }
    }
  }

  /** Out of fuel means that many turns and no end in sight. */
  lemma {:induction false} StmtsLong(cx: Cx, ss: Stmts, m: State, s: Store, fuel: nat) returns (n: nat, m2: State)
    requires CxOk(cx) && Rel(cx, m, s) && WfStmts(cx.Sc(), ss)
    requires InText(cx.w, m.pc, StmtsCode(cx.Sc(), cx.Loc(), ss, m.pc))
    requires ExecAll(cx.w.p, cx.Sc(), ss, s, fuel).Timeout?
    ensures Long(m, n, m2, fuel)
    decreases fuel, ss, 0
  {
    hide CxOk, Rel, Frame, InText, BodyScope, Steps, Long;
    var c0 := SCode(cx, ss.head, m.pc);
    var c1 := StmtsCode(cx.Sc(), cx.Loc(), ss.tail, m.pc + |c0|);
    TextSplit(cx.w, m.pc, c0, c1);
    var o := Ex(cx, ss.head, s, fuel);
    if o.Timeout? {
      n, m2 := StmtLong(cx, ss.head, m, s, fuel);
    } else {
      var n1, m1 := StmtSim(cx, ss.head, m, s, fuel);
      var n3; n3, m2 := StmtsLong(cx, ss.tail, m1, o.s, fuel);
      After1(m, n1, m1, n3, m2, fuel);
      n := n1 + n3;
    }
  }
}
