/** Laws of the evaluator: derived operators are what C says they abbreviate, and the bound on turns and calls does not
    matter once it is large enough. */
module C4Laws {
  import opened Common
  import opened C4Syntax
  import opened C4Semantics

  // ---------------------------------------------------------------- abbreviations

  /** `++x` is `x = x + 1`, and `--x` is `x = x - 1`. */
  lemma PreStepMeans(p: Program, sc: Scope, up: bool, x: int, s: Store, fuel: nat)
    requires IsLval(sc, Var(x))
    ensures Eval(p, sc, PreStep(up, Var(x)), s, fuel)
      == Eval(p, sc, Assign(Var(x), Bin(if up then Add else Sub, Var(x), Num(1))), s, fuel)
  {
    var e := Bin(if up then Add else Sub, Var(x), Num(1));
    assert Eval(p, sc, Var(x), s, fuel) == Load(x, sc[x], s);
    assert Eval(p, sc, Num(1), s, fuel) == Done(Some(1), s);
  }

  /** `x++` leaves what `++x` leaves and has the value `x` had. */
  lemma PostStepMeans(p: Program, sc: Scope, up: bool, x: int, s: Store, fuel: nat)
    requires IsLval(sc, Var(x))
    ensures var o, q := Eval(p, sc, PostStep(up, Var(x)), s, fuel), Eval(p, sc, PreStep(up, Var(x)), s, fuel);
      if q.Done? then o == Done(Eval(p, sc, Var(x), s, fuel).v, q.s) && Eval(p, sc, Var(x), s, fuel).Done? else o == q
  {
  }

  /** `-e` is `0 - e`. */
  lemma NegMeans(p: Program, sc: Scope, e: Expr, s: Store, fuel: nat)
    requires WfExpr(sc, e)
    ensures Eval(p, sc, Neg(e), s, fuel) == Eval(p, sc, Bin(Sub, Num(0), e), s, fuel)
  {
    hide Bitwise, TruncDiv, Power2;
    assert Eval(p, sc, Num(0), s, fuel) == Done(Some(0), s);
  }

  /** An operator applied to an expression and a number. */
  lemma WithNumber(p: Program, sc: Scope, op: BinOp, e: Expr, n: int, s: Store, fuel: nat)
    requires WfExpr(sc, e) && Int32(n)
    ensures var o := Need(Eval(p, sc, e, s, fuel));
      Eval(p, sc, Bin(op, e, Num(n)), s, fuel) == if o.Done? then Apply(op, o.v.value, n, o.s) else o
  {
    hide Arith, Apply;
    var o := Eval(p, sc, e, s, fuel);
    if o.Done? { assert Eval(p, sc, Num(n), o.s, fuel) == Done(Some(n), o.s); }
  }

  /** `!e` is `e == 0`. */
  lemma NotMeans(p: Program, sc: Scope, e: Expr, s: Store, fuel: nat)
    requires WfExpr(sc, e)
    ensures Eval(p, sc, Not(e), s, fuel) == Eval(p, sc, Bin(Eq, e, Num(0)), s, fuel)
  {
    hide Bitwise, TruncDiv, Power2;
    WithNumber(p, sc, Eq, e, 0, s, fuel);
  }

  /** `~e` is `e ^ -1`. */
  lemma BitNotMeans(p: Program, sc: Scope, e: Expr, s: Store, fuel: nat)
    requires WfExpr(sc, e)
    requires var o := Eval(p, sc, e, s, fuel); o.Done? && o.v.Some? ==> Int32(o.v.value)
    ensures Eval(p, sc, BitNot(e), s, fuel) == Eval(p, sc, Bin(Xor, e, Num(-1)), s, fuel)
  {
    hide Arith, Eval;
    Flipped(p, sc, e, s, fuel);
    WithNumber(p, sc, Xor, e, -1, s, fuel);
    var o := Eval(p, sc, e, s, fuel);
    if o.Done? && o.v.Some? { XorOnes(o.v.value); }
  }

  lemma Flipped(p: Program, sc: Scope, e: Expr, s: Store, fuel: nat)
    requires WfExpr(sc, e)
    ensures var o := Need(Eval(p, sc, e, s, fuel));
      Eval(p, sc, BitNot(e), s, fuel) == if o.Done? then Done(Some(-1 - o.v.value), o.s) else o
  {
    hide Arith;
  }

  lemma XorOnes(x: int)
    requires Int32(x)
    ensures Arith(Xor, x, -1) == Some(-1 - x)
  {
    hide Bitwise;
    XorMinusOne(x);
  }

  /** `?:` takes its second operand for a constant other than 0, its third for 0, and turns round under `!`. */
  lemma CondMeans(p: Program, sc: Scope, c: Expr, n: int, t: Expr, f: Expr, s: Store, fuel: nat)
    requires WfExpr(sc, c) && WfExpr(sc, t) && WfExpr(sc, f) && Int32(n)
    ensures Eval(p, sc, Cond(Num(n), t, f), s, fuel) == Eval(p, sc, if n != 0 then t else f, s, fuel)
    ensures Eval(p, sc, Cond(Not(c), t, f), s, fuel) == Eval(p, sc, Cond(c, f, t), s, fuel)
  {
    assert Eval(p, sc, Num(n), s, fuel) == Done(Some(n), s);
  }

  /** `a && b` is `a ? b : 0`, and `!(a || b)` is `!a && !b`. */
  lemma AndOrMean(p: Program, sc: Scope, a: Expr, b: Expr, s: Store, fuel: nat)
    requires WfExpr(sc, a) && WfExpr(sc, b)
    ensures var o := Eval(p, sc, Lan(a, b), s, fuel);
      Need(o) == Need(Eval(p, sc, Cond(a, b, Num(0)), s, fuel))
    ensures WfExpr(sc, Not(a)) && WfExpr(sc, Not(b)) && WfExpr(sc, Lor(a, b))
    ensures Eval(p, sc, Not(Lor(a, b)), s, fuel) == Eval(p, sc, Lan(Not(a), Not(b)), s, fuel)
  {
    assert forall r :: Eval(p, sc, Num(0), r, fuel) == Done(Some(0), r);
  }

  /** Arguments are bound from left to right. */
  lemma {:induction false} BoundInOrder(ids: seq<int>, vs: seq<int>, i: nat)
    requires |ids| == |vs| && i < |ids| && forall j | i < j < |ids| :: ids[j] != ids[i]
    ensures Bound(ids, vs)[ids[i]] == vs[i]
    decreases |ids|
  {
    var k := |ids| - 1;
    if i < k {
      BoundInOrder(ids[..k], vs[..k], i);
    }
  }

  // ---------------------------------------------------------------- fuel

  /** With a result, one more turn or call allowed changes nothing. */
  lemma {:induction false} EvalMore(p: Program, sc: Scope, e: Expr, s: Store, fuel: nat)
    requires WfExpr(sc, e) && !Eval(p, sc, e, s, fuel).Timeout?
    ensures Eval(p, sc, e, s, fuel + 1) == Eval(p, sc, e, s, fuel)
    decreases fuel, e, 0
  {
    hide Invoke, Arith, Load, StepVar;
    match e
    case Num(n) =>
    case Var(x) =>
    case Paren(i) => EvalMore(p, sc, i, s, fuel);
    case Assign(l, r) => EvalMore(p, sc, r, s, fuel);
    case Cond(c, t, f) =>
      EvalMore(p, sc, c, s, fuel);
      var o := Need(Eval(p, sc, c, s, fuel));
      if o.Done? { EvalMore(p, sc, if o.v.value != 0 then t else f, o.s, fuel); }
    case Lor(l, r) =>
      EvalMore(p, sc, l, s, fuel);
      var o := Need(Eval(p, sc, l, s, fuel));
      if o.Done? && o.v.value == 0 { EvalMore(p, sc, r, o.s, fuel); }
    case Lan(l, r) =>
      EvalMore(p, sc, l, s, fuel);
      var o := Need(Eval(p, sc, l, s, fuel));
      if o.Done? && o.v.value != 0 { EvalMore(p, sc, r, o.s, fuel); }
    case Bin(op, l, r) =>
      EvalMore(p, sc, l, s, fuel);
      var o := Need(Eval(p, sc, l, s, fuel));
      if o.Done? { EvalMore(p, sc, r, o.s, fuel); }
    case Not(i) => EvalMore(p, sc, i, s, fuel);
    case BitNot(i) => EvalMore(p, sc, i, s, fuel);
    case Plus(i) => EvalMore(p, sc, i, s, fuel);
    case Neg(i) => EvalMore(p, sc, i, s, fuel);
    case PreStep(up, i) =>
    case PostStep(up, i) =>
    case Call(x, args) =>
      ArgsMore(p, sc, args, s, fuel);
      var (o, vs) := EvalArgs(p, sc, args, s, fuel);
      if o.Done? && fuel > 0 { InvokeMore(p, x, vs, o.s, fuel - 1); }
  }

  lemma {:induction false} ArgsMore(p: Program, sc: Scope, args: Args, s: Store, fuel: nat)
    requires WfArgs(sc, args) && !EvalArgs(p, sc, args, s, fuel).0.Timeout?
    ensures EvalArgs(p, sc, args, s, fuel + 1) == EvalArgs(p, sc, args, s, fuel)
    decreases fuel, args, 0
  {
    hide Eval;
    if args.ACons? {
      EvalMore(p, sc, args.head, s, fuel);
      var o := Need(Eval(p, sc, args.head, s, fuel));
      if o.Done? { ArgsMore(p, sc, args.tail, o.s, fuel); }
    }
  }

  lemma {:induction false} InvokeMore(p: Program, x: int, vs: seq<int>, s: Store, fuel: nat)
    requires !Invoke(p, x, vs, s, fuel).Timeout?
    ensures Invoke(p, x, vs, s, fuel + 1) == Invoke(p, x, vs, s, fuel)
    decreases fuel
  {
    hide ExecAll, BodyScope, Bound;
    if x in p.funs && |p.funs[x].params| == |vs| && WfStmts(BodyScope(p, p.funs[x]), p.funs[x].body) {
      var f := p.funs[x];
      AllMore(p, BodyScope(p, f), f.body, Store(Bound(f.params, vs), s.glo), fuel);
    }
  }

  lemma {:induction false} ExecMore(p: Program, sc: Scope, st: Stmt, s: Store, fuel: nat)
    requires WfStmt(sc, st) && !Exec(p, sc, st, s, fuel).Timeout?
    ensures Exec(p, sc, st, s, fuel + 1) == Exec(p, sc, st, s, fuel)
    decreases fuel, st, 0
  {
    hide Eval;
    match st
    case If(c, t) =>
      EvalMore(p, sc, c, s, fuel);
      var o := Need(Eval(p, sc, c, s, fuel));
      if o.Done? && o.v.value != 0 { ExecMore(p, sc, t, o.s, fuel); }
    case IfElse(c, t, f) =>
      EvalMore(p, sc, c, s, fuel);
      var o := Need(Eval(p, sc, c, s, fuel));
      if o.Done? { ExecMore(p, sc, if o.v.value != 0 then t else f, o.s, fuel); }
    case While(c, b) =>
      EvalMore(p, sc, c, s, fuel);
      var o := Need(Eval(p, sc, c, s, fuel));
      if o.Done? && o.v.value != 0 {
        ExecMore(p, sc, b, o.s, fuel);
        var q := Exec(p, sc, b, o.s, fuel);
        if q.Done? && fuel > 0 { ExecMore(p, sc, st, q.s, fuel - 1); }
      }
    case Return(e) => EvalMore(p, sc, e, s, fuel);
    case ReturnVoid =>
    case Block(ss) => AllMore(p, sc, ss, s, fuel);
    case Empty =>
    case ExprStmt(e) => EvalMore(p, sc, e, s, fuel);
  }

  lemma {:induction false} AllMore(p: Program, sc: Scope, ss: Stmts, s: Store, fuel: nat)
    requires WfStmts(sc, ss) && !ExecAll(p, sc, ss, s, fuel).Timeout?
    ensures ExecAll(p, sc, ss, s, fuel + 1) == ExecAll(p, sc, ss, s, fuel)
    decreases fuel, ss, 0
  {
    hide Exec;
    if ss.SCons? {
      ExecMore(p, sc, ss.head, s, fuel);
      var o := Exec(p, sc, ss.head, s, fuel);
      if o.Done? { AllMore(p, sc, ss.tail, o.s, fuel); }
    }
  }

  /** A program has one result: two bounds that both suffice give the same. */
  lemma {:induction false} OneResult(p: Program, sc: Scope, ss: Stmts, s: Store, m: nat, n: nat)
    requires WfStmts(sc, ss) && m <= n && !ExecAll(p, sc, ss, s, m).Timeout?
    ensures ExecAll(p, sc, ss, s, n) == ExecAll(p, sc, ss, s, m)
    decreases n
  {
    hide ExecAll;
    if m < n {
      OneResult(p, sc, ss, s, m, n - 1);
      AllMore(p, sc, ss, s, n - 1);
    }
  }

  // ---------------------------------------------------------------- statements

  /** `{ b while (c) b }` */
  function Again(c: Expr, b: Stmt): Stmts { SCons(b, SCons(While(c, b), SNil)) }

  lemma AgainWf(sc: Scope, c: Expr, b: Stmt)
    requires WfStmt(sc, While(c, b))
    ensures WfExpr(sc, c) && WfStmt(sc, b) && WfStmts(sc, SCons(While(c, b), SNil)) && WfStmts(sc, Again(c, b))
    ensures WfStmt(sc, Block(Again(c, b))) && WfStmt(sc, If(c, Block(Again(c, b))))
  {
    assert WfStmts(sc, SNil);
  }

  /** Running the block: the body, and if it ends normally the loop. */
  lemma AgainRuns(p: Program, sc: Scope, c: Expr, b: Stmt, s: Store, fuel: nat)
    requires WfStmt(sc, While(c, b))
    ensures WfStmt(sc, b) && WfStmt(sc, Block(Again(c, b)))
    ensures var q := Exec(p, sc, b, s, fuel);
      Exec(p, sc, Block(Again(c, b)), s, fuel) ==
        if !q.Done? then q
        else
          var r := Exec(p, sc, While(c, b), q.s, fuel);
          if r.Done? then Done(None, r.s) else r
  {
    AgainWf(sc, c, b);
    var w := While(c, b);
    var rest := SCons(w, SNil);
    assert forall r :: ExecAll(p, sc, SNil, r, fuel) == Done(None, r);
    var q := Exec(p, sc, b, s, fuel);
    if q.Done? {
      var r := Exec(p, sc, w, q.s, fuel);
      assert ExecAll(p, sc, rest, q.s, fuel) == if r.Done? then Done(None, r.s) else r;
    }
  }

  /** `while (c) b` is `if (c) { b while (c) b }`. */
  lemma WhileUnrolls(p: Program, sc: Scope, c: Expr, b: Stmt, s: Store, fuel: nat)
    requires WfStmt(sc, While(c, b)) && !Exec(p, sc, While(c, b), s, fuel).Timeout?
    ensures WfStmt(sc, If(c, Block(Again(c, b))))
    ensures var o, q := Exec(p, sc, While(c, b), s, fuel), Exec(p, sc, If(c, Block(Again(c, b))), s, fuel);
      if o.Done? then q.Done? && q.s == o.s else q == o
  {
    hide Eval, Again, WfStmt;
    AgainWf(sc, c, b);
    var w := While(c, b);
    var o := Need(Eval(p, sc, c, s, fuel));
    if o.Done? {
      AgainRuns(p, sc, c, b, o.s, fuel);
      var q := Exec(p, sc, b, o.s, fuel);
      if o.v.value != 0 && q.Done? && fuel > 0 { ExecMore(p, sc, w, q.s, fuel - 1); }
    }
  }

  /** `if (c) t else f` takes `t` for a constant other than 0 and `f` for 0, and turns round under `!`. */
  lemma IfElseMeans(p: Program, sc: Scope, c: Expr, n: int, t: Stmt, f: Stmt, s: Store, fuel: nat)
    requires WfExpr(sc, c) && WfStmt(sc, t) && WfStmt(sc, f) && !OpenIf(t) && !OpenIf(f) && Int32(n)
    ensures Exec(p, sc, IfElse(Num(n), t, f), s, fuel) == Exec(p, sc, if n != 0 then t else f, s, fuel)
    ensures Exec(p, sc, IfElse(Not(c), t, f), s, fuel) == Exec(p, sc, IfElse(c, f, t), s, fuel)
    ensures var o, q := Exec(p, sc, If(c, t), s, fuel), Exec(p, sc, IfElse(c, t, Empty), s, fuel);
      if o.Done? then q.Done? && q.s == o.s else q == o
  {
    assert Eval(p, sc, Num(n), s, fuel) == Done(Some(n), s);
  }
}
