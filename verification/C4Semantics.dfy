/** What int programs mean, independently of stack, code and addresses: a direct evaluator over named
    variables and functions. It is indexed by `fuel`, the number of loop turns and calls allowed. */
module C4Semantics {
  import opened Common
  import opened C4Syntax

  datatype FunDef = FunDef(params: seq<int>, locals: seq<int>, body: Stmts)

  /** Global names, and the functions by name. */
  datatype Program = Program(globals: Scope, funs: map<int, FunDef>)

  /** Frame numbers as the declaration parser hands them out: parameters 0 .. n-1,
      then two numbers skipped, then the locals. */
  predicate IsSlot(f: FunDef, v: int) {
    0 <= v < |f.params| || |f.params| + 2 <= v < |f.params| + 2 + |f.locals|
  }

  function BindParams(sc: Scope, ids: seq<int>, first: int): (r: Scope)
    ensures sc.Keys <= r.Keys
    ensures forall x | x in r :: x in ids || (x in sc && r[x] == sc[x])
    ensures forall x | x in ids :: x in r && r[x].cls == CLoc && first <= r[x].val < first + |ids|
    decreases |ids|
  {
    if ids == [] then sc
    else
      var k := |ids| - 1;
      BindParams(sc, ids[..k], first)[ids[k] := Sym(CLoc, first + k)]
  }

  /** The names visible in the body of `f`. */
  function BodyScope(p: Program, f: FunDef): Scope {
    BindParams(BindParams(p.globals, f.params, 0), f.locals, |f.params| + 2)
  }

  predicate Distinct(ids: seq<int>) { forall i, j :: 0 <= i < j < |ids| ==> ids[i] != ids[j] }

  /** The parameters with the values passed. */
  function Bound(ids: seq<int>, vs: seq<int>): (r: map<int, int>)
    requires |ids| == |vs|
    ensures forall x :: x in r <==> x in ids
    decreases |ids|
  {
    if ids == [] then map[]
    else
      var k := |ids| - 1;
      Bound(ids[..k], vs[..k])[ids[k] := vs[k]]
  }

  /** Values by name: the frame's variables that have one, and the globals. */
  datatype Store = Store(loc: map<int, int>, glo: map<int, int>)

  /** The value is None after a function that returned none. */
  datatype Outcome =
    | Done(v: Option<int>, s: Store)
    | Ret(v: Option<int>, s: Store)
    | Fault     // undefined in C: unset variable, missing value, division by zero, wrong argument count
    | Timeout

  /** Using a value that is not there is undefined. */
  function Need(o: Outcome): (r: Outcome)
    ensures r.Done? <==> o.Done? && o.v.Some?
    ensures r.Done? ==> r == o
    ensures r.Ret? ==> o.Ret?
  {
    if o.Done? && o.v.None? then Fault else o
  }

  /** What name `x` with symbol `y` stands for; the symbol says only whether it is a constant, a local or a global. */
  function ReadVar(x: int, y: Sym, s: Store): Option<int> {
    match y.cls
    case CNum => Some(y.val)
    case CLoc => if x in s.loc then Some(s.loc[x]) else None
    case CGlo => if x in s.glo then Some(s.glo[x]) else None
    case CFun => None
  }

  function WriteVar(x: int, y: Sym, v: int, s: Store): Store {
    if y.cls == CLoc then s.(loc := s.loc[x := v]) else s.(glo := s.glo[x := v])
  }

  function Load(x: int, y: Sym, s: Store): Outcome {
    var v := ReadVar(x, y, s);
    if v.Some? then Done(v, s) else Fault
  }

  /** Adding or subtracting one; the result is the new value or, after the name, the old one. */
  function StepVar(x: int, y: Sym, up: bool, post: bool, s: Store): Outcome {
    var v := ReadVar(x, y, s);
    if v.None? then Fault
    else
      var w := Wrap(if up then v.value + 1 else v.value - 1);
      Done(Some(if post then v.value else w), WriteVar(x, y, w, s))
  }

  function Apply(op: BinOp, x: int, y: int, s: Store): Outcome {
    var v := Arith(op, x, y);
    if v.Some? then Done(v, s) else Fault
  }

  function Eval(p: Program, sc: Scope, e: Expr, s: Store, fuel: nat): (o: Outcome)
    requires WfExpr(sc, e)
    ensures !o.Ret?
    decreases fuel, e, 0
  {
    match e
    case Num(n) => Done(Some(n), s)
    case Var(x) => Load(x, sc[x], s)
    case Paren(i) => Eval(p, sc, i, s, fuel)
    case Assign(l, r) =>
      var o := Need(Eval(p, sc, r, s, fuel));
      var x := LvalName(sc, l);
      if o.Done? then Done(o.v, WriteVar(x, sc[x], o.v.value, o.s)) else o
    case Cond(c, t, f) =>
      var o := Need(Eval(p, sc, c, s, fuel));
      if !o.Done? then o
      else if o.v.value != 0 then Eval(p, sc, t, o.s, fuel) else Eval(p, sc, f, o.s, fuel)
    case Lor(l, r) =>
      var o := Need(Eval(p, sc, l, s, fuel));
      if o.Done? && o.v.value == 0 then Eval(p, sc, r, o.s, fuel) else o
    case Lan(l, r) =>
      var o := Need(Eval(p, sc, l, s, fuel));
      if o.Done? && o.v.value != 0 then Eval(p, sc, r, o.s, fuel) else o
    case Bin(op, l, r) =>
      var o := Need(Eval(p, sc, l, s, fuel));
      if !o.Done? then o
      else
        var q := Need(Eval(p, sc, r, o.s, fuel));
        if q.Done? then Apply(op, o.v.value, q.v.value, q.s) else q
    case Not(i) =>
      var o := Need(Eval(p, sc, i, s, fuel));
      if o.Done? then Done(Some(if o.v.value == 0 then 1 else 0), o.s) else o
    case BitNot(i) =>
      var o := Need(Eval(p, sc, i, s, fuel));
      if o.Done? then Done(Some(-1 - o.v.value), o.s) else o
    case Plus(i) => Eval(p, sc, i, s, fuel)
    case Neg(i) =>
      var o := Need(Eval(p, sc, i, s, fuel));
      if o.Done? then Done(Some(Wrap(-o.v.value)), o.s) else o
    case PreStep(up, i) => StepVar(LvalName(sc, i), sc[LvalName(sc, i)], up, false, s)
    case PostStep(up, i) => StepVar(LvalName(sc, i), sc[LvalName(sc, i)], up, true, s)
    case Call(x, args) =>
      var (o, vs) := EvalArgs(p, sc, args, s, fuel);
      if !o.Done? then o
      else if fuel == 0 then Timeout
      else Invoke(p, x, vs, o.s, fuel - 1)
  }

  /** Arguments from left to right, with their values. */
  function EvalArgs(p: Program, sc: Scope, args: Args, s: Store, fuel: nat): (r: (Outcome, seq<int>))
    requires WfArgs(sc, args)
    ensures !r.0.Ret?
    ensures r.0.Done? ==> |r.1| == args.Count()
    decreases fuel, args, 0
  {
    match args
    case ANil => (Done(None, s), [])
    case ACons(h, tail) =>
      var o := Need(Eval(p, sc, h, s, fuel));
      if !o.Done? then (o, [])
      else
        var (q, vs) := EvalArgs(p, sc, tail, o.s, fuel);
        (q, [o.v.value] + vs)
  }

  /** Run the body with the arguments as its only set variables; the caller's frame survives. */
  function Invoke(p: Program, x: int, vs: seq<int>, s: Store, fuel: nat): (o: Outcome)
    ensures !o.Ret?
    decreases fuel
  {
    if x !in p.funs || |p.funs[x].params| != |vs| then Fault
    else
      var f := p.funs[x];
      if !WfStmts(BodyScope(p, f), f.body) then Fault
      else
        var o := ExecAll(p, BodyScope(p, f), f.body, Store(Bound(f.params, vs), s.glo), fuel);
        if o.Done? || o.Ret? then Done(if o.Ret? then o.v else None, Store(s.loc, o.s.glo)) else o
  }

  function Exec(p: Program, sc: Scope, st: Stmt, s: Store, fuel: nat): Outcome
    requires WfStmt(sc, st)
    decreases fuel, st, 0
  {
    match st
    case If(c, t) =>
      var o := Need(Eval(p, sc, c, s, fuel));
      if o.Done? && o.v.value != 0 then Exec(p, sc, t, o.s, fuel) else o
    case IfElse(c, t, f) =>
      var o := Need(Eval(p, sc, c, s, fuel));
      if !o.Done? then o
      else if o.v.value != 0 then Exec(p, sc, t, o.s, fuel) else Exec(p, sc, f, o.s, fuel)
    case While(c, b) =>
      var o := Need(Eval(p, sc, c, s, fuel));
      if !o.Done? || o.v.value == 0 then o
      else
        var q := Exec(p, sc, b, o.s, fuel);
        if !q.Done? then q
        else if fuel == 0 then Timeout
        else Exec(p, sc, st, q.s, fuel - 1)
    case Return(e) =>
      var o := Eval(p, sc, e, s, fuel);
      if o.Done? then Ret(o.v, o.s) else o
    case ReturnVoid => Ret(None, s)
    case Block(ss) => ExecAll(p, sc, ss, s, fuel)
    case Empty => Done(None, s)
    case ExprStmt(e) => Eval(p, sc, e, s, fuel)
  }

  function ExecAll(p: Program, sc: Scope, ss: Stmts, s: Store, fuel: nat): Outcome
    requires WfStmts(sc, ss)
    decreases fuel, ss, 0
  {
    match ss
    case SNil => Done(None, s)
    case SCons(h, tail) =>
      var o := Exec(p, sc, h, s, fuel);
      if o.Done? then ExecAll(p, sc, tail, o.s, fuel) else o
  }
}
