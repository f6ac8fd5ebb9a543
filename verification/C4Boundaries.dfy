/** Where instructions start: every jump the compiler patches leads to the start of an instruction of the same piece
    of code, or to its end. */
module C4Boundaries {
  import opened C4Syntax
  import opened C4Semantics
  import opened C4Simulation

  /** Instructions up to `ADJ` have an operand word. */
  function Width(op: int): nat { if op <= ADJ then 2 else 1 }

  /** The words split into instructions without a rest. */
  predicate Whole(c: seq<int>) {
    c == [] || (Width(c[0]) <= |c| && Whole(c[Width(c[0])..]))
  }

  /** Reading from the first word on, an instruction starts at `i`, or the code ends there. */
  predicate Boundary(c: seq<int>, i: int) {
    i == 0 || (c != [] && Width(c[0]) <= |c| && i >= Width(c[0]) && Boundary(c[Width(c[0])..], i - Width(c[0])))
  }

  predicate IsJump(op: int) { op == BZ || op == BNZ || op == JMP }

  /** Instruction `i` of `c`, if a jump, leads to a boundary of `whole`, whose first word is at `base`. */
  predicate JumpOk(c: seq<int>, i: int, whole: seq<int>, base: int) {
    0 <= i < |c| && Boundary(c, i) && IsJump(c[i]) ==> i + 1 < |c| && Boundary(whole, c[i + 1] - base)
  }

  ghost predicate JumpsIn(c: seq<int>, whole: seq<int>, base: int) {
    Whole(c) && forall i :: JumpOk(c, i, whole, base)
  }

  /** A piece of code at `at` whose jumps stay on its own boundaries. */
  ghost predicate Sound(c: seq<int>, at: int) { JumpsIn(c, c, at) }

  // ---------------------------------------------------------------- putting pieces together

  lemma {:induction false} WholeAppend(a: seq<int>, b: seq<int>)
    requires Whole(a) && Whole(b)
    ensures Whole(a + b)
    decreases |a|
  {
    if a == [] {
      assert a + b == b;
    } else {
      var w := Width(a[0]);
      assert (a + b)[w..] == a[w..] + b;
      WholeAppend(a[w..], b);
    }
  }

  /** The boundaries of two pieces are those of the first and those of the second behind it. */
  lemma {:induction false} BoundaryAppend(a: seq<int>, b: seq<int>, i: int)
    requires Whole(a)
    ensures Boundary(a + b, i) <==> if i < |a| then Boundary(a, i) else Boundary(b, i - |a|)
    ensures Boundary(a, |a|) && (Boundary(a, i) ==> 0 <= i <= |a|)
    decreases |a|
  {
    if a == [] {
      assert a + b == b;
    } else {
      var w := Width(a[0]);
      assert (a + b)[w..] == a[w..] + b;
      BoundaryAppend(a[w..], b, i - w);
    }
  }

  lemma JumpsAppend(a: seq<int>, b: seq<int>, whole: seq<int>, base: int)
    requires JumpsIn(a, whole, base) && JumpsIn(b, whole, base)
    ensures JumpsIn(a + b, whole, base)
  {
    hide Boundary, Whole;
    WholeAppend(a, b);
    forall i ensures JumpOk(a + b, i, whole, base) {
      BoundaryAppend(a, b, i);
      assert JumpOk(a, i, whole, base) && JumpOk(b, i - |a|, whole, base);
      if 0 <= i < |a| && Boundary(a, i) { OperandInside(a, i); }
    }
  }

  /** An operand belongs to its instruction. */
  lemma {:induction false} OperandInside(a: seq<int>, i: int)
    requires Whole(a) && 0 <= i < |a| && Boundary(a, i)
    ensures i + Width(a[i]) <= |a|
    decreases |a|
  {
    if i > 0 { OperandInside(a[Width(a[0])..], i - Width(a[0])); }
  }

  /** What is sound on its own stays so inside a larger piece. */
  lemma Inside(p: seq<int>, c: seq<int>, q: seq<int>, at: int)
    requires Whole(p) && Sound(c, at)
    ensures JumpsIn(c, p + c + q, at - |p|)
  {
    hide Boundary, Whole;
    var base := at - |p|;
    forall i ensures JumpOk(c, i, p + c + q, base) {
      assert JumpOk(c, i, c, at);
      if 0 <= i < |c| && Boundary(c, i) && IsJump(c[i]) {
        var t := c[i + 1] - at;
        BoundaryAppend(c, q, t);
        BoundaryAppend(p, c + q, t + |p|);
        if t == |c| { BoundaryAppend(c, q, |c|); ZeroIs(q); }
        assert p + (c + q) == p + c + q;
      }
    }
  }

  lemma ZeroIs(c: seq<int>)
    ensures Boundary(c, 0)
  {
  }

  /** A piece without jumps. */
  predicate Plain(c: seq<int>) {
    c == [] || (Width(c[0]) <= |c| && !IsJump(c[0]) && Plain(c[Width(c[0])..]))
  }

  lemma {:induction false} PlainJumps(c: seq<int>, i: int)
    requires Plain(c)
    ensures Whole(c) && (0 <= i < |c| && Boundary(c, i) ==> !IsJump(c[i]))
    decreases |c|
  {
    if c != [] { PlainJumps(c[Width(c[0])..], i - Width(c[0])); }
  }

  lemma PlainIn(c: seq<int>, whole: seq<int>, base: int)
    requires Plain(c)
    ensures JumpsIn(c, whole, base)
  {
    hide Plain, Boundary, Whole;
    PlainJumps(c, 0);
    forall i ensures JumpOk(c, i, whole, base) { PlainJumps(c, i); }
  }

  lemma {:induction false} PlainAppend(a: seq<int>, b: seq<int>)
    requires Plain(a) && Plain(b)
    ensures Plain(a + b)
    decreases |a|
  {
    if a == [] {
      assert a + b == b;
    } else {
      var w := Width(a[0]);
      assert (a + b)[w..] == a[w..] + b;
      PlainAppend(a[w..], b);
    }
  }

  lemma JumpIn(op: int, to: int, whole: seq<int>, base: int)
    requires IsJump(op) && Boundary(whole, to - base)
    ensures JumpsIn([op, to], whole, base)
  {
    assert [op, to][2..] == [];
    forall i ensures JumpOk([op, to], i, whole, base) {
      if i == 1 { assert !Boundary([op, to], 1); }
    }
  }

  /** Code, some words without jumps, code. */
  lemma Around(c0: seq<int>, mid: seq<int>, c1: seq<int>, tail: seq<int>, at: int)
    requires Sound(c0, at) && Plain(mid) && Sound(c1, at + |c0| + |mid|) && Plain(tail)
    ensures Sound(c0 + mid + c1 + tail, at)
  {
    hide JumpsIn, Plain, Whole;
    var w := c0 + mid + c1 + tail;
    SoundWhole(c0, at);
    SoundWhole(c1, at + |c0| + |mid|);
    PlainJumps(mid, 0);
    WholeAppend(c0, mid);
    WholeNone();
    Inside([], c0, mid + c1 + tail, at);
    assert [] + c0 + (mid + c1 + tail) == w;
    Inside(c0 + mid, c1, tail, at + |c0| + |mid|);
    PlainIn(mid, w, at);
    PlainIn(tail, w, at);
    JumpsAppend(c0, mid, w, at);
    JumpsAppend(c0 + mid, c1, w, at);
    JumpsAppend(c0 + mid + c1, tail, w, at);
  }

  lemma SoundWhole(c: seq<int>, at: int)
    requires Sound(c, at)
    ensures Whole(c)
  {
  }

  lemma WholeNone()
    ensures Whole([]) && Plain([])
  {
  }

  /** Code, a jump to the end, code: `||`, `&&` and `if`. */
  lemma Skip(c0: seq<int>, op: int, c1: seq<int>, at: int)
    requires Sound(c0, at) && IsJump(op) && Sound(c1, at + |c0| + 2)
    ensures Sound(c0 + [op, at + |c0| + 2 + |c1|] + c1, at)
  {
    hide JumpsIn, Plain, Whole, Boundary;
    var j := [op, at + |c0| + 2 + |c1|];
    var w := c0 + j + c1;
    SoundWhole(c0, at);
    SoundWhole(c1, at + |c0| + 2);
    WholeJump(j);
    WholeAppend(c0, j);
    WholeAppend(c0 + j, c1);
    WholeNone();
    BoundaryAppend(w, [], |w|);
    JumpIn(op, at + |c0| + 2 + |c1|, w, at);
    Inside([], c0, j + c1, at);
    assert [] + c0 + (j + c1) == w;
    Inside(c0 + j, c1, [], at + |c0| + 2);
    assert c0 + j + c1 + [] == w;
    JumpsAppend(c0, j, w, at);
    JumpsAppend(c0 + j, c1, w, at);
  }

  lemma WholeJump(j: seq<int>)
    requires |j| == 2 && j[0] <= ADJ
    ensures Whole(j)
  {
    assert j[2..] == [];
  }

  /** Test, jump to the second branch, first branch, jump to the end, second branch. */
  lemma Branches(c0: seq<int>, c1: seq<int>, c2: seq<int>, at: int)
    requires Sound(c0, at) && Sound(c1, at + |c0| + 2) && Sound(c2, at + |c0| + |c1| + 4)
    ensures var at2 := at + |c0| + |c1| + 4; Sound(c0 + [BZ, at2] + c1 + [JMP, at2 + |c2|] + c2, at)
  {
    hide JumpsIn, Plain, Whole, Boundary;
    var at2 := at + |c0| + |c1| + 4;
    var j0, j1 := [BZ, at2], [JMP, at2 + |c2|];
    var front := c0 + j0 + c1 + j1;
    var w := front + c2;
    SoundWhole(c0, at);
    SoundWhole(c1, at + |c0| + 2);
    SoundWhole(c2, at2);
    WholeJump(j0);
    WholeJump(j1);
    WholeAppend(c0, j0);
    WholeAppend(c0 + j0, c1);
    WholeAppend(c0 + j0 + c1, j1);
    WholeAppend(front, c2);
    WholeNone();
    BoundaryAppend(w, [], |w|);
    BoundaryAppend(front, c2, |front|);
    ZeroIs(c2);
    JumpIn(BZ, at2, w, at);
    JumpIn(JMP, at2 + |c2|, w, at);
    Inside([], c0, j0 + c1 + j1 + c2, at);
    assert [] + c0 + (j0 + c1 + j1 + c2) == w;
    Inside(c0 + j0, c1, j1 + c2, at + |c0| + 2);
    assert c0 + j0 + c1 + (j1 + c2) == w;
    Inside(front, c2, [], at2);
    assert front + c2 + [] == w;
    JumpsAppend(c0, j0, w, at);
    JumpsAppend(c0 + j0, c1, w, at);
    JumpsAppend(c0 + j0 + c1, j1, w, at);
    JumpsAppend(front, c2, w, at);
  }

  /** Test, jump to the end, body, jump to the test. */
  lemma Loop(c0: seq<int>, c1: seq<int>, at: int)
    requires Sound(c0, at) && Sound(c1, at + |c0| + 2)
    ensures Sound(c0 + [BZ, at + |c0| + |c1| + 4] + c1 + [JMP, at], at)
  {
    hide JumpsIn, Plain, Whole, Boundary;
    var end := at + |c0| + |c1| + 4;
    var j0, j1 := [BZ, end], [JMP, at];
    var w := c0 + j0 + c1 + j1;
    SoundWhole(c0, at);
    SoundWhole(c1, at + |c0| + 2);
    WholeJump(j0);
    WholeJump(j1);
    WholeAppend(c0, j0);
    WholeAppend(c0 + j0, c1);
    WholeAppend(c0 + j0 + c1, j1);
    WholeNone();
    BoundaryAppend(w, [], |w|);
    ZeroIs(w);
    JumpIn(BZ, end, w, at);
    JumpIn(JMP, at, w, at);
    Inside([], c0, j0 + c1 + j1, at);
    assert [] + c0 + (j0 + c1 + j1) == w;
    Inside(c0 + j0, c1, j1, at + |c0| + 2);
    JumpsAppend(c0, j0, w, at);
    JumpsAppend(c0 + j0, c1, w, at);
    JumpsAppend(c0 + j0 + c1, j1, w, at);
  }

  // ---------------------------------------------------------------- the compiler's code

  lemma PlainSound(c: seq<int>, at: int)
    requires Plain(c)
    ensures Sound(c, at)
  {
    PlainIn(c, c, at);
  }

  lemma AddrPlain(y: Sym, loc: int)
    ensures Plain(AddrCode(y, loc)) && |AddrCode(y, loc)| == 2
  {
    assert AddrCode(y, loc)[2..] == [];
  }

  /** Single words and operand pairs that are no jumps. */
  lemma WordPlain(op: int)
    requires op > ADJ
    ensures Plain([op])
  {
    assert [op][1..] == [];
  }

  lemma PairPlain(op: int, v: int)
    requires op <= ADJ && !IsJump(op)
    ensures Plain([op, v])
  {
    assert [op, v][2..] == [];
  }

  lemma OneMore(op: int)
    requires op > ADJ
    ensures Plain([PSH, IMM, 1, op]) && forall v :: Plain([PSH, IMM, v, op])
  {
    forall v ensures Plain([PSH, IMM, v, op]) {
      WordPlain(PSH);
      PairPlain(IMM, v);
      WordPlain(op);
      PlainAppend([PSH], [IMM, v]);
      PlainAppend([PSH] + [IMM, v], [op]);
      assert [PSH] + [IMM, v] + [op] == [PSH, IMM, v, op];
    }
  }

  lemma StepPlain(up: bool)
    ensures Plain(StepCode(up) + [SI])
  {
    var op := Opcode(if up then Add else Sub);
    WordPlain(PSH);
    WordPlain(LI);
    WordPlain(SI);
    OneMore(op);
    PlainAppend([PSH], [LI]);
    PlainAppend([PSH] + [LI], [PSH, IMM, 1, op]);
    PlainAppend([PSH] + [LI] + [PSH, IMM, 1, op], [SI]);
    assert [PSH] + [LI] + [PSH, IMM, 1, op] + [SI] == StepCode(up) + [SI];
  }

  /** Every jump in the code of an expression leads to an instruction of that code or to its end. */
  lemma {:induction false} CodeSound(sc: Scope, loc: int, e: Expr, at: int)
    requires WfExpr(sc, e)
    ensures Sound(Code(sc, loc, e, at), at)
    decreases e, 1
  {
    hide Sound, Plain, Opcode, AddrCode, StepCode;
    match e
    case Num(n) => PairPlain(IMM, n); PlainSound([IMM, n], at);
    case Var(x) => VarSound(sc, loc, e, at);
    case Paren(i) => CodeSound(sc, loc, i, at);
    case Plus(i) => CodeSound(sc, loc, i, at);
    case Assign(l, r) => AssignSound(sc, loc, e, at);
    case Cond(c, t, f) => CondSound(sc, loc, e, at);
    case Lor(l, r) => ShortSound(sc, loc, e, at);
    case Lan(l, r) => ShortSound(sc, loc, e, at);
    case Bin(op, l, r) => BinSound(sc, loc, e, at);
    case Not(i) => UnarySound(sc, loc, e, at);
    case BitNot(i) => UnarySound(sc, loc, e, at);
    case Neg(i) => NegSound(sc, loc, e, at);
    case PreStep(up, i) => StepSound(sc, loc, e, at);
    case PostStep(up, i) => StepSound(sc, loc, e, at);
    case Call(x, args) => CallSound(sc, loc, e, at);
  }

  lemma VarSound(sc: Scope, loc: int, e: Expr, at: int)
    requires WfExpr(sc, e) && e.Var?
    ensures Sound(Code(sc, loc, e, at), at)
  {
    hide Sound, Plain, AddrCode;
    PairPlain(IMM, sc[e.x].val);
    PlainSound([IMM, sc[e.x].val], at);
    AddrPlain(sc[e.x], loc);
    WordPlain(LI);
    PlainAppend(AddrCode(sc[e.x], loc), [LI]);
    PlainSound(AddrCode(sc[e.x], loc) + [LI], at);
  }

  lemma {:induction false} AssignSound(sc: Scope, loc: int, e: Expr, at: int)
    requires WfExpr(sc, e) && e.Assign?
    ensures Sound(Code(sc, loc, e, at), at)
    decreases e, 0
  {
    hide Sound, Plain, AddrCode;
    var ca := AddrCode(sc[LvalName(sc, e.lhs)], loc);
    var c := Code(sc, loc, e.rhs, at + 3);
    AddrPlain(sc[LvalName(sc, e.lhs)], loc);
    PlainSound(ca, at);
    WordPlain(PSH);
    WordPlain(SI);
    CodeSound(sc, loc, e.rhs, at + 3);
    Around(ca, [PSH], c, [SI], at);
  }

  lemma {:induction false} CondSound(sc: Scope, loc: int, e: Expr, at: int)
    requires WfExpr(sc, e) && e.Cond?
    ensures Sound(Code(sc, loc, e, at), at)
    decreases e, 0
  {
    hide Sound, Opcode, AddrCode, StepCode, ArgsCode;
    var c0 := Code(sc, loc, e.c, at);
    var c1 := Code(sc, loc, e.t, at + |c0| + 2);
    CodeSound(sc, loc, e.c, at);
    CodeSound(sc, loc, e.t, at + |c0| + 2);
    CodeSound(sc, loc, e.f, at + |c0| + 2 + |c1| + 2);
    Branches(c0, c1, Code(sc, loc, e.f, at + |c0| + 2 + |c1| + 2), at);
  }

  lemma ShortCode(sc: Scope, loc: int, e: Expr, at: int)
    requires WfExpr(sc, e) && (e.Lor? || e.Lan?)
    ensures WfExpr(sc, e.l) && WfExpr(sc, e.r)
    ensures var c0 := Code(sc, loc, e.l, at); var c1 := Code(sc, loc, e.r, at + |c0| + 2);
      Code(sc, loc, e, at) == c0 + [if e.Lor? then BNZ else BZ, at + |c0| + 2 + |c1|] + c1
  {
    hide Opcode, AddrCode, StepCode, ArgsCode;
  }

  lemma {:induction false} ShortSound(sc: Scope, loc: int, e: Expr, at: int)
    requires WfExpr(sc, e) && (e.Lor? || e.Lan?)
    ensures Sound(Code(sc, loc, e, at), at)
    decreases e, 0
  {
    hide Sound, Code, WfExpr;
    ShortCode(sc, loc, e, at);
    var c0 := Code(sc, loc, e.l, at);
    CodeSound(sc, loc, e.l, at);
    CodeSound(sc, loc, e.r, at + |c0| + 2);
    Skip(c0, if e.Lor? then BNZ else BZ, Code(sc, loc, e.r, at + |c0| + 2), at);
  }

  lemma {:induction false} BinSound(sc: Scope, loc: int, e: Expr, at: int)
    requires WfExpr(sc, e) && e.Bin?
    ensures Sound(Code(sc, loc, e, at), at)
    decreases e, 0
  {
    hide Sound, Plain, Opcode;
    var c0 := Code(sc, loc, e.l, at);
    CodeSound(sc, loc, e.l, at);
    CodeSound(sc, loc, e.r, at + |c0| + 1);
    WordPlain(PSH);
    OpPlain(e.op);
    Around(c0, [PSH], Code(sc, loc, e.r, at + |c0| + 1), [Opcode(e.op)], at);
  }

  lemma OpPlain(op: BinOp)
    ensures Plain([Opcode(op)]) && Opcode(op) > ADJ
  {
    WordPlain(Opcode(op));
  }

  lemma {:induction false} UnarySound(sc: Scope, loc: int, e: Expr, at: int)
    requires WfExpr(sc, e) && (e.Not? || e.BitNot?)
    ensures Sound(Code(sc, loc, e, at), at)
    decreases e, 0
  {
    hide Sound, Plain, Opcode;
    var c0 := Code(sc, loc, e.inner, at);
    var op := if e.Not? then Eq else Xor;
    var tail := [PSH, IMM, if e.Not? then 0 else -1, Opcode(op)];
    CodeSound(sc, loc, e.inner, at);
    OpPlain(op);
    OneMore(Opcode(op));
    WholeNone();
    PlainSound([], at + |c0|);
    Around(c0, [], [], tail, at);
    assert c0 + [] + [] + tail == c0 + tail;
  }

  lemma {:induction false} NegSound(sc: Scope, loc: int, e: Expr, at: int)
    requires WfExpr(sc, e) && e.Neg?
    ensures Sound(Code(sc, loc, e, at), at)
    decreases e, 0
  {
    hide Sound, Plain, Opcode;
    if e.inner.Num? {
      PairPlain(IMM, Wrap(-e.inner.n));
      PlainSound([IMM, Wrap(-e.inner.n)], at);
    } else {
      PairPlain(IMM, -1);
      PlainSound([IMM, -1], at);
      WordPlain(PSH);
      OpPlain(Mul);
      CodeSound(sc, loc, e.inner, at + 3);
      var c := Code(sc, loc, e.inner, at + 3);
      Around([IMM, -1], [PSH], c, [Opcode(Mul)], at);
      assert [IMM, -1] + [PSH] + c + [Opcode(Mul)] == [IMM, -1, PSH] + c + [Opcode(Mul)];
    }
  }

  lemma StepSound(sc: Scope, loc: int, e: Expr, at: int)
    requires WfExpr(sc, e) && (e.PreStep? || e.PostStep?)
    ensures Sound(Code(sc, loc, e, at), at)
  {
    hide Sound, Plain, AddrCode, StepCode, Opcode;
    var ca := AddrCode(sc[LvalName(sc, e.inner)], loc);
    AddrPlain(sc[LvalName(sc, e.inner)], loc);
    StepPlain(e.up);
    PlainAppend(ca, StepCode(e.up) + [SI]);
    var c := ca + StepCode(e.up) + [SI];
    assert ca + (StepCode(e.up) + [SI]) == c;
    if e.PreStep? {
      PlainSound(c, at);
    } else {
      var op := if e.up then Sub else Add;
      OpPlain(op);
      OneMore(Opcode(op));
      PlainAppend(c, [PSH, IMM, 1, Opcode(op)]);
      PlainSound(c + [PSH, IMM, 1, Opcode(op)], at);
    }
  }

  lemma {:induction false} CallSound(sc: Scope, loc: int, e: Expr, at: int)
    requires WfExpr(sc, e) && e.Call?
    ensures Sound(Code(sc, loc, e, at), at)
    decreases e, 0
  {
    hide Sound, Plain;
    var c := ArgsCode(sc, loc, e.args, at);
    var tail := [JSR, sc[e.x].val] + (if e.args.ANil? then [] else [ADJ, e.args.Count()]);
    ArgsSound(sc, loc, e.args, at);
    WholeNone();
    PairPlain(JSR, sc[e.x].val);
    PairPlain(ADJ, e.args.Count());
    PlainAppend([JSR, sc[e.x].val], if e.args.ANil? then [] else [ADJ, e.args.Count()]);
    PlainSound([], at + |c|);
    Around(c, [], [], tail, at);
    assert c + [] + [] + tail == Code(sc, loc, e, at);
  }

  lemma {:induction false} ArgsSound(sc: Scope, loc: int, args: Args, at: int)
    requires WfArgs(sc, args)
    ensures Sound(ArgsCode(sc, loc, args, at), at)
    decreases args
  {
    hide Sound, Plain;
    WholeNone();
    if args.ANil? {
      PlainSound([], at);
    } else {
      var c0 := Code(sc, loc, args.head, at);
      var c1 := ArgsCode(sc, loc, args.tail, at + |c0| + 1);
      CodeSound(sc, loc, args.head, at);
      ArgsSound(sc, loc, args.tail, at + |c0| + 1);
      WordPlain(PSH);
      Around(c0, [PSH], c1, [], at);
      assert c0 + [PSH] + c1 + [] == c0 + [PSH] + c1;
    }
  }

  /** The same for statements: the back-patched targets of `if`, `else` and `while` are instruction boundaries. */
  lemma {:induction false} StmtSound(sc: Scope, loc: int, s: Stmt, at: int)
    requires WfStmt(sc, s)
    ensures Sound(StmtCode(sc, loc, s, at), at)
    decreases s, 1
  {
    hide Sound, Plain, Code, WfExpr;
    WholeNone();
    match s
    case If(c, t) => JumpSound(sc, loc, s, at);
    case IfElse(c, t, f) => JumpSound(sc, loc, s, at);
    case While(c, b) => JumpSound(sc, loc, s, at);
    case Return(e) =>
      var c0 := Code(sc, loc, e, at);
      CodeSound(sc, loc, e, at);
      WordPlain(LEV);
      PlainSound([], at + |c0|);
      Around(c0, [], [], [LEV], at);
      assert c0 + [] + [] + [LEV] == c0 + [LEV];
    case ReturnVoid =>
      WordPlain(LEV);
      PlainSound([LEV], at);
    case Block(ss) => StmtsSound(sc, loc, ss, at);
    case Empty => PlainSound([], at);
    case ExprStmt(e) => CodeSound(sc, loc, e, at);
  }

  lemma {:induction false} JumpSound(sc: Scope, loc: int, s: Stmt, at: int)
    requires WfStmt(sc, s) && (s.If? || s.IfElse? || s.While?)
    ensures Sound(StmtCode(sc, loc, s, at), at)
    decreases s, 0
  {
    hide Sound, Code, WfExpr;
    var c0 := Code(sc, loc, s.c, at);
    CodeSound(sc, loc, s.c, at);
    var at1 := at + |c0| + 2;
    if s.If? {
      StmtSound(sc, loc, s.t, at1);
      Skip(c0, BZ, StmtCode(sc, loc, s.t, at1), at);
    } else if s.While? {
      StmtSound(sc, loc, s.body, at1);
      Loop(c0, StmtCode(sc, loc, s.body, at1), at);
    } else {
      var c1 := StmtCode(sc, loc, s.t, at1);
      StmtSound(sc, loc, s.t, at1);
      StmtSound(sc, loc, s.f, at1 + |c1| + 2);
      Branches(c0, c1, StmtCode(sc, loc, s.f, at1 + |c1| + 2), at);
    }
  }

  lemma {:induction false} StmtsSound(sc: Scope, loc: int, ss: Stmts, at: int)
    requires WfStmts(sc, ss)
    ensures Sound(StmtsCode(sc, loc, ss, at), at)
    decreases ss, 0
  {
    hide Sound, Plain, StmtCode, WfStmt;
    WholeNone();
    if ss.SNil? {
      PlainSound([], at);
    } else {
      var c0 := StmtCode(sc, loc, ss.head, at);
      var c1 := StmtsCode(sc, loc, ss.tail, at + |c0|);
      StmtSound(sc, loc, ss.head, at);
      StmtsSound(sc, loc, ss.tail, at + |c0|);
      Around(c0, [], c1, [], at);
      assert c0 + [] + c1 + [] == c0 + c1;
    }
  }

  /** A whole function, from `ENT` to `LEV`. */
  lemma FunSound(p: Program, f: FunDef, addr: int)
    requires WfStmts(BodyScope(p, f), f.body)
    ensures Sound(FunCode(p, f, addr), addr)
  {
    hide Sound, Plain, StmtsCode, BodyScope, WfStmts;
    var c := StmtsCode(BodyScope(p, f), |f.params| + 1, f.body, addr + 2);
    StmtsSound(BodyScope(p, f), |f.params| + 1, f.body, addr + 2);
    PairPlain(ENT, |f.locals|);
    PlainSound([ENT, |f.locals|], addr);
    WholeNone();
    WordPlain(LEV);
    Around([ENT, |f.locals|], [], c, [LEV], addr);
    assert [ENT, |f.locals|] + [] + c + [LEV] == FunCode(p, f, addr);
  }
}
