/** Printing a tree with only the parentheses C's precedence requires and parsing it back
    consumes exactly those tokens and emits exactly the code of that tree. */
module C4PrintParse {
  import opened Common
  import opened C4Syntax
  import opened C4Parser

  function C(env: Env, e: Expr, code: seq<int>): seq<int>
    requires WfExpr(env.sc, e)
  {
    code + Code(env.sc, env.loc, e, env.base + |code|)
  }

  /** A token at least this tight, right after `e`, would be taken into its last operand. */
  function RightEdge(e: Expr): (r: int)
    ensures r >= Level(e)
  {
    match e
    case Assign(_, _) => TK_ASSIGN
    case Cond(_, _, _) => TK_COND
    case Lor(_, _) => TK_LAN
    case Lan(_, _) => TK_OR
    case Bin(op, _, _) => TighterLevel(op)
    case Not(_) => TK_INC
    case BitNot(_) => TK_INC
    case Plus(_) => TK_INC
    case Neg(_) => TK_INC
    case PreStep(_, _) => TK_INC
    case _ => 1000
  }

  /** A left operand at the level of `op` does not swallow `op`: left associativity. */
  lemma EdgeAbove(l: Expr, op: BinOp)
    requires Level(l) >= OpLevel(op)
    ensures RightEdge(l) > OpToken(op)
  {
    if l.Bin? {
      assert OpLevel(l.op) >= OpLevel(op) ==> TighterLevel(l.op) >= TighterLevel(op);
    }
  }

  predicate Starter(tk: int) {
    tk == TK_NUM || tk == TK_ID || tk == LPAREN || tk == BANG || tk == TILDE ||
    tk == TK_ADD || tk == TK_SUB || tk == TK_INC || tk == TK_DEC
  }

  lemma {:induction false} FirstToken(e: Expr, k: seq<Token>)
    ensures Starter(Tk(Print(e, k)))
    decreases e, 0
  {
    match e
    case Assign(l, r) => FirstToken(l, P(TK_ASSIGN) + Print(r, k));
    case Cond(c, t, f) => FirstTokenAt(c, TK_LOR, P(TK_COND) + Print(t, P(COLON) + PrintAt(f, TK_COND, k)));
    case Lor(l, r) => FirstTokenAt(l, TK_LOR, P(TK_LOR) + PrintAt(r, TK_LAN, k));
    case Lan(l, r) => FirstTokenAt(l, TK_LAN, P(TK_LAN) + PrintAt(r, TK_OR, k));
    case Bin(op, l, r) => FirstTokenAt(l, OpLevel(op), P(OpToken(op)) + PrintAt(r, TighterLevel(op), k));
    case PostStep(up, i) => FirstToken(i, P(if up then TK_INC else TK_DEC) + k);
    case _ =>
  }

  lemma {:induction false} FirstTokenAt(e: Expr, at: int, k: seq<Token>)
    ensures Starter(Tk(PrintAt(e, at, k)))
    decreases e, 1
  {
    if Level(e) >= at {
      FirstToken(e, k);
    }
  }

  /** Parsing a printed tree reaches the climbing loop with the tree's code emitted and only `k` left. */
  lemma {:induction false} ParsePrinted(env: Env, lev: int, e: Expr, code: seq<int>, k: seq<Token>)
    requires WfExpr(env.sc, e) && lev <= Level(e) && Tk(k) < RightEdge(e) && Tk(k) != LPAREN
    ensures ParseExpr(env, lev, code, Print(e, k)) == ParseLoop(env, lev, C(env, e, code), k)
    decreases e, 2
  {
    hide ParseExpr, ParsePrefix, ParseLoop, ParseArgs;
    match e
    case Num(n) => PrefixPrinted(env, e, code, k); Climb(env, lev, code, e, k);
    case Var(x) => PrefixPrinted(env, e, code, k); Climb(env, lev, code, e, k);
    case Paren(i) => PrefixPrinted(env, e, code, k); Climb(env, lev, code, e, k);
    case Not(i) => PrefixPrinted(env, e, code, k); Climb(env, lev, code, e, k);
    case BitNot(i) => PrefixPrinted(env, e, code, k); Climb(env, lev, code, e, k);
    case Plus(i) => PrefixPrinted(env, e, code, k); Climb(env, lev, code, e, k);
    case Neg(i) => PrefixPrinted(env, e, code, k); Climb(env, lev, code, e, k);
    case PreStep(up, i) => PrefixPrinted(env, e, code, k); Climb(env, lev, code, e, k);
    case Call(x, args) => PrefixPrinted(env, e, code, k); Climb(env, lev, code, e, k);
    case Assign(l, r) => AssignPrinted(env, lev, e, code, k);
    case Cond(c, t, f) => CondPrinted(env, lev, e, code, k);
    case Lor(l, r) => ShortPrinted(env, lev, e, code, k);
    case Lan(l, r) => ShortPrinted(env, lev, e, code, k);
    case Bin(op, l, r) => BinPrinted(env, lev, e, code, k);
    case PostStep(up, i) => PostPrinted(env, lev, e, code, k);
  }

  lemma Climb(env: Env, lev: int, code: seq<int>, e: Expr, k: seq<Token>)
    requires WfExpr(env.sc, e) && ParsePrefix(env, code, Print(e, k)) == Ok(C(env, e, code), k)
    ensures ParseExpr(env, lev, code, Print(e, k)) == ParseLoop(env, lev, C(env, e, code), k)
  {
    hide ParsePrefix, ParseLoop, Print, C;
  }

  lemma Stops(env: Env, lev: int, code: seq<int>, k: seq<Token>)
    requires Tk(k) < lev
    ensures ParseLoop(env, lev, code, k) == Ok(code, k)
  {
  }

  /** A parsed operand: the same with parentheses put where `at` requires them. */
  lemma {:induction false} ParseOperand(env: Env, lev: int, e: Expr, at: int, code: seq<int>, k: seq<Token>)
    requires WfExpr(env.sc, e) && lev <= at && (Level(e) >= at ==> Tk(k) < RightEdge(e)) && Tk(k) != LPAREN
    ensures ParseExpr(env, lev, code, PrintAt(e, at, k)) == ParseLoop(env, lev, C(env, e, code), k)
    decreases e, 4
  {
    hide ParseLoop, ParseArgs, Print, C, WfExpr, ParsePrefix;
    if Level(e) >= at {
      ParsePrinted(env, lev, e, code, k);
    } else {
      Parenthesised(env, e, code, k);
    }
  }

  lemma {:induction false} Parenthesised(env: Env, e: Expr, code: seq<int>, k: seq<Token>)
    requires WfExpr(env.sc, e)
    ensures ParsePrefix(env, code, P(LPAREN) + Print(e, P(RPAREN) + k)) == Ok(C(env, e, code), k)
    decreases e, 3
  {
    hide ParseExpr, ParseLoop, ParseArgs, Print, C, WfExpr;
    var toks := P(LPAREN) + Print(e, P(RPAREN) + k);
    assert toks[1..] == Print(e, P(RPAREN) + k);
    FirstToken(e, P(RPAREN) + k);
    ParsePrinted(env, TK_ASSIGN, e, code, P(RPAREN) + k);
    Stops(env, TK_ASSIGN, C(env, e, code), P(RPAREN) + k);
    assert (P(RPAREN) + k)[1..] == k;
  }

  lemma {:induction false} WholeOperand(env: Env, lev: int, e: Expr, code: seq<int>, k: seq<Token>)
    requires WfExpr(env.sc, e) && Tk(k) < lev && Tk(k) != LPAREN
    ensures ParseExpr(env, lev, code, PrintAt(e, lev, k)) == Ok(C(env, e, code), k)
    decreases e, 5
  {
    hide ParseExpr, ParseLoop, PrintAt, C, WfExpr;
    ParseOperand(env, lev, e, lev, code, k);
    Stops(env, lev, C(env, e, code), k);
  }

  lemma {:induction false} PrefixPrinted(env: Env, e: Expr, code: seq<int>, k: seq<Token>)
    requires WfExpr(env.sc, e) && Tk(k) < RightEdge(e) && Tk(k) != LPAREN
    requires !e.Assign? && !e.Cond? && !e.Lor? && !e.Lan? && !e.Bin? && !e.PostStep?
    ensures ParsePrefix(env, code, Print(e, k)) == Ok(C(env, e, code), k)
    decreases e, 1
  {
    hide ParseExpr, ParseLoop, ParseArgs, PrintAt;
    var toks := Print(e, k);
    match e
    case Num(n) => assert toks[1..] == k;
    case Var(x) => VarPrinted(env, e, code, k);
    case Paren(i) => Parenthesised(env, i, code, k);
    case Not(i) =>
      assert toks[1..] == PrintAt(i, TK_INC, k);
      WholeOperand(env, TK_INC, i, code, k);
    case BitNot(i) =>
      assert toks[1..] == PrintAt(i, TK_INC, k);
      WholeOperand(env, TK_INC, i, code, k);
    case Plus(i) =>
      assert toks[1..] == PrintAt(i, TK_INC, k);
      WholeOperand(env, TK_INC, i, code, k);
    case Neg(i) => NegPrinted(env, e, code, k);
    case PreStep(up, i) => PrePrinted(env, e, code, k);
    case Call(x, args) => CallPrinted(env, e, code, k);
  }

  lemma VarPrinted(env: Env, e: Expr, code: seq<int>, k: seq<Token>)
    requires WfExpr(env.sc, e) && e.Var? && Tk(k) != LPAREN
    ensures ParsePrefix(env, code, Print(e, k)) == Ok(C(env, e, code), k)
  {
    hide ParseExpr, ParseLoop, ParseArgs;
    assert Print(e, k)[1..] == k;
  }

  lemma {:induction false} NegPrinted(env: Env, e: Expr, code: seq<int>, k: seq<Token>)
    requires WfExpr(env.sc, e) && e.Neg? && Tk(k) < TK_INC && Tk(k) != LPAREN
    ensures ParsePrefix(env, code, Print(e, k)) == Ok(C(env, e, code), k)
    decreases e, 0
  {
    hide ParseExpr, ParseLoop, ParseArgs, ParsePrefix;
    var i := e.inner;
    if i.Num? {
      NegLiteral(env, e, code, k);
    } else {
      NotNumber(env.sc, i, k);
      WholeOperand(env, TK_INC, i, code + [IMM, -1, PSH], k);
      NegProduct(env, e, code, k);
    }
  }

  lemma NegLiteral(env: Env, e: Expr, code: seq<int>, k: seq<Token>)
    requires WfExpr(env.sc, e) && e.Neg? && e.inner.Num?
    ensures ParsePrefix(env, code, Print(e, k)) == Ok(C(env, e, code), k)
  {
    hide ParseExpr, ParseLoop, ParseArgs;
    var rest := PrintAt(e.inner, TK_INC, k);
    assert Print(e, k)[1..] == rest;
    assert rest == Print(e.inner, k) == [Token(TK_NUM, e.inner.n, 0)] + k;
    assert rest[1..] == k;
  }

  lemma NegProduct(env: Env, e: Expr, code: seq<int>, k: seq<Token>)
    requires WfExpr(env.sc, e) && e.Neg? && !e.inner.Num? && Tk(PrintAt(e.inner, TK_INC, k)) != TK_NUM
    requires ParseExpr(env, TK_INC, code + [IMM, -1, PSH], PrintAt(e.inner, TK_INC, k)) ==
      Ok(C(env, e.inner, code + [IMM, -1, PSH]), k)
    ensures ParsePrefix(env, code, Print(e, k)) == Ok(C(env, e, code), k)
  {
    hide ParseExpr, ParseLoop, ParseArgs;
    assert Print(e, k)[1..] == PrintAt(e.inner, TK_INC, k);
    assert |code + [IMM, -1, PSH]| == |code| + 3;
  }

  /** A tight operand that is not a literal does not start with one, so `-` is compiled as a product. */
  lemma NotNumber(sc: Scope, e: Expr, k: seq<Token>)
    requires WfExpr(sc, e) && !e.Num?
    ensures Tk(PrintAt(e, TK_INC, k)) != TK_NUM
  {
    if e.PostStep? {
      var k1 := P(if e.up then TK_INC else TK_DEC) + k;
      assert Print(e, k) == Print(e.inner, k1);
      assert e.inner.Var? || e.inner.Paren?;
      assert Tk(Print(e.inner, k1)) != TK_NUM;
    } else if Level(e) >= TK_INC {
      assert Tk(Print(e, k)) != TK_NUM;
    }
  }

  lemma {:induction false} PrePrinted(env: Env, e: Expr, code: seq<int>, k: seq<Token>)
    requires WfExpr(env.sc, e) && e.PreStep? && Tk(k) < TK_INC && Tk(k) != LPAREN
    ensures ParsePrefix(env, code, Print(e, k)) == Ok(C(env, e, code), k)
    decreases e, 0
  {
    hide ParseExpr, ParseLoop, ParseArgs;
    var i := e.inner;
    assert Print(e, k)[1..] == PrintAt(i, TK_INC, k);
    LvalCode(env.sc, env.loc, i, env.base + |code|);
    WholeOperand(env, TK_INC, i, code, k);
    StepsBack(code, AddrCode(env.sc[LvalName(env.sc, i)], env.loc), e.up);
  }

  /** Rewriting the load that was emitted last gives the step code. */
  lemma StepsBack(code: seq<int>, addr: seq<int>, up: bool)
    ensures StepTail(code + (addr + [LI]), up) == Some(code + (addr + StepCode(up) + [SI]))
  {
    var c := code + (addr + [LI]);
    assert Last(c) == LI;
    assert Relast(c, PSH) + [LI, PSH, IMM, 1, Opcode(if up then Add else Sub), SI]
        == code + (addr + StepCode(up) + [SI]);
  }

  lemma {:induction false} PostPrinted(env: Env, lev: int, e: Expr, code: seq<int>, k: seq<Token>)
    requires WfExpr(env.sc, e) && e.PostStep? && lev <= TK_INC
    ensures ParseExpr(env, lev, code, Print(e, k)) == ParseLoop(env, lev, C(env, e, code), k)
    decreases e, 0
  {
    hide ParseExpr, ParseArgs, ParsePrefix, ParseLoop, AddrCode, LvalName, Last, Relast;
    var i := e.inner;
    var tk := if e.up then TK_INC else TK_DEC;
    var op := Opcode(if e.up then Sub else Add);
    var addr := AddrCode(env.sc[LvalName(env.sc, i)], env.loc);
    LvalCode(env.sc, env.loc, i, env.base + |code|);
    ParsePrinted(env, lev, i, code, P(tk) + k);
    StepsBack(code, addr, e.up);
    assert (P(tk) + k)[1..] == k;
    LoopStep(env, lev, code + (addr + [LI]), P(tk) + k, code + (addr + StepCode(e.up) + [SI]));
    assert code + (addr + StepCode(e.up) + [SI]) + [PSH, IMM, 1, op] == C(env, e, code);
  }

  lemma LoopStep(env: Env, lev: int, code: seq<int>, toks: seq<Token>, d: seq<int>)
    requires (Tk(toks) == TK_INC || Tk(toks) == TK_DEC) && lev <= TK_INC &&
      StepTail(code, Tk(toks) == TK_INC) == Some(d)
    ensures var op := Opcode(if Tk(toks) == TK_INC then Sub else Add);
      ParseLoop(env, lev, code, toks) == ParseLoop(env, lev, d + [PSH, IMM, 1, op], toks[1..])
  {
    hide ParseExpr, StepTail;
  }

  lemma LoopAssign(env: Env, lev: int, code: seq<int>, toks: seq<Token>, d: seq<int>, k: seq<Token>)
    requires Tk(toks) == TK_ASSIGN >= lev && Last(code) == LI
    requires ParseExpr(env, TK_ASSIGN, Relast(code, PSH), toks[1..]) == Ok(d, k)
    ensures ParseLoop(env, lev, code, toks) == ParseLoop(env, lev, d + [SI], k)
  {
    hide ParseExpr, Relast;
  }

  lemma {:induction false} AssignPrinted(env: Env, lev: int, e: Expr, code: seq<int>, k: seq<Token>)
    requires WfExpr(env.sc, e) && e.Assign? && lev <= TK_ASSIGN && Tk(k) < TK_ASSIGN && Tk(k) != LPAREN
    ensures ParseExpr(env, lev, code, Print(e, k)) == ParseLoop(env, lev, C(env, e, code), k)
    decreases e, 0
  {
    hide ParseExpr, ParseArgs, ParsePrefix, ParseLoop, AddrCode, Last, Relast, LvalName;
    var rest := Print(e.rhs, k);
    var addr := AddrCode(env.sc[LvalName(env.sc, e.lhs)], env.loc);
    LvalCode(env.sc, env.loc, e.lhs, env.base + |code|);
    ParsePrinted(env, lev, e.lhs, code, P(TK_ASSIGN) + rest);
    var c0 := code + (addr + [LI]);
    assert (P(TK_ASSIGN) + rest)[1..] == rest;
    var c1 := code + (addr + [PSH]);
    Rewritten(code, addr);
    ParsePrinted(env, TK_ASSIGN, e.rhs, c1, k);
    var w := Code(env.sc, env.loc, e.rhs, env.base + |code| + 3);
    AddrLen(env.sc[LvalName(env.sc, e.lhs)], env.loc);
    assert C(env, e.rhs, c1) == c1 + w;
    Stops(env, TK_ASSIGN, c1 + w, k);
    LoopAssign(env, lev, c0, P(TK_ASSIGN) + rest, c1 + w, k);
    assert c1 + w + [SI] == code + (addr + [PSH] + w + [SI]);
  }

  lemma Rewritten(code: seq<int>, addr: seq<int>)
    ensures var c0 := code + (addr + [LI]); Last(c0) == LI && Relast(c0, PSH) == code + (addr + [PSH])
  {
  }

  lemma AddrLen(y: Sym, loc: int)
    ensures |AddrCode(y, loc)| == 2
  {
  }

  lemma LoopBinary(env: Env, lev: int, code: seq<int>, toks: seq<Token>, op: BinOp, d: seq<int>, k: seq<Token>)
    requires Tk(toks) == OpToken(op) >= lev
    requires ParseExpr(env, TighterLevel(op), code + [PSH], toks[1..]) == Ok(d, k)
    ensures ParseLoop(env, lev, code, toks) == ParseLoop(env, lev, d + [Opcode(op)], k)
  {
    hide ParseExpr;
    assert RightLevel(OpToken(op)) == TighterLevel(op) && OpToken(op) - 132 == Opcode(op);
  }

  lemma {:induction false} BinPrinted(env: Env, lev: int, e: Expr, code: seq<int>, k: seq<Token>)
    requires WfExpr(env.sc, e) && e.Bin? && lev <= Level(e) && Tk(k) < RightEdge(e) && Tk(k) != LPAREN
    ensures ParseExpr(env, lev, code, Print(e, k)) == ParseLoop(env, lev, C(env, e, code), k)
    decreases e, 0
  {
    hide ParseExpr, ParseArgs, ParsePrefix, ParseLoop, Opcode, Print, Code;
    BinParts(env, e, code, k);
    var right := TighterLevel(e.op);
    var rest := PrintAt(e.r, right, k);
    var tk := OpToken(e.op);
    if Level(e.l) >= OpLevel(e.op) {
      EdgeAbove(e.l, e.op);
    }
    ParseOperand(env, lev, e.l, OpLevel(e.op), code, P(tk) + rest);
    var c0 := C(env, e.l, code);
    assert (P(tk) + rest)[1..] == rest;
    WholeOperand(env, right, e.r, c0 + [PSH], k);
    LoopBinary(env, lev, c0, P(tk) + rest, e.op, C(env, e.r, c0 + [PSH]), k);
  }

  /** Text and code of a binary operation in terms of its operands. */
  lemma BinParts(env: Env, e: Expr, code: seq<int>, k: seq<Token>)
    requires WfExpr(env.sc, e) && e.Bin?
    ensures Print(e, k) == PrintAt(e.l, OpLevel(e.op), P(OpToken(e.op)) + PrintAt(e.r, TighterLevel(e.op), k))
    ensures C(env, e, code) == C(env, e.r, C(env, e.l, code) + [PSH]) + [Opcode(e.op)]
  {
    hide Opcode;
    var w0 := Code(env.sc, env.loc, e.l, env.base + |code|);
    var w1 := Code(env.sc, env.loc, e.r, env.base + |code| + |w0| + 1);
    assert code + (w0 + [PSH] + w1 + [Opcode(e.op)]) == code + w0 + [PSH] + w1 + [Opcode(e.op)];
  }

  lemma LoopShort(env: Env, lev: int, code: seq<int>, toks: seq<Token>, d: seq<int>, k: seq<Token>)
    requires (Tk(toks) == TK_LOR || Tk(toks) == TK_LAN) && Tk(toks) >= lev
    requires var lor := Tk(toks) == TK_LOR;
      ParseExpr(env, if lor then TK_LAN else TK_OR, code + [if lor then BNZ else BZ, 0], toks[1..]) == Ok(d, k)
    ensures ParseLoop(env, lev, code, toks) == ParseLoop(env, lev, Patch(d, |code| + 1, env.base + |d|), k)
  {
    hide ParseExpr, Patch;
  }

  lemma {:induction false} ShortPrinted(env: Env, lev: int, e: Expr, code: seq<int>, k: seq<Token>)
    requires WfExpr(env.sc, e) && (e.Lor? || e.Lan?) && lev <= Level(e) && Tk(k) < RightEdge(e) && Tk(k) != LPAREN
    ensures ParseExpr(env, lev, code, Print(e, k)) == ParseLoop(env, lev, C(env, e, code), k)
    decreases e, 0
  {
    hide ParseExpr, ParseArgs, ParsePrefix, ParseLoop, Patch;
    var (tk, right, jump) := if e.Lor? then (TK_LOR, TK_LAN, BNZ) else (TK_LAN, TK_OR, BZ);
    var rest := PrintAt(e.r, right, k);
    ParseOperand(env, lev, e.l, tk, code, P(tk) + rest);
    var c0 := C(env, e.l, code);
    assert (P(tk) + rest)[1..] == rest;
    WholeOperand(env, right, e.r, c0 + [jump, 0], k);
    var d := C(env, e.r, c0 + [jump, 0]);
    LoopShort(env, lev, c0, P(tk) + rest, d, k);
    var w0 := Code(env.sc, env.loc, e.l, env.base + |code|);
    var w1 := Code(env.sc, env.loc, e.r, env.base + |c0| + 2);
    Patched(c0, jump, env.base + |d|, w1);
    assert c0 + [jump, env.base + |d|] + w1 == code + (w0 + [jump, env.base + |d|] + w1);
  }

  /** Back-patching the hole is the same as having emitted the target in the first place. */
  lemma Patched(c0: seq<int>, i: int, to: int, c1: seq<int>)
    ensures Patch(c0 + [i, 0] + c1, |c0| + 1, to) == c0 + [i, to] + c1
  {
  }

  /** One turn of the climbing loop on `?`, given what its two operands parse to. */
  lemma LoopCond(env: Env, lev: int, code: seq<int>, toks: seq<Token>, d1: seq<int>, t1: seq<Token>, d2: seq<int>,
      k: seq<Token>)
    requires Tk(toks) == TK_COND >= lev && Tk(t1) == COLON
    requires ParseExpr(env, TK_ASSIGN, code + [BZ, 0], toks[1..]) == Ok(d1, t1)
    requires ParseExpr(env, TK_COND, Patch(d1, |code| + 1, env.base + |d1| + 2) + [JMP, 0], t1[1..]) == Ok(d2, k)
    ensures ParseLoop(env, lev, code, toks) == ParseLoop(env, lev, Patch(d2, |d1| + 1, env.base + |d2|), k)
  {
    hide ParseExpr, Patch;
  }

  /** The two patched holes give the two jump targets of `?:` and of `if`/`else`. */
  lemma TwoPatches(c0: seq<int>, w1: seq<int>, w2: seq<int>, base: int)
    ensures var to1 := base + |c0| + 2 + |w1| + 2;
      var c1 := Patch(c0 + [BZ, 0] + w1, |c0| + 1, to1);
      && c1 == c0 + [BZ, to1] + w1
      && Patch(c1 + [JMP, 0] + w2, |c1| + 1, to1 + |w2|) == c0 + [BZ, to1] + w1 + [JMP, to1 + |w2|] + w2
  {
    var to1 := base + |c0| + 2 + |w1| + 2;
    Patched(c0, BZ, to1, w1);
    Patched(c0 + [BZ, to1] + w1, JMP, to1 + |w2|, w2);
  }

  /** A conditional by its parts. */
  lemma CondParts(env: Env, e: Expr, code: seq<int>, k: seq<Token>)
    requires WfExpr(env.sc, e) && e.Cond?
    ensures WfExpr(env.sc, e.c) && WfExpr(env.sc, e.t) && WfExpr(env.sc, e.f)
    ensures Print(e, k) == PrintAt(e.c, TK_LOR, P(TK_COND) + Print(e.t, P(COLON) + PrintAt(e.f, TK_COND, k)))
    ensures var c0 := C(env, e.c, code); var w1 := Code(env.sc, env.loc, e.t, env.base + |c0| + 2);
      var to1 := env.base + |c0| + 2 + |w1| + 2; var w2 := Code(env.sc, env.loc, e.f, to1);
      C(env, e, code) == c0 + [BZ, to1] + w1 + [JMP, to1 + |w2|] + w2
  {
    hide PrintAt;
  }

  lemma {:induction false} CondPrinted(env: Env, lev: int, e: Expr, code: seq<int>, k: seq<Token>)
    requires WfExpr(env.sc, e) && e.Cond? && lev <= TK_COND && Tk(k) < TK_COND && Tk(k) != LPAREN
    ensures ParseExpr(env, lev, code, Print(e, k)) == ParseLoop(env, lev, C(env, e, code), k)
    decreases e, 0
  {
    hide ParseExpr, ParseArgs, ParsePrefix, ParseLoop, Patch, Print, PrintAt, WfExpr, Code;
    CondParts(env, e, code, k);
    var rest2 := PrintAt(e.f, TK_COND, k);
    var rest1 := Print(e.t, P(COLON) + rest2);
    ParseOperand(env, lev, e.c, TK_LOR, code, P(TK_COND) + rest1);
    var c0 := C(env, e.c, code);
    assert (P(TK_COND) + rest1)[1..] == rest1;
    ParsePrinted(env, TK_ASSIGN, e.t, c0 + [BZ, 0], P(COLON) + rest2);
    var d1 := C(env, e.t, c0 + [BZ, 0]);
    Stops(env, TK_ASSIGN, d1, P(COLON) + rest2);
    assert (P(COLON) + rest2)[1..] == rest2;
    var w1 := Code(env.sc, env.loc, e.t, env.base + |c0| + 2);
    var c1 := Patch(d1, |c0| + 1, env.base + |d1| + 2);
    WholeOperand(env, TK_COND, e.f, c1 + [JMP, 0], k);
    var d2 := C(env, e.f, c1 + [JMP, 0]);
    LoopCond(env, lev, c0, P(TK_COND) + rest1, d1, P(COLON) + rest2, d2, k);
    TwoPatches(c0, w1, Code(env.sc, env.loc, e.f, env.base + |c1| + 2), env.base);
  }

  lemma {:induction false} CallPrinted(env: Env, e: Expr, code: seq<int>, k: seq<Token>)
    requires WfExpr(env.sc, e) && e.Call?
    ensures ParsePrefix(env, code, Print(e, k)) == Ok(C(env, e, code), k)
    decreases e, 0
  {
    hide ParseExpr, ParseLoop, ParseArgs;
    var toks := Print(e, k);
    var rest := PrintArgs(e.args, P(RPAREN) + k);
    assert toks[1..] == P(LPAREN) + rest;
    assert toks[1..][1..] == rest;
    ArgsPrinted(env, e.args, code, k, 0);
    assert (e.args.Count() > 0) == !e.args.ANil?;
  }

  lemma {:induction false} ArgsPrinted(env: Env, args: Args, code: seq<int>, k: seq<Token>, t: nat)
    requires WfArgs(env.sc, args)
    ensures ParseArgs(env, code, PrintArgs(args, P(RPAREN) + k), t)
         == (Ok(code + ArgsCode(env.sc, env.loc, args, env.base + |code|), k), t + args.Count())
    decreases args
  {
    hide ParseExpr, ParseArgs, Code, Print, WfExpr;
    if args.ANil? {
      NoMoreArgs(env, code, k, t);
      assert code + [] == code;
    } else {
      var more := PrintArgs(args.tail, P(RPAREN) + k);
      var after := if args.tail.ANil? then P(RPAREN) + k else P(COMMA) + more;
      ExprDone(env, args.head, code, after);
      var c0 := C(env, args.head, code);
      assert (P(COMMA) + more)[1..] == more;
      OneArg(env, code, Print(args.head, after), c0, after, t);
      ArgsPrinted(env, args.tail, c0 + [PSH], k, t + 1);
      ArgsJoined(env, args, code);
    }
  }

  lemma NoMoreArgs(env: Env, code: seq<int>, k: seq<Token>, t: nat)
    ensures ParseArgs(env, code, P(RPAREN) + k, t) == (Ok(code, k), t)
  {
    assert (P(RPAREN) + k)[1..] == k;
  }

  lemma ArgsJoined(env: Env, args: Args, code: seq<int>)
    requires args.ACons? && WfArgs(env.sc, args)
    ensures var c1 := C(env, args.head, code) + [PSH];
      c1 + ArgsCode(env.sc, env.loc, args.tail, env.base + |c1|) ==
        code + ArgsCode(env.sc, env.loc, args, env.base + |code|)
  {
    hide Code, WfExpr;
    var w := Code(env.sc, env.loc, args.head, env.base + |code|);
    var ws := ArgsCode(env.sc, env.loc, args.tail, env.base + |code| + |w| + 1);
    assert code + w + [PSH] + ws == code + (w + [PSH] + ws);
  }

  lemma OneArg(env: Env, code: seq<int>, toks: seq<Token>, c0: seq<int>, rest: seq<Token>, t: nat)
    requires Tk(toks) != RPAREN && ParseExpr(env, TK_ASSIGN, code, toks) == Ok(c0, rest)
    ensures ParseArgs(env, code, toks, t)
         == ParseArgs(env, c0 + [PSH], if Tk(rest) == COMMA then rest[1..] else rest, t + 1)
  {
    hide ParseExpr;
  }

  /** An expression followed by a closer that no operator can continue. */
  lemma {:induction false} ExprDone(env: Env, e: Expr, code: seq<int>, k: seq<Token>)
    requires WfExpr(env.sc, e) && Tk(k) < TK_ASSIGN && Tk(k) != LPAREN
    ensures ParseExpr(env, TK_ASSIGN, code, Print(e, k)) == Ok(C(env, e, code), k)
    ensures Starter(Tk(Print(e, k)))
    decreases e, 5
  {
    hide ParseExpr, ParseLoop, Print, C;
    FirstToken(e, k);
    ParsePrinted(env, TK_ASSIGN, e, code, k);
    Stops(env, TK_ASSIGN, C(env, e, code), k);
  }

  /** A literal is refused as the target of an assignment unless its value is the number of a load instruction:
      the test for an lvalue looks at the last word emitted, and for a literal that is its value. */
  lemma LiteralTarget(env: Env, n: int, r: Expr, code: seq<int>, k: seq<Token>)
    requires WfExpr(env.sc, r) && Tk(k) < TK_ASSIGN && Tk(k) != LPAREN
    ensures ParseExpr(env, TK_ASSIGN, code, [Token(TK_NUM, n, 0)] + (P(TK_ASSIGN) + Print(r, k))).Ok? <==>
      n == LI || n == LC
  {
    hide ParseArgs, Print, C, WfExpr;
    var rest := P(TK_ASSIGN) + Print(r, k);
    var toks := [Token(TK_NUM, n, 0)] + rest;
    var c0 := code + [IMM, n];
    assert toks[1..] == rest && rest[1..] == Print(r, k);
    assert Last(c0) == n;
    assert ParsePrefix(env, code, toks) == Ok(c0, rest);
    LiteralLoop(env, n, r, c0, k);
  }

  /** Does the code of `e` end in a word that reads as a load? For a name it is one; for a literal, a constant or a call
      it is an operand that happens to have the number of a load instruction; the other operators pass their last
      operand on or end in an instruction that is no load. */
  predicate EndsInLoad(sc: Scope, e: Expr)
    requires WfExpr(sc, e)
  {
    match e
    case Num(n) => n == LI || n == LC
    case Var(x) => sc[x].cls != CNum || sc[x].val == LI || sc[x].val == LC
    case Paren(i) => EndsInLoad(sc, i)
    case Plus(i) => EndsInLoad(sc, i)
    case Cond(_, _, f) => EndsInLoad(sc, f)
    case Lor(_, r) => EndsInLoad(sc, r)
    case Lan(_, r) => EndsInLoad(sc, r)
    case Neg(i) => i.Num? && (Wrap(-i.n) == LI || Wrap(-i.n) == LC)
    case Call(x, args) =>
      if args.ANil? then sc[x].val == LI || sc[x].val == LC else args.Count() == LI || args.Count() == LC
    case _ => false
  }

  lemma LastOf(c: seq<int>, d: seq<int>)
    requires d != []
    ensures Last(c + d) == d[|d| - 1]
  {
  }

  lemma {:induction false} CodeNonEmpty(sc: Scope, loc: int, e: Expr, at: int)
    requires WfExpr(sc, e)
    ensures Code(sc, loc, e, at) != []
    decreases e
  {
    hide Opcode, AddrCode, StepCode, LvalName;
    match e
    case Paren(i) => CodeNonEmpty(sc, loc, i, at);
    case Plus(i) => CodeNonEmpty(sc, loc, i, at);
    case _ =>
  }

  ghost predicate LastLoads(sc: Scope, loc: int, e: Expr, at: int)
    requires WfExpr(sc, e)
  {
    var w := Last(Code(sc, loc, e, at));
    (w == LI || w == LC) == EndsInLoad(sc, e)
  }

  lemma {:induction false} LastWord(sc: Scope, loc: int, e: Expr, at: int)
    requires WfExpr(sc, e)
    ensures LastLoads(sc, loc, e, at)
    decreases e, 1
  {
    hide Opcode, AddrCode, StepCode, LvalName, Last, ArgsCode;
    match e
    case Paren(i) => LastWord(sc, loc, i, at);
    case Plus(i) => LastWord(sc, loc, i, at);
    case Cond(c, t, f) => LastCond(sc, loc, e, at);
    case Lor(l, r) => LastShort(sc, loc, e, at);
    case Lan(l, r) => LastShort(sc, loc, e, at);
    case Num(n) => LastSimple(sc, loc, e, at);
    case Var(x) => LastSimple(sc, loc, e, at);
    case Call(x, args) => LastSimple(sc, loc, e, at);
    case Neg(i) => LastOther(sc, loc, e, at);
    case _ => LastOther(sc, loc, e, at);
  }

  lemma LastSimple(sc: Scope, loc: int, e: Expr, at: int)
    requires WfExpr(sc, e) && (e.Num? || e.Var? || e.Call?)
    ensures LastLoads(sc, loc, e, at)
  {
    hide Opcode, StepCode, LvalName, ArgsCode;
  }

  lemma LastOther(sc: Scope, loc: int, e: Expr, at: int)
    requires WfExpr(sc, e) && (e.Neg? || e.Bin? || e.Not? || e.BitNot? || e.Assign? || e.PreStep? || e.PostStep?)
    ensures LastLoads(sc, loc, e, at)
  {
    hide AddrCode, StepCode, LvalName, ArgsCode;
  }

  lemma {:induction false} LastCond(sc: Scope, loc: int, e: Expr, at: int)
    requires WfExpr(sc, e) && e.Cond?
    ensures LastLoads(sc, loc, e, at)
    decreases e, 0
  {
    hide Opcode, AddrCode, StepCode, LvalName, Last, ArgsCode;
    var c0 := Code(sc, loc, e.c, at);
    var at2 := at + |c0| + 2 + |Code(sc, loc, e.t, at + |c0| + 2)| + 2;
    LastWord(sc, loc, e.f, at2);
    LastSameCond(sc, loc, e, at);
  }

  lemma {:induction false} LastShort(sc: Scope, loc: int, e: Expr, at: int)
    requires WfExpr(sc, e) && (e.Lor? || e.Lan?)
    ensures LastLoads(sc, loc, e, at)
    decreases e, 0
  {
    hide Opcode, AddrCode, StepCode, LvalName, Last, ArgsCode;
    var at1 := at + |Code(sc, loc, e.l, at)| + 2;
    LastWord(sc, loc, e.r, at1);
    LastSameShort(sc, loc, e, at);
  }

  /** The code of a `?:` ends in the code of its last operand, */
  lemma LastSameCond(sc: Scope, loc: int, e: Expr, at: int)
    requires WfExpr(sc, e) && e.Cond?
    ensures var c0 := Code(sc, loc, e.c, at); var at2 := at + |c0| + 2 + |Code(sc, loc, e.t, at + |c0| + 2)| + 2;
      Last(Code(sc, loc, e, at)) == Last(Code(sc, loc, e.f, at2))
  {
    hide Opcode, AddrCode, StepCode, LvalName, ArgsCode;
    var c0 := Code(sc, loc, e.c, at);
    var at2 := at + |c0| + 2 + |Code(sc, loc, e.t, at + |c0| + 2)| + 2;
    CodeNonEmpty(sc, loc, e.f, at2);
  }

  /** and so do `||` and `&&`. */
  lemma LastSameShort(sc: Scope, loc: int, e: Expr, at: int)
    requires WfExpr(sc, e) && (e.Lor? || e.Lan?)
    ensures Last(Code(sc, loc, e, at)) == Last(Code(sc, loc, e.r, at + |Code(sc, loc, e.l, at)| + 2))
  {
    hide Opcode, AddrCode, StepCode, LvalName, ArgsCode;
    CodeNonEmpty(sc, loc, e.r, at + |Code(sc, loc, e.l, at)| + 2);
  }

  /** What may stand left of `=`: exactly the expressions whose code ends in a word that reads as a load. */
  lemma TargetAccepted(env: Env, e: Expr, r: Expr, code: seq<int>, k: seq<Token>)
    requires WfExpr(env.sc, e) && !e.Assign? && WfExpr(env.sc, r) && Tk(k) < TK_ASSIGN && Tk(k) != LPAREN
    ensures ParseExpr(env, TK_ASSIGN, code, Print(e, P(TK_ASSIGN) + Print(r, k))).Ok? <==> EndsInLoad(env.sc, e)
  {
    hide ParseExpr, ParseLoop, ParsePrefix, Print, Code, WfExpr, EndsInLoad, Last;
    ParsePrinted(env, TK_ASSIGN, e, code, P(TK_ASSIGN) + Print(r, k));
    var c := C(env, e, code);
    var w := Code(env.sc, env.loc, e, env.base + |code|);
    CodeNonEmpty(env.sc, env.loc, e, env.base + |code|);
    LastOf(code, w);
    LastOf([], w);
    assert [] + w == w;
    LastWord(env.sc, env.loc, e, env.base + |code|);
    LiteralLoop(env, Last(c), r, c, k);
  }

  /** Every variable is accepted; so the accepted targets are the lvalues and, besides, the expressions above. */
  lemma {:induction false} LvalAccepted(sc: Scope, e: Expr)
    requires IsLval(sc, e)
    ensures WfExpr(sc, e) && EndsInLoad(sc, e)
    decreases e
  {
    if e.Paren? { LvalAccepted(sc, e.inner); }
  }

  /** `a || b = c` is taken for an assignment, although its left side is no variable. */
  lemma OrTarget(env: Env, a: int, b: int, c: int, code: seq<int>, k: seq<Token>)
    requires IsLval(env.sc, Var(a)) && IsLval(env.sc, Var(b)) && IsLval(env.sc, Var(c)) && Tk(k) < TK_ASSIGN &&
      Tk(k) != LPAREN
    ensures var e := Lor(Var(a), Var(b));
      !IsLval(env.sc, e) && ParseExpr(env, TK_ASSIGN, code, Print(e, P(TK_ASSIGN) + Print(Var(c), k))).Ok?
  {
    hide ParseExpr, Print;
    TargetAccepted(env, Lor(Var(a), Var(b)), Var(c), code, k);
  }

  lemma LiteralLoop(env: Env, n: int, r: Expr, c0: seq<int>, k: seq<Token>)
    requires WfExpr(env.sc, r) && Tk(k) < TK_ASSIGN && Tk(k) != LPAREN && Last(c0) == n
    ensures ParseLoop(env, TK_ASSIGN, c0, P(TK_ASSIGN) + Print(r, k)).Ok? <==> n == LI || n == LC
  {
    hide ParseArgs, ParsePrefix, ParseExpr, Print, C, WfExpr, Relast;
    var rest := P(TK_ASSIGN) + Print(r, k);
    assert rest[1..] == Print(r, k);
    var c1 := Relast(c0, PSH);
    ExprDone(env, r, c1, k);
    Stops(env, TK_ASSIGN, C(env, r, c1) + [SI], k);
  }

  // ---------------------------------------------------------------- statements

  function S(env: Env, st: Stmt, code: seq<int>): seq<int>
    requires WfStmt(env.sc, st)
  {
    code + StmtCode(env.sc, env.loc, st, env.base + |code|)
  }

  lemma TestPrinted(env: Env, e: Expr, code: seq<int>, k: seq<Token>)
    requires WfExpr(env.sc, e)
    ensures ParseTest(env, code, P(LPAREN) + Print(e, P(RPAREN) + k)) == Ok(C(env, e, code), k)
  {
    hide ParseExpr, Print, C;
    var toks := P(LPAREN) + Print(e, P(RPAREN) + k);
    assert toks[1..] == Print(e, P(RPAREN) + k);
    ExprDone(env, e, code, P(RPAREN) + k);
    assert (P(RPAREN) + k)[1..] == k;
  }

  lemma FirstOfStmt(st: Stmt, k: seq<Token>)
    ensures Tk(PrintStmt(st, k)) != RBRACE && Tk(PrintStmt(st, k)) != TK_ELSE && PrintStmt(st, k) != []
  {
    if st.ExprStmt? {
      FirstToken(st.e, P(SEMI) + k);
    }
  }

  /** Statements parse back to their own code; an `else` goes to the nearest open `if`. */
  lemma {:induction false} StmtPrinted(env: Env, st: Stmt, code: seq<int>, k: seq<Token>)
    requires WfStmt(env.sc, st) && (OpenIf(st) ==> Tk(k) != TK_ELSE)
    ensures ParseStmt(env, code, PrintStmt(st, k)) == Ok(S(env, st, code), k)
    decreases st, 1
  {
    hide ParseExpr, ParseTest, ParseBlock, Print;
    var toks := PrintStmt(st, k);
    match st
    case If(c, t) => IfPrinted(env, st, code, k);
    case IfElse(c, t, f) => IfElsePrinted(env, st, code, k);
    case While(c, b) => WhilePrinted(env, st, code, k);
    case Return(e) =>
      assert toks[1..] == Print(e, P(SEMI) + k);
      ExprDone(env, e, code, P(SEMI) + k);
      assert (P(SEMI) + k)[1..] == k;
    case ReturnVoid =>
      assert toks[1..] == P(SEMI) + k;
      assert toks[2..] == k;
    case Block(ss) =>
      assert toks[1..] == PrintStmts(ss, P(RBRACE) + k);
      BlockPrinted(env, ss, code, k);
    case Empty => assert toks[1..] == k;
    case ExprStmt(e) =>
      ExprDone(env, e, code, P(SEMI) + k);
      assert (P(SEMI) + k)[1..] == k;
  }

  lemma StmtIf(env: Env, code: seq<int>, toks: seq<Token>, c0: seq<int>, t0: seq<Token>, d: seq<int>, k: seq<Token>)
    requires Tk(toks) == TK_IF && Tk(k) != TK_ELSE
    requires ParseTest(env, code, toks[1..]) == Ok(c0, t0) && ParseStmt(env, c0 + [BZ, 0], t0) == Ok(d, k)
    ensures ParseStmt(env, code, toks) == Ok(Patch(d, |c0| + 1, env.base + |d|), k)
  {
    hide ParseExpr, ParseTest, ParseBlock, Patch;
  }

  lemma StmtIfElse(env: Env, code: seq<int>, toks: seq<Token>, c0: seq<int>, t0: seq<Token>, d1: seq<int>,
      t1: seq<Token>,
                   d2: seq<int>, k: seq<Token>)
    requires Tk(toks) == TK_IF && Tk(t1) == TK_ELSE
    requires ParseTest(env, code, toks[1..]) == Ok(c0, t0) && ParseStmt(env, c0 + [BZ, 0], t0) == Ok(d1, t1)
    requires ParseStmt(env, Patch(d1, |c0| + 1, env.base + |d1| + 2) + [JMP, 0], t1[1..]) == Ok(d2, k)
    ensures ParseStmt(env, code, toks) == Ok(Patch(d2, |d1| + 1, env.base + |d2|), k)
  {
    hide ParseExpr, ParseTest, ParseBlock, Patch;
  }

  lemma StmtWhile(env: Env, code: seq<int>, toks: seq<Token>, c0: seq<int>, t0: seq<Token>, d: seq<int>, k: seq<Token>)
    requires Tk(toks) == TK_WHILE
    requires ParseTest(env, code, toks[1..]) == Ok(c0, t0) && ParseStmt(env, c0 + [BZ, 0], t0) == Ok(d, k)
    ensures ParseStmt(env, code, toks) == Ok(Patch(d + [JMP, env.base + |code|], |c0| + 1, env.base + |d| + 2), k)
  {
    hide ParseExpr, ParseTest, ParseBlock, Patch;
  }

  lemma {:induction false} IfPrinted(env: Env, st: Stmt, code: seq<int>, k: seq<Token>)
    requires WfStmt(env.sc, st) && st.If? && Tk(k) != TK_ELSE
    ensures ParseStmt(env, code, PrintStmt(st, k)) == Ok(S(env, st, code), k)
    decreases st, 0
  {
    hide ParseStmt, ParseTest, Print, Patch, Code;
    var rest := PrintStmt(st.t, k);
    assert PrintStmt(st, k)[1..] == P(LPAREN) + Print(st.c, P(RPAREN) + rest);
    TestPrinted(env, st.c, code, rest);
    var c0 := C(env, st.c, code);
    StmtPrinted(env, st.t, c0 + [BZ, 0], k);
    var d := S(env, st.t, c0 + [BZ, 0]);
    StmtIf(env, code, PrintStmt(st, k), c0, rest, d, k);
    var w0 := Code(env.sc, env.loc, st.c, env.base + |code|);
    var w1 := StmtCode(env.sc, env.loc, st.t, env.base + |c0| + 2);
    Patched(c0, BZ, env.base + |d|, w1);
    assert c0 + [BZ, env.base + |d|] + w1 == code + (w0 + [BZ, env.base + |d|] + w1);
  }

  lemma {:induction false} IfElsePrinted(env: Env, st: Stmt, code: seq<int>, k: seq<Token>)
    requires WfStmt(env.sc, st) && st.IfElse? && (OpenIf(st.f) ==> Tk(k) != TK_ELSE)
    ensures ParseStmt(env, code, PrintStmt(st, k)) == Ok(S(env, st, code), k)
    decreases st, 0
  {
    hide ParseStmt, ParseTest, Print, Patch, Code;
    var rest2 := PrintStmt(st.f, k);
    var rest1 := PrintStmt(st.t, P(TK_ELSE) + rest2);
    assert PrintStmt(st, k)[1..] == P(LPAREN) + Print(st.c, P(RPAREN) + rest1);
    TestPrinted(env, st.c, code, rest1);
    var c0 := C(env, st.c, code);
    StmtPrinted(env, st.t, c0 + [BZ, 0], P(TK_ELSE) + rest2);
    var d1 := S(env, st.t, c0 + [BZ, 0]);
    var c1 := Patch(d1, |c0| + 1, env.base + |d1| + 2);
    assert (P(TK_ELSE) + rest2)[1..] == rest2;
    StmtPrinted(env, st.f, c1 + [JMP, 0], k);
    var d2 := S(env, st.f, c1 + [JMP, 0]);
    StmtIfElse(env, code, PrintStmt(st, k), c0, rest1, d1, P(TK_ELSE) + rest2, d2, k);
    var w0 := Code(env.sc, env.loc, st.c, env.base + |code|);
    var w1 := StmtCode(env.sc, env.loc, st.t, env.base + |c0| + 2);
    var w2 := StmtCode(env.sc, env.loc, st.f, env.base + |c1| + 2);
    TwoPatches(c0, w1, w2, env.base);
    var to1 := env.base + |d1| + 2;
    assert c0 + [BZ, to1] + w1 + [JMP, to1 + |w2|] + w2 == code + (w0 + [BZ, to1] + w1 + [JMP, to1 + |w2|] + w2);
  }

  lemma {:induction false} WhilePrinted(env: Env, st: Stmt, code: seq<int>, k: seq<Token>)
    requires WfStmt(env.sc, st) && st.While? && (OpenIf(st.body) ==> Tk(k) != TK_ELSE)
    ensures ParseStmt(env, code, PrintStmt(st, k)) == Ok(S(env, st, code), k)
    decreases st, 0
  {
    hide ParseStmt, ParseTest, Print, Patch, Code;
    var rest := PrintStmt(st.body, k);
    assert PrintStmt(st, k)[1..] == P(LPAREN) + Print(st.c, P(RPAREN) + rest);
    TestPrinted(env, st.c, code, rest);
    var c0 := C(env, st.c, code);
    StmtPrinted(env, st.body, c0 + [BZ, 0], k);
    var d := S(env, st.body, c0 + [BZ, 0]);
    StmtWhile(env, code, PrintStmt(st, k), c0, rest, d, k);
    var w0 := Code(env.sc, env.loc, st.c, env.base + |code|);
    var w := StmtCode(env.sc, env.loc, st.body, env.base + |c0| + 2);
    var j := [JMP, env.base + |code|];
    var to := env.base + |d| + 2;
    assert d + j == c0 + [BZ, 0] + (w + j);
    Patched(c0, BZ, to, w + j);
    assert c0 + [BZ, to] + (w + j) == code + (w0 + [BZ, to] + w + j);
  }

  /** A function body between braces: the parser emits exactly its code and stops after the brace. */
  lemma {:induction false} BlockPrinted(env: Env, ss: Stmts, code: seq<int>, k: seq<Token>)
    requires WfStmts(env.sc, ss)
    ensures ParseBlock(env, code, PrintStmts(ss, P(RBRACE) + k))
         == Ok(code + StmtsCode(env.sc, env.loc, ss, env.base + |code|), k)
    decreases ss
  {
    hide ParseStmt, PrintStmt;
    if ss.SNil? {
      assert (P(RBRACE) + k)[1..] == k;
    } else {
      var rest := PrintStmts(ss.tail, P(RBRACE) + k);
      if !ss.tail.SNil? {
        FirstOfStmt(ss.tail.head, PrintStmts(ss.tail.tail, P(RBRACE) + k));
      }
      FirstOfStmt(ss.head, rest);
      StmtPrinted(env, ss.head, code, rest);
      BlockPrinted(env, ss.tail, S(env, ss.head, code), k);
    }
  }
}
