/** End to end: the tokens of a program, through parsing and the machine, to its exit status. */
module C4Whole {
  import opened Common
  import opened C4Syntax
  import opened C4Semantics
  import opened C4Machine
  import opened C4Parser
  import opened C4PrintParse
  import opened C4Declarations
  import opened C4Simulation
  import opened C4Divergence
  import opened C4Program

  // ---------------------------------------------------------------- printing declarations

  datatype Decl = DVar(x: int) | DFun(x: int, f: FunDef)

  function Name(x: int): seq<Token> { [Token(TK_ID, 0, x)] }

  function PrintParams(ids: seq<int>, k: seq<Token>): seq<Token> {
    if ids == [] then k
    else P(TK_INT) + (Name(ids[0]) + (if |ids| == 1 then k else P(COMMA) + PrintParams(ids[1..], k)))
  }

  function PrintLocals(ids: seq<int>, k: seq<Token>): seq<Token> {
    if ids == [] then k else P(TK_INT) + (Name(ids[0]) + (P(SEMI) + PrintLocals(ids[1..], k)))
  }

  function PrintBody(f: FunDef, k: seq<Token>): seq<Token> {
    PrintLocals(f.locals, PrintStmts(f.body, P(RBRACE) + k))
  }

  function PrintDecl(d: Decl, k: seq<Token>): seq<Token> {
    match d
    case DVar(x) => P(TK_INT) + (Name(x) + (P(SEMI) + k))
    case DFun(x, f) =>
      P(TK_INT) + (Name(x) + (P(LPAREN) + PrintParams(f.params, P(RPAREN) + (P(LBRACE) + PrintBody(f, k)))))
  }

  function PrintFile(ds: seq<Decl>): seq<Token> {
    if ds == [] then [] else PrintDecl(ds[0], PrintFile(ds[1..]))
  }

  // ---------------------------------------------------------------- what the file denotes

  /** Symbol table, text, next data word, and the functions by name. */
  datatype Built = Built(g: Scope, code: seq<int>, data: int, funs: map<int, FunDef>)

  function WithFun(base: int, b: Built, x: int): Program {
    Program(b.g[x := Sym(CFun, base + |b.code|)], map[])
  }

  predicate WfDecl(base: int, b: Built, d: Decl) {
    && d.x !in b.g
    && (d.DFun? ==> Distinct(d.f.params + d.f.locals) && WfStmts(BodyScope(WithFun(base, b, d.x), d.f), d.f.body))
  }

  function Declare(base: int, b: Built, d: Decl): Built
    requires WfDecl(base, b, d)
  {
    match d
    case DVar(x) => Built(b.g[x := Sym(CGlo, b.data)], b.code, b.data + 1, b.funs)
    case DFun(x, f) =>
      var addr := base + |b.code|;
      var p := WithFun(base, b, x);
      Built(p.globals, b.code + FunCode(p, f, addr), b.data, b.funs[x := f])
  }

  predicate WfFile(base: int, b: Built, ds: seq<Decl>)
    decreases |ds|
  {
    ds == [] || (WfDecl(base, b, ds[0]) && WfFile(base, Declare(base, b, ds[0]), ds[1..]))
  }

  function Build(base: int, b: Built, ds: seq<Decl>): Built
    requires WfFile(base, b, ds)
    decreases |ds|
  {
    if ds == [] then b else Build(base, Declare(base, b, ds[0]), ds[1..])
  }

  // ---------------------------------------------------------------- parsing the printed file

  lemma BindLast(sc: Scope, ids: seq<int>, first: int)
    requires ids != []
    ensures var k := |ids| - 1;
      BindParams(sc, ids, first) == BindParams(sc, ids[..k], first)[ids[k] := Sym(CLoc, first + k)]
  {
  }

  lemma {:induction false} BindFront(sc: Scope, ids: seq<int>, first: int)
    requires ids != []
    ensures BindParams(sc, ids, first) == BindParams(sc[ids[0] := Sym(CLoc, first)], ids[1..], first + 1)
    decreases |ids|
  {
    hide BindParams;
    var k := |ids| - 1;
    BindLast(sc, ids, first);
    if k == 0 {
      assert ids[..0] == [] && ids[1..] == [];
      BindNone(sc, first);
      BindNone(sc[ids[0] := Sym(CLoc, first)], first + 1);
    } else {
      BindFront(sc, ids[..k], first);
      BindBoth(sc[ids[0] := Sym(CLoc, first)], ids, first);
    }
  }

  lemma BindBoth(sc1: Scope, ids: seq<int>, first: int)
    requires |ids| > 1
    ensures var k := |ids| - 1;
      BindParams(sc1, ids[1..], first + 1) == BindParams(sc1, ids[..k][1..], first + 1)[ids[k] := Sym(CLoc, first + k)]
  {
    hide BindParams;
    var k, tail := |ids| - 1, ids[1..];
    BindLast(sc1, tail, first + 1);
    assert ids[..k][1..] == tail[..k - 1];
    assert tail[k - 1] == ids[k];
  }

  lemma BindFirst(sc: Scope, ids: seq<int>, i: int)
    requires Distinct(ids) && ids != [] && forall x | x in ids :: !IsLocal(sc, x)
    ensures Distinct(ids[1..]) && forall x | x in ids[1..] :: !IsLocal(sc[ids[0] := Sym(CLoc, i)], x)
  {
    var tail := ids[1..];
    forall i, j | 0 <= i < j < |tail| ensures tail[i] != tail[j] {
      assert tail[i] == ids[i + 1] && tail[j] == ids[j + 1];
    }
    forall x | x in tail ensures !IsLocal(sc[ids[0] := Sym(CLoc, i)], x) {
      var j :| 0 <= j < |tail| && tail[j] == x;
      assert ids[j + 1] == x && x in ids;
    }
  }

  lemma BindNone(sc: Scope, i: int)
    ensures BindParams(sc, [], i) == sc
  {
  }

  lemma {:induction false} ParamsPrinted(sc: Scope, i: int, ids: seq<int>, k: seq<Token>)
    requires Distinct(ids) && forall x | x in ids :: !IsLocal(sc, x)
    ensures ParseParams(sc, i, PrintParams(ids, P(RPAREN) + k)) == Names(BindParams(sc, ids, i), i + |ids|, k)
    decreases |ids|
  {
    hide BindParams, Distinct, IsLocal;
    if ids == [] {
      BindNone(sc, i);
      assert (P(RPAREN) + k)[1..] == k;
    } else {
      BindFirst(sc, ids, i);
      var after := if |ids| == 1 then P(RPAREN) + k else P(COMMA) + PrintParams(ids[1..], P(RPAREN) + k);
      var toks := P(TK_INT) + (Name(ids[0]) + after);
      assert toks[1..] == Name(ids[0]) + after;
      assert (Name(ids[0]) + after)[1..] == after;
      assert (P(COMMA) + PrintParams(ids[1..], P(RPAREN) + k))[1..] == PrintParams(ids[1..], P(RPAREN) + k);
      assert |ids| == 1 ==> PrintParams(ids[1..], P(RPAREN) + k) == P(RPAREN) + k;
      ParamsPrinted(sc[ids[0] := Sym(CLoc, i)], i + 1, ids[1..], k);
      BindFront(sc, ids, i);
    }
  }

  /** One name and its semicolon. */
  lemma NamePrinted(sc: Scope, i: int, x: int, rest: seq<Token>)
    requires !IsLocal(sc, x)
    ensures ParseNames(sc, i, Name(x) + (P(SEMI) + rest)) == Names(sc[x := Sym(CLoc, i + 1)], i + 1, rest)
  {
    var toks := Name(x) + (P(SEMI) + rest);
    assert toks[1..] == P(SEMI) + rest;
    assert (P(SEMI) + rest)[1..] == rest;
  }

  lemma {:induction false} LocalsPrinted(sc: Scope, i: int, ids: seq<int>, k: seq<Token>)
    requires Distinct(ids) && (forall x | x in ids :: !IsLocal(sc, x)) && Tk(k) != TK_INT
    ensures ParseLocals(sc, i, PrintLocals(ids, k)) == Names(BindParams(sc, ids, i + 1), i + |ids|, k)
    decreases |ids|
  {
    hide BindParams, Distinct, IsLocal, ParseNames;
    if ids == [] {
      BindNone(sc, i + 1);
    } else {
      BindFirst(sc, ids, i + 1);
      var rest := PrintLocals(ids[1..], k);
      var named := Name(ids[0]) + (P(SEMI) + rest);
      assert (P(TK_INT) + named)[1..] == named;
      NamePrinted(sc, i, ids[0], rest);
      LocalsPrinted(sc[ids[0] := Sym(CLoc, i + 1)], i + 1, ids[1..], k);
      BindFront(sc, ids, i + 1);
    }
  }

  lemma BodyFirst(ss: Stmts, k: seq<Token>)
    ensures Tk(PrintStmts(ss, P(RBRACE) + k)) != TK_INT
  {
    if ss.SCons? {
      var rest := PrintStmts(ss.tail, P(RBRACE) + k);
      if ss.head.ExprStmt? {
        FirstToken(ss.head.e, P(SEMI) + rest);
      }
    }
  }

  /** A function definition parses to its prologue, its body in the scope of its own names, and `LEV`. */
  lemma FunPrinted(p: Program, base: int, code: seq<int>, f: FunDef, k: seq<Token>)
    requires (forall x | x in p.globals :: p.globals[x].cls != CLoc)
    requires Distinct(f.params + f.locals) && WfStmts(BodyScope(p, f), f.body)
    ensures
      ParseFun(p.globals, base, code, P(LPAREN) + PrintParams(f.params, P(RPAREN) + (P(LBRACE) + PrintBody(f, k))))
         == Ok(code + FunCode(p, f, base + |code|), k)
  {
    hide ParseParams, ParseLocals, ParseBlock, PrintParams, PrintLocals, PrintStmts, BindParams;
    DistinctParts(f.params, f.locals);
    var body := PrintBody(f, k);
    var toks := P(LPAREN) + PrintParams(f.params, P(RPAREN) + (P(LBRACE) + body));
    assert toks[1..] == PrintParams(f.params, P(RPAREN) + (P(LBRACE) + body));
    ParamsPrinted(p.globals, 0, f.params, P(LBRACE) + body);
    var sc := BindParams(p.globals, f.params, 0);
    assert (P(LBRACE) + body)[1..] == body;
    BodyFirst(f.body, k);
    var loc := |f.params| + 1;
    LocalsPrinted(sc, loc, f.locals, PrintStmts(f.body, P(RBRACE) + k));
    var c0 := code + [ENT, |f.locals|];
    BlockPrinted(Env(BodyScope(p, f), loc, base), f.body, c0, k);
    var w := StmtsCode(BodyScope(p, f), loc, f.body, base + |code| + 2);
    assert c0 + w + [LEV] == code + ([ENT, |f.locals|] + w + [LEV]);
  }

  ghost predicate NoLocals(g: Scope) { forall x | x in g :: g[x].cls != CLoc }

  lemma DeclPrinted(base: int, b: Built, d: Decl, k: seq<Token>)
    requires NoLocals(b.g) && WfDecl(base, b, d)
    ensures var b1 := Declare(base, b, d);
      NoLocals(b1.g) && ParseDeclarators(b.g, base, b.code, b.data, PrintDecl(d, k)[1..]) ==
        Globals(b1.g, b1.code, b1.data, k)
    ensures Tk(PrintDecl(d, k)) == TK_INT && PrintDecl(d, k) != []
  {
    hide ParseFun, FunCode, BodyScope, PrintParams, PrintBody;
    var toks := PrintDecl(d, k);
    if d.DVar? {
      assert toks[1..] == Name(d.x) + (P(SEMI) + k);
      assert toks[1..][1..] == P(SEMI) + k;
      assert (P(SEMI) + k)[1..] == k;
      var g1 := b.g[d.x := Sym(CGlo, b.data)];
      assert ParseDeclarators(g1, base, b.code, b.data + 1, P(SEMI) + k) == Globals(g1, b.code, b.data + 1, k);
    } else {
      var rest := P(LPAREN) + PrintParams(d.f.params, P(RPAREN) + (P(LBRACE) + PrintBody(d.f, k)));
      assert toks[1..] == Name(d.x) + rest;
      assert toks[1..][1..] == rest;
      FunPrinted(WithFun(base, b, d.x), base, b.code, d.f, k);
    }
  }

  /** The printed file is accepted, and gives the symbol table, the text and the data of `Build`. */
  lemma {:induction false} FilePrinted(base: int, b: Built, ds: seq<Decl>)
    requires NoLocals(b.g) && WfFile(base, b, ds)
    ensures var r := Build(base, b, ds);
      ParseFile(b.g, base, b.code, b.data, PrintFile(ds)) == Globals(r.g, r.code, r.data, [])
    decreases |ds|
  {
    hide ParseDeclarators, PrintDecl, Declare, WfDecl;
    if ds != [] {
      DeclPrinted(base, b, ds[0], PrintFile(ds[1..]));
      FilePrinted(base, Declare(base, b, ds[0]), ds[1..]);
    }
  }

  // ---------------------------------------------------------------- the world it makes

  ghost predicate Sub(g: Scope, h: Scope) { forall x | x in g :: x in h && h[x] == g[x] }

  lemma {:induction false} BindSub(g: Scope, h: Scope, ids: seq<int>, first: int)
    requires Sub(g, h)
    ensures Sub(BindParams(g, ids, first), BindParams(h, ids, first))
    decreases |ids|
  {
    if ids != [] {
      BindSub(g, h, ids[..|ids| - 1], first);
    }
  }

  lemma {:induction false} LvalSub(g: Scope, h: Scope, e: Expr)
    requires Sub(g, h) && IsLval(g, e)
    ensures IsLval(h, e) && LvalName(h, e) == LvalName(g, e) && h[LvalName(g, e)] == g[LvalName(g, e)]
    decreases e
  {
    if e.Paren? { LvalSub(g, h, e.inner); }
  }

  /** Code does not depend on names declared later. */
  lemma {:induction false} CodeSub(g: Scope, h: Scope, loc: int, e: Expr, at: int)
    requires Sub(g, h) && WfExpr(g, e)
    ensures WfExpr(h, e) && Code(h, loc, e, at) == Code(g, loc, e, at)
    decreases e, 1
  {
    hide Opcode, AddrCode, Sub, LvalName;
    if e.Var? || e.Call? { NameSub(g, h, e.x); }
    match e
    case Num(n) =>
    case Var(x) =>
    case Paren(i) => CodeSub(g, h, loc, i, at);
    case Assign(l, r) => LvalSub(g, h, l); CodeSub(g, h, loc, r, at + 3);
    case Cond(c, t, f) => CondSub(g, h, loc, e, at);
    case Lor(l, r) => PairSub(g, h, loc, e, at);
    case Lan(l, r) => PairSub(g, h, loc, e, at);
    case Bin(_, l, r) => PairSub(g, h, loc, e, at);
    case Not(i) => CodeSub(g, h, loc, i, at);
    case BitNot(i) => CodeSub(g, h, loc, i, at);
    case Plus(i) => CodeSub(g, h, loc, i, at);
    case Neg(i) => CodeSub(g, h, loc, i, at + 3);
    case PreStep(_, i) => LvalSub(g, h, i);
    case PostStep(_, i) => LvalSub(g, h, i);
    case Call(x, args) => ArgsSub(g, h, loc, args, at);
  }

  lemma NameSub(g: Scope, h: Scope, x: int)
    requires Sub(g, h) && x in g
    ensures x in h && h[x] == g[x]
  {
  }

  lemma UnfoldCond(g: Scope, loc: int, e: Expr, at: int)
    requires WfExpr(g, e) && e.Cond?
    ensures var c0 := Code(g, loc, e.c, at);
      var at1 := at + |c0| + 2;
      var c1 := Code(g, loc, e.t, at1);
      var at2 := at1 + |c1| + 2;
      var c2 := Code(g, loc, e.f, at2);
      Code(g, loc, e, at) == c0 + [BZ, at2] + c1 + [JMP, at2 + |c2|] + c2
  {
  }

  lemma UnfoldPair(g: Scope, loc: int, e: Expr, at: int)
    requires WfExpr(g, e) && (e.Lor? || e.Lan? || e.Bin?)
    ensures var c0 := Code(g, loc, e.l, at);
      var at1 := at + |c0| + (if e.Bin? then 1 else 2);
      var c1 := Code(g, loc, e.r, at1);
      Code(g, loc, e, at) ==
        if e.Bin? then c0 + [PSH] + c1 + [Opcode(e.op)] else c0 + [if e.Lor? then BNZ else BZ, at1 + |c1|] + c1
  {
  }

  lemma {:induction false} CondSub(g: Scope, h: Scope, loc: int, e: Expr, at: int)
    requires Sub(g, h) && WfExpr(g, e) && e.Cond?
    ensures WfExpr(h, e) && Code(h, loc, e, at) == Code(g, loc, e, at)
    decreases e, 0
  {
    hide Sub, Code;
    var c0 := Code(g, loc, e.c, at);
    var c1 := Code(g, loc, e.t, at + |c0| + 2);
    CodeSub(g, h, loc, e.c, at);
    CodeSub(g, h, loc, e.t, at + |c0| + 2);
    CodeSub(g, h, loc, e.f, at + |c0| + 2 + |c1| + 2);
    UnfoldCond(g, loc, e, at);
    UnfoldCond(h, loc, e, at);
  }

  lemma {:induction false} PairSub(g: Scope, h: Scope, loc: int, e: Expr, at: int)
    requires Sub(g, h) && WfExpr(g, e) && (e.Lor? || e.Lan? || e.Bin?)
    ensures WfExpr(h, e) && Code(h, loc, e, at) == Code(g, loc, e, at)
    decreases e, 0
  {
    hide Sub, Code, Opcode;
    var c0 := Code(g, loc, e.l, at);
    CodeSub(g, h, loc, e.l, at);
    CodeSub(g, h, loc, e.r, at + |c0| + (if e.Bin? then 1 else 2));
    UnfoldPair(g, loc, e, at);
    UnfoldPair(h, loc, e, at);
  }

  lemma {:induction false} ArgsSub(g: Scope, h: Scope, loc: int, args: Args, at: int)
    requires Sub(g, h) && WfArgs(g, args)
    ensures WfArgs(h, args) && ArgsCode(h, loc, args, at) == ArgsCode(g, loc, args, at)
    decreases args
  {
    if args.ACons? {
      CodeSub(g, h, loc, args.head, at);
      ArgsSub(g, h, loc, args.tail, at + |Code(g, loc, args.head, at)| + 1);
    }
  }

  lemma {:induction false} StmtSub(g: Scope, h: Scope, loc: int, s: Stmt, at: int)
    requires Sub(g, h) && WfStmt(g, s)
    ensures WfStmt(h, s) && StmtCode(h, loc, s, at) == StmtCode(g, loc, s, at)
    decreases s, 1
  {
    if s.If? { IfSub(g, h, loc, s, at); }
    else if s.IfElse? { IfElseSub(g, h, loc, s, at); }
    else if s.While? { WhileSub(g, h, loc, s, at); }
    else { PlainSub(g, h, loc, s, at); }
  }

  lemma {:induction false} PlainSub(g: Scope, h: Scope, loc: int, s: Stmt, at: int)
    requires Sub(g, h) && WfStmt(g, s) && !s.If? && !s.IfElse? && !s.While?
    ensures WfStmt(h, s) && StmtCode(h, loc, s, at) == StmtCode(g, loc, s, at)
    decreases s, 0
  {
    hide Code, WfExpr, Sub;
    match s
    case Return(e) => CodeSub(g, h, loc, e, at);
    case ReturnVoid =>
    case Block(ss) => StmtsSub(g, h, loc, ss, at);
    case Empty =>
    case ExprStmt(e) => CodeSub(g, h, loc, e, at);
  }

  lemma {:induction false} IfSub(g: Scope, h: Scope, loc: int, s: Stmt, at: int)
    requires Sub(g, h) && WfStmt(g, s) && s.If?
    ensures WfStmt(h, s) && StmtCode(h, loc, s, at) == StmtCode(g, loc, s, at)
    decreases s, 0
  {
    hide Code, WfExpr, Sub;
    CodeSub(g, h, loc, s.c, at);
    StmtSub(g, h, loc, s.t, at + |Code(g, loc, s.c, at)| + 2);
  }

  lemma {:induction false} WhileSub(g: Scope, h: Scope, loc: int, s: Stmt, at: int)
    requires Sub(g, h) && WfStmt(g, s) && s.While?
    ensures WfStmt(h, s) && StmtCode(h, loc, s, at) == StmtCode(g, loc, s, at)
    decreases s, 0
  {
    hide Code, WfExpr, Sub;
    CodeSub(g, h, loc, s.c, at);
    StmtSub(g, h, loc, s.body, at + |Code(g, loc, s.c, at)| + 2);
  }

  lemma {:induction false} IfElseSub(g: Scope, h: Scope, loc: int, s: Stmt, at: int)
    requires Sub(g, h) && WfStmt(g, s) && s.IfElse?
    ensures WfStmt(h, s) && StmtCode(h, loc, s, at) == StmtCode(g, loc, s, at)
    decreases s, 0
  {
    hide Code, WfExpr, Sub, WfStmt, StmtCode;
    IfElseParts(g, loc, s, at);
    CodeSub(g, h, loc, s.c, at);
    var at1 := at + |Code(g, loc, s.c, at)| + 2;
    StmtSub(g, h, loc, s.t, at1);
    StmtSub(g, h, loc, s.f, at1 + |StmtCode(g, loc, s.t, at1)| + 2);
    IfElseParts(h, loc, s, at);
  }

  /** An if/else statement by its parts. */
  lemma IfElseParts(g: Scope, loc: int, s: Stmt, at: int)
    requires s.IfElse?
    ensures WfStmt(g, s) <==> WfExpr(g, s.c) && WfStmt(g, s.t) && WfStmt(g, s.f) && !OpenIf(s.t)
    ensures WfStmt(g, s) ==>
      var c := Code(g, loc, s.c, at); var at1 := at + |c| + 2; var t := StmtCode(g, loc, s.t, at1);
        var at2 := at1 + |t| + 2;
      var f := StmtCode(g, loc, s.f, at2);
      StmtCode(g, loc, s, at) == c + [BZ, at2] + t + [JMP, at2 + |f|] + f
  {
    hide Code, WfExpr;
  }

  lemma {:induction false} StmtsSub(g: Scope, h: Scope, loc: int, ss: Stmts, at: int)
    requires Sub(g, h) && WfStmts(g, ss)
    ensures WfStmts(h, ss) && StmtsCode(h, loc, ss, at) == StmtsCode(g, loc, ss, at)
    decreases ss
  {
    if ss.SCons? {
      StmtSub(g, h, loc, ss.head, at);
      StmtsSub(g, h, loc, ss.tail, at + |StmtCode(g, loc, ss.head, at)|);
    }
  }

  lemma FunSub(p: Program, q: Program, f: FunDef, addr: int)
    requires Sub(p.globals, q.globals) && WfStmts(BodyScope(p, f), f.body)
    ensures WfStmts(BodyScope(q, f), f.body) && FunCode(q, f, addr) == FunCode(p, f, addr)
  {
    BindSub(p.globals, q.globals, f.params, 0);
    BindSub(BindParams(p.globals, f.params, 0), BindParams(q.globals, f.params, 0), f.locals, |f.params| + 2);
    StmtsSub(BodyScope(p, f), BodyScope(q, f), |f.params| + 1, f.body, addr + 2);
  }

  predicate Between(lo: int, hi: int, x: int) { lo <= x < hi }

  function Words(lo: int, hi: int): set<int> { set x | lo <= x < hi && Between(lo, hi, x) }

  /** The world as built so far: globals are the data words from `data0` on. */
  function WorldOf(base: int, top: int, data0: int, b: Built): World {
    World(Program(b.g, b.funs), base, b.code, top, Words(data0, b.data))
  }

  /** Text above the stack, and the data words after the text. */
  ghost predicate Placed(base: int, top: int, data0: int, b: Built, end: int) {
    top <= base && base + |b.code| <= end <= data0 <= b.data
  }

  lemma {:induction false} CodeGrows(base: int, b: Built, ds: seq<Decl>)
    requires WfFile(base, b, ds)
    ensures |b.code| <= |Build(base, b, ds).code|
    decreases |ds|
  {
    hide FunCode, WfDecl;
    if ds != [] {
      assert |b.code| <= |Declare(base, b, ds[0]).code|;
      CodeGrows(base, Declare(base, b, ds[0]), ds[1..]);
    }
  }

  lemma TextGrows(w: World, v: World, at: int, c: seq<int>)
    requires InText(w, at, c) && v.tbase == w.tbase && w.text <= v.text
    ensures InText(v, at, c)
  {
  }

  lemma NewFun(base: int, top: int, data0: int, b: Built, d: Decl)
    requires WfDecl(base, b, d) && d.DFun?
    ensures var w := WorldOf(base, top, data0, Declare(base, b, d)); FunOk(w, base + |b.code|, d.f)
  {
    hide BindParams, StmtsCode, WfStmts, Distinct;
    var b1 := Declare(base, b, d);
    var w := WorldOf(base, top, data0, b1);
    var c := FunCode(WithFun(base, b, d.x), d.f, base + |b.code|);
    assert b1.code == b.code + c;
    forall i | 0 <= i < |c| ensures w.text[|b.code| + i] == c[i] { }
  }

  lemma OldFun(base: int, top: int, data0: int, b: Built, d: Decl, addr: int, f: FunDef)
    requires WfDecl(base, b, d) && FunOk(WorldOf(base, top, data0, b), addr, f)
    ensures FunOk(WorldOf(base, top, data0, Declare(base, b, d)), addr, f)
  {
    hide BodyScope, StmtsCode, WfStmts, FunCode;
    var w, v := WorldOf(base, top, data0, b), WorldOf(base, top, data0, Declare(base, b, d));
    FunSub(w.p, v.p, f, addr);
    TextGrows(w, v, addr, FunCode(w.p, f, addr));
  }

  /** The next data word is nobody's yet. */
  lemma WordsGrow(base: int, top: int, data0: int, b: Built, d: Decl, end: int)
    requires WordsApart(WorldOf(base, top, data0, b)) && WfDecl(base, b, d)
    requires Placed(base, top, data0, b, end) && Placed(base, top, data0, Declare(base, b, d), end)
    ensures WordsApart(WorldOf(base, top, data0, Declare(base, b, d)))
  {
    hide FunCode, WfStmts, BodyScope;
    var w, v := WorldOf(base, top, data0, b), WorldOf(base, top, data0, Declare(base, b, d));
    forall x | IsGlo(v.p.globals, x)
      ensures v.p.globals[x].val in v.gaddrs && (x != d.x ==> IsGlo(w.p.globals, x) && v.p.globals[x].val < b.data)
    {
      assert x != d.x ==> IsGlo(w.p.globals, x) && w.p.globals[x].val in w.gaddrs;
    }
  }

  lemma WorldGrows(base: int, top: int, data0: int, b: Built, d: Decl, end: int)
    requires WorldOk(WorldOf(base, top, data0, b)) && WfDecl(base, b, d)
    requires Placed(base, top, data0, b, end) && Placed(base, top, data0, Declare(base, b, d), end)
    ensures WorldOk(WorldOf(base, top, data0, Declare(base, b, d)))
  {
    hide BodyScope, StmtsCode, WfStmts, FunCode, FunOk, WordsApart;
    var b1 := Declare(base, b, d);
    var v := WorldOf(base, top, data0, b1);
    WordsGrow(base, top, data0, b, d, end);
    forall x | x in v.p.funs
      ensures x in v.p.globals && v.p.globals[x].cls == CFun && FunOk(v, v.p.globals[x].val, v.p.funs[x])
    {
      if x == d.x {
        NewFun(base, top, data0, b, d);
      } else {
        OldFun(base, top, data0, b, d, b.g[x].val, b.funs[x]);
      }
    }
  }

  /** Every function finds its code, also after later declarations; every global has a data word of its own. */
  lemma {:induction false} BuildWorld(base: int, top: int, data0: int, b: Built, ds: seq<Decl>, end: int)
    requires WfFile(base, b, ds) && WorldOk(WorldOf(base, top, data0, b)) && NoLocals(b.g)
    requires top <= base && base + |Build(base, b, ds).code| <= end <= data0 <= b.data
    ensures WorldOk(WorldOf(base, top, data0, Build(base, b, ds)))
    decreases |ds|
  {
    hide WorldOk, WorldOf, WfDecl, FunCode;
    CodeGrows(base, b, ds);
    if ds != [] {
      var b1 := Declare(base, b, ds[0]);
      CodeGrows(base, b1, ds[1..]);
      WorldGrows(base, top, data0, b, ds[0], end);
      BuildWorld(base, top, data0, b1, ds[1..], end);
    }
  }

  // ---------------------------------------------------------------- end to end

  function Start0(data0: int): Built { Built(map[], [], data0, map[]) }

  /** Globals start at zero. */
  function Zeroed(g: Scope): map<int, int> { map x | x in GloNames(g) :: 0 }

  /** The text area as the parser filled it, everything else clear. */
  function Image(w: World): Memory {
    var area := Words(w.tbase, w.tbase + |w.text|);
    map x | x in area :: w.text[x - w.tbase]
  }

  lemma ImageOk(w: World, main: int, argc: int, argv: int)
    requires WorldOk(w) && IsMain(w.p, main) && Int32(argc) && Int32(argv)
    ensures Initial(w, main, argc, argv, Image(w), Zeroed(w.p.globals))
  {
    hide WorldOk, IsMain, Image;
    ImageText(w);
    forall x | x in GloNames(w.p.globals) ensures Get(Image(w), w.p.globals[x].val) == 0 { ImageData(w, x); }
  }

  lemma ImageText(w: World)
    ensures Loaded(w, Image(w))
  {
    forall i | 0 <= i < |w.text| ensures Get(Image(w), w.tbase + i) == w.text[i] { }
  }

  lemma ImageData(w: World, x: int)
    requires WorldOk(w) && x in GloNames(w.p.globals)
    ensures Get(Image(w), w.p.globals[x].val) == 0
  {
    hide FunOk;
    assert IsGlo(w.p.globals, x);
  }

  /** What `main` computes, by the evaluator alone. */
  function Result(p: Program, main: int, argc: int, argv: int, fuel: nat): Outcome {
    if IsMain(p, main) then Meaning(p, main, argc, argv, Zeroed(p.globals), fuel) else Fault
  }

  /** Soundness: whenever `main` returns a value within any fuel, the machine exits with it. */
  ghost predicate ExitsAsMain(w: World, main: int, argc: int, argv: int, a: int) {
    forall fuel: nat :: Result(w.p, main, argc, argv, fuel).Ret? && Result(w.p, main, argc, argv, fuel).v.Some?
      ==> Exits(w, main, argc, argv, a, Result(w.p, main, argc, argv, fuel).v.value)
  }

  /** Completeness: whenever the machine stops after `k` turns and `main` is free of undefined behaviour,
      `main` returns within fuel `k + 1`, and the exit status is the value it returned. */
  ghost predicate MainAsExit(w: World, main: int, argc: int, argv: int, a: int)
    requires main in w.p.globals
  {
    forall k: nat, u: State ::
      (Steps(Start(w, main, argc, argv, a, Image(w)), k, u) && !Step(u).Next? &&
        !Result(w.p, main, argc, argv, k + 1).Fault?)
      ==> Stopped(Result(w.p, main, argc, argv, k + 1), u)
  }

  ghost predicate Stopped(o: Outcome, u: State) {
    (o.Done? || o.Ret?) && Step(u).Exit? && (o.Ret? && o.v.Some? ==> Step(u).status == o.v.value)
  }

  ghost predicate Exits(w: World, main: int, argc: int, argv: int, a: int, v: int) {
    main in w.p.globals && exists n: nat, m: State ::
      Steps(Start(w, main, argc, argv, a, Image(w)), n, m) && Step(m) == Exit(v)
  }

  /** Every name of a frame and every global name has a word of its own. */
  ghost predicate NamesApart(w: World) {
    WordsApart(w) && forall x, bp | x in w.p.funs :: SlotsApart(w.p, w.p.funs[x], bp)
  }

  lemma WorldApart(w: World)
    requires WorldOk(w)
    ensures NamesApart(w)
  {
    hide WordsApart, SlotsApart, BodyScope, InText, WfStmts;
    forall x, bp | x in w.p.funs ensures SlotsApart(w.p, w.p.funs[x], bp) {
      assert FunOk(w, w.p.globals[x].val, w.p.funs[x]);
      BodyCx(w, w.p.funs[x]);
      FrameApart(w, w.p.funs[x], bp);
    }
  }

  /** For every well-formed program the parser accepts its tokens, different names get different words, and the machine
      started on what the parser emitted exits with a value exactly when `main` returns it. */
  lemma CompileAndRun(base: int, top: int, data0: int, ds: seq<Decl>, main: int, argc: int, argv: int, a: int)
    requires WfFile(base, Start0(data0), ds)
    requires top <= base && base + |Build(base, Start0(data0), ds).code| <= data0
    requires var b := Build(base, Start0(data0), ds); main in b.funs && |b.funs[main].params| <= 2
    requires Int32(argc) && Int32(argv)
    ensures var b := Build(base, Start0(data0), ds);
      ParseFile(map[], base, [], data0, PrintFile(ds)) == Globals(b.g, b.code, b.data, [])
    ensures var w := WorldOf(base, top, data0, Build(base, Start0(data0), ds));
      && IsMain(w.p, main) && NamesApart(w)
      && ExitsAsMain(w, main, argc, argv, a) && MainAsExit(w, main, argc, argv, a)
  {
    hide WorldOk, ParseFile, PrintFile, Build, WfFile, Steps, Step, Image, ExecAll, NamesApart, MainStore;
    var b0 := Start0(data0);
    FilePrinted(base, b0, ds);
    EmptyWorld(base, top, data0);
    BuildWorld(base, top, data0, b0, ds, data0);
    var w := WorldOf(base, top, data0, Build(base, b0, ds));
    WorldApart(w);
    MainOk(w, main);
    ImageOk(w, main, argc, argv);
    forall fuel: nat | Result(w.p, main, argc, argv, fuel).Ret? && Result(w.p, main, argc, argv, fuel).v.Some?
      ensures Exits(w, main, argc, argv, a, Result(w.p, main, argc, argv, fuel).v.value)
    {
      var n, m := ProgramExits(w, main, argc, argv, a, Image(w), Zeroed(w.p.globals), fuel);
      ExitKnown(w, main, argc, argv, a, n, m);
    }
    forall k: nat, u: State | Steps(Start(w, main, argc, argv, a, Image(w)), k, u) && !Step(u).Next?
        && !Result(w.p, main, argc, argv, k + 1).Fault?
      ensures Stopped(Result(w.p, main, argc, argv, k + 1), u)
    {
      ProgramReturns(w, main, argc, argv, a, Image(w), Zeroed(w.p.globals), k, u);
    }
  }

  lemma ExitKnown(w: World, main: int, argc: int, argv: int, a: int, n: nat, m: State)
    requires main in w.p.globals && Steps(Start(w, main, argc, argv, a, Image(w)), n, m) && Step(m).Exit?
    ensures Exits(w, main, argc, argv, a, Step(m).status)
  {
  }

  lemma MainOk(w: World, main: int)
    requires WorldOk(w) && main in w.p.funs && |w.p.funs[main].params| <= 2
    ensures IsMain(w.p, main)
  {
  }

  lemma EmptyWorld(base: int, top: int, data0: int)
    requires top <= base
    ensures WorldOk(WorldOf(base, top, data0, Start0(data0)))
  {
  }
}
