/** What the parser makes of operators without parentheses, against C's table of operators. The levels the parser
    and the printer work with do not occur in the statements. */
module C4Precedence {
  import opened C4Syntax
  import opened C4Parser
  import opened C4PrintParse

  datatype Infix = OrElse | AndAlso | Op(op: BinOp)

  /** The classes of C's left-associative binary operators, loosest first (section 6.5 of ISO/IEC 9899). */
  function Rank(o: Infix): nat {
    match o
    case OrElse => 1
    case AndAlso => 2
    case Op(Or) => 3
    case Op(Xor) => 4
    case Op(And) => 5
    case Op(Eq) => 6 case Op(Ne) => 6
    case Op(Lt) => 7 case Op(Gt) => 7 case Op(Le) => 7 case Op(Ge) => 7
    case Op(Shl) => 8 case Op(Shr) => 8
    case Op(Add) => 9 case Op(Sub) => 9
    case Op(Mul) => 10 case Op(Div) => 10 case Op(Mod) => 10
  }

  /** The token the lexer makes of the operator. */
  function Sign(o: Infix): int {
    match o
    case OrElse => TK_LOR
    case AndAlso => TK_LAN
    case Op(Or) => TK_OR
    case Op(Xor) => TK_XOR
    case Op(And) => TK_AND
    case Op(Eq) => TK_EQ case Op(Ne) => TK_NE
    case Op(Lt) => TK_LT case Op(Gt) => TK_GT case Op(Le) => TK_LE case Op(Ge) => TK_GE
    case Op(Shl) => TK_SHL case Op(Shr) => TK_SHR
    case Op(Add) => TK_ADD case Op(Sub) => TK_SUB
    case Op(Mul) => TK_MUL case Op(Div) => TK_DIV case Op(Mod) => TK_MOD
  }

  function Join(o: Infix, l: Expr, r: Expr): Expr {
    match o
    case OrElse => Lor(l, r)
    case AndAlso => Lan(l, r)
    case Op(op) => Bin(op, l, r)
  }

  /** Names, numbers, calls, parentheses, and the unary operators applied to such. */
  predicate Tight(e: Expr) {
    !e.Assign? && !e.Cond? && !e.Lor? && !e.Lan? && !e.Bin?
  }

  /** Operands with operators between them, and no parentheses added. */
  predicate Chain(env: Env, xs: seq<Expr>, os: seq<Infix>) {
    |xs| == |os| + 1 && forall x | x in xs :: WfExpr(env.sc, x) && Tight(x)
  }

  /** x0 o0 x1 o1 .. xn, then `k`. */
  function Flat(xs: seq<Expr>, os: seq<Infix>, k: seq<Token>): seq<Token>
    requires |xs| == |os| + 1
    decreases |os|
  {
    Print(xs[0], if os == [] then k else P(Sign(os[0])) + Flat(xs[1..], os[1..], k))
  }

  /** No operator binds looser, and none behind it as loose. */
  predicate IsRoot(os: seq<Infix>, i: int) {
    && 0 <= i < |os|
    && (forall j | 0 <= j < |os| :: Rank(os[i]) <= Rank(os[j]))
    && (forall j | i < j < |os| :: Rank(os[i]) < Rank(os[j]))
  }

  function Root(os: seq<Infix>): (i: nat)
    requires os != []
    ensures IsRoot(os, i)
  {
    var n := |os| - 1;
    if n == 0 then 0
    else
      var i := Root(os[..n]);
      assert forall j | 0 <= j < n :: os[..n][j] == os[j];
      if Rank(os[n]) <= Rank(os[i]) then n else i
  }

  lemma OneRoot(os: seq<Infix>, i: int)
    requires IsRoot(os, i)
    ensures Root(os) == i
  {
    assert IsRoot(os, Root(os));
    assert Rank(os[i]) <= Rank(os[Root(os)]) && Rank(os[Root(os)]) <= Rank(os[i]);
  }

  /** The tree C gives such a chain: the last of the loosest operators on top. */
  function Group(xs: seq<Expr>, os: seq<Infix>): Expr
    requires |xs| == |os| + 1
    decreases |os|
  {
    if os == [] then xs[0]
    else
      var i := Root(os);
      Join(os[i], Group(xs[..i + 1], os[..i]), Group(xs[i + 1..], os[i + 1..]))
  }

  // ---------------------------------------------------------------- the tree prints to the chain

  lemma {:induction false} FlatSplit(xs: seq<Expr>, os: seq<Infix>, i: nat, k: seq<Token>)
    requires |xs| == |os| + 1 && i < |os|
    ensures Flat(xs, os, k) == Flat(xs[..i + 1], os[..i], P(Sign(os[i])) + Flat(xs[i + 1..], os[i + 1..], k))
    decreases |os|
  {
    hide Print, Sign;
    if i > 0 {
      FlatSplit(xs[1..], os[1..], i - 1, k);
      assert xs[1..][..i] == xs[..i + 1][1..] && os[1..][..i - 1] == os[..i][1..];
      assert xs[1..][i..] == xs[i + 1..] && os[1..][i..] == os[i + 1..] && os[1..][i - 1] == os[i];
    }
  }

  /** Where the printer would put the operands of `o`. */
  function LeftAt(o: Infix): int {
    match o
    case OrElse => TK_LOR
    case AndAlso => TK_LAN
    case Op(op) => OpLevel(op)
  }

  function RightAt(o: Infix): int {
    match o
    case OrElse => TK_LAN
    case AndAlso => TK_OR
    case Op(op) => TighterLevel(op)
  }

  /** The printer's levels fit the table. */
  lemma Fits(o: Infix, p: Infix)
    ensures Rank(o) <= Rank(p) ==> LeftAt(p) >= LeftAt(o)
    ensures Rank(o) < Rank(p) ==> LeftAt(p) >= RightAt(o)
    ensures TK_LOR <= LeftAt(o) <= TK_MUL && RightAt(o) <= TK_INC
  {
  }

  lemma JoinLevel(o: Infix, l: Expr, r: Expr)
    ensures Level(Join(o, l, r)) == LeftAt(o)
  {
    hide OpLevel;
    match o case OrElse => case AndAlso => case Op(op) =>
  }

  lemma JoinPrints(o: Infix, l: Expr, r: Expr, k: seq<Token>)
    ensures Print(Join(o, l, r), k) == PrintAt(l, LeftAt(o), P(Sign(o)) + PrintAt(r, RightAt(o), k))
  {
    hide PrintAt, OpLevel, TighterLevel, Print;
    match o
    case OrElse => PrintsLor(l, r, k);
    case AndAlso => PrintsLan(l, r, k);
    case Op(op) => PrintsBin(op, l, r, k); SignIs(op);
  }

  lemma SignIs(op: BinOp)
    ensures Sign(Op(op)) == OpToken(op)
  {
  }

  lemma PrintsLor(l: Expr, r: Expr, k: seq<Token>)
    ensures Print(Lor(l, r), k) == PrintAt(l, TK_LOR, P(TK_LOR) + PrintAt(r, TK_LAN, k))
  {
  }

  lemma PrintsLan(l: Expr, r: Expr, k: seq<Token>)
    ensures Print(Lan(l, r), k) == PrintAt(l, TK_LAN, P(TK_LAN) + PrintAt(r, TK_OR, k))
  {
  }

  lemma PrintsBin(op: BinOp, l: Expr, r: Expr, k: seq<Token>)
    ensures Print(Bin(op, l, r), k) == PrintAt(l, OpLevel(op), P(OpToken(op)) + PrintAt(r, TighterLevel(op), k))
  {
    hide OpLevel, OpToken, TighterLevel;
  }

  lemma NoParentheses(e: Expr, at: int, k: seq<Token>)
    requires Level(e) >= at
    ensures PrintAt(e, at, k) == Print(e, k)
  {
    hide Print, Level;
  }

  lemma GroupParts(env: Env, xs: seq<Expr>, os: seq<Infix>)
    requires Chain(env, xs, os) && os != []
    ensures var i := Root(os); Chain(env, xs[..i + 1], os[..i]) && Chain(env, xs[i + 1..], os[i + 1..])
  {
  }

  /** A chain's tree is as loose as its loosest operator. */
  lemma GroupLevel(env: Env, xs: seq<Expr>, os: seq<Infix>, o: Infix)
    requires Chain(env, xs, os)
    ensures (forall p | p in os :: Rank(o) <= Rank(p)) ==> Level(Group(xs, os)) >= LeftAt(o)
    ensures (forall p | p in os :: Rank(o) < Rank(p)) ==> Level(Group(xs, os)) >= RightAt(o)
  {
    hide Rank, Root, RightAt, LeftAt, Level, Join, Tight;
    Fits(o, o);
    if os == [] {
      TightLevel(xs[0]);
    } else {
      var i := Root(os);
      var l, r := Group(xs[..i + 1], os[..i]), Group(xs[i + 1..], os[i + 1..]);
      Fits(o, os[i]);
      JoinLevel(os[i], l, r);
      assert os[i] in os;
    }
  }

  lemma TightLevel(e: Expr)
    requires Tight(e)
    ensures Level(e) >= TK_INC
  {
  }

  lemma {:induction false} GroupPrints(env: Env, xs: seq<Expr>, os: seq<Infix>, k: seq<Token>)
    requires Chain(env, xs, os)
    ensures WfExpr(env.sc, Group(xs, os)) && Print(Group(xs, os), k) == Flat(xs, os, k)
    decreases |os|
  {
    hide Print, PrintAt, Root, Rank, Sign, Level, LeftAt, RightAt, Tight, Flat, Join, WfExpr;
    if os == [] {
      Alone(env, xs, k);
    } else {
      var i := Root(os);
      GroupParts(env, xs, os);
      var l, r := Group(xs[..i + 1], os[..i]), Group(xs[i + 1..], os[i + 1..]);
      var rest := P(Sign(os[i])) + Flat(xs[i + 1..], os[i + 1..], k);
      GroupPrints(env, xs[..i + 1], os[..i], rest);
      GroupPrints(env, xs[i + 1..], os[i + 1..], k);
      FlatSplit(xs, os, i, k);
      Sides(os);
      GroupLevel(env, xs[..i + 1], os[..i], os[i]);
      GroupLevel(env, xs[i + 1..], os[i + 1..], os[i]);
      NoParentheses(l, LeftAt(os[i]), rest);
      NoParentheses(r, RightAt(os[i]), k);
      JoinPrints(os[i], l, r, k);
      JoinWf(env, os[i], l, r);
    }
  }

  lemma Alone(env: Env, xs: seq<Expr>, k: seq<Token>)
    requires Chain(env, xs, [])
    ensures WfExpr(env.sc, xs[0]) && Flat(xs, [], k) == Print(xs[0], k)
  {
    hide Print, Tight;
  }

  lemma JoinWf(env: Env, o: Infix, l: Expr, r: Expr)
    requires WfExpr(env.sc, l) && WfExpr(env.sc, r)
    ensures WfExpr(env.sc, Join(o, l, r))
  {
    match o case OrElse => case AndAlso => case Op(op) =>
  }

  lemma Sides(os: seq<Infix>)
    requires os != []
    ensures var i := Root(os);
      && (forall p | p in os[..i] :: Rank(os[i]) <= Rank(p))
      && (forall p | p in os[i + 1..] :: Rank(os[i]) < Rank(p))
  {
    hide Rank, Root;
  }

  // ---------------------------------------------------------------- theorems

  /** Operands and binary operators in any number, without parentheses, parse to the tree of C's table: whatever
      follows, as long as it is looser than `||` (an operator `?` or `=`, or the end of the expression). */
  lemma ChainParsed(env: Env, lev: int, xs: seq<Expr>, os: seq<Infix>, code: seq<int>, k: seq<Token>)
    requires Chain(env, xs, os) && lev <= TK_LOR && Tk(k) < TK_LOR && Tk(k) != LPAREN
    ensures WfExpr(env.sc, Group(xs, os))
    ensures ParseExpr(env, lev, code, Flat(xs, os, k)) == ParseLoop(env, lev, C(env, Group(xs, os), code), k)
    ensures Tk(k) < lev ==> ParseExpr(env, lev, code, Flat(xs, os, k)) == Ok(C(env, Group(xs, os), code), k)
  {
    hide ParseExpr, ParseLoop, Print, Group, Flat, Rank, Code, C;
    GroupPrints(env, xs, os, k);
    LoosestIsOr(env, xs, os);
    ParsePrinted(env, lev, Group(xs, os), code, k);
    if Tk(k) < lev { Stops(env, lev, C(env, Group(xs, os), code), k); }
  }

  lemma LoosestIsOr(env: Env, xs: seq<Expr>, os: seq<Infix>)
    requires Chain(env, xs, os)
    ensures Level(Group(xs, os)) >= TK_LOR
  {
    hide Root, Group;
    GroupLevel(env, xs, os, OrElse);
    assert forall p | p in os :: Rank(OrElse) <= Rank(p);
  }

  /** Two operators: the tighter one binds first, and of two as tight the left one does. */
  lemma TwoOperators(env: Env, a: Expr, o1: Infix, b: Expr, o2: Infix, c: Expr, code: seq<int>, k: seq<Token>)
    requires (forall x | x in [a, b, c] :: WfExpr(env.sc, x) && Tight(x)) && Tk(k) < TK_ASSIGN && Tk(k) != LPAREN
    ensures var e := if Rank(o2) > Rank(o1) then Join(o1, a, Join(o2, b, c)) else Join(o2, Join(o1, a, b), c);
      && WfExpr(env.sc, e)
      && ParseExpr(env, TK_ASSIGN, code, Print(a, P(Sign(o1)) + Print(b, P(Sign(o2)) + Print(c, k)))) ==
         Ok(C(env, e, code), k)
  {
    hide ParseExpr, ParseLoop, Print, Rank, Sign, Code, Root;
    var xs, os := [a, b, c], [o1, o2];
    ChainParsed(env, TK_ASSIGN, xs, os, code, k);
    var i := if Rank(o2) > Rank(o1) then 0 else 1;
    OneRoot(os, i);
    assert xs[1..] == [b, c] && os[1..] == [o2] && xs[2..] == [c] && os[2..] == [] && xs[..1] == [a] && os[..0] == [];
    assert xs[..2] == [a, b] && os[..1] == [o1];
    OneOperator(a, o1, b, P(Sign(o2)) + Print(c, k));
    OneOperator(b, o2, c, k);
  }

  lemma OneOperator(a: Expr, o: Infix, b: Expr, k: seq<Token>)
    ensures Group([a, b], [o]) == Join(o, a, b)
    ensures Flat([a, b], [o], k) == Print(a, P(Sign(o)) + Print(b, k))
  {
    hide Print, Sign, Rank, Root;
    OneRoot([o], 0);
    assert [a, b][..1] == [a] && [a, b][1..] == [b] && [o][..0] == [] && [o][1..] == [];
  }

  /** `?:` is looser than every binary operator and groups to the right. */
  lemma TernaryParsed(env: Env, xs: seq<Expr>, os: seq<Infix>, t: Expr, ys: seq<Expr>, ps: seq<Infix>, f: Expr,
      code: seq<int>, k: seq<Token>)
    requires Chain(env, xs, os) && Chain(env, ys, ps) && WfExpr(env.sc, t) && Tk(k) < TK_ASSIGN && Tk(k) != LPAREN
    requires f == Group(ys, ps) || (f.Cond? && WfExpr(env.sc, f))
    ensures WfExpr(env.sc, Cond(Group(xs, os), t, f))
    ensures var rest := if f == Group(ys, ps) then Flat(ys, ps, k) else Print(f, k);
      ParseExpr(env, TK_ASSIGN, code, Flat(xs, os, P(TK_COND) + Print(t, P(COLON) + rest)))
        == Ok(C(env, Cond(Group(xs, os), t, f), code), k)
  {
    hide ParseExpr, ParseLoop, Group, Flat, Rank, Code, C;
    var c := Group(xs, os);
    var rest := if f == Group(ys, ps) then Flat(ys, ps, k) else Print(f, k);
    GroupPrints(env, xs, os, P(TK_COND) + Print(t, P(COLON) + rest));
    GroupPrints(env, ys, ps, k);
    LoosestIsOr(env, xs, os);
    LoosestIsOr(env, ys, ps);
    TernaryPrints(c, t, f, k);
    ExprDone(env, Cond(c, t, f), code, k);
  }

  lemma TernaryPrints(c: Expr, t: Expr, f: Expr, k: seq<Token>)
    requires Level(c) >= TK_LOR && Level(f) >= TK_COND
    ensures Print(Cond(c, t, f), k) == Print(c, P(TK_COND) + Print(t, P(COLON) + Print(f, k)))
  {
  }

  /** `=` is the loosest operator and takes everything on its right. */
  lemma AssignParsed(env: Env, x: int, xs: seq<Expr>, os: seq<Infix>, code: seq<int>, k: seq<Token>)
    requires IsLval(env.sc, Var(x)) && Chain(env, xs, os) && Tk(k) < TK_ASSIGN && Tk(k) != LPAREN
    ensures WfExpr(env.sc, Assign(Var(x), Group(xs, os)))
    ensures ParseExpr(env, TK_ASSIGN, code, [Token(TK_ID, 0, x)] + (P(TK_ASSIGN) + Flat(xs, os, k)))
      == Ok(C(env, Assign(Var(x), Group(xs, os)), code), k)
  {
    hide ParseExpr, ParseLoop, Group, Flat, Rank, Code, C;
    GroupPrints(env, xs, os, k);
    ExprDone(env, Assign(Var(x), Group(xs, os)), code, k);
  }

  /** Operands of a chain are what one would write: a unary operator goes right in front of its operand, or behind. */
  lemma UnaryText(i: Expr, up: bool, k: seq<Token>)
    requires Tight(i)
    ensures Print(Not(i), k) == P(BANG) + Print(i, k) && Print(BitNot(i), k) == P(TILDE) + Print(i, k)
    ensures Print(Neg(i), k) == P(TK_SUB) + Print(i, k) && Print(Plus(i), k) == P(TK_ADD) + Print(i, k)
    ensures Print(PreStep(up, i), k) == P(if up then TK_INC else TK_DEC) + Print(i, k)
    ensures Print(PostStep(up, i), k) == Print(i, P(if up then TK_INC else TK_DEC) + k)
  {
    TightLevel(i);
  }
}
