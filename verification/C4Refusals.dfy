/** What the compiler refuses: names declared twice or not at all, and missing punctuation. */
module C4Refusals {
  import opened C4Syntax
  import opened C4Semantics
  import opened C4Parser
  import opened C4PrintParse
  import opened C4Declarations
  import opened C4Whole

  // ---------------------------------------------------------------- declarations

  /** No name occurs twice, and none is declared in the function already. */
  predicate New(sc: Scope, ids: seq<int>) { Distinct(ids) && forall x | x in ids :: !IsLocal(sc, x) }

  lemma NewTail(sc: Scope, ids: seq<int>, i: int)
    requires ids != []
    ensures New(sc, ids) <==> !IsLocal(sc, ids[0]) && New(sc[ids[0] := Sym(CLoc, i)], ids[1..])
  {
    var sc1, tail := sc[ids[0] := Sym(CLoc, i)], ids[1..];
    assert ids == [ids[0]] + tail;
    if New(sc1, tail) && !IsLocal(sc, ids[0]) {
      forall a, b | 0 <= a < b < |ids| ensures ids[a] != ids[b] {
        assert ids[b] == tail[b - 1] && !IsLocal(sc1, tail[b - 1]);
        if a > 0 { assert ids[a] == tail[a - 1]; }
      }
      forall x | x in ids ensures !IsLocal(sc, x) { assert x == ids[0] || x in tail; }
    }
    if New(sc, ids) {
      forall a, b | 0 <= a < b < |tail| ensures tail[a] != tail[b] {
        assert tail[a] == ids[a + 1] && tail[b] == ids[b + 1];
      }
      forall x | x in tail ensures !IsLocal(sc1, x) {
        var a :| 0 <= a < |tail| && tail[a] == x;
        assert ids[a + 1] == x && x in ids;
      }
    }
  }

  /** A parameter list is accepted iff no name in it is there already. */
  lemma {:induction false} ParamsAccepted(sc: Scope, i: int, ids: seq<int>, k: seq<Token>)
    ensures ParseParams(sc, i, PrintParams(ids, P(RPAREN) + k)).Names? <==> New(sc, ids)
    decreases |ids|
  {
    hide New, IsLocal;
    if ids == [] {
      NothingNew(sc);
      assert (P(RPAREN) + k)[1..] == k;
    } else {
      NewTail(sc, ids, i);
      var more := PrintParams(ids[1..], P(RPAREN) + k);
      var after := if |ids| == 1 then P(RPAREN) + k else P(COMMA) + more;
      assert |ids| == 1 ==> more == P(RPAREN) + k;
      var named := Name(ids[0]) + after;
      assert (P(TK_INT) + named)[1..] == named && named[1..] == after && (P(COMMA) + more)[1..] == more;
      ParamsAccepted(sc[ids[0] := Sym(CLoc, i)], i + 1, ids[1..], k);
    }
  }

  lemma NothingNew(sc: Scope)
    ensures New(sc, [])
  {
  }

  /** Local declarations are accepted iff no name in them is there already, a parameter's included. */
  lemma {:induction false} LocalsAccepted(sc: Scope, i: int, ids: seq<int>, k: seq<Token>)
    requires Tk(k) != TK_INT
    ensures ParseLocals(sc, i, PrintLocals(ids, k)).Names? <==> New(sc, ids)
    decreases |ids|
  {
    hide New, IsLocal, ParseNames;
    if ids == [] {
      NothingNew(sc);
    } else {
      NewTail(sc, ids, i + 1);
      var rest := PrintLocals(ids[1..], k);
      var named := Name(ids[0]) + (P(SEMI) + rest);
      assert (P(TK_INT) + named)[1..] == named;
      NamesStop(sc, i, ids[0], P(SEMI) + rest);
      if !IsLocal(sc, ids[0]) { NamePrinted(sc, i, ids[0], rest); }
      LocalsAccepted(sc[ids[0] := Sym(CLoc, i + 1)], i + 1, ids[1..], k);
    }
  }

  lemma NamesStop(sc: Scope, i: int, x: int, rest: seq<Token>)
    ensures IsLocal(sc, x) ==> ParseNames(sc, i, Name(x) + rest) == NStop
  {
  }

  /** A global name that is taken, by a global or by a function, is refused. */
  lemma TakenRefused(g: Scope, base: int, code: seq<int>, data: int, x: int, rest: seq<Token>)
    requires x in g
    ensures ParseDeclarators(g, base, code, data, Name(x) + rest).GStop?
  {
  }

  // ---------------------------------------------------------------- expressions

  /** A name that stands for no value is refused, and a call of anything but a function. */
  lemma NameRefused(env: Env, lev: int, x: int, args: Args, code: seq<int>, k: seq<Token>)
    requires WfArgs(env.sc, args)
    ensures (x !in env.sc || env.sc[x].cls == CFun) && Tk(k) != LPAREN ==>
      ParseExpr(env, lev, code, [Token(TK_ID, 0, x)] + k).Stop?
    ensures x !in env.sc || env.sc[x].cls != CFun ==>
      ParseExpr(env, lev, code, [Token(TK_ID, 0, x)] + (P(LPAREN) + PrintArgs(args, P(RPAREN) + k))).Stop?
  {
    hide ParseLoop, ParseArgs, PrintArgs;
    var call := P(LPAREN) + PrintArgs(args, P(RPAREN) + k);
    assert ([Token(TK_ID, 0, x)] + call)[1..] == call && ([Token(TK_ID, 0, x)] + k)[1..] == k;
  }

  /** Between the second and the third operand of `?:` there has to be a colon. */
  lemma ColonNeeded(env: Env, c: Expr, t: Expr, code: seq<int>, k: seq<Token>)
    requires WfExpr(env.sc, c) && Level(c) >= TK_LOR && WfExpr(env.sc, t) && Tk(k) < TK_ASSIGN && Tk(k) != LPAREN
    requires Tk(k) != COLON
    ensures ParseExpr(env, TK_ASSIGN, code, Print(c, P(TK_COND) + Print(t, k))).Stop?
  {
    hide ParseExpr, ParseLoop, Print, Code, C, Level, WfExpr;
    EdgeOf(c);
    ParsePrinted(env, TK_ASSIGN, c, code, P(TK_COND) + Print(t, k));
    ExprDone(env, t, C(env, c, code) + [BZ, 0], k);
    assert (P(TK_COND) + Print(t, k))[1..] == Print(t, k);
    LoopColon(env, C(env, c, code), P(TK_COND) + Print(t, k), C(env, t, C(env, c, code) + [BZ, 0]), k);
  }

  lemma EdgeOf(c: Expr)
    requires Level(c) >= TK_LOR
    ensures RightEdge(c) > TK_COND && TK_ASSIGN <= Level(c)
  {
  }

  lemma LoopColon(env: Env, code: seq<int>, toks: seq<Token>, d: seq<int>, k: seq<Token>)
    requires Tk(toks) == TK_COND && ParseExpr(env, TK_ASSIGN, code + [BZ, 0], toks[1..]) == Ok(d, k) && Tk(k) != COLON
    ensures ParseLoop(env, TK_ASSIGN, code, toks).Stop?
  {
    hide ParseExpr;
  }

  /** An opened parenthesis has to be closed. */
  lemma ParenNeeded(env: Env, lev: int, e: Expr, code: seq<int>, k: seq<Token>)
    requires WfExpr(env.sc, e) && Tk(k) < TK_ASSIGN && Tk(k) != LPAREN && Tk(k) != RPAREN
    ensures ParseExpr(env, lev, code, P(LPAREN) + Print(e, k)).Stop?
  {
    hide ParseLoop, Print, Code, C, WfExpr;
    var toks := P(LPAREN) + Print(e, k);
    assert toks[1..] == Print(e, k);
    ExprDone(env, e, code, k);
    PrefixOpen(env, code, toks, C(env, e, code), k);
  }

  lemma PrefixOpen(env: Env, code: seq<int>, toks: seq<Token>, d: seq<int>, k: seq<Token>)
    requires Tk(toks) == LPAREN && ParseExpr(env, TK_ASSIGN, code, toks[1..]) == Ok(d, k) && Tk(k) != RPAREN
    ensures ParsePrefix(env, code, toks).Stop?
  {
    hide ParseExpr;
  }

  // ---------------------------------------------------------------- statements

  /** An expression statement and a `return` end in a semicolon. */
  lemma SemicolonNeeded(env: Env, e: Expr, code: seq<int>, k: seq<Token>)
    requires WfExpr(env.sc, e) && Tk(k) < TK_ASSIGN && Tk(k) != LPAREN && Tk(k) != SEMI
    ensures ParseStmt(env, code, Print(e, k)).Stop? && ParseStmt(env, code, P(TK_RETURN) + Print(e, k)).Stop?
  {
    hide ParseExpr, ParseTest, ParseBlock, Print, Code, C, WfExpr;
    ExprDone(env, e, code, k);
    assert (P(TK_RETURN) + Print(e, k))[1..] == Print(e, k);
  }

  /** The test of `if` and of `while` stands in parentheses. */
  lemma TestNeeded(env: Env, e: Expr, code: seq<int>, k: seq<Token>, rest: seq<Token>)
    requires WfExpr(env.sc, e) && Tk(k) < TK_ASSIGN && Tk(k) != LPAREN && Tk(k) != RPAREN && Tk(rest) != LPAREN
    ensures forall tk | tk == TK_IF || tk == TK_WHILE ::
      && ParseStmt(env, code, P(tk) + rest).Stop?
      && ParseStmt(env, code, P(tk) + (P(LPAREN) + Print(e, k))).Stop?
  {
    hide ParseExpr, ParseBlock, Print, Code, C, WfExpr;
    ExprDone(env, e, code, k);
    var open := P(LPAREN) + Print(e, k);
    assert open[1..] == Print(e, k);
    assert ParseTest(env, code, open).Stop? && ParseTest(env, code, rest).Stop?;
    assert (P(TK_IF) + open)[1..] == open && (P(TK_WHILE) + open)[1..] == open;
    assert (P(TK_IF) + rest)[1..] == rest && (P(TK_WHILE) + rest)[1..] == rest;
  }
}
