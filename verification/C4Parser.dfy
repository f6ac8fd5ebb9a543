/** `expr` and `stmt` of user/c4.c: precedence climbing that emits code while it parses.
    The code buffer is a sequence of words; word i has address base + i. */
module C4Parser {
  import opened Common
  import opened C4Syntax

  /** What stays fixed while a function body is parsed. */
  datatype Env = Env(sc: Scope, loc: int, base: int)

  /** Emitted code and remaining tokens; or the parser gave up, either with one of the source's
      error exits or on a construct outside the int subset (pointers, char, strings, casts, library calls). */
  datatype Parse = Ok(code: seq<int>, toks: seq<Token>) | Stop

  function Tk(toks: seq<Token>): int { if toks == [] then 0 else toks[0].tk }

  function Last(code: seq<int>): int { if code == [] then 0 else code[|code| - 1] }

  /** Overwrite the most recent word. */
  function Relast(code: seq<int>, w: int): (r: seq<int>)
    ensures |r| == |code|
  {
    if code == [] then [] else code[|code| - 1 := w]
  }

  function Patch(code: seq<int>, d: int, w: int): (r: seq<int>)
    ensures |r| == |code|
  {
    if 0 <= d < |code| then code[d := w] else code
  }

  /** Binary operators by token, and the level at which their right operand is parsed. */
  predicate IsBinary(tk: int) { TK_OR <= tk <= TK_MOD }

  function RightLevel(tk: int): int
    requires IsBinary(tk)
  {
    if tk == TK_OR then TK_XOR else if tk == TK_XOR then TK_AND else if tk == TK_AND then TK_EQ
    else if tk < TK_LT then TK_LT else if tk < TK_SHL then TK_SHL else if tk < TK_ADD then TK_ADD
    else if tk < TK_MUL then TK_MUL else TK_INC
  }

  /** The words a variable or constant emits; None for an undeclared name or a function. */
  function NameCode(env: Env, x: int): Option<seq<int>> {
    if x !in env.sc then None
    else
      var y := env.sc[x];
      match y.cls
      case CNum => Some([IMM, y.val])
      case CLoc => Some([LEA, env.loc - y.val, LI])
      case CGlo => Some([IMM, y.val, LI])
      case CFun => None
  }

  /** `++`/`--` turn the last load into a push and a load, add or subtract, and store. */
  function StepTail(code: seq<int>, up: bool): Option<seq<int>> {
    if Last(code) == LI || Last(code) == LC then
      Some(Relast(code, PSH) + [Last(code), PSH, IMM, 1, Opcode(if up then Add else Sub), SI])
    else None
  }

  function ParseExpr(env: Env, lev: int, code: seq<int>, toks: seq<Token>): (r: Parse)
    ensures r.Ok? ==> |r.toks| < |toks|
    decreases |toks|, 2
  {
    var r := ParsePrefix(env, code, toks);
    if r.Ok? then ParseLoop(env, lev, r.code, r.toks) else Stop
  }

  /** The first half of `expr`: a literal, a name, a call, parentheses or a prefix operator. */
  function ParsePrefix(env: Env, code: seq<int>, toks: seq<Token>): (r: Parse)
    ensures r.Ok? ==> |r.toks| < |toks|
    decreases |toks|, 1
  {
    if toks == [] then Stop
    else
      var tk := toks[0].tk;
      var rest := toks[1..];
      if tk == TK_NUM then Ok(code + [IMM, toks[0].ival], rest)
      else if tk == TK_ID then
        var d := toks[0].id;
        if Tk(rest) == LPAREN then
          var (r, t) := ParseArgs(env, code, rest[1..], 0);
          if r.Ok? && d in env.sc && env.sc[d].cls == CFun then
            Ok(r.code + [JSR, env.sc[d].val] + (if t > 0 then [ADJ, t] else []), r.toks)
          else Stop
        else
          var c := NameCode(env, d);
          if c.Some? then Ok(code + c.value, rest) else Stop
      else if tk == LPAREN then
        if Tk(rest) == TK_INT || Tk(rest) == TK_CHAR then Stop
        else
          var r := ParseExpr(env, TK_ASSIGN, code, rest);
          if r.Ok? && Tk(r.toks) == RPAREN then Ok(r.code, r.toks[1..]) else Stop
      else if tk == BANG then
        var r := ParseExpr(env, TK_INC, code, rest);
        if r.Ok? then Ok(r.code + [PSH, IMM, 0, Opcode(Eq)], r.toks) else Stop
      else if tk == TILDE then
        var r := ParseExpr(env, TK_INC, code, rest);
        if r.Ok? then Ok(r.code + [PSH, IMM, -1, Opcode(Xor)], r.toks) else Stop
      else if tk == TK_ADD then ParseExpr(env, TK_INC, code, rest)
      else if tk == TK_SUB then
        if Tk(rest) == TK_NUM then Ok(code + [IMM, Wrap(-rest[0].ival)], rest[1..])
        else
          var r := ParseExpr(env, TK_INC, code + [IMM, -1, PSH], rest);
          if r.Ok? then Ok(r.code + [Opcode(Mul)], r.toks) else Stop
      else if tk == TK_INC || tk == TK_DEC then
        var r := ParseExpr(env, TK_INC, code, rest);
        if !r.Ok? then Stop
        else
          var c := StepTail(r.code, tk == TK_INC);
          if c.Some? then Ok(c.value, r.toks) else Stop
      else Stop
  }

  /** Arguments up to the closing parenthesis, each followed by a push, and how many. */
  function ParseArgs(env: Env, code: seq<int>, toks: seq<Token>, t: nat): (r: (Parse, nat))
    ensures r.0.Ok? ==> |r.0.toks| < |toks|
    decreases |toks|, 3
  {
    if Tk(toks) == RPAREN then (Ok(code, toks[1..]), t)
    else
      var r := ParseExpr(env, TK_ASSIGN, code, toks);
      if !r.Ok? then (Stop, t)
      else
        var rest := if Tk(r.toks) == COMMA then r.toks[1..] else r.toks;
        ParseArgs(env, r.code + [PSH], rest, t + 1)
  }

  /** The second half of `expr`: operators at least as tight as `lev`. */
  function ParseLoop(env: Env, lev: int, code: seq<int>, toks: seq<Token>): (r: Parse)
    ensures r.Ok? ==> |r.toks| <= |toks|
    decreases |toks|, 0
  {
    var tk := Tk(toks);
    if tk < lev then Ok(code, toks)
    else if toks == [] then Stop
    else
      var rest := toks[1..];
      if tk == TK_ASSIGN then
        if Last(code) == LI || Last(code) == LC then
          var r := ParseExpr(env, TK_ASSIGN, Relast(code, PSH), rest);
          if r.Ok? then ParseLoop(env, lev, r.code + [SI], r.toks) else Stop
        else Stop
      else if tk == TK_COND then
        var r := ParseExpr(env, TK_ASSIGN, code + [BZ, 0], rest);
        if r.Ok? && Tk(r.toks) == COLON then
          var c1 := Patch(r.code, |code| + 1, env.base + |r.code| + 2);
          var q := ParseExpr(env, TK_COND, c1 + [JMP, 0], r.toks[1..]);
          if q.Ok? then ParseLoop(env, lev, Patch(q.code, |c1| + 1, env.base + |q.code|), q.toks) else Stop
        else Stop
      else if tk == TK_LOR then
        var r := ParseExpr(env, TK_LAN, code + [BNZ, 0], rest);
        if r.Ok? then ParseLoop(env, lev, Patch(r.code, |code| + 1, env.base + |r.code|), r.toks) else Stop
      else if tk == TK_LAN then
        var r := ParseExpr(env, TK_OR, code + [BZ, 0], rest);
        if r.Ok? then ParseLoop(env, lev, Patch(r.code, |code| + 1, env.base + |r.code|), r.toks) else Stop
      else if IsBinary(tk) then
        var r := ParseExpr(env, RightLevel(tk), code + [PSH], rest);
        if r.Ok? then ParseLoop(env, lev, r.code + [tk - 132], r.toks) else Stop
      else if tk == TK_INC || tk == TK_DEC then
        var c := StepTail(code, tk == TK_INC);
        if c.Some? then
          ParseLoop(env, lev, c.value + [PSH, IMM, 1, Opcode(if tk == TK_INC then Sub else Add)], rest)
        else Stop
      else Stop
  }

  function ParseStmt(env: Env, code: seq<int>, toks: seq<Token>): (r: Parse)
    ensures r.Ok? ==> |r.toks| < |toks|
    decreases |toks|, 4
  {
    var tk := Tk(toks);
    if toks == [] then Stop
    else if tk == TK_IF then
      var r := ParseTest(env, code, toks[1..]);
      if !r.Ok? then Stop
      else
        var b := |r.code| + 1;
        var q := ParseStmt(env, r.code + [BZ, 0], r.toks);
        if !q.Ok? then Stop
        else if Tk(q.toks) == TK_ELSE then
          var c1 := Patch(q.code, b, env.base + |q.code| + 2);
          var z := ParseStmt(env, c1 + [JMP, 0], q.toks[1..]);
          if z.Ok? then Ok(Patch(z.code, |c1| + 1, env.base + |z.code|), z.toks) else Stop
        else Ok(Patch(q.code, b, env.base + |q.code|), q.toks)
    else if tk == TK_WHILE then
      var a := env.base + |code|;
      var r := ParseTest(env, code, toks[1..]);
      if !r.Ok? then Stop
      else
        var b := |r.code| + 1;
        var q := ParseStmt(env, r.code + [BZ, 0], r.toks);
        if !q.Ok? then Stop
        else Ok(Patch(q.code + [JMP, a], b, env.base + |q.code| + 2), q.toks)
    else if tk == TK_RETURN then
      if Tk(toks[1..]) == SEMI then Ok(code + [LEV], toks[2..])
      else
        var r := ParseExpr(env, TK_ASSIGN, code, toks[1..]);
        if r.Ok? && Tk(r.toks) == SEMI then Ok(r.code + [LEV], r.toks[1..]) else Stop
    else if tk == LBRACE then ParseBlock(env, code, toks[1..])
    else if tk == SEMI then Ok(code, toks[1..])
    else
      var r := ParseExpr(env, TK_ASSIGN, code, toks);
      if r.Ok? && Tk(r.toks) == SEMI then Ok(r.code, r.toks[1..]) else Stop
  }

  /** `( expr )` after `if` or `while`. */
  function ParseTest(env: Env, code: seq<int>, toks: seq<Token>): (r: Parse)
    ensures r.Ok? ==> |r.toks| < |toks|
  {
    if Tk(toks) != LPAREN then Stop
    else
      var r := ParseExpr(env, TK_ASSIGN, code, toks[1..]);
      if r.Ok? && Tk(r.toks) == RPAREN then Ok(r.code, r.toks[1..]) else Stop
  }

  /** Statements up to the closing brace. */
  function ParseBlock(env: Env, code: seq<int>, toks: seq<Token>): (r: Parse)
    ensures r.Ok? ==> |r.toks| < |toks|
    decreases |toks|, 5
  {
    if Tk(toks) == RBRACE then Ok(code, toks[1..])
    else
      var r := ParseStmt(env, code, toks);
      if r.Ok? then ParseBlock(env, r.code, r.toks) else Stop
  }

  /** The compiler's globals `e` and `tk`, updated in place as in the source. */
  class Compiler {
    const env: Env
    var e: seq<int>
    var toks: seq<Token>

    constructor (env: Env, code: seq<int>, toks: seq<Token>)
      ensures this.env == env && this.e == code && this.toks == toks
    {
      this.env, this.e, this.toks := env, code, toks;
    }

    ghost predicate Is(p: Parse) reads this { p == Ok(e, toks) }

    method Next()
      requires toks != []
      modifies this`toks
      ensures toks == old(toks)[1..]
    {
      toks := toks[1..];
    }

    /** `expr(lev)`: on success the buffer and the lookahead are those of `ParseExpr`. */
    method Expr(lev: int) returns (ok: bool)
      modifies this
      ensures ok == ParseExpr(env, lev, old(e), old(toks)).Ok?
      ensures ok ==> Is(ParseExpr(env, lev, old(e), old(toks)))
      decreases |toks|, 2
    {
      ok := Prefix();
      if !ok { return; }
      while Tk(toks) >= lev && toks != []
        invariant |toks| < |old(toks)|
        invariant ParseLoop(env, lev, e, toks) == ParseExpr(env, lev, old(e), old(toks))
        decreases |toks|
      {
        ghost var was := toks;
        ok := Operator(lev);
        if !ok { return; }
      }
      ok := Tk(toks) < lev;
    }

    /** One turn of the climbing loop; jumps are emitted with a hole and patched once the end is known. */
    method Operator(ghost lev: int) returns (ok: bool)
      requires toks != [] && Tk(toks) >= lev
      modifies this
      ensures |toks| < |old(toks)| || !ok
      ensures ok ==> ParseLoop(env, lev, old(e), old(toks)) == ParseLoop(env, lev, e, toks)
      ensures !ok ==> ParseLoop(env, lev, old(e), old(toks)) == Stop
      decreases |toks|, 0
    {
      hide ParseExpr, ParsePrefix, ParseArgs, StepTail, RightLevel, Patch, Relast, Opcode;
      var tk := Tk(toks);
      Next();
      if tk == TK_ASSIGN {
        if Last(e) != LI && Last(e) != LC { return false; }
        e := Relast(e, PSH);
        ok := Expr(TK_ASSIGN);
        if ok { e := e + [SI]; }
      } else if tk == TK_COND {
        var d := |e| + 1;
        e := e + [BZ, 0];
        ok := Expr(TK_ASSIGN);
        if !ok || Tk(toks) != COLON { return false; }
        Next();
        e := Patch(e, d, env.base + |e| + 2);
        d := |e| + 1;
        e := e + [JMP, 0];
        ok := Expr(TK_COND);
        if ok { e := Patch(e, d, env.base + |e|); }
      } else if tk == TK_LOR || tk == TK_LAN {
        var d := |e| + 1;
        e := e + [if tk == TK_LOR then BNZ else BZ, 0];
        ok := Expr(if tk == TK_LOR then TK_LAN else TK_OR);
        if ok { e := Patch(e, d, env.base + |e|); }
      } else if IsBinary(tk) {
        e := e + [PSH];
        ok := Expr(RightLevel(tk));
        if ok { e := e + [tk - 132]; }
      } else if tk == TK_INC || tk == TK_DEC {
        var c := StepTail(e, tk == TK_INC);
        if c.None? { return false; }
        e := c.value + [PSH, IMM, 1, Opcode(if tk == TK_INC then Sub else Add)];
        ok := true;
      } else {
        ok := false;
      }
    }

    method Prefix() returns (ok: bool)
      modifies this
      ensures ok == ParsePrefix(env, old(e), old(toks)).Ok?
      ensures ok ==> Is(ParsePrefix(env, old(e), old(toks)))
      decreases |toks|, 1
    {
      if toks == [] { return false; }
      var tk, ival, d := toks[0].tk, toks[0].ival, toks[0].id;
      Next();
      if tk == TK_NUM {
        e := e + [IMM, ival];
        ok := true;
      } else if tk == TK_ID && Tk(toks) == LPAREN {
        Next();
        var t;
        ok, t := Arguments();
        if !ok || d !in env.sc || env.sc[d].cls != CFun { return false; }
        e := e + [JSR, env.sc[d].val] + (if t > 0 then [ADJ, t] else []);
      } else if tk == TK_ID {
        var c := NameCode(env, d);
        if c.None? { return false; }
        e := e + c.value;
        ok := true;
      } else if tk == LPAREN {
        if Tk(toks) == TK_INT || Tk(toks) == TK_CHAR { return false; }
        ok := Expr(TK_ASSIGN);
        if !ok || Tk(toks) != RPAREN { return false; }
        Next();
      } else if tk == BANG || tk == TILDE {
        ok := Expr(TK_INC);
        if ok { e := e + (if tk == BANG then [PSH, IMM, 0, Opcode(Eq)] else [PSH, IMM, -1, Opcode(Xor)]); }
      } else if tk == TK_ADD {
        ok := Expr(TK_INC);
      } else if tk == TK_SUB {
        if Tk(toks) == TK_NUM {
          e := e + [IMM, Wrap(-toks[0].ival)];
          Next();
          ok := true;
        } else {
          e := e + [IMM, -1, PSH];
          ok := Expr(TK_INC);
          if ok { e := e + [Opcode(Mul)]; }
        }
      } else if tk == TK_INC || tk == TK_DEC {
        ok := Expr(TK_INC);
        if !ok { return; }
        var c := StepTail(e, tk == TK_INC);
        if c.None? { return false; }
        e := c.value;
      } else {
        ok := false;
      }
    }

    method Arguments() returns (ok: bool, t: nat)
      modifies this
      ensures ok == ParseArgs(env, old(e), old(toks), 0).0.Ok?
      ensures ok ==> Is(ParseArgs(env, old(e), old(toks), 0).0) && t == ParseArgs(env, old(e), old(toks), 0).1
      decreases |toks|, 3
    {
      t := 0;
      while Tk(toks) != RPAREN
        invariant |toks| <= |old(toks)|
        invariant ParseArgs(env, e, toks, t) == ParseArgs(env, old(e), old(toks), 0)
        decreases |toks|
      {
        ok := Expr(TK_ASSIGN);
        if !ok { return; }
        e := e + [PSH];
        t := t + 1;
        if Tk(toks) == COMMA { Next(); }
      }
      Next();
      ok := true;
    }

    /** `stmt()`: on success the buffer and the lookahead are those of `ParseStmt`. */
    method Statement() returns (ok: bool)
      modifies this
      ensures ok == ParseStmt(env, old(e), old(toks)).Ok?
      ensures ok ==> Is(ParseStmt(env, old(e), old(toks)))
      decreases |toks|, 4
    {
      hide ParseExpr, ParseTest, ParseBlock, Patch;
      if toks == [] { return false; }
      var tk := Tk(toks);
      if tk == TK_IF {
        Next();
        ok := Test();
        if !ok { return; }
        var b := |e| + 1;
        e := e + [BZ, 0];
        ok := Statement();
        if !ok { return; }
        if Tk(toks) == TK_ELSE {
          e := Patch(e, b, env.base + |e| + 2);
          b := |e| + 1;
          e := e + [JMP, 0];
          Next();
          ok := Statement();
          if !ok { return; }
        }
        e := Patch(e, b, env.base + |e|);
      } else if tk == TK_WHILE {
        Next();
        var a := env.base + |e|;
        ok := Test();
        if !ok { return; }
        var b := |e| + 1;
        e := e + [BZ, 0];
        ok := Statement();
        if !ok { return; }
        e := e + [JMP, a];
        e := Patch(e, b, env.base + |e|);
      } else if tk == TK_RETURN {
        Next();
        if Tk(toks) != SEMI {
          ok := Expr(TK_ASSIGN);
          if !ok { return; }
        }
        e := e + [LEV];
        if Tk(toks) != SEMI { return false; }
        Next();
        ok := true;
      } else if tk == LBRACE {
        Next();
        ok := BlockRest();
      } else if tk == SEMI {
        Next();
        ok := true;
      } else {
        ok := Expr(TK_ASSIGN);
        if !ok || Tk(toks) != SEMI { return false; }
        Next();
      }
    }

    method Test() returns (ok: bool)
      modifies this
      ensures ok == ParseTest(env, old(e), old(toks)).Ok?
      ensures ok ==> Is(ParseTest(env, old(e), old(toks)))
      decreases |toks|, 3
    {
      if Tk(toks) != LPAREN { return false; }
      Next();
      ok := Expr(TK_ASSIGN);
      if !ok || Tk(toks) != RPAREN { return false; }
      Next();
    }

    method BlockRest() returns (ok: bool)
      modifies this
      ensures ok == ParseBlock(env, old(e), old(toks)).Ok?
      ensures ok ==> Is(ParseBlock(env, old(e), old(toks)))
      decreases |toks|, 5
    {
      while Tk(toks) != RBRACE
        invariant |toks| <= |old(toks)|
        invariant ParseBlock(env, e, toks) == ParseBlock(env, old(e), old(toks))
        decreases |toks|
      {
        ok := Statement();
        if !ok { return; }
      }
      Next();
      ok := true;
    }
  }
}
