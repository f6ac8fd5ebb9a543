/** Declarations: the loop of `main` in user/c4.c that numbers parameters and locals, places
    globals and functions, and hides and restores names. */
module C4Declarations {
  import opened Common
  import opened C4Syntax
  import opened C4Semantics
  import opened C4Parser

  /** Names declared so far with class Loc, the next frame number and the remaining tokens. */
  datatype Names = Names(sc: Scope, i: int, toks: seq<Token>) | NStop

  lemma NonEmpty(ks: set<int>)
    ensures ks == {} || exists x :: x in ks
  {
    if !(exists x :: x in ks) { assert ks == {}; }
  }

  predicate IsLocal(sc: Scope, x: int) { x in sc && sc[x].cls == CLoc }

  /** Parameter list up to `)`: numbers 0, 1, ..; a repeated name is an error. */
  function ParseParams(sc: Scope, i: int, toks: seq<Token>): (r: Names)
    ensures r.Names? ==> |r.toks| < |toks|
    decreases |toks|
  {
    if Tk(toks) == RPAREN then Names(sc, i, toks[1..])
    else
      var ts := if Tk(toks) == TK_INT then toks[1..] else toks;
      if Tk(ts) != TK_ID || IsLocal(sc, ts[0].id) then NStop
      else
        var rest := ts[1..];
        ParseParams(sc[ts[0].id := Sym(CLoc, i)], i + 1, if Tk(rest) == COMMA then rest[1..] else rest)
  }

  /** The names of one local declaration, up to `;`. */
  function ParseNames(sc: Scope, i: int, toks: seq<Token>): (r: Names)
    ensures r.Names? ==> |r.toks| < |toks|
    decreases |toks|
  {
    if Tk(toks) == SEMI then Names(sc, i, toks[1..])
    else if Tk(toks) != TK_ID || IsLocal(sc, toks[0].id) then NStop
    else
      var rest := toks[1..];
      ParseNames(sc[toks[0].id := Sym(CLoc, i + 1)], i + 1, if Tk(rest) == COMMA then rest[1..] else rest)
  }

  /** Local declarations at the head of a body; each local takes the number after the last one. */
  function ParseLocals(sc: Scope, i: int, toks: seq<Token>): (r: Names)
    ensures r.Names? ==> |r.toks| <= |toks|
    decreases |toks|
  {
    if Tk(toks) == TK_INT then
      var r := ParseNames(sc, i, toks[1..]);
      if r.Names? then ParseLocals(r.sc, r.i, r.toks) else NStop
    else Names(sc, i, toks)
  }

  /** A function from its `(` to its `}`: code is appended, the names declared inside are forgotten. */
  function ParseFun(g: Scope, base: int, code: seq<int>, toks: seq<Token>): (r: Parse)
    ensures r.Ok? ==> |r.toks| < |toks|
  {
    if Tk(toks) != LPAREN then Stop
    else
      var ps := ParseParams(g, 0, toks[1..]);
      if !ps.Names? || Tk(ps.toks) != LBRACE then Stop
      else
        var loc := ps.i + 1;
        var ls := ParseLocals(ps.sc, loc, ps.toks[1..]);
        if !ls.Names? then Stop
        else
          var r := ParseBlock(Env(ls.sc, loc, base), code + [ENT, ls.i - loc], ls.toks);
          if r.Ok? then Ok(r.code + [LEV], r.toks) else Stop
  }

  /** The global symbol table, the text and the next free data word. */
  datatype Globals = Globals(g: Scope, code: seq<int>, data: int, toks: seq<Token>) | GStop

  /** The row `id` points at once the lexer has moved past the name `x`: when another name follows, that one. Its row is
      then the one filled in, and the name counts as a duplicate when its own turn comes. */
  function LastId(x: int, rest: seq<Token>): int { if Tk(rest) == TK_ID then rest[0].id else x }

  lemma TwoNames(g: Scope, base: int, code: seq<int>, data: int, toks: seq<Token>)
    requires |toks| >= 2 && toks[0].tk == TK_ID && toks[1].tk == TK_ID
    ensures ParseDeclarators(g, base, code, data, toks).GStop?
  {
    hide ParseFun;
    var rest := toks[1..];
    assert rest[0].id in g[rest[0].id := Sym(CGlo, data)];
  }

  /** Declarators after the base type: `name` or `name ( .. }`, up to `;` or the end of a function. */
  function ParseDeclarators(g: Scope, base: int, code: seq<int>, data: int, toks: seq<Token>): (r: Globals)
    ensures r.Globals? ==> |r.toks| < |toks|
    decreases |toks|
  {
    if Tk(toks) == SEMI || Tk(toks) == RBRACE then Globals(g, code, data, toks[1..])
    else if Tk(toks) != TK_ID || toks[0].id in g then GStop
    else
      var x := toks[0].id;
      var rest := toks[1..];
      if Tk(rest) == LPAREN then
        var g1 := g[x := Sym(CFun, base + |code|)];
        var r := ParseFun(g1, base, code, rest);
        if r.Ok? then Globals(g1, r.code, data, r.toks) else GStop
      else
        var g1 := g[LastId(x, rest) := Sym(CGlo, data)];
        ParseDeclarators(g1, base, code, data + 1, if Tk(rest) == COMMA then rest[1..] else rest)
  }

  /** The whole file. */
  function ParseFile(g: Scope, base: int, code: seq<int>, data: int, toks: seq<Token>): (r: Globals)
    decreases |toks|
  {
    if toks == [] then Globals(g, code, data, [])
    else
      var r := ParseDeclarators(g, base, code, data, if Tk(toks) == TK_INT then toks[1..] else toks);
      if r.Globals? then ParseFile(r.g, base, r.code, r.data, r.toks) else GStop
  }

  /** The declaration loop with the symbol table, the code buffer and the data pointer updated in place.
      Names of a function hide globals while its body is parsed and are unwound at its end. */
  class Declarations {
    var syms: Scope
    var hidden: map<int, Option<Sym>>
    var e: seq<int>
    var data: int
    var toks: seq<Token>
    const base: int

    constructor (base: int, data: int, toks: seq<Token>)
      ensures syms == map[] && hidden == map[] && e == [] && this.data == data && this.toks == toks && this.base == base
    {
      this.base, syms, hidden, e, this.data, this.toks := base, map[], map[], [], data, toks;
    }

    /** `hidden` remembers, for every name of class Loc, the row it had outside the function. */
    ghost predicate Hides(g: Scope) reads this {
      && (forall x | x in g :: g[x].cls != CLoc)
      && (forall x | x in hidden :: IsLocal(syms, x) && hidden[x] == if x in g then Some(g[x]) else None)
      && (forall x | x !in hidden :: (x in syms <==> x in g) && (x in g ==> syms[x] == g[x]))
    }

    method Bind(x: int, i: int, ghost g: Scope)
      requires Hides(g) && !IsLocal(syms, x)
      modifies this`syms, this`hidden
      ensures Hides(g) && syms == old(syms)[x := Sym(CLoc, i)]
    {
      hidden := hidden[x := if x in syms then Some(syms[x]) else None];
      syms := syms[x := Sym(CLoc, i)];
    }

    method Params(ghost g: Scope) returns (ok: bool, i: int)
      requires Hides(g)
      modifies this`syms, this`hidden, this`toks
      ensures Hides(g)
      ensures ok == ParseParams(old(syms), 0, old(toks)).Names?
      ensures ok ==> ParseParams(old(syms), 0, old(toks)) == Names(syms, i, toks)
    {
      i := 0;
      while Tk(toks) != RPAREN
        invariant Hides(g)
        invariant ParseParams(syms, i, toks) == ParseParams(old(syms), 0, old(toks))
        decreases |toks|
      {
        if Tk(toks) == TK_INT { toks := toks[1..]; }
        if Tk(toks) != TK_ID || IsLocal(syms, toks[0].id) { return false, i; }
        Bind(toks[0].id, i, g);
        i := i + 1;
        toks := toks[1..];
        if Tk(toks) == COMMA { toks := toks[1..]; }
      }
      toks := toks[1..];
      ok := true;
    }

    method Locals(i0: int, ghost g: Scope) returns (ok: bool, i: int)
      requires Hides(g)
      modifies this`syms, this`hidden, this`toks
      ensures Hides(g)
      ensures ok == ParseLocals(old(syms), i0, old(toks)).Names?
      ensures ok ==> ParseLocals(old(syms), i0, old(toks)) == Names(syms, i, toks)
    {
      i := i0;
      while Tk(toks) == TK_INT
        invariant Hides(g)
        invariant ParseLocals(syms, i, toks) == ParseLocals(old(syms), i0, old(toks))
        decreases |toks|
      {
        toks := toks[1..];
        ghost var sc0, j0, t0 := syms, i, toks;
        while Tk(toks) != SEMI
          invariant Hides(g) && |toks| <= |t0|
          invariant ParseNames(syms, i, toks) == ParseNames(sc0, j0, t0)
          decreases |toks|
        {
          if Tk(toks) != TK_ID || IsLocal(syms, toks[0].id) { return false, i; }
          i := i + 1;
          Bind(toks[0].id, i, g);
          toks := toks[1..];
          if Tk(toks) == COMMA { toks := toks[1..]; }
        }
        toks := toks[1..];
      }
      ok := true;
    }

    /** Give every name of class Loc its outer row back. */
    method Unwind(ghost g: Scope)
      requires Hides(g)
      modifies this`syms, this`hidden
      ensures syms == g && hidden == map[]
    {
      hide Hides;
      var ks := hidden.Keys;
      while ks != {}
        invariant ks == hidden.Keys && Hides(g)
        decreases |ks|
      {
        NonEmpty(ks);
        var x :| x in ks;
        ks := ks - {x};
        Restore(x, g);
      }
      SameScope(g);
    }

    method Restore(x: int, ghost g: Scope)
      requires Hides(g) && x in hidden
      modifies this`syms, this`hidden
      ensures Hides(g) && hidden == old(hidden) - {x}
    {
      if hidden[x].Some? { syms := syms[x := hidden[x].value]; } else { syms := syms - {x}; }
      hidden := hidden - {x};
    }

    lemma SameScope(g: Scope)
      requires Hides(g) && hidden.Keys == {}
      ensures syms == g && hidden == map[]
    {
      assert forall x :: x in syms <==> x in g;
      assert forall x | x in g :: syms[x] == g[x];
      assert hidden == map[];
    }

    /** A function definition; afterwards the symbol table is the one before it. */
    method Function() returns (ok: bool)
      requires Outer()
      modifies this
      ensures ok == ParseFun(old(syms), base, old(e), old(toks)).Ok?
      ensures ok ==> ParseFun(old(syms), base, old(e), old(toks)) == Ok(e, toks)
      ensures ok ==> syms == old(syms) && hidden == map[] && data == old(data)
    {
      hide ParseParams, ParseLocals, ParseBlock;
      ghost var g := syms;
      if Tk(toks) != LPAREN { return false; }
      toks := toks[1..];
      var i;
      ok, i := Params(g);
      if !ok || Tk(toks) != LBRACE { return false; }
      var loc := i + 1;
      toks := toks[1..];
      ok, i := Locals(loc, g);
      if !ok { return; }
      e := e + [ENT, i - loc];
      var c := new Compiler(Env(syms, loc, base), e, toks);
      ok := c.BlockRest();
      if !ok { return; }
      e := c.e + [LEV];
      toks := c.toks;
      Unwind(g);
    }

    /** Between functions no name is local. */
    ghost predicate Outer() reads this {
      hidden == map[] && forall x | x in syms :: syms[x].cls != CLoc
    }

    /** The inner loop: declarators up to `;` or the end of a function. */
    method Declarators() returns (ok: bool)
      requires Outer()
      modifies this
      ensures ok == ParseDeclarators(old(syms), base, old(e), old(data), old(toks)).Globals?
      ensures ok ==> ParseDeclarators(old(syms), base, old(e), old(data), old(toks)) == Globals(syms, e, data, toks)
      ensures ok ==> Outer()
    {
      hide ParseFun;
      while Tk(toks) != SEMI && Tk(toks) != RBRACE
        invariant Outer()
        invariant ParseDeclarators(syms, base, e, data, toks) ==
          ParseDeclarators(old(syms), base, old(e), old(data), old(toks))
        decreases |toks|
      {
        if Tk(toks) != TK_ID || toks[0].id in syms { return false; }
        var x := toks[0].id;
        toks := toks[1..];
        if Tk(toks) == LPAREN {
          syms := syms[x := Sym(CFun, base + |e|)];
          ok := Function();
          return;
        }
        syms := syms[LastId(x, toks) := Sym(CGlo, data)];
        data := data + 1;
        if Tk(toks) == COMMA { toks := toks[1..]; }
      }
      toks := toks[1..];
      ok := true;
    }

    /** The declaration loop over the whole file. */
    method File() returns (ok: bool)
      requires Outer()
      modifies this
      ensures ok == ParseFile(old(syms), base, old(e), old(data), old(toks)).Globals?
      ensures ok ==> ParseFile(old(syms), base, old(e), old(data), old(toks)) == Globals(syms, e, data, toks)
    {
      hide ParseDeclarators;
      while toks != []
        invariant Outer()
        invariant ParseFile(syms, base, e, data, toks) == ParseFile(old(syms), base, old(e), old(data), old(toks))
        decreases |toks|
      {
        if Tk(toks) == TK_INT { toks := toks[1..]; }
        ok := Declarators();
        if !ok { return; }
      }
      ok := true;
    }
  }
}
