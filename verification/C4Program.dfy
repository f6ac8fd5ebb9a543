/** Whole programs, from the stack that `main` of user/c4.c sets up to `EXIT`. */
module C4Program {
  import opened Common
  import opened C4Syntax
  import opened C4Machine
  import opened C4Semantics
  import opened C4Simulation
  import opened C4Divergence

  /** The start: two instructions on the stack to return to, the arguments, and the return address. */
  function Start(w: World, main: int, argc: int, argv: int, a: int, mem: Memory): State
    requires main in w.p.globals
  {
    State(w.p.globals[main].val, w.top - 5, w.top, a,
          mem[w.top - 1 := EXIT][w.top - 2 := PSH][w.top - 3 := argc][w.top - 4 := argv][w.top - 5 := w.top - 2])
  }

  /** What a `main` with `n` parameters is passed: with one parameter it sees the last argument pushed. */
  function MainArgs(n: nat, argc: int, argv: int): (vs: seq<int>)
    requires n <= 2
    ensures |vs| == n
  {
    [argc, argv][2 - n..]
  }

  predicate IsMain(p: Program, main: int) {
    main in p.globals && main in p.funs && |p.funs[main].params| <= 2 &&
      WfStmts(BodyScope(p, p.funs[main]), p.funs[main].body)
  }

  /** What `main` starts with. */
  function MainStore(p: Program, main: int, argc: int, argv: int, glo: map<int, int>): Store
    requires IsMain(p, main)
  {
    var f := p.funs[main];
    Store(Bound(f.params, MainArgs(|f.params|, argc, argv)), glo)
  }

  /** Two parameters get the two arguments in order; a single one gets the second. */
  lemma MainBinds(p: Program, main: int, argc: int, argv: int, glo: map<int, int>)
    requires IsMain(p, main) && Distinct(p.funs[main].params)
    ensures var xs, s := p.funs[main].params, MainStore(p, main, argc, argv, glo);
      && s.glo == glo && (forall x :: x in s.loc <==> x in xs)
      && (|xs| == 2 ==> s.loc[xs[0]] == argc && s.loc[xs[1]] == argv) && (|xs| == 1 ==> s.loc[xs[0]] == argv)
  {
    var xs := p.funs[main].params;
    var vs := MainArgs(|xs|, argc, argv);
    forall i: nat | i < |xs| ensures Bound(xs, vs)[xs[i]] == vs[i] { var j := BoundAt(xs, vs, xs[i]); }
  }

  /** What running `main` means. */
  function Meaning(p: Program, main: int, argc: int, argv: int, glo: map<int, int>, fuel: nat): Outcome
    requires IsMain(p, main)
  {
    var f := p.funs[main];
    ExecAll(p, BodyScope(p, f), f.body, MainStore(p, main, argc, argv, glo), fuel)
  }

  /** Program, globals and arguments as `main` of c4 finds them before the loop. */
  ghost predicate Initial(w: World, main: int, argc: int, argv: int, mem: Memory, glo: map<int, int>) {
    && WorldOk(w) && IsMain(w.p, main)
    && Int32(argc) && Int32(argv)
    && Loaded(w, mem) && glo.Keys == GloNames(w.p.globals)
    && (forall x | x in glo :: Int32(glo[x]) && Get(mem, w.p.globals[x].val) == glo[x])
  }

  lemma MainFun(w: World, main: int)
    requires WorldOk(w) && IsMain(w.p, main)
    ensures FunOk(w, w.p.globals[main].val, w.p.funs[main]) && CxOk(Cx(w, w.p.funs[main]))
    ensures SlotsApart(w.p, w.p.funs[main], w.top - 6)
  {
    hide BodyScope, WordsApart, InText, WfStmts, StmtsCode, SlotsApart;
    assert FunOk(w, w.p.globals[main].val, w.p.funs[main]);
    BodyCx(w, w.p.funs[main]);
    FrameApart(w, w.p.funs[main], w.top - 6);
  }

  lemma EnterMain(w: World, main: int, argc: int, argv: int, a: int, mem: Memory, glo: map<int, int>) returns (k: State)
    requires Initial(w, main, argc, argv, mem, glo)
    ensures Steps(Start(w, main, argc, argv, a, mem), 1, k)
    ensures k.pc == w.p.globals[main].val + 2 && k.bp == w.top - 6
    ensures Get(k.mem, k.bp) == w.top && Get(k.mem, k.bp + 1) == w.top - 2
    ensures Get(k.mem, w.top - 2) == PSH && Get(k.mem, w.top - 1) == EXIT
    ensures Rel(Cx(w, w.p.funs[main]), k, MainStore(w.p, main, argc, argv, glo))
  {
    hide FunOk, InText, Steps, BodyScope, SlotsApart, CxOk, WfStmts;
    var j := Start(w, main, argc, argv, a, mem);
    var g := w.p.funs[main];
    MainFun(w, main);
    assert Loaded(w, j.mem);
    k := DoEnt(w, j, g);
    assert Loaded(w, k.mem);
    var s := MainStore(w.p, main, argc, argv, glo);
    forall x | x in s.loc
      ensures Int32(s.loc[x]) && IsLoc(BodyScope(w.p, g), x) &&
        Get(k.mem, SlotAddr(g, k.bp, BodyScope(w.p, g)[x].val)) == s.loc[x]
    {
      MainLoc(w, main, argc, argv, k, x);
    }
    forall x | x in s.glo ensures Get(k.mem, w.p.globals[x].val) == s.glo[x] {
      assert IsGlo(w.p.globals, x);
    }
  }

  lemma MainLoc(w: World, main: int, argc: int, argv: int, k: State, x: int)
    requires IsMain(w.p, main) && SlotsApart(w.p, w.p.funs[main], w.top - 6) && k.bp == w.top - 6 &&
      x in w.p.funs[main].params
    requires Get(k.mem, w.top - 3) == argc && Get(k.mem, w.top - 4) == argv && Int32(argc) && Int32(argv)
    ensures var g := w.p.funs[main]; var v := Bound(g.params, MainArgs(|g.params|, argc, argv))[x];
      Int32(v) && IsLoc(BodyScope(w.p, g), x) && Get(k.mem, SlotAddr(g, k.bp, BodyScope(w.p, g)[x].val)) == v
  {
    hide BodyScope, Bound;
    var g := w.p.funs[main];
    var i := BoundAt(g.params, MainArgs(|g.params|, argc, argv), x);
    assert SlotAddr(g, k.bp, BodyScope(w.p, g)[g.params[i]].val) == w.top - 5 + |g.params| - i;
  }

  /** `LEV` from `main` lands on the two words on the stack: push the value, exit with it. */
  lemma LeaveMain(w: World, g: FunDef, k: State, m: State, t: Store) returns (m2: State)
    requires WorldOk(w) && |g.params| <= 2 && k.bp == w.top - 6 && k.sp <= k.bp && m.bp == k.bp
    requires Rel(Cx(w, g), m, t) && Frame(Cx(w, g), k, m) && Get(m.mem, m.pc) == LEV
    requires Get(k.mem, k.bp) == w.top && Get(k.mem, k.bp + 1) == w.top - 2
    requires Get(k.mem, w.top - 2) == PSH && Get(k.mem, w.top - 1) == EXIT
    ensures Steps(m, 2, m2) && Step(m2) == Exit(m.a)
  {
    hide BodyScope, FunOk;
    assert forall x | x in {w.top - 6, w.top - 5, w.top - 2, w.top - 1} :: x !in w.gaddrs && !IsSlotAddr(g, k.bp, x);
    assert Get(m.mem, k.bp) == Get(k.mem, k.bp) && Get(m.mem, k.bp + 1) == Get(k.mem, k.bp + 1);
    assert Get(m.mem, w.top - 2) == PSH && Get(m.mem, w.top - 1) == EXIT;
    var m1 := Step(m).s;
    One(m);
    assert m1.pc == w.top - 2 && m1.sp == w.top - 4;
    One(m1);
    m2 := Step(m1).s;
    StepsTrans(m, 1, m1, 1, m2);
  }

  /** A run that stops is the only one that does. */
  lemma {:induction false} StopUnique(s: State, n: nat, t: State, k: nat, u: State)
    requires Steps(s, n, t) && !Step(t).Next? && Steps(s, k, u)
    ensures k <= n
    ensures !Step(u).Next? ==> k == n && u == t
    decreases n
  {
    if n > 0 && k > 0 {
      StopUnique(Step(s).s, n - 1, t, k - 1, u);
    }
  }

  /** The body of `main` is in the text right after its `ENT`. */
  lemma MainText(w: World, main: int)
    requires WorldOk(w) && IsMain(w.p, main)
    ensures var g := w.p.funs[main]; var addr := w.p.globals[main].val;
      var c := StmtsCode(BodyScope(w.p, g), |g.params| + 1, g.body, addr + 2);
      InText(w, addr + 2, c) && InText(w, addr + 2 + |c|, [LEV])
  {
    hide InText, BodyScope, StmtsCode, WfStmts, WordsApart;
    var g := w.p.funs[main];
    var addr := w.p.globals[main].val;
    assert FunOk(w, addr, g);
    var c := StmtsCode(BodyScope(w.p, g), |g.params| + 1, g.body, addr + 2);
    TextSplit(w, addr, [ENT, |g.locals|] + c, [LEV]);
    TextSplit(w, addr, [ENT, |g.locals|], c);
  }

  /** Soundness: if `main` returns, the machine exits, and with the value returned. */
  lemma {:induction false} ProgramExits(w: World, main: int, argc: int, argv: int, a: int, mem: Memory,
      glo: map<int, int>,
                                        fuel: nat)
    returns (n: nat, m: State)
    requires Initial(w, main, argc, argv, mem, glo)
    requires var o := Meaning(w.p, main, argc, argv, glo, fuel); o.Done? || o.Ret?
    ensures Steps(Start(w, main, argc, argv, a, mem), n, m) && Step(m).Exit?
    ensures var o := Meaning(w.p, main, argc, argv, glo, fuel); o.Ret? && o.v.Some? ==> Step(m).status == o.v.value
  {
    hide WorldOk, CxOk, Rel, Frame, InText, Steps, BodyScope, Loaded, Step, Get, SlotsApart, FunOk;
    var g := w.p.funs[main];
    var cx := Cx(w, g);
    MainFun(w, main);
    MainText(w, main);
    var s := MainStore(w.p, main, argc, argv, glo);
    var k := EnterMain(w, main, argc, argv, a, mem, glo);
    var n3, m3 := StmtsSim(cx, g.body, k, s, fuel);
    var o := Meaning(w.p, main, argc, argv, glo, fuel);
    if o.Done? {
      Fetch(cx, m3, o.s, m3.pc, [LEV], 0);
    }
    RelBounds(cx, k, s);
    m := LeaveMain(w, g, k, m3, o.s);
    StepsTrans(Start(w, main, argc, argv, a, mem), 1, k, n3, m3);
    StepsTrans(Start(w, main, argc, argv, a, mem), 1 + n3, m3, 2, m);
    n := 1 + n3 + 2;
  }

  /** Completeness: if the machine stops after `k` turns, the evaluator needs no more fuel than that;
      so a program free of undefined behaviour exits with `v` exactly when `main` returns `v`. */
  lemma {:induction false} ProgramReturns(w: World, main: int, argc: int, argv: int, a: int, mem: Memory,
      glo: map<int, int>,
                                          k: nat, u: State)
    requires Initial(w, main, argc, argv, mem, glo)
    requires Steps(Start(w, main, argc, argv, a, mem), k, u) && !Step(u).Next?
    requires !Meaning(w.p, main, argc, argv, glo, k + 1).Fault?
    ensures var o := Meaning(w.p, main, argc, argv, glo, k + 1);
      && (o.Done? || o.Ret?) && Step(u).Exit?
      && (o.Ret? && o.v.Some? ==> Step(u).status == o.v.value)
  {
    hide WorldOk, CxOk, Rel, Frame, InText, Steps, BodyScope, Loaded, Step, Get, SlotsApart, FunOk;
    var start := Start(w, main, argc, argv, a, mem);
    var o := Meaning(w.p, main, argc, argv, glo, k + 1);
    if o.Timeout? {
      var g := w.p.funs[main];
      var cx := Cx(w, g);
      MainFun(w, main);
      MainText(w, main);
      var j := EnterMain(w, main, argc, argv, a, mem, glo);
      var n3, m3 := StmtsLong(cx, g.body, j, MainStore(w.p, main, argc, argv, glo), k + 1);
      StepsTrans(start, 1, j, n3, m3);
      StopUnique(start, k, u, 1 + n3, m3);
      assert false;
    } else {
      var n, m := ProgramExits(w, main, argc, argv, a, mem, glo, k + 1);
      ExitStops(m);
      StopUnique(start, k, u, n, m);
    }
  }

  lemma ExitStops(m: State)
    requires Step(m).Exit?
    ensures !Step(m).Next?
  {
  }
}
