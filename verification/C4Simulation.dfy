/** Compiler correctness: the machine running the emitted words computes what the
    evaluator says, and leaves the stack as it found it. */
module C4Simulation {
  import opened Common
  import opened C4Syntax
  import opened C4Machine
  import opened C4Semantics

  /** Where things are: the text area, the addresses of the globals, and `top`, above every stack word. */
  datatype World = World(p: Program, tbase: int, text: seq<int>, top: int, gaddrs: set<int>)

  function FunCode(p: Program, f: FunDef, addr: int): seq<int>
    requires WfStmts(BodyScope(p, f), f.body)
  {
    [ENT, |f.locals|] + StmtsCode(BodyScope(p, f), |f.params| + 1, f.body, addr + 2) + [LEV]
  }

  ghost predicate InText(w: World, at: int, c: seq<int>) {
    && w.tbase <= at && at + |c| <= w.tbase + |w.text|
    && forall i :: 0 <= i < |c| ==> w.text[at - w.tbase + i] == c[i]
  }

  ghost predicate FunOk(w: World, addr: int, f: FunDef) {
    && WfStmts(BodyScope(w.p, f), f.body) && Distinct(f.params + f.locals)
    && InText(w, addr, FunCode(w.p, f, addr))
  }

  predicate IsGlo(g: Scope, x: int) { x in g && g[x].cls == CGlo }

  function GloNames(g: Scope): set<int> { set x | x in g && IsGlo(g, x) }

  /** Every global variable has a word of its own, outside stack and text. */
  ghost predicate WordsApart(w: World) {
    && (forall g | g in w.gaddrs :: w.top <= g && !(w.tbase <= g < w.tbase + |w.text|))
    && (forall x | IsGlo(w.p.globals, x) :: w.p.globals[x].val in w.gaddrs)
    && (forall x, y | IsGlo(w.p.globals, x) && IsGlo(w.p.globals, y) && w.p.globals[x].val == w.p.globals[y].val ::
       x == y)
  }

  ghost predicate WorldOk(w: World) {
    && w.tbase >= w.top && WordsApart(w)
    && (forall x | x in w.p.globals :: w.p.globals[x].cls != CLoc)
    && (forall x | x in w.p.funs ::
       x in w.p.globals && w.p.globals[x].cls == CFun && FunOk(w, w.p.globals[x].val, w.p.funs[x]))
  }

  /** A function whose body is being executed. */
  datatype Cx = Cx(w: World, f: FunDef) {
    function Sc(): Scope { BodyScope(w.p, f) }
    function Loc(): int { |f.params| + 1 }
  }

  predicate IsLoc(sc: Scope, x: int) { x in sc && sc[x].cls == CLoc }

  /** Local names have different slots of the frame; every other name means what it means outside. */
  ghost predicate CxOk(cx: Cx) {
    && WorldOk(cx.w)
    && (forall x | x in cx.Sc() && cx.Sc()[x].cls != CLoc :: x in cx.w.p.globals && cx.Sc()[x] == cx.w.p.globals[x])
    && (forall x | IsLoc(cx.Sc(), x) :: IsSlot(cx.f, cx.Sc()[x].val))
    && (forall x, y | IsLoc(cx.Sc(), x) && IsLoc(cx.Sc(), y) && cx.Sc()[x].val == cx.Sc()[y].val :: x == y)
  }

  /** Different names of a list get different numbers. */
  lemma {:induction false} BindAt(sc: Scope, ids: seq<int>, first: int, i: nat)
    requires Distinct(ids) && i < |ids|
    ensures ids[i] in BindParams(sc, ids, first) && BindParams(sc, ids, first)[ids[i]] == Sym(CLoc, first + i)
    decreases |ids|
  {
    var k := |ids| - 1;
    if i < k { BindAt(sc, ids[..k], first, i); }
  }

  /** Parameters are numbered from 0, locals from two past the parameters on. */
  lemma ParamAt(p: Program, f: FunDef, i: nat)
    requires Distinct(f.params + f.locals) && i < |f.params|
    ensures f.params[i] in BodyScope(p, f) && BodyScope(p, f)[f.params[i]] == Sym(CLoc, i)
  {
    hide BindParams;
    DistinctParts(f.params, f.locals);
    BindAt(p.globals, f.params, 0, i);
    assert f.params[i] !in f.locals;
  }

  lemma LocalAt(p: Program, f: FunDef, i: nat)
    requires Distinct(f.params + f.locals) && i < |f.locals|
    ensures f.locals[i] in BodyScope(p, f) && BodyScope(p, f)[f.locals[i]] == Sym(CLoc, |f.params| + 2 + i)
  {
    hide BindParams;
    DistinctParts(f.params, f.locals);
    BindAt(BindParams(p.globals, f.params, 0), f.locals, |f.params| + 2, i);
  }

  lemma DistinctParts(ps: seq<int>, ls: seq<int>)
    requires Distinct(ps + ls)
    ensures Distinct(ps) && Distinct(ls) && (forall x | x in ls :: x !in ps) && (forall x | x in ps :: x !in ls)
  {
    forall i, j | 0 <= i < j < |ps| ensures ps[i] != ps[j] {
      assert (ps + ls)[i] == ps[i] && (ps + ls)[j] == ps[j];
    }
    forall i, j | 0 <= i < j < |ls| ensures ls[i] != ls[j] {
      assert (ps + ls)[|ps| + i] == ls[i] && (ps + ls)[|ps| + j] == ls[j];
    }
    forall x | x in ls ensures x !in ps {
      var j :| 0 <= j < |ls| && ls[j] == x;
      forall i | 0 <= i < |ps| ensures ps[i] != x {
        assert (ps + ls)[i] == ps[i] && (ps + ls)[|ps| + j] == ls[j];
      }
    }
  }

  /** Where a local name of a body comes from. */
  lemma LocalName(p: Program, f: FunDef, x: int) returns (i: nat)
    requires Distinct(f.params + f.locals) && IsLoc(BodyScope(p, f), x) && forall z | z in p.globals ::
      p.globals[z].cls != CLoc
    ensures i < |f.params| + |f.locals| && (f.params + f.locals)[i] == x
    ensures BodyScope(p, f)[x].val == if i < |f.params| then i else i + 2
  {
    hide BindParams;
    var all := f.params + f.locals;
    assert x in all;
    i :| 0 <= i < |all| && all[i] == x;
    if i < |f.params| { ParamAt(p, f, i); } else { LocalAt(p, f, i - |f.params|); }
  }

  lemma BodyCx(w: World, f: FunDef)
    requires WorldOk(w) && Distinct(f.params + f.locals)
    ensures CxOk(Cx(w, f))
  {
    hide BindParams, FunOk, WordsApart;
    var sc := BodyScope(w.p, f);
    var inner := BindParams(w.p.globals, f.params, 0);
    forall x | x in sc && sc[x].cls != CLoc ensures x in w.p.globals && sc[x] == w.p.globals[x] {
      assert x in inner && sc[x] == inner[x];
    }
    forall x | IsLoc(sc, x) ensures IsSlot(f, sc[x].val) {
      var i := LocalName(w.p, f, x);
    }
    forall x, y | IsLoc(sc, x) && IsLoc(sc, y) && sc[x].val == sc[y].val ensures x == y {
      var i := LocalName(w.p, f, x);
      var j := LocalName(w.p, f, y);
    }
  }

  // ---------------------------------------------------------------- the relation

  function SlotAddr(f: FunDef, bp: int, v: int): int { bp + |f.params| + 1 - v }

  predicate IsSlotAddr(f: FunDef, bp: int, x: int) {
    bp + 2 <= x <= bp + |f.params| + 1 || bp - |f.locals| <= x <= bp - 1
  }

  ghost predicate InRange(s: Store) {
    && (forall v | v in s.loc :: Int32(s.loc[v]))
    && (forall g | g in s.glo :: Int32(s.glo[g]))
  }

  ghost predicate Loaded(w: World, mem: Memory) {
    forall i :: 0 <= i < |w.text| ==> Get(mem, w.tbase + i) == w.text[i]
  }

  /** The machine's memory holds the program and the store, in the frame of `cx.f`. */
  ghost predicate Rel(cx: Cx, m: State, s: Store) {
    && m.sp <= m.bp - |cx.f.locals|
    && m.bp + |cx.f.params| + 1 < cx.w.top
    && InRange(s)
    && Loaded(cx.w, m.mem)
    && s.glo.Keys == GloNames(cx.w.p.globals)
    && (forall x | x in s.glo :: Get(m.mem, cx.w.p.globals[x].val) == s.glo[x])
    && (forall x | x in s.loc :: IsLoc(cx.Sc(), x) && Get(m.mem, SlotAddr(cx.f, m.bp, cx.Sc()[x].val)) == s.loc[x])
  }

  /** Stack words in use stay put, except for the variables of this frame. */
  ghost predicate Frame(cx: Cx, m: State, m2: State) {
    forall x :: x >= m.sp && x !in cx.w.gaddrs && !IsSlotAddr(cx.f, m.bp, x) ==> Get(m2.mem, x) == Get(m.mem, x)
  }

  /** `m2` is at `pc2` with the stack of `m`, the value in the accumulator and the store in memory. */
  ghost predicate After(cx: Cx, m: State, m2: State, v: Option<int>, s2: Store, pc2: int) {
    && m2.pc == pc2 && m2.sp == m.sp && m2.bp == m.bp
    && (v.Some? ==> m2.a == v.value && Int32(v.value))
    && Rel(cx, m2, s2) && Frame(cx, m, m2)
  }

  function ECode(cx: Cx, e: Expr, at: int): seq<int>
    requires WfExpr(cx.Sc(), e)
  {
    Code(cx.Sc(), cx.Loc(), e, at)
  }

  function Ev(cx: Cx, e: Expr, s: Store, fuel: nat): (o: Outcome)
    requires WfExpr(cx.Sc(), e)
    ensures !o.Ret?
  {
    Eval(cx.w.p, cx.Sc(), e, s, fuel)
  }

  /** The machine stands at the code of `e`, and evaluating `e` succeeds. */
  ghost predicate Ready(cx: Cx, e: Expr, m: State, s: Store, fuel: nat) {
    && CxOk(cx) && Rel(cx, m, s) && WfExpr(cx.Sc(), e)
    && InText(cx.w, m.pc, ECode(cx, e, m.pc)) && Ev(cx, e, s, fuel).Done?
  }

  /** The machine has run the code of `e`: accumulator and memory are as evaluated, `sp` and `bp` as before. */
  ghost predicate Ran(cx: Cx, e: Expr, m: State, s: Store, fuel: nat, n: nat, m2: State)
    requires Ready(cx, e, m, s, fuel)
  {
    && Steps(m, n, m2)
    && After(cx, m, m2, Ev(cx, e, s, fuel).v, Ev(cx, e, s, fuel).s, m.pc + |ECode(cx, e, m.pc)|)
  }

  // ---------------------------------------------------------------- small steps

  lemma Fetch(cx: Cx, m: State, s: Store, at: int, c: seq<int>, i: nat)
    requires Rel(cx, m, s) && InText(cx.w, at, c) && i < |c|
    ensures Get(m.mem, at + i) == c[i]
  {
    var k := at - cx.w.tbase + i;
    assert Get(m.mem, cx.w.tbase + k) == cx.w.text[k];
  }

  lemma TextSplit(w: World, at: int, c: seq<int>, d: seq<int>)
    requires InText(w, at, c + d)
    ensures InText(w, at, c) && InText(w, at + |c|, d)
  {
    forall i | 0 <= i < |c| ensures w.text[at - w.tbase + i] == c[i] {
      assert (c + d)[i] == c[i];
    }
    forall i | 0 <= i < |d| ensures w.text[at + |c| - w.tbase + i] == d[i] {
      assert (c + d)[|c| + i] == d[i];
    }
  }

  lemma One(m: State)
    requires Step(m).Next?
    ensures Steps(m, 1, Step(m).s)
  {
    assert Steps(Step(m).s, 0, Step(m).s);
  }

  /** Registers alone do not matter to the relation. */
  lemma SameMem(cx: Cx, m: State, s: Store, m2: State)
    requires Rel(cx, m, s) && m2.mem == m.mem && m2.bp == m.bp && m2.sp == m.sp
    ensures Rel(cx, m2, s) && Frame(cx, m, m2)
  {
  }

  lemma DoPush(cx: Cx, m: State, s: Store) returns (m2: State)
    requires CxOk(cx) && Rel(cx, m, s) && Get(m.mem, m.pc) == PSH
    ensures Steps(m, 1, m2)
    ensures m2 == m.(pc := m.pc + 1, sp := m.sp - 1, mem := m.mem[m.sp - 1 := m.a])
    ensures Rel(cx, m2, s) && Frame(cx, m, m2) && Get(m2.mem, m2.sp) == m.a
  {
    hide BodyScope, FunOk, Rel, CxOk, Frame;
    One(m);
    m2 := Step(m).s;
    BelowStack(cx, m, s, m2);
  }

  /** Writing just below the stack disturbs nothing. */
  lemma BelowStack(cx: Cx, m: State, s: Store, m2: State)
    requires CxOk(cx) && Rel(cx, m, s) && m2 == m.(pc := m.pc + 1, sp := m.sp - 1, mem := m.mem[m.sp - 1 := m.a])
    ensures Rel(cx, m2, s) && Frame(cx, m, m2)
  {
    hide BodyScope, FunOk;
    forall z | z in s.glo ensures Get(m2.mem, cx.w.p.globals[z].val) == s.glo[z] { assert IsGlo(cx.w.p.globals, z); }
  }

  function VarAddr(cx: Cx, bp: int, y: Sym): int {
    if y.cls == CLoc then SlotAddr(cx.f, bp, y.val) else y.val
  }

  lemma DoAddr(cx: Cx, m: State, s: Store, y: Sym) returns (m2: State)
    requires Rel(cx, m, s)
    requires (y.cls == CLoc || y.cls == CGlo) && InText(cx.w, m.pc, AddrCode(y, cx.Loc()))
    ensures Steps(m, 1, m2)
    ensures m2 == m.(pc := m.pc + 2, a := VarAddr(cx, m.bp, y))
    ensures Rel(cx, m2, s) && Frame(cx, m, m2)
  {
    Fetch(cx, m, s, m.pc, AddrCode(y, cx.Loc()), 0);
    Fetch(cx, m, s, m.pc, AddrCode(y, cx.Loc()), 1);
    One(m);
    m2 := Step(m).s;
  }

  lemma DoImm(cx: Cx, m: State, s: Store, v: int) returns (m2: State)
    requires Rel(cx, m, s) && InText(cx.w, m.pc, [IMM, v])
    ensures Steps(m, 1, m2) && m2 == m.(pc := m.pc + 2, a := v)
    ensures Rel(cx, m2, s) && Frame(cx, m, m2)
  {
    Fetch(cx, m, s, m.pc, [IMM, v], 0);
    Fetch(cx, m, s, m.pc, [IMM, v], 1);
    One(m);
    m2 := Step(m).s;
  }

  lemma DoBranch(cx: Cx, m: State, s: Store, i: int, to: int) returns (m2: State)
    requires Rel(cx, m, s) && InText(cx.w, m.pc, [i, to]) && (i == BZ || i == BNZ || i == JMP)
    ensures Steps(m, 1, m2)
    ensures m2 == m.(pc := if i == JMP || (i == BZ) == (m.a == 0) then to else m.pc + 2)
    ensures Rel(cx, m2, s) && Frame(cx, m, m2)
  {
    Fetch(cx, m, s, m.pc, [i, to], 0);
    Fetch(cx, m, s, m.pc, [i, to], 1);
    One(m);
    m2 := Step(m).s;
  }

  lemma DoLoad(cx: Cx, m: State, s: Store, x: int) returns (m2: State)
    requires CxOk(cx) && Rel(cx, m, s) && Get(m.mem, m.pc) == LI && VarOk(cx, x)
    requires ReadVar(x, cx.Sc()[x], s).Some? && m.a == VarAddr(cx, m.bp, cx.Sc()[x])
    ensures Steps(m, 1, m2) && m2 == m.(pc := m.pc + 1, a := ReadVar(x, cx.Sc()[x], s).value)
    ensures Rel(cx, m2, s) && Frame(cx, m, m2) && Int32(m2.a)
  {
    hide BodyScope, FunOk, Rel, CxOk, Frame, VarAddr, ReadVar;
    One(m);
    m2 := Step(m).s;
    Held(cx, m, s, x);
    RelBounds(cx, m, s);
    SameMemory(cx, m, s, m2);
  }

  /** The word of a variable holds its value. */
  lemma Held(cx: Cx, m: State, s: Store, x: int)
    requires CxOk(cx) && Rel(cx, m, s) && VarOk(cx, x) && ReadVar(x, cx.Sc()[x], s).Some?
    ensures var v := ReadVar(x, cx.Sc()[x], s).value; Get(m.mem, VarAddr(cx, m.bp, cx.Sc()[x])) == v && Int32(v)
  {
    hide FunOk;
  }

  /** With the memory and the frame as they were, and no more of the stack, the store is what it was. */
  lemma SameMemory(cx: Cx, m: State, s: Store, m2: State)
    requires Rel(cx, m, s) && m2.mem == m.mem && m2.bp == m.bp && m2.sp <= m.bp - |cx.f.locals|
    ensures Rel(cx, m2, s) && Frame(cx, m, m2)
  {
    hide BodyScope;
  }

  lemma DoOp(m: State, op: BinOp) returns (m2: State)
    requires Get(m.mem, m.pc) == Opcode(op) && Arith(op, Get(m.mem, m.sp), m.a).Some?
    ensures Steps(m, 1, m2)
    ensures m2 == m.(pc := m.pc + 1, sp := m.sp + 1, a := Arith(op, Get(m.mem, m.sp), m.a).value)
  {
    assert Decode(Opcode(op)) == op;
    One(m);
    m2 := Step(m).s;
  }

  /** A variable of the frame or a global. */
  predicate VarOk(cx: Cx, x: int) { x in cx.Sc() && (cx.Sc()[x].cls == CLoc || cx.Sc()[x].cls == CGlo) }

  /** `SI` pops the address pushed below the value and sets exactly that variable. */
  lemma DoStore(cx: Cx, m: State, s: Store, x: int) returns (m2: State)
    requires CxOk(cx) && Rel(cx, m, s) && VarOk(cx, x) && Int32(m.a)
    requires Get(m.mem, m.pc) == SI && Get(m.mem, m.sp) == VarAddr(cx, m.bp, cx.Sc()[x])
    requires m.sp + 1 <= m.bp - |cx.f.locals|
    ensures Steps(m, 1, m2) && m2 == m.(pc := m.pc + 1, sp := m.sp + 1, mem := m.mem[Get(m.mem, m.sp) := m.a])
    ensures Rel(cx, m2, WriteVar(x, cx.Sc()[x], m.a, s)) && Frame(cx, m, m2)
  {
    hide BodyScope, FunOk, Rel, CxOk;
    One(m);
    m2 := Step(m).s;
    Stored(cx, m, s, x, m2);
  }

  /** Different names are at different addresses, so the other variables keep their values. */
  lemma Stored(cx: Cx, m: State, s: Store, x: int, m2: State)
    requires CxOk(cx) && Rel(cx, m, s) && VarOk(cx, x) && Int32(m.a) && m.sp + 1 <= m.bp - |cx.f.locals|
    requires m2 == m.(pc := m.pc + 1, sp := m.sp + 1, mem := m.mem[VarAddr(cx, m.bp, cx.Sc()[x]) := m.a])
    ensures Rel(cx, m2, WriteVar(x, cx.Sc()[x], m.a, s)) && Frame(cx, m, m2)
  {
    hide BodyScope, FunOk;
    var t := WriteVar(x, cx.Sc()[x], m.a, s);
    assert Loaded(cx.w, m2.mem);
    assert t.glo.Keys == GloNames(cx.w.p.globals);
    forall z | z in t.glo ensures Get(m2.mem, cx.w.p.globals[z].val) == t.glo[z] { assert IsGlo(cx.w.p.globals, z); }
  }

  lemma LvalOk(cx: Cx, e: Expr)
    requires CxOk(cx) && IsLval(cx.Sc(), e)
    ensures VarOk(cx, LvalName(cx.Sc(), e))
  {
  }

  lemma Joined(cx: Cx, m: State, n1: nat, m1: State, n2: nat, m2: State, v: Option<int>, s2: Store, pc2: int)
    requires Steps(m, n1, m1) && m1.sp == m.sp && m1.bp == m.bp && Frame(cx, m, m1)
    requires Steps(m1, n2, m2) && After(cx, m1, m2, v, s2, pc2)
    ensures Steps(m, n1 + n2, m2) && After(cx, m, m2, v, s2, pc2)
  {
    StepsTrans(m, n1, m1, n2, m2);
  }

  /** A word pushed at `k` is still on top at `m3`; dropping it restores the stack of `m`. */
  lemma Popped(cx: Cx, m: State, k: State, s1: Store, m3: State, s3: Store, m2: State, s2: Store)
    requires CxOk(cx) && Rel(cx, k, s1) && Rel(cx, m3, s3) && Rel(cx, m2, s2)
    requires k.sp == m.sp - 1 && k.bp == m.bp && Frame(cx, m, k) && m.sp <= m.bp - |cx.f.locals|
    requires m3.sp == k.sp && m3.bp == k.bp && Frame(cx, k, m3)
    requires m2.sp == m.sp && m2.bp == m3.bp && Frame(cx, m3, m2)
    ensures Get(m3.mem, m3.sp) == Get(k.mem, k.sp)
    ensures Frame(cx, m, m2)
  {
    assert !IsSlotAddr(cx.f, k.bp, k.sp) && k.sp !in cx.w.gaddrs;
    forall x | x >= m.sp && x !in cx.w.gaddrs && !IsSlotAddr(cx.f, m.bp, x)
      ensures Get(m2.mem, x) == Get(m.mem, x)
    {
      assert Get(k.mem, x) == Get(m.mem, x);
      assert Get(m3.mem, x) == Get(k.mem, x);
    }
  }

  lemma OnTop(cx: Cx, k: State, s1: Store, m3: State)
    requires CxOk(cx) && Rel(cx, k, s1) && k.sp < k.bp - |cx.f.locals| && m3.sp == k.sp && Frame(cx, k, m3)
    ensures Get(m3.mem, m3.sp) == Get(k.mem, k.sp)
  {
    assert !IsSlotAddr(cx.f, k.bp, k.sp) && k.sp !in cx.w.gaddrs;
  }

  /** Push at `m`, run on to `m3` with the word still there, then apply an operator to the two. */
  lemma DoBinary(cx: Cx, m: State, k: State, s1: Store, n3: nat, m3: State, s3: Store, op: BinOp) returns (m2: State)
    requires CxOk(cx) && Steps(m, 1, k) && Rel(cx, k, s1)
    requires k.sp == m.sp - 1 && k.bp == m.bp && Frame(cx, m, k) && m.sp <= m.bp - |cx.f.locals|
    requires Steps(k, n3, m3) && Rel(cx, m3, s3) && m3.sp == k.sp && m3.bp == k.bp && Frame(cx, k, m3)
    requires Get(m3.mem, m3.pc) == Opcode(op) && Arith(op, Get(k.mem, k.sp), m3.a).Some?
    ensures Steps(m, n3 + 2, m2)
    ensures After(cx, m, m2, Arith(op, Get(k.mem, k.sp), m3.a), s3, m3.pc + 1)
  {
    hide CxOk, Rel, Frame, Steps, BodyScope, Opcode, Bitwise;
    OnTop(cx, k, s1, m3);
    m2 := DoOp(m3, op);
    StepsTrans(m, 1, k, n3, m3);
    StepsTrans(m, 1 + n3, m3, 1, m2);
    SameMemory(cx, m3, s3, m2);
    Popped(cx, m, k, s1, m3, s3, m2, s3);
  }

  // ---------------------------------------------------------------- expressions

  /** Running the words of an expression yields its value and store, with `sp` and `bp` restored. */
  lemma {:induction false} ExprSim(cx: Cx, e: Expr, m: State, s: Store, fuel: nat) returns (n: nat, m2: State)
    requires Ready(cx, e, m, s, fuel)
    ensures Ran(cx, e, m, s, fuel, n, m2)
    decreases fuel, e, 1
  {
    hide CxOk, Rel, Frame, InText, Steps, BodyScope;
    match e
    case Num(v) => n, m2 := LeafSim(cx, e, m, s, fuel);
    case Var(x) => n, m2 := LeafSim(cx, e, m, s, fuel);
    case Paren(i) => n, m2 := ExprSim(cx, i, m, s, fuel);
    case Plus(i) => n, m2 := ExprSim(cx, i, m, s, fuel);
    case Bin(op, l, r) => n, m2 := BinSim(cx, e, m, s, fuel);
    case Assign(l, r) => n, m2 := AssignSim(cx, e, m, s, fuel);
    case Cond(c, t, f) => n, m2 := CondSim(cx, e, m, s, fuel);
    case Lor(l, r) => n, m2 := ShortSim(cx, e, m, s, fuel);
    case Lan(l, r) => n, m2 := ShortSim(cx, e, m, s, fuel);
    case Not(i) => n, m2 := UnarySim(cx, e, m, s, fuel);
    case BitNot(i) => n, m2 := UnarySim(cx, e, m, s, fuel);
    case Neg(i) => n, m2 := NegSim(cx, e, m, s, fuel);
    case PreStep(up, i) => n, m2 := StepSim(cx, e, m, s, fuel);
    case PostStep(up, i) => n, m2 := StepSim(cx, e, m, s, fuel);
    case Call(x, args) => n, m2 := CallSim(cx, e, m, s, fuel);
  }

  lemma LeafSim(cx: Cx, e: Expr, m: State, s: Store, fuel: nat) returns (n: nat, m2: State)
    requires Ready(cx, e, m, s, fuel) && (e.Num? || e.Var?)
    ensures Ran(cx, e, m, s, fuel, n, m2)
  {
    hide CxOk, Rel, Frame, InText, Steps, BodyScope;
    if e.Num? {
      m2 := DoImm(cx, m, s, e.n);
      n := 1;
    } else if cx.Sc()[e.x].cls == CNum {
      m2 := DoImm(cx, m, s, cx.Sc()[e.x].val);
      n := 1;
    } else {
      var y := cx.Sc()[e.x];
      TextSplit(cx.w, m.pc, AddrCode(y, cx.Loc()), [LI]);
      var m1 := DoAddr(cx, m, s, y);
      Fetch(cx, m1, s, m1.pc, [LI], 0);
      m2 := DoLoad(cx, m1, s, e.x);
      Joined(cx, m, 1, m1, 1, m2, ReadVar(e.x, y, s), s, m2.pc);
      n := 2;
    }
  }

  lemma {:induction false} BinSim(cx: Cx, e: Expr, m: State, s: Store, fuel: nat) returns (n: nat, m2: State)
    requires Ready(cx, e, m, s, fuel) && e.Bin?
    ensures Ran(cx, e, m, s, fuel, n, m2)
    decreases fuel, e, 0
  {
    hide CxOk, Rel, Frame, InText, Steps, Arith, BodyScope;
    var c0 := ECode(cx, e.l, m.pc);
    var c1 := ECode(cx, e.r, m.pc + |c0| + 1);
    TextSplit(cx.w, m.pc, c0 + [PSH] + c1, [Opcode(e.op)]);
    TextSplit(cx.w, m.pc, c0 + [PSH], c1);
    TextSplit(cx.w, m.pc, c0, [PSH]);
    var o1 := Ev(cx, e.l, s, fuel);
    var o2 := Ev(cx, e.r, o1.s, fuel);
    var n1, m1 := ExprSim(cx, e.l, m, s, fuel);
    Fetch(cx, m1, o1.s, m1.pc, [PSH], 0);
    var k := DoPush(cx, m1, o1.s);
    var n3, m3 := ExprSim(cx, e.r, k, o1.s, fuel);
    Fetch(cx, m3, o2.s, m3.pc, [Opcode(e.op)], 0);
    RelBounds(cx, m1, o1.s);
    m2 := DoBinary(cx, m1, k, o1.s, n3, m3, o2.s, e.op);
    Joined(cx, m, n1, m1, n3 + 2, m2, Arith(e.op, m1.a, m3.a), o2.s, m2.pc);
    n := n1 + (n3 + 2);
  }

  lemma RelBounds(cx: Cx, m: State, s: Store)
    requires Rel(cx, m, s)
    ensures m.sp <= m.bp - |cx.f.locals| && m.bp + |cx.f.params| + 1 < cx.w.top
  {
  }

  /** `!` and `~` push their operand and combine it with an immediate. */
  lemma {:induction false} UnarySim(cx: Cx, e: Expr, m: State, s: Store, fuel: nat) returns (n: nat, m2: State)
    requires Ready(cx, e, m, s, fuel) && (e.Not? || e.BitNot?)
    ensures Ran(cx, e, m, s, fuel, n, m2)
    decreases fuel, e, 0
  {
    hide CxOk, Rel, Frame, InText, Steps, Bitwise, BodyScope;
    var c0 := ECode(cx, e.inner, m.pc);
    var (v, op) := if e.Not? then (0, Eq) else (-1, Xor);
    assert ECode(cx, e, m.pc) == c0 + ([PSH] + ([IMM, v] + [Opcode(op)]));
    TextSplit(cx.w, m.pc, c0, [PSH] + ([IMM, v] + [Opcode(op)]));
    TextSplit(cx.w, m.pc + |c0|, [PSH], [IMM, v] + [Opcode(op)]);
    TextSplit(cx.w, m.pc + |c0| + 1, [IMM, v], [Opcode(op)]);
    var o := Ev(cx, e.inner, s, fuel);
    var n1, m1 := ExprSim(cx, e.inner, m, s, fuel);
    Fetch(cx, m1, o.s, m1.pc, [PSH], 0);
    var k := DoPush(cx, m1, o.s);
    var m3 := DoImm(cx, k, o.s, v);
    Fetch(cx, m3, o.s, m3.pc, [Opcode(op)], 0);
    RelBounds(cx, m1, o.s);
    m2 := DoBinary(cx, m1, k, o.s, 1, m3, o.s, op);
    XorMinusOne(o.v.value);
    Joined(cx, m, n1, m1, 3, m2, Ev(cx, e, s, fuel).v, o.s, m2.pc);
    n := n1 + 3;
  }

  /** Unary minus is a negated literal or a product with -1. */
  lemma {:induction false} NegSim(cx: Cx, e: Expr, m: State, s: Store, fuel: nat) returns (n: nat, m2: State)
    requires Ready(cx, e, m, s, fuel) && e.Neg?
    ensures Ran(cx, e, m, s, fuel, n, m2)
    decreases fuel, e, 0
  {
    hide CxOk, Rel, Frame, InText, Steps, BodyScope;
    if e.inner.Num? {
      assert Ev(cx, e.inner, s, fuel) == Done(Some(e.inner.n), s);
      m2 := DoImm(cx, m, s, Wrap(-e.inner.n));
      n := 1;
    } else {
      var c0 := ECode(cx, e.inner, m.pc + 3);
      assert ECode(cx, e, m.pc) == [IMM, -1] + ([PSH] + (c0 + [Opcode(Mul)]));
      TextSplit(cx.w, m.pc, [IMM, -1], [PSH] + (c0 + [Opcode(Mul)]));
      TextSplit(cx.w, m.pc + 2, [PSH], c0 + [Opcode(Mul)]);
      TextSplit(cx.w, m.pc + 3, c0, [Opcode(Mul)]);
      var o := Ev(cx, e.inner, s, fuel);
      var m1 := DoImm(cx, m, s, -1);
      Fetch(cx, m1, s, m1.pc, [PSH], 0);
      var k := DoPush(cx, m1, s);
      var n3, m3 := ExprSim(cx, e.inner, k, s, fuel);
      Fetch(cx, m3, o.s, m3.pc, [Opcode(Mul)], 0);
      RelBounds(cx, m1, s);
      m2 := DoBinary(cx, m1, k, s, n3, m3, o.s, Mul);
      Joined(cx, m, 1, m1, n3 + 2, m2, Ev(cx, e, s, fuel).v, o.s, m2.pc);
      n := 1 + (n3 + 2);
    }
  }

  /** An address pushed at `m` receives the value computed on the way to `m3`. */
  lemma StoreBack(cx: Cx, m: State, s: Store, x: int, k: State, n3: nat, m3: State, s3: Store) returns (m2: State)
    requires CxOk(cx) && VarOk(cx, x) && Rel(cx, m, s) && m.a == VarAddr(cx, m.bp, cx.Sc()[x])
    requires Steps(m, 1, k) && k == m.(pc := m.pc + 1, sp := m.sp - 1, mem := m.mem[m.sp - 1 := m.a])
    requires Rel(cx, k, s) && Frame(cx, m, k)
    requires Steps(k, n3, m3) && After(cx, k, m3, Some(m3.a), s3, m3.pc) && Get(m3.mem, m3.pc) == SI
    ensures Steps(m, n3 + 2, m2)
    ensures After(cx, m, m2, Some(m3.a), WriteVar(x, cx.Sc()[x], m3.a, s3), m3.pc + 1)
  {
    hide CxOk, Frame, InText, Steps, BodyScope, InRange, Loaded;
    assert Get(k.mem, k.sp) == m.a;
    OnTop(cx, k, s, m3);
    m2 := DoStore(cx, m3, s3, x);
    StepsTrans(m, 1, k, n3, m3);
    StepsTrans(m, 1 + n3, m3, 1, m2);
    Popped(cx, m, k, s, m3, s3, m2, WriteVar(x, cx.Sc()[x], m3.a, s3));
  }

  /** The words of an assignment and what it evaluates to. */
  lemma AssignParts(cx: Cx, e: Expr, m: State, s: Store, fuel: nat)
    requires Ready(cx, e, m, s, fuel) && e.Assign?
    ensures IsLval(cx.Sc(), e.lhs) && WfExpr(cx.Sc(), e.rhs)
    ensures var c0 := ECode(cx, e.rhs, m.pc + 3);
      && InText(cx.w, m.pc, AddrCode(cx.Sc()[LvalName(cx.Sc(), e.lhs)], cx.Loc())) && InText(cx.w, m.pc + 2, [PSH])
      && InText(cx.w, m.pc + 3, c0) && InText(cx.w, m.pc + 3 + |c0|, [SI]) && |ECode(cx, e, m.pc)| == |c0| + 4
    ensures var o := Ev(cx, e.rhs, s, fuel); var x := LvalName(cx.Sc(), e.lhs);
      o.Done? && o.v.Some? && Ev(cx, e, s, fuel) == Done(o.v, WriteVar(x, cx.Sc()[x], o.v.value, o.s))
  {
    hide CxOk, Rel, InText, BodyScope;
    var x := LvalName(cx.Sc(), e.lhs);
    var ca := AddrCode(cx.Sc()[x], cx.Loc());
    var c0 := ECode(cx, e.rhs, m.pc + 3);
    TextSplit(cx.w, m.pc, ca + [PSH] + c0, [SI]);
    TextSplit(cx.w, m.pc, ca + [PSH], c0);
    TextSplit(cx.w, m.pc, ca, [PSH]);
  }

  lemma {:induction false} AssignSim(cx: Cx, e: Expr, m: State, s: Store, fuel: nat) returns (n: nat, m2: State)
    requires Ready(cx, e, m, s, fuel) && e.Assign?
    ensures Ran(cx, e, m, s, fuel, n, m2)
    decreases fuel, e, 0
  {
    hide CxOk, Rel, Frame, InText, Steps, BodyScope, ECode, Ev, WfExpr, IsLval, LvalName, AddrCode, WriteVar;
    AssignParts(cx, e, m, s, fuel);
    var x := LvalName(cx.Sc(), e.lhs);
    var y := cx.Sc()[x];
    LvalOk(cx, e.lhs);
    var o := Ev(cx, e.rhs, s, fuel);
    var m1 := DoAddr(cx, m, s, y);
    Fetch(cx, m1, s, m1.pc, [PSH], 0);
    var k := DoPush(cx, m1, s);
    var n3, m3 := ExprSim(cx, e.rhs, k, s, fuel);
    Fetch(cx, m3, o.s, m3.pc, [SI], 0);
    m2 := StoreBack(cx, m1, s, x, k, n3, m3, o.s);
    Joined(cx, m, 1, m1, n3 + 2, m2, o.v, WriteVar(x, y, m3.a, o.s), m2.pc);
    n := 1 + (n3 + 2);
  }

  lemma WrapBack(v: int)
    requires Int32(v)
    ensures Wrap(Wrap(v + 1) - 1) == v && Wrap(Wrap(v - 1) + 1) == v
  {
  }

  /** Add an immediate one to the accumulator, or take it away. */
  lemma AddOne(cx: Cx, m: State, s: Store, op: BinOp) returns (m2: State)
    requires CxOk(cx) && Rel(cx, m, s) && InText(cx.w, m.pc, [PSH, IMM, 1, Opcode(op)]) && (op == Add || op == Sub)
    ensures Steps(m, 3, m2)
    ensures After(cx, m, m2, Some(Wrap(if op == Add then m.a + 1 else m.a - 1)), s, m.pc + 4)
  {
    hide CxOk, Rel, Frame, InText, Steps, BodyScope, Wrap;
    assert [PSH, IMM, 1, Opcode(op)] == [PSH] + ([IMM, 1] + [Opcode(op)]);
    TextSplit(cx.w, m.pc, [PSH], [IMM, 1] + [Opcode(op)]);
    TextSplit(cx.w, m.pc + 1, [IMM, 1], [Opcode(op)]);
    Fetch(cx, m, s, m.pc, [PSH], 0);
    var k := DoPush(cx, m, s);
    var m3 := DoImm(cx, k, s, 1);
    Fetch(cx, m3, s, m3.pc, [Opcode(op)], 0);
    RelBounds(cx, m, s);
    m2 := DoBinary(cx, m, k, s, 1, m3, s, op);
  }

  /** The common part of `++x` and `x++`: read, step and store back. */
  lemma StepStore(cx: Cx, m: State, s: Store, x: int, up: bool) returns (m2: State)
    requires CxOk(cx) && VarOk(cx, x) && Rel(cx, m, s) && ReadVar(x, cx.Sc()[x], s).Some?
    requires InText(cx.w, m.pc, AddrCode(cx.Sc()[x], cx.Loc()) + StepCode(up) + [SI])
    ensures Steps(m, 7, m2)
    ensures var v := ReadVar(x, cx.Sc()[x], s).value; var w := Wrap(if up then v + 1 else v - 1);
      After(cx, m, m2, Some(w), WriteVar(x, cx.Sc()[x], w, s), m.pc + 9)
  {
    hide CxOk, Rel, Frame, InText, Steps, BodyScope, Wrap, ReadVar, WriteVar, StepCode, AddrCode, Opcode;
    var y := cx.Sc()[x];
    var op := if up then Add else Sub;
    var ca := AddrCode(y, cx.Loc());
    StepParts(cx.w, m.pc, y, cx.Loc(), up);
    var m1 := DoAddr(cx, m, s, y);
    Fetch(cx, m1, s, m1.pc, [PSH], 0);
    var k := DoPush(cx, m1, s);
    Fetch(cx, k, s, k.pc, [LI], 0);
    var m3 := DoLoad(cx, k, s, x);
    var m4 := AddOne(cx, m3, s, op);
    Joined(cx, k, 1, m3, 3, m4, Some(m4.a), s, m4.pc);
    Fetch(cx, m4, s, m4.pc, [SI], 0);
    m2 := StoreBack(cx, m1, s, x, k, 4, m4, s);
    Joined(cx, m, 1, m1, 6, m2, Some(m4.a), WriteVar(x, y, m4.a, s), m2.pc);
  }

  /** The words of a step by their parts. */
  lemma StepParts(w: World, at: int, y: Sym, loc: int, up: bool)
    requires InText(w, at, AddrCode(y, loc) + StepCode(up) + [SI])
    ensures InText(w, at, AddrCode(y, loc)) && InText(w, at + 2, [PSH]) && InText(w, at + 3, [LI])
    ensures InText(w, at + 4, [PSH, IMM, 1, Opcode(if up then Add else Sub)]) && InText(w, at + 8, [SI])
  {
    hide InText;
    var ca := AddrCode(y, loc);
    var one := [PSH, IMM, 1, Opcode(if up then Add else Sub)];
    assert ca + StepCode(up) + [SI] == ca + ([PSH] + ([LI] + (one + [SI])));
    TextSplit(w, at, ca, [PSH] + ([LI] + (one + [SI])));
    TextSplit(w, at + 2, [PSH], [LI] + (one + [SI]));
    TextSplit(w, at + 3, [LI], one + [SI]);
    TextSplit(w, at + 4, one, [SI]);
  }

  lemma StepSim(cx: Cx, e: Expr, m: State, s: Store, fuel: nat) returns (n: nat, m2: State)
    requires Ready(cx, e, m, s, fuel) && (e.PreStep? || e.PostStep?)
    ensures Ran(cx, e, m, s, fuel, n, m2)
  {
    hide CxOk, Rel, Frame, InText, Steps, BodyScope, Wrap;
    var x := LvalName(cx.Sc(), e.inner);
    var y := cx.Sc()[x];
    LvalOk(cx, e.inner);
    var c := AddrCode(y, cx.Loc()) + StepCode(e.up) + [SI];
    if e.PreStep? {
      m2 := StepStore(cx, m, s, x, e.up);
      n := 7;
    } else {
      var op := if e.up then Sub else Add;
      TextSplit(cx.w, m.pc, c, [PSH, IMM, 1, Opcode(op)]);
      var m1 := StepStore(cx, m, s, x, e.up);
      var t := Ev(cx, e, s, fuel).s;
      m2 := AddOne(cx, m1, t, op);
      OldInRange(cx, m, s, x);
      WrapBack(ReadVar(x, y, s).value);
      Joined(cx, m, 7, m1, 3, m2, Ev(cx, e, s, fuel).v, t, m2.pc);
      n := 10;
    }
  }

  lemma OldInRange(cx: Cx, m: State, s: Store, x: int)
    requires Rel(cx, m, s) && VarOk(cx, x) && ReadVar(x, cx.Sc()[x], s).Some?
    ensures Int32(ReadVar(x, cx.Sc()[x], s).value)
  {
  }

  lemma {:induction false} CondSim(cx: Cx, e: Expr, m: State, s: Store, fuel: nat) returns (n: nat, m2: State)
    requires Ready(cx, e, m, s, fuel) && e.Cond?
    ensures Ran(cx, e, m, s, fuel, n, m2)
    decreases fuel, e, 0
  {
    hide CxOk, Rel, Frame, InText, Steps, BodyScope;
    var c0 := ECode(cx, e.c, m.pc);
    var at1 := m.pc + |c0| + 2;
    var c1 := ECode(cx, e.t, at1);
    var at2 := at1 + |c1| + 2;
    var c2 := ECode(cx, e.f, at2);
    var end := at2 + |c2|;
    TextSplit(cx.w, m.pc, c0 + [BZ, at2] + c1 + [JMP, end], c2);
    TextSplit(cx.w, m.pc, c0 + [BZ, at2] + c1, [JMP, end]);
    TextSplit(cx.w, m.pc, c0 + [BZ, at2], c1);
    TextSplit(cx.w, m.pc, c0, [BZ, at2]);
    var o := Ev(cx, e.c, s, fuel);
    var n1, m1 := ExprSim(cx, e.c, m, s, fuel);
    var k := DoBranch(cx, m1, o.s, BZ, at2);
    if o.v.value != 0 {
      var q := Ev(cx, e.t, o.s, fuel);
      var n3, m3 := ExprSim(cx, e.t, k, o.s, fuel);
      m2 := DoBranch(cx, m3, q.s, JMP, end);
      Joined(cx, k, n3, m3, 1, m2, q.v, q.s, end);
      Joined(cx, m1, 1, k, n3 + 1, m2, q.v, q.s, end);
      Joined(cx, m, n1, m1, 1 + (n3 + 1), m2, q.v, q.s, end);
      n := n1 + (1 + (n3 + 1));
    } else {
      var q := Ev(cx, e.f, o.s, fuel);
      var n3; n3, m2 := ExprSim(cx, e.f, k, o.s, fuel);
      Joined(cx, m1, 1, k, n3, m2, q.v, q.s, end);
      Joined(cx, m, n1, m1, 1 + n3, m2, q.v, q.s, end);
      n := n1 + (1 + n3);
    }
  }

  /** `||` and `&&` jump over the right operand and leave the last operand evaluated. */
  lemma {:induction false} ShortSim(cx: Cx, e: Expr, m: State, s: Store, fuel: nat) returns (n: nat, m2: State)
    requires Ready(cx, e, m, s, fuel) && (e.Lor? || e.Lan?)
    ensures Ran(cx, e, m, s, fuel, n, m2)
    decreases fuel, e, 0
  {
    hide CxOk, Rel, Frame, InText, Steps, BodyScope;
    var c0 := ECode(cx, e.l, m.pc);
    var at1 := m.pc + |c0| + 2;
    var c1 := ECode(cx, e.r, at1);
    var i := if e.Lor? then BNZ else BZ;
    var end := at1 + |c1|;
    TextSplit(cx.w, m.pc, c0 + [i, end], c1);
    TextSplit(cx.w, m.pc, c0, [i, end]);
    var o := Ev(cx, e.l, s, fuel);
    var n1, m1 := ExprSim(cx, e.l, m, s, fuel);
    var k := DoBranch(cx, m1, o.s, i, end);
    if (o.v.value == 0) == e.Lor? {
      var q := Ev(cx, e.r, o.s, fuel);
      var n3; n3, m2 := ExprSim(cx, e.r, k, o.s, fuel);
      Joined(cx, m1, 1, k, n3, m2, q.v, q.s, end);
      Joined(cx, m, n1, m1, 1 + n3, m2, q.v, q.s, end);
      n := n1 + (1 + n3);
    } else {
      m2 := k;
      Joined(cx, m, n1, m1, 1, m2, o.v, o.s, end);
      n := n1 + 1;
    }
  }

  // ---------------------------------------------------------------- calls

  ghost predicate ArgsReady(cx: Cx, args: Args, m: State, s: Store, fuel: nat) {
    && CxOk(cx) && Rel(cx, m, s) && WfArgs(cx.Sc(), args)
    && InText(cx.w, m.pc, ArgsCode(cx.Sc(), cx.Loc(), args, m.pc))
    && EvalArgs(cx.w.p, cx.Sc(), args, s, fuel).0.Done?
  }

  /** The values stand on the stack, first argument highest. */
  ghost predicate Pushed(m: State, vs: seq<int>, m2: State) {
    && m2.sp == m.sp - |vs| && m2.bp == m.bp
    && forall i :: 0 <= i < |vs| ==> Int32(vs[i]) && Get(m2.mem, m.sp - 1 - i) == vs[i]
  }

  lemma PushedMore(cx: Cx, m: State, m1: State, s1: Store, k: State, v: int, vs: seq<int>, m2: State)
    requires CxOk(cx) && Rel(cx, m1, s1) && m1.sp == m.sp && m1.bp == m.bp && Frame(cx, m, m1) && Int32(v)
    requires Rel(cx, k, s1) && k.sp == m.sp - 1 && k.bp == m.bp && Frame(cx, m1, k) && Get(k.mem, k.sp) == v
    requires Pushed(k, vs, m2) && Frame(cx, k, m2)
    ensures Pushed(m, [v] + vs, m2) && Frame(cx, m, m2)
  {
    assert !IsSlotAddr(cx.f, k.bp, k.sp) && k.sp !in cx.w.gaddrs;
    var ws := [v] + vs;
    forall i | 0 <= i < |ws| ensures Int32(ws[i]) && Get(m2.mem, m.sp - 1 - i) == ws[i] {
      if i > 0 {
        assert Get(m2.mem, k.sp - 1 - (i - 1)) == vs[i - 1];
      }
    }
    forall x | x >= m.sp && x !in cx.w.gaddrs && !IsSlotAddr(cx.f, m.bp, x)
      ensures Get(m2.mem, x) == Get(m.mem, x)
    {
      assert Get(m1.mem, x) == Get(m.mem, x);
      assert Get(k.mem, x) == Get(m1.mem, x);
    }
  }

  ghost predicate ArgsRan(cx: Cx, args: Args, m: State, s: Store, fuel: nat, n: nat, m2: State)
    requires ArgsReady(cx, args, m, s, fuel)
  {
    var (o, vs) := EvalArgs(cx.w.p, cx.Sc(), args, s, fuel);
    && Steps(m, n, m2) && m2.pc == m.pc + |ArgsCode(cx.Sc(), cx.Loc(), args, m.pc)|
    && Pushed(m, vs, m2) && Rel(cx, m2, o.s) && Frame(cx, m, m2)
  }

  lemma {:induction false} ArgsSim(cx: Cx, args: Args, m: State, s: Store, fuel: nat) returns (n: nat, m2: State)
    requires ArgsReady(cx, args, m, s, fuel)
    ensures ArgsRan(cx, args, m, s, fuel, n, m2)
    decreases fuel, args, 1
  {
    hide CxOk, Rel, Frame, InText, BodyScope;
    if args.ANil? {
      n, m2 := 0, m;
      SameMem(cx, m, s, m);
    } else {
      n, m2 := ArgsConsSim(cx, args, m, s, fuel);
    }
  }

  lemma {:induction false} ArgsConsSim(cx: Cx, args: Args, m: State, s: Store, fuel: nat) returns (n: nat, m2: State)
    requires ArgsReady(cx, args, m, s, fuel) && args.ACons?
    ensures ArgsRan(cx, args, m, s, fuel, n, m2)
    decreases fuel, args, 0
  {
    hide CxOk, Rel, Frame, InText, BodyScope, Steps, Pushed;
    var c0 := ECode(cx, args.head, m.pc);
    var c1 := ArgsCode(cx.Sc(), cx.Loc(), args.tail, m.pc + |c0| + 1);
    TextSplit(cx.w, m.pc, c0 + [PSH], c1);
    TextSplit(cx.w, m.pc, c0, [PSH]);
    var o := Ev(cx, args.head, s, fuel);
    var vs := EvalArgs(cx.w.p, cx.Sc(), args.tail, o.s, fuel).1;
    var n1, m1 := ExprSim(cx, args.head, m, s, fuel);
    Fetch(cx, m1, o.s, m1.pc, [PSH], 0);
    var k := DoPush(cx, m1, o.s);
    var n3; n3, m2 := ArgsSim(cx, args.tail, k, o.s, fuel);
    PushedMore(cx, m, m1, o.s, k, o.v.value, vs, m2);
    StepsTrans(m, n1, m1, 1, k);
    StepsTrans(m, n1 + 1, k, n3, m2);
    n := n1 + 1 + n3;
  }

  function Frame0(g: FunDef, vs: seq<int>, s: Store): Store
    requires |g.params| == |vs|
  {
    Store(Bound(g.params, vs), s.glo)
  }

  lemma {:induction false} BoundAt(ids: seq<int>, vs: seq<int>, x: int) returns (i: nat)
    requires |ids| == |vs| && x in ids
    ensures i < |ids| && ids[i] == x && Bound(ids, vs)[x] == vs[i]
    decreases |ids|
  {
    var k := |ids| - 1;
    if ids[k] == x {
      i := k;
    } else {
      i := BoundAt(ids[..k], vs[..k], x);
    }
  }

  /** Different local names of a frame are at different addresses, parameters above the saved registers, locals
      below. */
  ghost predicate SlotsApart(p: Program, f: FunDef, bp: int) {
    && (forall x, y | IsLoc(BodyScope(p, f), x) && IsLoc(BodyScope(p, f), y) && x != y ::
          SlotAddr(f, bp, BodyScope(p, f)[x].val) != SlotAddr(f, bp, BodyScope(p, f)[y].val))
    && (forall i: nat | i < |f.params| :: IsLoc(BodyScope(p, f), f.params[i])
          && SlotAddr(f, bp, BodyScope(p, f)[f.params[i]].val) == bp + 1 + |f.params| - i)
    && (forall i: nat | i < |f.locals| :: IsLoc(BodyScope(p, f), f.locals[i])
          && SlotAddr(f, bp, BodyScope(p, f)[f.locals[i]].val) == bp - 1 - i)
  }

  lemma FrameApart(w: World, f: FunDef, bp: int)
    requires CxOk(Cx(w, f)) && Distinct(f.params + f.locals)
    ensures SlotsApart(w.p, f, bp)
  {
    hide BodyScope, FunOk, WordsApart;
    forall i: nat | i < |f.params| ensures IsLoc(BodyScope(w.p, f), f.params[i]) &&
      SlotAddr(f, bp, BodyScope(w.p, f)[f.params[i]].val) == bp + 1 + |f.params| - i { ParamAt(w.p, f, i); }
    forall i: nat | i < |f.locals|
      ensures IsLoc(BodyScope(w.p, f), f.locals[i]) && SlotAddr(f, bp, BodyScope(w.p, f)[f.locals[i]].val) == bp - 1 - i
    {
      LocalAt(w.p, f, i);
    }
  }

  lemma DoJsr(cx: Cx, m: State, s: Store, addr: int) returns (j: State)
    requires Rel(cx, m, s) && InText(cx.w, m.pc, [JSR, addr])
    ensures Steps(m, 1, j) && j == m.(pc := addr, sp := m.sp - 1, mem := m.mem[m.sp - 1 := m.pc + 2])
  {
    Fetch(cx, m, s, m.pc, [JSR, addr], 0);
    Fetch(cx, m, s, m.pc, [JSR, addr], 1);
    One(m);
    j := Step(m).s;
  }

  lemma DoEnt(w: World, j: State, g: FunDef) returns (k: State)
    requires Loaded(w, j.mem) && FunOk(w, j.pc, g)
    ensures Steps(j, 1, k)
    ensures k == j.(pc := j.pc + 2, bp := j.sp - 1, sp := j.sp - 1 - |g.locals|, mem := j.mem[j.sp - 1 := j.bp])
  {
    hide WfStmts, StmtsCode, BodyScope;
    var c := FunCode(w.p, g, j.pc);
    assert c[0] == ENT && c[1] == |g.locals|;
    var t := j.pc - w.tbase;
    assert w.text[t + 0] == c[0] && w.text[t + 1] == c[1];
    assert Get(j.mem, w.tbase + (t + 0)) == ENT;
    assert Get(j.mem, w.tbase + (t + 1)) == |g.locals|;
    One(j);
    k := Step(j).s;
  }

  /** `JSR` and `ENT` build a frame whose parameter slots are the pushed arguments; every other local name has a
      word of its own that `ENT` reserved. */
  lemma Enter(cx: Cx, m: State, vs: seq<int>, m1: State, s: Store, addr: int, g: FunDef) returns (k: State)
    requires CxOk(cx) && Rel(cx, m1, s) && Pushed(m, vs, m1) && m.sp <= m.bp - |cx.f.locals|
    requires InText(cx.w, m1.pc, [JSR, addr]) && FunOk(cx.w, addr, g) && |g.params| == |vs|
    ensures Steps(m1, 2, k)
    ensures k.pc == addr + 2 && k.bp == m1.sp - 2 && k.sp == k.bp - |g.locals|
    ensures Get(k.mem, k.bp) == m1.bp && Get(k.mem, k.bp + 1) == m1.pc + 2
    ensures forall x :: x >= m1.sp ==> Get(k.mem, x) == Get(m1.mem, x)
    ensures Rel(Cx(cx.w, g), k, Frame0(g, vs, s)) && SlotsApart(cx.w.p, g, k.bp)
  {
    hide InText, Steps, BodyScope, FunOk, CxOk, SlotsApart, WorldOk;
    Known(cx, addr, g);
    var j := DoJsr(cx, m1, s, addr);
    assert Loaded(cx.w, j.mem) by { StillLoaded(cx, m1, s, m1.sp - 1, m1.pc + 2); }
    k := DoEnt(cx.w, j, g);
    StepsTrans(m1, 1, j, 1, k);
    BodyCx(cx.w, g);
    FrameApart(cx.w, g, k.bp);
    StillLoaded2(cx, m1, s, j.mem, m1.sp - 2, m1.bp);
    Entered(cx, m, vs, m1, s, g, k);
  }

  lemma Known(cx: Cx, addr: int, g: FunDef)
    requires CxOk(cx) && FunOk(cx.w, addr, g)
    ensures WorldOk(cx.w) && Distinct(g.params + g.locals)
  {
  }

  /** A word of the stack is not part of the program. */
  lemma StillLoaded(cx: Cx, m: State, s: Store, x: int, v: int)
    requires CxOk(cx) && Rel(cx, m, s) && x < m.sp
    ensures Loaded(cx.w, m.mem[x := v])
  {
  }

  lemma StillLoaded2(cx: Cx, m: State, s: Store, mem: Memory, x: int, v: int)
    requires CxOk(cx) && Rel(cx, m, s) && x < m.sp && Loaded(cx.w, mem)
    ensures Loaded(cx.w, mem[x := v])
  {
  }

  /** The new frame holds the arguments and nothing else yet. */
  lemma Entered(cx: Cx, m: State, vs: seq<int>, m1: State, s: Store, g: FunDef, k: State)
    requires CxOk(cx) && Rel(cx, m1, s) && Pushed(m, vs, m1) && m.sp <= m.bp - |cx.f.locals| && |g.params| == |vs|
    requires Loaded(cx.w, k.mem) && k.bp == m1.sp - 2 && k.sp == k.bp - |g.locals|
    requires forall x :: x >= m1.sp ==> Get(k.mem, x) == Get(m1.mem, x)
    requires SlotsApart(cx.w.p, g, k.bp)
    ensures Rel(Cx(cx.w, g), k, Frame0(g, vs, s))
  {
    hide BodyScope, FunOk, Loaded, SlotsApart, Pushed, Bound;
    var f0 := Frame0(g, vs, s);
    PushedCount(m, vs, m1);
    forall x | x in f0.loc
      ensures IsLoc(BodyScope(cx.w.p, g), x) && Get(k.mem, SlotAddr(g, k.bp, BodyScope(cx.w.p, g)[x].val)) == f0.loc[x]
      ensures Int32(f0.loc[x])
    {
      EnteredLoc(cx.w.p, m, vs, m1, g, k, x);
    }
    forall x | x in f0.glo ensures Get(k.mem, cx.w.p.globals[x].val) == f0.glo[x] {
      assert IsGlo(cx.w.p.globals, x);
    }
  }

  lemma EnteredLoc(p: Program, m: State, vs: seq<int>, m1: State, g: FunDef, k: State, x: int)
    requires Pushed(m, vs, m1) && |g.params| == |vs| && SlotsApart(p, g, k.bp) && k.bp == m1.sp - 2 && x in g.params
    requires forall x :: x >= m1.sp ==> Get(k.mem, x) == Get(m1.mem, x)
    ensures var v := Bound(g.params, vs)[x];
      Int32(v) && IsLoc(BodyScope(p, g), x) && Get(k.mem, SlotAddr(g, k.bp, BodyScope(p, g)[x].val)) == v
  {
    hide BodyScope, Bound;
    var i := BoundAt(g.params, vs, x);
    assert SlotAddr(g, k.bp, BodyScope(p, g)[g.params[i]].val) == m.sp - 1 - i;
  }

  /** `LEV` gives the caller its frame back; its variables and its stack are as before the call. */
  lemma Leave(cx: Cx, m: State, m1: State, s: Store, g: FunDef, k: State, m3: State, t: Store) returns (m2: State)
    requires CxOk(cx) && Rel(cx, m1, s) && m1.bp == m.bp && m1.sp == m.sp - |g.params| && Frame(cx, m, m1)
    requires m.sp <= m.bp - |cx.f.locals|
    requires k.bp == m1.sp - 2 && k.sp == k.bp - |g.locals|
    requires Get(k.mem, k.bp) == m1.bp && Get(k.mem, k.bp + 1) == m1.pc + 2
    requires forall x :: x >= m1.sp ==> Get(k.mem, x) == Get(m1.mem, x)
    requires m3.bp == k.bp && Rel(Cx(cx.w, g), m3, t) && Frame(Cx(cx.w, g), k, m3) && Get(m3.mem, m3.pc) == LEV
    ensures Steps(m3, 1, m2) && m2.pc == m1.pc + 2 && m2.sp == m1.sp && m2.bp == m.bp && m2.a == m3.a
    ensures Rel(cx, m2, Store(s.loc, t.glo)) && Frame(cx, m, m2)
  {
    assert k.bp < cx.w.top && k.bp + 1 < cx.w.top;
    assert !IsSlotAddr(g, k.bp, k.bp) && !IsSlotAddr(g, k.bp, k.bp + 1);
    assert Get(m3.mem, k.bp) == m1.bp && Get(m3.mem, k.bp + 1) == m1.pc + 2;
    m2 := Step(m3).s;
    One(m3);
    forall x | x >= m.sp && x !in cx.w.gaddrs ensures Get(m2.mem, x) == Get(m1.mem, x) {
      assert !IsSlotAddr(g, k.bp, x);
      assert Get(m3.mem, x) == Get(k.mem, x);
    }
    var u := Store(s.loc, t.glo);
    forall v | v in u.loc
      ensures IsLoc(cx.Sc(), v) && Get(m2.mem, SlotAddr(cx.f, m2.bp, cx.Sc()[v].val)) == u.loc[v]
    {
      var x := SlotAddr(cx.f, m2.bp, cx.Sc()[v].val);
      assert x >= m.sp && x < cx.w.top;
    }
  }

  lemma DoAdjust(cx: Cx, m: State, s: Store, k: nat) returns (m2: State)
    requires Rel(cx, m, s) && InText(cx.w, m.pc, [ADJ, k]) && m.sp + k <= m.bp - |cx.f.locals|
    ensures Steps(m, 1, m2) && m2 == m.(pc := m.pc + 2, sp := m.sp + k) && Rel(cx, m2, s)
  {
    Fetch(cx, m, s, m.pc, [ADJ, k], 0);
    Fetch(cx, m, s, m.pc, [ADJ, k], 1);
    One(m);
    m2 := Step(m).s;
  }

  /** From the argument values on the stack to the result: the caller finds its frame intact. */
  lemma {:induction false} InvokeSim(cx: Cx, m: State, vs: seq<int>, m1: State, s: Store, x: int, fuel: nat)
    returns (n: nat, m2: State)
    requires CxOk(cx) && Rel(cx, m1, s) && Pushed(m, vs, m1) && m.sp <= m.bp - |cx.f.locals| && Frame(cx, m, m1)
    requires x in cx.w.p.globals && InText(cx.w, m1.pc, [JSR, cx.w.p.globals[x].val]) &&
      Invoke(cx.w.p, x, vs, s, fuel).Done?
    ensures var o := Invoke(cx.w.p, x, vs, s, fuel);
      && Steps(m1, n, m2) && m2.pc == m1.pc + 2 && m2.sp == m1.sp && m2.bp == m.bp
      && (o.v.Some? ==> m2.a == o.v.value && Int32(m2.a))
      && Rel(cx, m2, o.s) && Frame(cx, m, m2)
    decreases fuel
  {
    hide Rel, Frame, InText, Steps, Pushed, BodyScope;
    var g := cx.w.p.funs[x];
    var addr := cx.w.p.globals[x].val;
    var dx := Cx(cx.w, g);
    assert FunOk(cx.w, addr, g);
    BodyCx(cx.w, g);
    PushedCount(m, vs, m1);
    var k := Enter(cx, m, vs, m1, s, addr, g);
    var c := StmtsCode(dx.Sc(), dx.Loc(), g.body, addr + 2);
    TextSplit(cx.w, addr, [ENT, |g.locals|] + c, [LEV]);
    TextSplit(cx.w, addr, [ENT, |g.locals|], c);
    var n3, m3 := StmtsSim(dx, g.body, k, Frame0(g, vs, s), fuel);
    var o := ExecAll(cx.w.p, dx.Sc(), g.body, Frame0(g, vs, s), fuel);
    if o.Done? {
      Fetch(dx, m3, o.s, m3.pc, [LEV], 0);
    }
    m2 := Leave(cx, m, m1, s, g, k, m3, o.s);
    StepsTrans(m1, 2, k, n3, m3);
    StepsTrans(m1, 2 + n3, m3, 1, m2);
    n := 2 + n3 + 1;
  }

  lemma PushedCount(m: State, vs: seq<int>, m1: State)
    requires Pushed(m, vs, m1)
    ensures m1.sp == m.sp - |vs| && m1.bp == m.bp
  {
  }

  /** Arguments, `JSR`, the callee's frame, `LEV` and `ADJ` leave the caller's `sp` and `bp` where they were. */
  lemma {:induction false} CallSim(cx: Cx, e: Expr, m: State, s: Store, fuel: nat) returns (n: nat, m2: State)
    requires Ready(cx, e, m, s, fuel) && e.Call?
    ensures Ran(cx, e, m, s, fuel, n, m2)
    decreases fuel, e, 0
  {
    hide CxOk, Rel, Frame, InText, Steps, Pushed, BodyScope, Invoke;
    var c0 := ArgsCode(cx.Sc(), cx.Loc(), e.args, m.pc);
    var addr := cx.Sc()[e.x].val;
    var tail := if e.args.ANil? then [] else [ADJ, e.args.Count()];
    TextSplit(cx.w, m.pc, c0 + [JSR, addr], tail);
    TextSplit(cx.w, m.pc, c0, [JSR, addr]);
    var (q, vs) := EvalArgs(cx.w.p, cx.Sc(), e.args, s, fuel);
    RelBounds(cx, m, s);
    var n1, m1 := ArgsSim(cx, e.args, m, s, fuel);
    PushedCount(m, vs, m1);
    var o := Ev(cx, e, s, fuel);
    CalleeKnown(cx, e.x);
    var n3, m3 := InvokeSim(cx, m, vs, m1, q.s, e.x, fuel - 1);
    StepsTrans(m, n1, m1, n3, m3);
    if e.args.ANil? {
      n, m2 := n1 + n3, m3;
    } else {
      m2 := DoAdjust(cx, m3, o.s, e.args.Count());
      Moved(cx, m, m3, m2);
      StepsTrans(m, n1 + n3, m3, 1, m2);
      n := n1 + n3 + 1;
    }
  }

  lemma CalleeKnown(cx: Cx, x: int)
    requires CxOk(cx) && x in cx.Sc() && cx.Sc()[x].cls == CFun
    ensures x in cx.w.p.globals && cx.Sc()[x] == cx.w.p.globals[x]
  {
  }

  lemma Moved(cx: Cx, m: State, m3: State, m2: State)
    requires Frame(cx, m, m3) && m2.mem == m3.mem
    ensures Frame(cx, m, m2)
  {
  }

  // ---------------------------------------------------------------- statements

  function SCode(cx: Cx, st: Stmt, at: int): seq<int>
    requires WfStmt(cx.Sc(), st)
  {
    StmtCode(cx.Sc(), cx.Loc(), st, at)
  }

  function Ex(cx: Cx, st: Stmt, s: Store, fuel: nat): Outcome
    requires WfStmt(cx.Sc(), st)
  {
    Exec(cx.w.p, cx.Sc(), st, s, fuel)
  }

  ghost predicate SReady(cx: Cx, st: Stmt, m: State, s: Store, fuel: nat) {
    && CxOk(cx) && Rel(cx, m, s) && WfStmt(cx.Sc(), st)
    && InText(cx.w, m.pc, SCode(cx, st, m.pc))
    && (Ex(cx, st, s, fuel).Done? || Ex(cx, st, s, fuel).Ret?)
  }

  /** The machine is just past the statement, or at a `LEV` with the value to return. */
  ghost predicate SRan(cx: Cx, o: Outcome, m: State, n: nat, m2: State, end: int) {
    && Steps(m, n, m2)
    && (o.Done? ==> After(cx, m, m2, None, o.s, end))
    && (o.Ret? ==> After(cx, m, m2, o.v, o.s, m2.pc) && Get(m2.mem, m2.pc) == LEV)
  }

  lemma SJoined(cx: Cx, m: State, n1: nat, m1: State, n2: nat, m2: State, o: Outcome, end: int)
    requires Steps(m, n1, m1) && m1.sp == m.sp && m1.bp == m.bp && Frame(cx, m, m1) && SRan(cx, o, m1, n2, m2, end)
    ensures SRan(cx, o, m, n1 + n2, m2, end)
  {
    StepsTrans(m, n1, m1, n2, m2);
  }

  lemma {:induction false} StmtSim(cx: Cx, st: Stmt, m: State, s: Store, fuel: nat) returns (n: nat, m2: State)
    requires SReady(cx, st, m, s, fuel)
    ensures SRan(cx, Ex(cx, st, s, fuel), m, n, m2, m.pc + |SCode(cx, st, m.pc)|)
    decreases fuel, st, 1
  {
    hide CxOk, Rel, Frame, InText, BodyScope;
    match st
    case If(c, t) => n, m2 := IfSim(cx, st, m, s, fuel);
    case IfElse(c, t, f) => n, m2 := IfElseSim(cx, st, m, s, fuel);
    case While(c, b) => n, m2 := WhileSim(cx, st, m, s, fuel);
    case Return(e) =>
      hide Steps;
      TextSplit(cx.w, m.pc, ECode(cx, e, m.pc), [LEV]);
      n, m2 := ExprSim(cx, e, m, s, fuel);
      Fetch(cx, m2, Ev(cx, e, s, fuel).s, m2.pc, [LEV], 0);
    case ReturnVoid =>
      Fetch(cx, m, s, m.pc, [LEV], 0);
      n, m2 := 0, m;
      SameMem(cx, m, s, m);
    case Block(ss) => n, m2 := StmtsSim(cx, ss, m, s, fuel);
    case Empty =>
      n, m2 := 0, m;
      SameMem(cx, m, s, m);
    case ExprStmt(e) => n, m2 := ExprSim(cx, e, m, s, fuel);
  }

  lemma {:induction false} IfSim(cx: Cx, st: Stmt, m: State, s: Store, fuel: nat) returns (n: nat, m2: State)
    requires SReady(cx, st, m, s, fuel) && st.If?
    ensures SRan(cx, Ex(cx, st, s, fuel), m, n, m2, m.pc + |SCode(cx, st, m.pc)|)
    decreases fuel, st, 0
  {
    hide CxOk, Rel, Frame, InText, Steps, BodyScope, Code, Eval;
    var c0 := ECode(cx, st.c, m.pc);
    var at1 := m.pc + |c0| + 2;
    var c1 := SCode(cx, st.t, at1);
    var end := at1 + |c1|;
    TextSplit(cx.w, m.pc, c0 + [BZ, end], c1);
    TextSplit(cx.w, m.pc, c0, [BZ, end]);
    var o := Ev(cx, st.c, s, fuel);
    var n1, m1 := ExprSim(cx, st.c, m, s, fuel);
    var k := DoBranch(cx, m1, o.s, BZ, end);
    StepsTrans(m, n1, m1, 1, k);
    Joined(cx, m, n1, m1, 1, k, None, o.s, k.pc);
    if o.v.value != 0 {
      var n3; n3, m2 := StmtSim(cx, st.t, k, o.s, fuel);
      SJoined(cx, m, n1 + 1, k, n3, m2, Ex(cx, st.t, o.s, fuel), end);
      n := n1 + 1 + n3;
    } else {
      n, m2 := n1 + 1, k;
    }
  }

  lemma {:induction false} IfElseSim(cx: Cx, st: Stmt, m: State, s: Store, fuel: nat) returns (n: nat, m2: State)
    requires SReady(cx, st, m, s, fuel) && st.IfElse?
    ensures SRan(cx, Ex(cx, st, s, fuel), m, n, m2, m.pc + |SCode(cx, st, m.pc)|)
    decreases fuel, st, 0
  {
    hide CxOk, Rel, Frame, InText, Steps, BodyScope, Code, Eval;
    var c0 := ECode(cx, st.c, m.pc);
    var at1 := m.pc + |c0| + 2;
    var c1 := SCode(cx, st.t, at1);
    var at2 := at1 + |c1| + 2;
    var c2 := SCode(cx, st.f, at2);
    var end := at2 + |c2|;
    TextSplit(cx.w, m.pc, c0 + [BZ, at2] + c1 + [JMP, end], c2);
    TextSplit(cx.w, m.pc, c0 + [BZ, at2] + c1, [JMP, end]);
    TextSplit(cx.w, m.pc, c0 + [BZ, at2], c1);
    TextSplit(cx.w, m.pc, c0, [BZ, at2]);
    var o := Ev(cx, st.c, s, fuel);
    var n1, m1 := ExprSim(cx, st.c, m, s, fuel);
    var k := DoBranch(cx, m1, o.s, BZ, at2);
    Joined(cx, m, n1, m1, 1, k, None, o.s, k.pc);
    if o.v.value != 0 {
      var q := Ex(cx, st.t, o.s, fuel);
      var n3, m3 := StmtSim(cx, st.t, k, o.s, fuel);
      if q.Ret? {
        m2 := m3;
        SJoined(cx, m, n1 + 1, k, n3, m2, q, end);
        n := n1 + 1 + n3;
      } else {
        m2 := DoBranch(cx, m3, q.s, JMP, end);
        Joined(cx, k, n3, m3, 1, m2, None, q.s, end);
        Joined(cx, m, n1 + 1, k, n3 + 1, m2, None, q.s, end);
        n := n1 + 1 + (n3 + 1);
      }
    } else {
      var n3; n3, m2 := StmtSim(cx, st.f, k, o.s, fuel);
      SJoined(cx, m, n1 + 1, k, n3, m2, Ex(cx, st.f, o.s, fuel), end);
      n := n1 + 1 + n3;
    }
  }

  lemma {:induction false} WhileSim(cx: Cx, st: Stmt, m: State, s: Store, fuel: nat) returns (n: nat, m2: State)
    requires SReady(cx, st, m, s, fuel) && st.While?
    ensures SRan(cx, Ex(cx, st, s, fuel), m, n, m2, m.pc + |SCode(cx, st, m.pc)|)
    decreases fuel, st, 0
  {
    hide CxOk, Rel, Frame, InText, Steps, BodyScope, Code, Eval;
    var c0 := ECode(cx, st.c, m.pc);
    var at1 := m.pc + |c0| + 2;
    var c1 := SCode(cx, st.body, at1);
    var end := at1 + |c1| + 2;
    TextSplit(cx.w, m.pc, c0 + [BZ, end] + c1, [JMP, m.pc]);
    TextSplit(cx.w, m.pc, c0 + [BZ, end], c1);
    TextSplit(cx.w, m.pc, c0, [BZ, end]);
    var o := Ev(cx, st.c, s, fuel);
    var n1, m1 := ExprSim(cx, st.c, m, s, fuel);
    var k := DoBranch(cx, m1, o.s, BZ, end);
    Joined(cx, m, n1, m1, 1, k, None, o.s, k.pc);
    if o.v.value == 0 {
      n, m2 := n1 + 1, k;
    } else {
      var q := Ex(cx, st.body, o.s, fuel);
      var n3, m3 := StmtSim(cx, st.body, k, o.s, fuel);
      if q.Ret? {
        m2 := m3;
        SJoined(cx, m, n1 + 1, k, n3, m2, q, end);
        n := n1 + 1 + n3;
      } else {
        var j := DoBranch(cx, m3, q.s, JMP, m.pc);
        Joined(cx, k, n3, m3, 1, j, None, q.s, m.pc);
        Joined(cx, m, n1 + 1, k, n3 + 1, j, None, q.s, m.pc);
        var n5; n5, m2 := StmtSim(cx, st, j, q.s, fuel - 1);
        SJoined(cx, m, n1 + 1 + (n3 + 1), j, n5, m2, Ex(cx, st, q.s, fuel - 1), end);
        n := n1 + 1 + (n3 + 1) + n5;
      }
    }
  }

  /** Running the words of a block ends just past them, or at a `LEV` when a `return` was met,
      with the store and the value that the evaluator gives. */
  lemma {:induction false} StmtsSim(cx: Cx, ss: Stmts, m: State, s: Store, fuel: nat) returns (n: nat, m2: State)
    requires CxOk(cx) && Rel(cx, m, s) && WfStmts(cx.Sc(), ss)
    requires InText(cx.w, m.pc, StmtsCode(cx.Sc(), cx.Loc(), ss, m.pc))
    requires ExecAll(cx.w.p, cx.Sc(), ss, s, fuel).Done? || ExecAll(cx.w.p, cx.Sc(), ss, s, fuel).Ret?
    ensures SRan(cx, ExecAll(cx.w.p, cx.Sc(), ss, s, fuel), m, n, m2,
                 m.pc + |StmtsCode(cx.Sc(), cx.Loc(), ss, m.pc)|)
    decreases fuel, ss, 0
  {
    hide CxOk, Rel, Frame, InText, BodyScope;
    if ss.SNil? {
      n, m2 := 0, m;
      SameMem(cx, m, s, m);
    } else {
      hide Steps;
      var c0 := SCode(cx, ss.head, m.pc);
      var c1 := StmtsCode(cx.Sc(), cx.Loc(), ss.tail, m.pc + |c0|);
      TextSplit(cx.w, m.pc, c0, c1);
      var o := Ex(cx, ss.head, s, fuel);
      var n1, m1 := StmtSim(cx, ss.head, m, s, fuel);
      if o.Ret? {
        n, m2 := n1, m1;
      } else {
        var n3; n3, m2 := StmtsSim(cx, ss.tail, m1, o.s, fuel);
        SJoined(cx, m, n1, m1, n3, m2, ExecAll(cx.w.p, cx.Sc(), ss.tail, o.s, fuel), m1.pc + |c1|);
        n := n1 + n3;
      }
    }
  }
}
