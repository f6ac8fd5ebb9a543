/** Words, opcodes, tokens and abstract syntax of the int subset of c4 (user/c4.c). */
module C4Syntax {
  import opened Common

  // ---------------------------------------------------------------- 32-bit ints

  predicate Int32(x: int) { -0x8000_0000 <= x < 0x8000_0000 }

  /** Two's complement reduction to 32 bits. */
  function Wrap(x: int): (r: int)
    ensures Int32(r)
    ensures Int32(x) ==> r == x
  {
    (x + 0x8000_0000) % 0x1_0000_0000 - 0x8000_0000
  }

  datatype BinOp =
    | Or | Xor | And | Eq | Ne | Lt | Gt | Le | Ge | Shl | Shr | Add | Sub | Mul | Div | Mod

  function Magnitude(x: int): nat { if x < 0 then -x - 1 else x }

  function Truth(op: BinOp, a: bool, b: bool): bool {
    match op
    case Or => a || b
    case Xor => a != b
    case _ => a && b
  }

  /** Bitwise operation on two's complement integers, one bit at a time. */
  function Bitwise(op: BinOp, x: int, y: int): int
    decreases Magnitude(x) + Magnitude(y)
  {
    if Magnitude(x) == 0 && Magnitude(y) == 0 then
      if Truth(op, x == -1, y == -1) then -1 else 0
    else
      2 * Bitwise(op, x / 2, y / 2) + (if Truth(op, x % 2 == 1, y % 2 == 1) then 1 else 0)
  }

  /** The word -1 flips every bit: what `~` relies on when it compiles to XOR. */
  lemma {:induction false} XorMinusOne(x: int)
    ensures Bitwise(Xor, x, -1) == -1 - x
    decreases Magnitude(x)
  {
    if Magnitude(x) != 0 {
      XorMinusOne(x / 2);
    }
  }

  function Power2(n: nat): (r: int)
    ensures r >= 1
  {
    if n == 0 then 1 else 2 * Power2(n - 1)
  }

  /** C division truncates toward zero. */
  function TruncDiv(x: int, y: int): int
    requires y != 0
  {
    var q := (if x < 0 then -x else x) / (if y < 0 then -y else y);
    if (x < 0) == (y < 0) then q else -q
  }

  function Flag(b: bool): int { if b then 1 else 0 }

  /** `x op y` on 32-bit ints; None where C leaves the result undefined. */
  function Arith(op: BinOp, x: int, y: int): (r: Option<int>)
    ensures r.Some? ==> Int32(r.value)
    ensures op in {Eq, Ne, Lt, Gt, Le, Ge} ==> r == Some(0) || r == Some(1)
    ensures r.None? <==> || (op in {Shl, Shr} && !(0 <= y < 32))
                         || (op in {Div, Mod} && (y == 0 || (x == -0x8000_0000 && y == -1)))
  {
    match op
    case Or => Some(Wrap(Bitwise(op, x, y)))
    case Xor => Some(Wrap(Bitwise(op, x, y)))
    case And => Some(Wrap(Bitwise(op, x, y)))
    case Eq => Some(Flag(x == y))
    case Ne => Some(Flag(x != y))
    case Lt => Some(Flag(x < y))
    case Gt => Some(Flag(x > y))
    case Le => Some(Flag(x <= y))
    case Ge => Some(Flag(x >= y))
    case Shl => if 0 <= y < 32 then Some(Wrap(x * Power2(y))) else None
    case Shr => if 0 <= y < 32 then Some(Wrap(x / Power2(y))) else None
    case Add => Some(Wrap(x + y))
    case Sub => Some(Wrap(x - y))
    case Mul => Some(Wrap(x * y))
    case Div => if y == 0 || (x == -0x8000_0000 && y == -1) then None else Some(Wrap(TruncDiv(x, y)))
    case Mod => if y == 0 || (x == -0x8000_0000 && y == -1) then None else Some(Wrap(x - y * TruncDiv(x, y)))
  }

  // ---------------------------------------------------------------- opcodes

  const LEA := 0
  const IMM := 1
  const JMP := 2
  const JSR := 3
  const BZ := 4
  const BNZ := 5
  const ENT := 6
  const ADJ := 7
  const LEV := 8
  const LI := 9
  const LC := 10
  const SI := 11
  const SC := 12
  const PSH := 13
  const EXIT := 38

  /** OR .. MOD are the opcodes 14 .. 29, in the order of the operators. */
  function Opcode(op: BinOp): (r: int)
    ensures 14 <= r <= 29
  {
    match op
    case Or => 14 case Xor => 15 case And => 16 case Eq => 17 case Ne => 18
    case Lt => 19 case Gt => 20 case Le => 21 case Ge => 22 case Shl => 23
    case Shr => 24 case Add => 25 case Sub => 26 case Mul => 27 case Div => 28 case Mod => 29
  }

  // ---------------------------------------------------------------- tokens

  /** The lookahead: token code `tk`, the value of a number and the symbol-table slot of a name. */
  datatype Token = Token(tk: int, ival: int, id: int)

  const TK_NUM := 128
  const TK_FUN := 129
  const TK_SYS := 130
  const TK_GLO := 131
  const TK_LOC := 132
  const TK_ID := 133
  const TK_CHAR := 134
  const TK_ELSE := 135
  const TK_IF := 137
  const TK_INT := 138
  const TK_RETURN := 139
  const TK_SIZEOF := 140
  const TK_WHILE := 141
  const TK_ASSIGN := 142
  const TK_COND := 143
  const TK_LOR := 144
  const TK_LAN := 145
  const TK_OR := 146
  const TK_XOR := 147
  const TK_AND := 148
  const TK_EQ := 149
  const TK_NE := 150
  const TK_LT := 151
  const TK_GT := 152
  const TK_LE := 153
  const TK_GE := 154
  const TK_SHL := 155
  const TK_SHR := 156
  const TK_ADD := 157
  const TK_SUB := 158
  const TK_MUL := 159
  const TK_DIV := 160
  const TK_MOD := 161
  const TK_INC := 162
  const TK_DEC := 163
  const TK_BRAK := 164
  const LPAREN := 40
  const RPAREN := 41
  const COMMA := 44
  const COLON := 58
  const SEMI := 59
  const LBRACE := 123
  const RBRACE := 125
  const BANG := 33
  const TILDE := 126

  /** Binary operator tokens are numbered in precedence order. */
  function OpToken(op: BinOp): (r: int)
    ensures TK_OR <= r <= TK_MOD
  {
    match op
    case Or => 146 case Xor => 147 case And => 148 case Eq => 149 case Ne => 150
    case Lt => 151 case Gt => 152 case Le => 153 case Ge => 154 case Shl => 155
    case Shr => 156 case Add => 157 case Sub => 158 case Mul => 159 case Div => 160 case Mod => 161
  }

  /** C's precedence level of an operator: the smallest token code of its class. */
  function OpLevel(op: BinOp): (r: int) {
    match op
    case Or => TK_OR case Xor => TK_XOR case And => TK_AND
    case Eq => TK_EQ case Ne => TK_EQ
    case Lt => TK_LT case Gt => TK_LT case Le => TK_LT case Ge => TK_LT
    case Shl => TK_SHL case Shr => TK_SHL
    case Add => TK_ADD case Sub => TK_ADD
    case Mul => TK_MUL case Div => TK_MUL case Mod => TK_MUL
  }

  /** The next tighter level: where the right operand of a left-associative operator is printed. */
  function TighterLevel(op: BinOp): (r: int)
    ensures r > OpToken(op) >= OpLevel(op)
  {
    match op
    case Or => TK_XOR case Xor => TK_AND case And => TK_EQ
    case Eq => TK_LT case Ne => TK_LT
    case Lt => TK_SHL case Gt => TK_SHL case Le => TK_SHL case Ge => TK_SHL
    case Shl => TK_ADD case Shr => TK_ADD
    case Add => TK_MUL case Sub => TK_MUL
    case Mul => TK_INC case Div => TK_INC case Mod => TK_INC
  }

  // ---------------------------------------------------------------- symbols and trees

  datatype Class = CNum | CFun | CGlo | CLoc

  /** One row of the symbol table: class and value (constant, address or frame number). */
  datatype Sym = Sym(cls: Class, val: int)

  type Scope = map<int, Sym>

  datatype Expr =
    | Num(n: int)
    | Var(x: int)
    | Paren(inner: Expr)
    | Assign(lhs: Expr, rhs: Expr)
    | Cond(c: Expr, t: Expr, f: Expr)
    | Lor(l: Expr, r: Expr)
    | Lan(l: Expr, r: Expr)
    | Bin(op: BinOp, l: Expr, r: Expr)
    | Not(inner: Expr)
    | BitNot(inner: Expr)
    | Plus(inner: Expr)
    | Neg(inner: Expr)
    | PreStep(up: bool, inner: Expr)
    | PostStep(up: bool, inner: Expr)
    | Call(x: int, args: Args)

  datatype Args = ANil | ACons(head: Expr, tail: Args)
  {
    function Count(): nat { if ANil? then 0 else 1 + tail.Count() }
  }

  datatype Stmt =
    | If(c: Expr, t: Stmt)
    | IfElse(c: Expr, t: Stmt, f: Stmt)
    | While(c: Expr, body: Stmt)
    | Return(e: Expr)
    | ReturnVoid
    | Block(ss: Stmts)
    | Empty
    | ExprStmt(e: Expr)

  datatype Stmts = SNil | SCons(head: Stmt, tail: Stmts)

  /** A name whose word can be addressed, possibly in parentheses. */
  predicate IsLval(sc: Scope, e: Expr) {
    match e
    case Var(x) => x in sc && (sc[x].cls == CGlo || sc[x].cls == CLoc)
    case Paren(i) => IsLval(sc, i)
    case _ => false
  }

  function LvalName(sc: Scope, e: Expr): (x: int)
    requires IsLval(sc, e)
    ensures x in sc && (sc[x].cls == CGlo || sc[x].cls == CLoc)
  {
    match e
    case Var(x) => x
    case Paren(i) => LvalName(sc, i)
  }

  /** Names are declared with a fitting class and assignments go to lvalues. */
  predicate WfExpr(sc: Scope, e: Expr) {
    match e
    case Num(n) => Int32(n)
    case Var(x) => x in sc && sc[x].cls != CFun && (sc[x].cls == CNum ==> Int32(sc[x].val))
    case Paren(i) => WfExpr(sc, i)
    case Assign(l, r) => IsLval(sc, l) && WfExpr(sc, r)
    case Cond(c, t, f) => WfExpr(sc, c) && WfExpr(sc, t) && WfExpr(sc, f)
    case Lor(l, r) => WfExpr(sc, l) && WfExpr(sc, r)
    case Lan(l, r) => WfExpr(sc, l) && WfExpr(sc, r)
    case Bin(_, l, r) => WfExpr(sc, l) && WfExpr(sc, r)
    case Not(i) => WfExpr(sc, i)
    case BitNot(i) => WfExpr(sc, i)
    case Plus(i) => WfExpr(sc, i)
    case Neg(i) => WfExpr(sc, i)
    case PreStep(_, i) => IsLval(sc, i)
    case PostStep(_, i) => IsLval(sc, i)
    case Call(x, args) => x in sc && sc[x].cls == CFun && WfArgs(sc, args)
  }

  predicate WfArgs(sc: Scope, args: Args) {
    args.ANil? || (WfExpr(sc, args.head) && WfArgs(sc, args.tail))
  }

  /** Does the statement end in an `if` that an `else` could still attach to? */
  predicate OpenIf(s: Stmt) {
    match s
    case If(_, _) => true
    case IfElse(_, _, f) => OpenIf(f)
    case While(_, b) => OpenIf(b)
    case _ => false
  }

  predicate WfStmt(sc: Scope, s: Stmt) {
    match s
    case If(c, t) => WfExpr(sc, c) && WfStmt(sc, t)
    case IfElse(c, t, f) => WfExpr(sc, c) && WfStmt(sc, t) && WfStmt(sc, f) && !OpenIf(t)
    case While(c, b) => WfExpr(sc, c) && WfStmt(sc, b)
    case Return(e) => WfExpr(sc, e)
    case ReturnVoid => true
    case Block(ss) => WfStmts(sc, ss)
    case Empty => true
    case ExprStmt(e) => WfExpr(sc, e)
  }

  predicate WfStmts(sc: Scope, ss: Stmts) {
    ss.SNil? || (WfStmt(sc, ss.head) && WfStmts(sc, ss.tail))
  }

  // ---------------------------------------------------------------- printing

  /** Precedence level of a tree; names, numbers, calls and parentheses bind tightest. */
  function Level(e: Expr): (r: int)
    ensures r >= TK_ASSIGN
  {
    match e
    case Assign(_, _) => TK_ASSIGN
    case Cond(_, _, _) => TK_COND
    case Lor(_, _) => TK_LOR
    case Lan(_, _) => TK_LAN
    case Bin(op, _, _) => OpLevel(op)
    case Not(_) => TK_INC
    case BitNot(_) => TK_INC
    case Plus(_) => TK_INC
    case Neg(_) => TK_INC
    case PreStep(_, _) => TK_INC
    case PostStep(_, _) => TK_INC
    case _ => TK_BRAK
  }

  function P(tk: int): seq<Token> { [Token(tk, 0, 0)] }

  /** The tokens of `e` followed by `k`. A subtree is put in parentheses
      exactly where its level is looser than its place requires. */
  function Print(e: Expr, k: seq<Token>): seq<Token>
    decreases e, 0
  {
    match e
    case Num(n) => [Token(TK_NUM, n, 0)] + k
    case Var(x) => [Token(TK_ID, 0, x)] + k
    case Paren(i) => P(LPAREN) + Print(i, P(RPAREN) + k)
    case Assign(l, r) => Print(l, P(TK_ASSIGN) + Print(r, k))
    case Cond(c, t, f) => PrintAt(c, TK_LOR, P(TK_COND) + Print(t, P(COLON) + PrintAt(f, TK_COND, k)))
    case Lor(l, r) => PrintAt(l, TK_LOR, P(TK_LOR) + PrintAt(r, TK_LAN, k))
    case Lan(l, r) => PrintAt(l, TK_LAN, P(TK_LAN) + PrintAt(r, TK_OR, k))
    case Bin(op, l, r) => PrintAt(l, OpLevel(op), P(OpToken(op)) + PrintAt(r, TighterLevel(op), k))
    case Not(i) => P(BANG) + PrintAt(i, TK_INC, k)
    case BitNot(i) => P(TILDE) + PrintAt(i, TK_INC, k)
    case Plus(i) => P(TK_ADD) + PrintAt(i, TK_INC, k)
    case Neg(i) => P(TK_SUB) + PrintAt(i, TK_INC, k)
    case PreStep(up, i) => P(if up then TK_INC else TK_DEC) + PrintAt(i, TK_INC, k)
    case PostStep(up, i) => Print(i, P(if up then TK_INC else TK_DEC) + k)
    case Call(x, args) => [Token(TK_ID, 0, x)] + P(LPAREN) + PrintArgs(args, P(RPAREN) + k)
  }

  function PrintAt(e: Expr, lev: int, k: seq<Token>): seq<Token>
    decreases e, 1
  {
    if Level(e) < lev then P(LPAREN) + Print(e, P(RPAREN) + k) else Print(e, k)
  }

  function PrintArgs(args: Args, k: seq<Token>): seq<Token>
    decreases args, 0
  {
    match args
    case ANil => k
    case ACons(h, ANil) => Print(h, k)
    case ACons(h, tail) => Print(h, P(COMMA) + PrintArgs(tail, k))
  }

  function PrintStmt(s: Stmt, k: seq<Token>): seq<Token> {
    match s
    case If(c, t) => P(TK_IF) + P(LPAREN) + Print(c, P(RPAREN) + PrintStmt(t, k))
    case IfElse(c, t, f) => P(TK_IF) + P(LPAREN) + Print(c, P(RPAREN) + PrintStmt(t, P(TK_ELSE) + PrintStmt(f, k)))
    case While(c, b) => P(TK_WHILE) + P(LPAREN) + Print(c, P(RPAREN) + PrintStmt(b, k))
    case Return(e) => P(TK_RETURN) + Print(e, P(SEMI) + k)
    case ReturnVoid => P(TK_RETURN) + P(SEMI) + k
    case Block(ss) => P(LBRACE) + PrintStmts(ss, P(RBRACE) + k)
    case Empty => P(SEMI) + k
    case ExprStmt(e) => Print(e, P(SEMI) + k)
  }

  function PrintStmts(ss: Stmts, k: seq<Token>): seq<Token> {
    match ss
    case SNil => k
    case SCons(h, tail) => PrintStmt(h, PrintStmts(tail, k))
  }

  // ---------------------------------------------------------------- code

  /** The two words that leave the address of a variable in the accumulator. */
  function AddrCode(y: Sym, loc: int): seq<int> {
    if y.cls == CLoc then [LEA, loc - y.val] else [IMM, y.val]
  }

  function StepCode(up: bool): (c: seq<int>)
    ensures |c| == 6
  {
    [PSH, LI, PSH, IMM, 1, Opcode(if up then Add else Sub)]
  }

  /** The words for `e` when the first of them lands at address `at`. */
  function Code(sc: Scope, loc: int, e: Expr, at: int): (c: seq<int>)
    requires WfExpr(sc, e)
  {
    match e
    case Num(n) => [IMM, n]
    case Var(x) => if sc[x].cls == CNum then [IMM, sc[x].val] else AddrCode(sc[x], loc) + [LI]
    case Paren(i) => Code(sc, loc, i, at)
    case Assign(l, r) => AddrCode(sc[LvalName(sc, l)], loc) + [PSH] + Code(sc, loc, r, at + 3) + [SI]
    case Cond(c, t, f) =>
      var c0 := Code(sc, loc, c, at);
      var at1 := at + |c0| + 2;
      var c1 := Code(sc, loc, t, at1);
      var at2 := at1 + |c1| + 2;
      var c2 := Code(sc, loc, f, at2);
      c0 + [BZ, at2] + c1 + [JMP, at2 + |c2|] + c2
    case Lor(l, r) =>
      var c0 := Code(sc, loc, l, at);
      var at1 := at + |c0| + 2;
      var c1 := Code(sc, loc, r, at1);
      c0 + [BNZ, at1 + |c1|] + c1
    case Lan(l, r) =>
      var c0 := Code(sc, loc, l, at);
      var at1 := at + |c0| + 2;
      var c1 := Code(sc, loc, r, at1);
      c0 + [BZ, at1 + |c1|] + c1
    case Bin(op, l, r) =>
      var c0 := Code(sc, loc, l, at);
      c0 + [PSH] + Code(sc, loc, r, at + |c0| + 1) + [Opcode(op)]
    case Not(i) => Code(sc, loc, i, at) + [PSH, IMM, 0, Opcode(Eq)]
    case BitNot(i) => Code(sc, loc, i, at) + [PSH, IMM, -1, Opcode(Xor)]
    case Plus(i) => Code(sc, loc, i, at)
    case Neg(i) => if i.Num? then [IMM, Wrap(-i.n)] else [IMM, -1, PSH] + Code(sc, loc, i, at + 3) + [Opcode(Mul)]
    case PreStep(up, i) => AddrCode(sc[LvalName(sc, i)], loc) + StepCode(up) + [SI]
    case PostStep(up, i) =>
      AddrCode(sc[LvalName(sc, i)], loc) + StepCode(up) + [SI] + [PSH, IMM, 1, Opcode(if up then Sub else Add)]
    case Call(x, args) =>
      ArgsCode(sc, loc, args, at) + [JSR, sc[x].val] + (if args.ANil? then [] else [ADJ, args.Count()])
  }

  function ArgsCode(sc: Scope, loc: int, args: Args, at: int): (c: seq<int>)
    requires WfArgs(sc, args)
  {
    match args
    case ANil => []
    case ACons(h, tail) =>
      var c0 := Code(sc, loc, h, at);
      c0 + [PSH] + ArgsCode(sc, loc, tail, at + |c0| + 1)
  }

  function StmtCode(sc: Scope, loc: int, s: Stmt, at: int): (c: seq<int>)
    requires WfStmt(sc, s)
  {
    match s
    case If(c, t) =>
      var c0 := Code(sc, loc, c, at);
      var at1 := at + |c0| + 2;
      var c1 := StmtCode(sc, loc, t, at1);
      c0 + [BZ, at1 + |c1|] + c1
    case IfElse(c, t, f) =>
      var c0 := Code(sc, loc, c, at);
      var at1 := at + |c0| + 2;
      var c1 := StmtCode(sc, loc, t, at1);
      var at2 := at1 + |c1| + 2;
      var c2 := StmtCode(sc, loc, f, at2);
      c0 + [BZ, at2] + c1 + [JMP, at2 + |c2|] + c2
    case While(c, b) =>
      var c0 := Code(sc, loc, c, at);
      var at1 := at + |c0| + 2;
      var c1 := StmtCode(sc, loc, b, at1);
      c0 + [BZ, at1 + |c1| + 2] + c1 + [JMP, at]
    case Return(e) => Code(sc, loc, e, at) + [LEV]
    case ReturnVoid => [LEV]
    case Block(ss) => StmtsCode(sc, loc, ss, at)
    case Empty => []
    case ExprStmt(e) => Code(sc, loc, e, at)
  }

  function StmtsCode(sc: Scope, loc: int, ss: Stmts, at: int): (c: seq<int>)
    requires WfStmts(sc, ss)
  {
    match ss
    case SNil => []
    case SCons(h, tail) =>
      var c0 := StmtCode(sc, loc, h, at);
      c0 + StmtsCode(sc, loc, tail, at + |c0|)
  }

  /** The code of an lvalue read is its address code and a load; `=` and `++` rewrite that load. */
  lemma {:induction false} LvalCode(sc: Scope, loc: int, e: Expr, at: int)
    requires IsLval(sc, e)
    ensures WfExpr(sc, e)
    ensures Code(sc, loc, e, at) == AddrCode(sc[LvalName(sc, e)], loc) + [LI]
    decreases e
  {
    if e.Paren? {
      LvalCode(sc, loc, e.inner, at);
    }
  }
}
