/** The stack machine at the end of user/c4.c. Code, globals and stack share one memory
    of words; addresses count words. */
module C4Machine {
  import opened Common
  import opened C4Syntax

  type Memory = map<int, int>

  /** Words never written read as 0: the text and data areas are cleared at start. */
  function Get(m: Memory, x: int): int { if x in m then m[x] else 0 }

  datatype State = State(pc: int, sp: int, bp: int, a: int, mem: Memory)

  /** One turn of the loop: it goes on, `EXIT` ends it, or the word is outside the int subset. */
  datatype Turn = Next(s: State) | Exit(status: int) | Stuck

  function Decode(i: int): (op: BinOp)
    requires 14 <= i <= 29
    ensures Opcode(op) == i
  {
    if i == 14 then Or else if i == 15 then Xor else if i == 16 then And else if i == 17 then Eq
    else if i == 18 then Ne else if i == 19 then Lt else if i == 20 then Gt else if i == 21 then Le
    else if i == 22 then Ge else if i == 23 then Shl else if i == 24 then Shr else if i == 25 then Add
    else if i == 26 then Sub else if i == 27 then Mul else if i == 28 then Div else Mod
  }

  function Step(s: State): Turn {
    var i := Get(s.mem, s.pc);
    var pc := s.pc + 1;
    var x := Get(s.mem, pc);
    if i == LEA then Next(s.(pc := pc + 1, a := s.bp + x))
    else if i == IMM then Next(s.(pc := pc + 1, a := x))
    else if i == JMP then Next(s.(pc := x))
    else if i == JSR then Next(s.(pc := x, sp := s.sp - 1, mem := s.mem[s.sp - 1 := pc + 1]))
    else if i == BZ then Next(s.(pc := if s.a != 0 then pc + 1 else x))
    else if i == BNZ then Next(s.(pc := if s.a != 0 then x else pc + 1))
    else if i == ENT then
      Next(s.(pc := pc + 1, sp := s.sp - 1 - x, bp := s.sp - 1, mem := s.mem[s.sp - 1 := s.bp]))
    else if i == ADJ then Next(s.(pc := pc + 1, sp := s.sp + x))
    else if i == LEV then
      Next(s.(pc := Get(s.mem, s.bp + 1), sp := s.bp + 2, bp := Get(s.mem, s.bp)))
    else if i == LI then Next(s.(pc := pc, a := Get(s.mem, s.a)))
    else if i == SI then Next(s.(pc := pc, sp := s.sp + 1, mem := s.mem[Get(s.mem, s.sp) := s.a]))
    else if i == PSH then Next(s.(pc := pc, sp := s.sp - 1, mem := s.mem[s.sp - 1 := s.a]))
    else if 14 <= i <= 29 then
      var v := Arith(Decode(i), Get(s.mem, s.sp), s.a);
      if v.Some? then Next(s.(pc := pc, sp := s.sp + 1, a := v.value)) else Stuck
    else if i == EXIT then Exit(Get(s.mem, s.sp))
    else Stuck
  }

  /** `n` turns lead from `s` to `t`. */
  ghost predicate Steps(s: State, n: nat, t: State)
    decreases n
  {
    if n == 0 then s == t else Step(s).Next? && Steps(Step(s).s, n - 1, t)
  }

  lemma {:induction false} StepsTrans(s: State, n: nat, t: State, k: nat, u: State)
    requires Steps(s, n, t) && Steps(t, k, u)
    ensures Steps(s, n + k, u)
    decreases n
  {
    if n > 0 {
      StepsTrans(Step(s).s, n - 1, t, k, u);
    }
  }
}
