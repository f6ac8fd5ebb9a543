/** The registers as the loop of `main` keeps them, updated in place. */
module C4Loop {
  import opened Common
  import opened C4Syntax
  import opened C4Machine

  class Vm {
    var pc: int
    var sp: int
    var bp: int
    var a: int
    var mem: Memory

    ghost function View(): State reads this { State(pc, sp, bp, a, mem) }

    constructor (s: State)
      ensures View() == s
    {
      pc, sp, bp, a, mem := s.pc, s.sp, s.bp, s.a, s.mem;
    }

    /** One iteration of the loop body; the machine's registers change only when it goes on. */
    method Turn() returns (going: bool, status: Option<int>)
      modifies this
      ensures going == Step(old(View())).Next?
      ensures going ==> View() == Step(old(View())).s
      ensures !going ==> View() == old(View())
      ensures status.Some? <==> Step(old(View())).Exit?
      ensures status.Some? ==> status.value == Step(old(View())).status
    {
      going, status := true, None;
      var i := Get(mem, pc);
      var x := Get(mem, pc + 1);
      if i == LEA { a := bp + x; pc := pc + 2; }
      else if i == IMM { a := x; pc := pc + 2; }
      else if i == JMP { pc := x; }
      else if i == JSR { sp := sp - 1; mem := mem[sp := pc + 2]; pc := x; }
      else if i == BZ { pc := if a != 0 then pc + 2 else x; }
      else if i == BNZ { pc := if a != 0 then x else pc + 2; }
      else if i == ENT { sp := sp - 1; mem := mem[sp := bp]; bp := sp; sp := sp - x; pc := pc + 2; }
      else if i == ADJ { sp := sp + x; pc := pc + 2; }
      else if i == LEV { sp := bp; bp := Get(mem, sp); sp := sp + 1; pc := Get(mem, sp); sp := sp + 1; }
      else if i == LI { a := Get(mem, a); pc := pc + 1; }
      else if i == SI { mem := mem[Get(mem, sp) := a]; sp := sp + 1; pc := pc + 1; }
      else if i == PSH { sp := sp - 1; mem := mem[sp := a]; pc := pc + 1; }
      else if 14 <= i <= 29 {
        var v := Arith(Decode(i), Get(mem, sp), a);
        if v.Some? { a := v.value; sp := sp + 1; pc := pc + 1; } else { going := false; }
      }
      else if i == EXIT { going := false; status := Some(Get(mem, sp)); }
      else { going := false; }
    }

    /** The loop, stopped after at most `limit` turns: when it ends before the limit it stopped
        in a state reached by that many turns. */
    method Run(limit: nat) returns (cycle: nat, status: Option<int>)
      modifies this
      ensures cycle <= limit
      ensures Steps(old(View()), cycle, View())
      ensures cycle < limit ==> !Step(View()).Next?
      ensures status.Some? ==> Step(View()) == Exit(status.value)
      ensures cycle < limit && Step(View()).Exit? ==> status.Some?
    {
      cycle, status := 0, None;
      while cycle < limit
        invariant cycle <= limit && status == None
        invariant Steps(old(View()), cycle, View())
      {
        ghost var before := View();
        var going;
        going, status := Turn();
        if !going { return; }
        assert Steps(before, 1, View());
        StepsTrans(old(View()), cycle, before, 1, View());
        cycle := cycle + 1;
      }
    }
  }
}
