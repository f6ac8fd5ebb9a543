# A verified model of a small x86 kernel and its C compiler

The repository is a teaching kernel for 32-bit x86 in C (threads, locks, processes, a paged memory manager, a
block file system) that ships c4, a one-pass compiler and stack machine for a subset of C, as a user program. This
project models the parts where correctness is hardest and proves what they promise. `dafny verify dfyconfig.toml`
checks everything.

What is modelled, component by component:

- **c4** (`C4*.dfy`). Precedence climbing that emits code while it parses, rewrites the last word for lvalues and
  back-patches jumps (`C4Parser`, `C4PrintParse`, `C4Precedence`, `C4Refusals`,
  `C4Boundaries`); declarations that number, hide and restore names
  (`C4Declarations`); the machine loop (`C4Machine`, `C4Loop`); a direct evaluator over names and
  laws about it and its operators (`C4Semantics`, `C4Laws`, `C4Arith`); and the
  proof that the three agree, for every program of the int subset, terminating or not (`C4Simulation`, `C4Divergence`,
  `C4Program`, `C4Whole`).
- **Threads and locks** (`Scheduler`, `Threads`, `LinkedList`, `Locks`, `LockCalls`). The scheduler as functions and as in-place
  updates, the linked list with sentinels, and re-entrant locks under preemption between any two statements.
- **Processes** (`ProcessTree`, `ProcessCalls`, `ProcessRuns`, `ProcessExample`). fork, wait and exit with zombies, adoption by init and
  pid reuse, over every run from boot.
- **Memory** (`Bitmap`, `Pages`, `Paging`, `Arena`, `Allocator`). Bitmaps down to the byte, page allocation, the
  self-mapped page directory, and the size-class allocator.
- **Files** (`FileBlocks`, `FileSystem`, `FileExamples`). Direct and indirect block pointers refine byte sequences; blocks
  are conserved.
- **Directories and paths** (`Paths`, `DirTree`, `Directory`). The path normaliser, lookup, `chdir`/`getcwd`, and slotted
  directory blocks as a finite map and as the list of entries that the tree is made of.

## What the proofs say

- Compiling and running a well-formed c4 program exits with `v` exactly when `main` returns `v`
  (`C4Whole.CompileAndRun`): parsing accepts the printed program and emits its code, different names get different words,
  running the code simulates the evaluator, whose variables are names, and a program whose evaluation does not end
  keeps the machine running. Every jump the compiler emits leads to the start of an instruction (`C4Boundaries.FunSound`).
- Operands and binary operators in any number, written without parentheses, compile to the tree of C's operator table
  (`C4Precedence.ChainParsed`), and each operator computes what the laws of 32-bit arithmetic leave as its only result
  (`C4Arith`).
- The scheduler is a round robin: in as many ticks as there are threads that can run each of them runs once
  (`Scheduler.RoundRobin`).
- In every interleaving what a thread holds of a lock is what it has acquired and not released, and once all is released
  the lock is free again (`LockCalls.HeldIsBalance`, `FreeAgain`).
- In every interleaving no lock has two owners, no ASSERT of `thread/sync.c` fires, no wake-up is lost, and no thread is
  on two lists.
- In every run from boot, each status that `wait` delivers is the one that this child passed to `exit`, cut to 8 bits,
  delivered once and to its parent at that time; the only PANIC is the exit of a process without a parent.
- After any run of creates, appends and releases the files are what the same requests make of byte sequences, and
  after any run of allocations and frees with nothing left the pools are as they started.
- `mkdir` makes the directory where the path leads, `rmdir` of a path that does not end in a dot takes exactly that one
  away, and no other directory moves (`DirTree.MkdirPlace`, `RmdirPlace`).
- After `chdir` to any absolute path of fewer than 512 characters that leads to a directory, `getcwd` returns what the path normaliser makes of that path.

Some promises turned out not to hold as they read. The model keeps the code as it is, shows an input for which they fail
and states exactly when they hold:

- A write that would make a file exactly 71680 bytes passes the size test and then fails the ASSERT on the number of
  blocks; a read that reaches byte 71168 fails its ASSERT; and after a first write of no bytes the position is
  0xffffffff, from where every read fails it (`FileSystem.Partition.FileWrite`, `FileRead`, module `FileExamples`).
- `bitmap_scan` for more than one bit looks one bit past the end (`Bitmap.GuardExact`, `GuardExample`). The bitmap of the
  user pool, cleared at boot, lies directly behind the kernel pool's, and nothing sets the byte behind the bitmap of the
  kernel's addresses; so `malloc_page` can hand out a page outside the pool, exactly when the bitmap ends in a run one
  short and has no other (`Pages.PageHeap.MallocPage`, `Pages.ScanMeans`).
- `page_table_add` changes exactly one page iff no other directory entry leads to the same table
  (`Paging.OnePageIff`); the loader uses one table for the directory's entries 0 and 768 (`Paging.AliasExample`).
- A process that exits can leave init waiting although init has a hanging child: this is the only kind of step that
  does, and only the exit of a child of init repairs it (`ProcessRuns.StrandsIff`); thirteen steps from boot lead there
  (`ProcessExample.StrandedExample`).
- `rmdir` of an empty directory through a path that ends in `.` releases the directory and leaves its name
  (`DirTree.RmdirIff`, `RmdirDotExample`).
- Looking up a path of two or more slashes and nothing else returns an inode number that nobody has written
  (`DirTree.SlashesIff`).
- c4 accepts as the target of `=` every expression whose last emitted word reads as a load: `9 = x`, `a || b = c`, a call
  with nine arguments (`C4PrintParse.TargetAccepted`, `LiteralTarget`, `OrTarget`).

## Modelling choices

- c4: addresses count words, the stack is unbounded and lies below text and data, arithmetic is 32-bit with wrap-around;
  what C leaves undefined (division by zero, shifts out of range, uninitialised locals) is a fault of the
  evaluator, about which nothing is claimed. `main` has at most two parameters, as many as the start-up stack holds.
- A PANIC or failed ASSERT is a result value, so that "it does not fire" is a theorem.
- A disk sector is 512 bytes at an lba in a map; inodes stay in memory; a context switch makes the next thread current.
- Where the repository's run is unbounded, a `Serve` method or a `Run` function over a list of requests stands for it.

## Model

| member | source | states |
|---|---|---|
| C4Syntax.Arith | user/c4.c:967-982 | results of the operators are 32-bit, comparisons are 0 or 1, there is no result exactly for a zero divisor, an overflowing quotient and a shift out of range |
| C4Arith.Order | user/c4.c:970-975 | `x < y` iff y is x and something positive; the other comparisons follow from it by exchange and complement |
| C4Arith.Residues | user/c4.c:978-980 | sums, differences and products are right modulo 2^32 |
| C4Arith.OneResidue | user/c4.c:978-980 | which leaves one 32-bit result |
| C4Arith.Division | user/c4.c:981-982 | dividend = divisor * quotient + remainder, the remainder smaller than the divisor and with the sign of the dividend |
| C4Arith.ShiftLeft | user/c4.c:976-976 | one place more is one doubling more |
| C4Arith.ShiftRight | user/c4.c:977-977 | one place more is one halving more, rounded down |
| C4Arith.Bits | user/c4.c:967-969 | every bit of `\|`, `^`, `&` is the operation on the bits |
| C4Arith.KnownByBits | user/c4.c:967-969 | which leaves one 32-bit result |
| C4Laws.PreStepMeans | user/c4.c:461-479 | `++x` is `x = x + 1`, `--x` is `x = x - 1` |
| C4Laws.PostStepMeans | user/c4.c:642-663 | `x++` does what `++x` does and has the old value |
| C4Laws.NegMeans | user/c4.c:448-460 | `-e` is `0 - e` |
| C4Laws.NotMeans | user/c4.c:428-435 | `!e` is `e == 0` |
| C4Laws.BitNotMeans | user/c4.c:436-443 | `~e` is `e ^ -1` |
| C4Laws.CondMeans | user/c4.c:498-513 | `?:` takes the second operand for a constant other than 0, the third for 0, and turns round under `!` |
| C4Laws.AndOrMean | user/c4.c:514-527 | `a && b` is `a ? b : 0`, and `!(a \|\| b)` is `!a && !b` |
| C4Laws.IfElseMeans | user/c4.c:696-721 | `if` takes its branch by the test, turns round under `!`, and is `if`/`else` with nothing behind the else |
| C4Laws.WhileUnrolls | user/c4.c:722-743 | a loop is a test, the body and the loop again |
| C4Laws.BoundInOrder | user/c4.c:873-887 | arguments go to parameters from left to right |
| C4Laws.OneResult | user/c4.c:942-982 | the result does not depend on the bound put on turns and calls, once it suffices |
| C4Syntax.XorMinusOne | user/c4.c:436-443 | xor with -1, which the compiler emits for `~`, is bitwise complement on 32-bit ints |
| C4Syntax.LvalCode | user/c4.c:370-381 | the code of every lvalue is its address followed by one load |
| C4Loop.Vm.Turn | user/c4.c:943-982 | one turn of the interpreter loop is one step of the machine, or stops it |
| C4Loop.Vm.Run | user/c4.c:942-982 | running the loop n times performs n steps |
| C4Simulation.ExprSim | user/c4.c:289-690 | running the words of any expression gives its value in `a` and its store in memory, `sp` and `bp` restored, the rest of the stack intact |
| C4Simulation.BinSim | user/c4.c:528-641 | both operands are evaluated in order and combined as the laws of `C4Arith` say |
| C4Simulation.UnarySim | user/c4.c:428-443 | `!` and `~` give the evaluator's value |
| C4Simulation.NegSim | user/c4.c:448-460 | so does unary minus |
| C4Simulation.AssignSim | user/c4.c:488-497 | the rewritten load and `SI` store the right side's value in the variable, and only there |
| C4Simulation.CondSim | user/c4.c:498-513 | both back-patched targets of `?:` lead to the branch the evaluator takes and join |
| C4Simulation.ShortSim | user/c4.c:514-527 | `\|\|` and `&&` leave the last operand evaluated, not 0 or 1, and skip the right side when the evaluator does |
| C4Simulation.StepSim | user/c4.c:461-479 | `++`/`--` before and after a variable store the stepped value and leave the new or old one |
| C4Simulation.Enter | user/c4.c:955-958 | `JSR` and `ENT` make a frame whose parameters are the pushed arguments, by name, and in which different names have different slots |
| C4Simulation.Leave | user/c4.c:960-960 | `LEV` gives the caller its pc, sp and bp back, its variables unchanged |
| C4Simulation.InvokeSim | user/c4.c:952-960 | from pushed arguments to the callee's result, at any depth of calls |
| C4Simulation.ArgsSim | user/c4.c:342-349 | the arguments end up on the stack, the last one on top |
| C4Simulation.CallSim | user/c4.c:340-364 | argument pushes, call and `ADJ` leave the caller's frame as it was, for any number of arguments and locals |
| C4Simulation.StmtSim | user/c4.c:692-771 | running any statement ends just past its code or at `LEV` with the store of the big-step semantics |
| C4Simulation.WhileSim | user/c4.c:722-743 | the loop's two jumps follow the evaluator through every iteration |
| C4Simulation.IfElseSim | user/c4.c:696-721 | the patched targets of `if`/`else` lead to the branch the evaluator takes and join |
| C4Simulation.FrameApart | user/c4.c:873-906 | different local names of a frame are at different addresses |
| C4Boundaries.CodeSound | user/c4.c:498-527 | every jump in the code of an expression leads to the start of an instruction of that code or to its end |
| C4Boundaries.StmtSound | user/c4.c:692-771 | the same for statements |
| C4Boundaries.JumpSound | user/c4.c:696-743 | for `if`, `if`/`else` and `while` in particular |
| C4Boundaries.FunSound | user/c4.c:907-909 | the same for a function from `ENT` to `LEV` |
| C4Divergence.ExprLong | user/c4.c:289-690 | when the evaluator runs out of fuel on an expression, the machine can take at least that many steps |
| C4Divergence.StmtLong | user/c4.c:692-771 | the same for statements, so that a diverging program keeps the machine running |
| C4Program.ProgramExits | user/c4.c:930-943 | from the stack that is set up for `main`, with no, one or two parameters, a program whose `main` returns makes the machine stop with that value |
| C4Program.ProgramReturns | user/c4.c:930-943 | conversely, when the machine stops, `main` has returned |
| C4Program.MainBinds | user/c4.c:930-941 | two parameters of `main` get the two arguments in order, a single one gets the second |
| C4Program.StopUnique | user/c4.c:943-982 | there is only one state the machine can stop in |
| C4Parser.ParseExpr | user/c4.c:289-690 | each call of `expr` consumes a token, so parsing ends |
| C4Parser.ParseStmt | user/c4.c:692-771 | each call of `stmt` consumes a token |
| C4Parser.Compiler.Expr | user/c4.c:289-690 | the in-place `expr` with its code buffer and back-patching computes the parsing function |
| C4Parser.Compiler.Prefix | user/c4.c:293-483 | the first half of `expr` does |
| C4Parser.Compiler.Operator | user/c4.c:485-689 | one turn of the climbing loop does |
| C4Parser.Compiler.Arguments | user/c4.c:340-350 | the argument loop does, and counts |
| C4Parser.Compiler.Statement | user/c4.c:692-771 | the in-place `stmt` computes the parsing function |
| C4PrintParse.ParsePrinted | user/c4.c:289-690 | a tree printed with only the parentheses that precedence requires is parsed back: its tokens are consumed exactly and its code emitted |
| C4Precedence.ChainParsed | user/c4.c:485-641 | operands and binary operators without parentheses, in any number, parse to the tree of C's table: the last of the loosest operators on top |
| C4Precedence.TwoOperators | user/c4.c:485-641 | `a o1 b o2 c` is `a o1 (b o2 c)` iff o2 is in a tighter class, and `(a o1 b) o2 c` otherwise |
| C4Precedence.TernaryParsed | user/c4.c:498-513 | `?:` is looser than all of them and groups to the right |
| C4Precedence.AssignParsed | user/c4.c:488-497 | `=` takes everything on its right |
| C4Precedence.UnaryText | user/c4.c:428-479 | a unary operator with its operand is itself such an operand |
| C4PrintParse.ParseOperand | user/c4.c:382-407 | the same for an operand that needs parentheses |
| C4PrintParse.EdgeAbove | user/c4.c:528-641 | an operator ends a left operand of its own level, so binary operators associate to the left |
| C4PrintParse.BinPrinted | user/c4.c:528-641 | a binary expression is parsed back, its right operand at the next level, which `C4Precedence` ties to C's table |
| C4PrintParse.ShortPrinted | user/c4.c:514-527 | so are `\|\|` and `&&`, their jump patched past the right side |
| C4PrintParse.NegPrinted | user/c4.c:448-460 | a minus is folded into a literal and compiled as a product otherwise |
| C4PrintParse.PostPrinted | user/c4.c:642-663 | postfix steps rewrite the load of their operand |
| C4PrintParse.CallPrinted | user/c4.c:340-364 | a call is parsed back with its argument count in `ADJ` |
| C4PrintParse.AssignPrinted | user/c4.c:488-497 | `=` associates to the right and rewrites the load of its target |
| C4PrintParse.CondPrinted | user/c4.c:498-513 | `?:` associates to the right |
| C4PrintParse.TwoPatches | user/c4.c:498-513 | the two patched words are the two jump targets, whatever was emitted between |
| C4PrintParse.StmtPrinted | user/c4.c:692-771 | a printed statement is parsed back to its code |
| C4PrintParse.IfElsePrinted | user/c4.c:696-721 | an else belongs to the nearest if, and both holes are patched |
| C4PrintParse.WhilePrinted | user/c4.c:722-743 | the loop jumps back to its test and out past its end |
| C4PrintParse.BlockPrinted | user/c4.c:755-759 | and so is a function body up to its closing brace |
| C4PrintParse.LiteralTarget | user/c4.c:488-495 | a literal is accepted as the target of `=` iff its value is 9 or 10, the numbers of the load instructions |
| C4PrintParse.TargetAccepted | user/c4.c:488-497 | any expression that is no assignment is accepted as a target iff its code ends in a word that reads as a load, for which the tree is enough |
| C4PrintParse.LvalAccepted | user/c4.c:488-495 | every variable, with parentheses or without, is |
| C4PrintParse.OrTarget | user/c4.c:488-527 | so is `a \|\| b`, which is no variable |
| C4Declarations.Declarations.Params | user/c4.c:873-887 | the in-place parameter loop numbers parameters and saves what they hide |
| C4Declarations.Declarations.Locals | user/c4.c:889-906 | the same for locals |
| C4Declarations.Declarations.Unwind | user/c4.c:910-918 | unwinding restores every hidden name, whatever order the symbol table has |
| C4Declarations.Declarations.Restore | user/c4.c:912-916 | one name gets back what it meant outside |
| C4Declarations.Declarations.Function | user/c4.c:870-919 | a function definition leaves the global scope with just the function added, its code between `ENT` and `LEV` |
| C4Declarations.Declarations.Declarators | user/c4.c:863-926 | functions and globals of one declaration, duplicates refused |
| C4Declarations.TwoNames | user/c4.c:863-872 | two names without a comma are refused, because the class of the first is written to the second |
| C4Refusals.ParamsAccepted | user/c4.c:873-887 | a parameter list is accepted iff no name in it is there already |
| C4Refusals.LocalsAccepted | user/c4.c:889-906 | the same for locals, parameters included |
| C4Refusals.TakenRefused | user/c4.c:866-867 | a global name that is taken is refused |
| C4Refusals.NameRefused | user/c4.c:338-382 | so are a name without a value, and a call of anything but a function |
| C4Refusals.ColonNeeded | user/c4.c:498-513 | `?` without its colon is refused |
| C4Refusals.ParenNeeded | user/c4.c:383-414 | an open parenthesis is refused |
| C4Refusals.SemicolonNeeded | user/c4.c:745-770 | so is an expression statement or a `return` without its semicolon |
| C4Refusals.TestNeeded | user/c4.c:696-743 | so is `if` or `while` without the parentheses of its test |
| C4Declarations.Declarations.File | user/c4.c:838-928 | the declaration loop computes the parsing function for whole files |
| C4Whole.FilePrinted | user/c4.c:838-928 | a printed file is parsed back: scope, code and data size are what the declarations call for |
| C4Whole.BuildWorld | user/c4.c:870-924 | each function finds its own code in the text, also after later declarations, and different globals are different words |
| C4Whole.WorldApart | user/c4.c:870-924 | so in every frame of every function different names have different words |
| C4Whole.CompileAndRun | user/c4.c:838-982 | the text is accepted, different names have different words, and the compiled program exits with a value exactly when `main` returns it |
| Scheduler.ScheduleKeeps | thread/thread.c:155-186 | `schedule` never pops an empty list, leaves one thread RUNNING, and parks or wakes nobody but idle; whom it picks is in `TickTurns` |
| Scheduler.BlockKeeps | thread/thread.c:190-204 | blocking keeps: one RUNNING thread, on the ready list (once) iff READY |
| Scheduler.YieldKeeps | thread/thread.c:230-241 | so does yielding |
| Scheduler.WakeKeeps | thread/thread.c:208-227 | and unblocking |
| Scheduler.CreateKeeps | thread/thread.c:128-133 | and creation |
| Scheduler.ExitKeeps | thread/thread.c:356-383 | and the end of a thread other than idle |
| Scheduler.TickTurns | thread/thread.c:155-186 | a tick makes the first ready thread run and puts the old one last; with nobody ready it goes on |
| Scheduler.RoundRobin | thread/thread.c:155-186 | over ticks alone every thread that can run runs once, in the order of the list, and then the state is the old one |
| Scheduler.BlockTurns | thread/thread.c:190-204 | blocking: the first ready thread runs, or idle; the caller is on no list |
| Scheduler.YieldIsTick | thread/thread.c:230-241 | yielding is a tick |
| Scheduler.WakesFirst | thread/thread.c:208-227 | a woken thread is the next to run |
| Scheduler.CreatedLast | thread/thread.c:128-133 | a new thread runs after all that are ready |
| Scheduler.ExitTurns | thread/thread.c:356-383 | the thread is gone; if it was running the first ready thread runs, or idle |
| Scheduler.WithoutOne | thread/thread.c:367-369 | taking a thread off the list leaves the others in order |
| Threads.ThreadTable.Reschedule | thread/thread.c:155-186 | the in-place `schedule` computes the scheduling function, and cannot panic when nobody but the caller is RUNNING |
| Threads.ThreadTable.ThreadBlock | thread/thread.c:190-204 | in-place `thread_block` |
| Threads.ThreadTable.ThreadUnblock | thread/thread.c:208-227 | in-place `thread_unblock`; it panics iff the thread is not parked or is queued |
| Threads.ThreadTable.ThreadYield | thread/thread.c:230-241 | in-place `thread_yield` |
| Threads.ThreadTable.ThreadCreate | thread/thread.c:128-133 | in-place end of `thread_create` |
| Threads.ThreadTable.ThreadExit | thread/thread.c:356-383 | in-place `thread_exit` |
| LinkedList.List.constructor | lib/kernel/list.c:5-11 | an empty list is two sentinels |
| LinkedList.List.InsertBefore | lib/kernel/list.c:14-25 | the element is inserted at its place and the chain stays doubly linked without repetition |
| LinkedList.List.Push | lib/kernel/list.c:28-31 | in front |
| LinkedList.List.Append | lib/kernel/list.c:34-37 | at the end |
| LinkedList.List.Remove | lib/kernel/list.c:40-49 | exactly that element goes, its own links untouched |
| LinkedList.List.Pop | lib/kernel/list.c:52-57 | the first element of a list that has one |
| LinkedList.List.Find | lib/kernel/list.c:60-69 | membership |
| LinkedList.List.Len | lib/kernel/list.c:88-96 | length |
| LinkedList.List.IsEmpty | lib/kernel/list.c:98-101 | emptiness |
| Locks.TakeKeeps | thread/sync.c:36-39 | a successful `sema_down` makes the caller the only owner |
| Locks.WaitKeeps | thread/sync.c:25-35 | a blocking one queues it once; the ASSERT on the waiters does not fire |
| Locks.TickKeeps | thread/thread.c:155-186 | a timer tick between any two statements keeps the invariant |
| Locks.UpKeeps | thread/sync.c:44-59 | `sema_up` frees the lock and leaves the popped waiter about to test again; its ASSERTs do not fire |
| Locks.AcquireKeeps | thread/sync.c:61-71 | every other statement of `lock_acquire` keeps the invariant and its ASSERT holds |
| Locks.ReleaseKeeps | thread/sync.c:73-83 | every statement of `lock_release` before `sema_up` keeps the invariant, at any nesting depth; what the whole call does is in `LockCalls` |
| Locks.StepKeeps | thread/sync.c:21-85 | no step of any thread panics and each keeps the invariant |
| Locks.RunSafe | thread/sync.c:21-85 | nor does any run, with ticks between any two statements |
| Locks.MutualExclusion | thread/sync.c:61-85 | over every run at most one thread is between its completed `sema_down` and its `sema_up` |
| Locks.NoWakeupLost | thread/sync.c:21-59 | the value is 0 iff there is an owner; a free lock with waiters has a woken thread that gets it if it runs first |
| Locks.TagOnce | thread/sync.c:25-35 | over every run `general_tag` is on at most one list, the ready list or that of one lock, and there once; whoever runs is on none |
| LockCalls.ReleaseNested | thread/sync.c:73-79 | releasing a lock held d > 1 times leaves it held d - 1 times, value and waiters as they were |
| LockCalls.ReleaseLast | thread/sync.c:73-85 | the last release leaves value 1, no holder, count 0; the first waiter is off the list, READY and first of the ready list |
| LockCalls.AcquireNested | thread/sync.c:61-71 | acquiring a lock one holds counts one more |
| LockCalls.AcquireFree | thread/sync.c:61-71 | acquiring a free lock makes the caller its holder, once |
| LockCalls.AcquireTaken | thread/sync.c:22-35 | acquiring somebody else's lock makes the caller the last waiter, BLOCKED, and leaves the lock |
| LockCalls.HeldIsBalance | thread/sync.c:61-85 | over every run, with any interleaving: a thread outside the lock functions is the holder with count b iff it has acquired the lock b > 0 times more than released it |
| LockCalls.FreeAgain | thread/sync.c:61-85 | when nobody is in a call and all is released the lock is as at boot |
| LockCalls.TickSwitches | thread/thread.c:155-186 | between any two statements a tick lets the first ready thread go on where it is, and changes no lock |
| LockCalls.IdleGivesWay | thread/thread.c:244-258 | idle gives way to the first ready thread and goes on if there is none |
| LockCalls.SleepAndWake | thread/thread.c:190-227 | the whole state after parking for another event, and after that event |
| LockCalls.SpawnAppends | thread/thread.c:128-133 | the whole state after a thread is made |
| ProcessTree.AddKeeps | thread/pid.c:24-31 | a new task gets a pid that was nobody's and nobody's parent's |
| ProcessTree.Narrow | userprog/wait_exit.c:147-147 | the exit status kept is the one passed modulo 256, between -128 and 127 |
| ProcessTree.KernelEnds | thread/thread.c:356-383 | a kernel thread can end itself: nobody is its child or waits for it |
| ProcessTree.ForkKeeps | userprog/fork.c:182-203 | fork keeps the process tree |
| ProcessTree.WaitKeeps | userprog/wait_exit.c:108-140 | a turn of `sys_wait` keeps it |
| ProcessTree.ExitStartKeeps | userprog/wait_exit.c:143-153 | PANIC iff the caller has no parent; otherwise handing the children to init keeps the tree |
| ProcessTree.ExitEndKeeps | userprog/wait_exit.c:158-164 | the parent is found; waking it and hanging keep the tree |
| ProcessTree.NoChildren | userprog/wait_exit.c:96-104 | nobody is the child of a thread that is exiting or gone, so a reused pid has no children |
| ProcessCalls.ForkReturns | userprog/fork.c:182-203 | the whole state after fork: lowest free pid, the caller for a parent, READY behind all others |
| ProcessCalls.WaitReaps | userprog/wait_exit.c:112-126 | the whole state after wait with a hanging child: the first one in the list of all threads is gone, its status delivered, the caller goes on |
| ProcessCalls.WaitSleeps | userprog/wait_exit.c:128-138 | every caller with children of which none hangs is WAITING, and the first ready thread runs, or idle |
| ProcessCalls.WaitFails | userprog/wait_exit.c:130-134 | without children wait returns at once |
| ProcessCalls.ExitKept | userprog/wait_exit.c:143-153 | the status in 8 bits, the children handed to init, nothing else |
| ProcessCalls.ExitHands | userprog/wait_exit.c:158-164 | the caller hangs; a parent that waits runs next, otherwise the first ready thread, or idle |
| ProcessCalls.SchedulerSteps | thread/thread.c:155-241 | ticks, yields, sleeping and waking change what the scheduler changes and nothing else |
| ProcessCalls.KernelThreads | thread/thread.c:356-383 | the whole state after a kernel thread is made, and after one ends |
| ProcessTree.StepKeeps | userprog/wait_exit.c:96-164 | every step keeps the invariant; none panics but the exit of a process without a parent |
| ProcessRuns.RunSafe | userprog/wait_exit.c:96-164 | over every run the invariant holds, and the run panics iff a process without a parent exits in it |
| ProcessRuns.WaitDelivers | userprog/wait_exit.c:112-126 | with a hanging child wait returns its exit status, to its parent, and child and pid are gone; without one nothing is delivered |
| ProcessRuns.RunHistory | userprog/wait_exit.c:108-164 | every delivery of a run was received by the child's parent at that time; every status on record was passed to exit in the run |
| ProcessRuns.Reachable | userprog/wait_exit.c:96-164 | over every run from boot: unique live pids, live parents that do not hang, nobody but init left waiting on a hanging child, and at most one delivery per child, in -128..127, of the status it passed to exit, to its parent |
| ProcessRuns.StrandsIff | userprog/wait_exit.c:143-164 | of all steps exactly an exit with a hanging child while init waits leaves init waiting on a hanging child; then exactly the hanging of a child of init ends it |
| ProcessExample.StrandedExample | userprog/wait_exit.c:153-164 | thirteen steps from boot that lead there |
| Bitmap.FirstClear | fs/file.c:65-73 | the lowest clear bit, or -1 iff none is clear |
| Bitmap.ByteMap.Init | lib/kernel/bitmap.c:7-10 | all bits clear, memory behind the bitmap untouched |
| Bitmap.ByteMap.Test | lib/kernel/bitmap.c:13-18 | the bit of that number |
| Bitmap.ByteMap.Set | lib/kernel/bitmap.c:71-82 | exactly that bit changes |
| Bitmap.ByteMap.Scan | lib/kernel/bitmap.c:22-68 | for one bit the leftmost clear bit; for more the leftmost run among the bitmap and the one bit behind it |
| Bitmap.GuardExact | lib/kernel/bitmap.c:49-67 | the answer is the bitmap's own leftmost run, -1 iff none, exactly when the bit behind does not complete a run the bitmap lacks |
| Bitmap.GuardExample | lib/kernel/bitmap.c:49-67 | eight bits of which the last is clear, and a clear bit behind: a run of two is reported that the bitmap does not have |
| Bitmap.ByteMap.ScanMore | lib/kernel/bitmap.c:49-67 | counting clear bits and starting again at used ones finds the leftmost run |
| Pages.PageHeap.MapRun | kernel/memory.c:191-199 | a different free frame for every page of the run; fails iff too few are free |
| Pages.PageHeap.MarkRun | kernel/memory.c:74-77 | exactly the bits of the run are set or cleared |
| Pages.PageHeap.MallocPage | kernel/memory.c:175-201 | the leftmost run of free pages, mapped in order to the lowest free frames; NULL exactly when there is no run, unless the clear bit behind the bitmap completes one, the only case of a page outside |
| Pages.ScanMeans | kernel/memory.c:62-80 | what the scan's answer says about the bitmap itself, for either value of the bit behind it |
| Pages.GuardedPages | kernel/memory.c:62-80 | with that bit set no page outside is ever handed out |
| Pages.PageHeap.MfreePage | kernel/memory.c:336-379 | those pages unmapped, their frames and bits free, nothing else changed |
| Pages.RoundTrip | kernel/memory.c:175-379 | freeing what was allocated restores mapping and both bitmaps |
| Pages.Determined | kernel/memory.c:175-201 | the bitmaps are determined by the mapping |
| Paging.PdeReached | kernel/memory.c:113-119 | through the self-mapped directory `pde_ptr(v)` translates to v's directory entry |
| Paging.PteReached | kernel/memory.c:101-109 | `pte_ptr(v)` translates to v's table entry iff v has a table |
| Paging.V2pWalks | kernel/memory.c:279-283 | `addr_v2p` is the hardware's translation of every mapped address |
| Paging.PageTables.PageTableAdd | kernel/memory.c:137-169 | with or without a table, the page and what shares its table entry now translate to the frame and all else as before; the entries are present, writable and open to user code; it fails iff the page was mapped |
| Paging.PageTables.ClearTable | kernel/memory.c:159-163 | the new table is cleared, through the window, and nothing else |
| Paging.OnePageIff | kernel/memory.c:137-169 | exactly one page changes iff no other directory entry leads to the same table |
| Paging.BootTables | boot/loader.S:234-248 | in the loader's directory 0xc0100000 and 0x00100000 share an empty table entry |
| Paging.AliasExample | kernel/memory.c:137-169 | so mapping the first also maps the second |
| Arena.ClassFor | kernel/memory.c:550-555 | the smallest class that holds the size |
| Arena.PerArena | kernel/memory.c:49-59 | as many blocks as fit behind the header, and not one more |
| Arena.Doubling | kernel/memory.c:49-59 | each class is twice the one before |
| Arena.BlockIn | kernel/memory.c:478-488 | `arena2block` stays in its page behind the header and `block2arena` recovers the page |
| Arena.LiveApart | kernel/memory.c:491-660 | live blocks do not overlap and hold what was asked for |
| Arena.LiveOffHeaders | kernel/memory.c:491-660 | nor do they touch an arena header |
| Arena.LiveOffFree | kernel/memory.c:491-660 | nor a block on a free list |
| Arena.NothingLive | kernel/memory.c:644-656 | with nothing handed out there is no arena left |
| Arena.TakeKeeps | kernel/memory.c:591-599 | taking a block keeps `cnt` equal to the free blocks of each arena |
| Arena.GiveKeeps | kernel/memory.c:638-644 | so does giving one back |
| Arena.DropKeeps | kernel/memory.c:644-656 | an arena all of whose blocks are free can be taken apart |
| Allocator.KernelHeap.FindClass | kernel/memory.c:551-555 | the loop finds the class |
| Allocator.KernelHeap.SysMalloc | kernel/memory.c:491-604 | a new block of at least the size, everything live kept, the head of the class's list if it has one; the exact cases of NULL (bad size, or pages needed and no run of them) and of a run that ends on the bit behind the bitmap |
| Allocator.KernelHeap.MallocLarge | kernel/memory.c:524-545 | the leftmost run of whole pages for the size and its header, the address right behind the header; the exact cases of NULL and of a run that ends outside |
| Allocator.KernelHeap.NewArena | kernel/memory.c:559-587 | a fresh page for a class without free blocks, all its blocks queued |
| Allocator.KernelHeap.Divide | kernel/memory.c:577-584 | the loop queues every block of the page in order, none twice |
| Allocator.KernelHeap.TakeBlock | kernel/memory.c:591-602 | the head of the list is handed out and its arena's count goes down |
| Allocator.KernelHeap.TakeApart | kernel/memory.c:645-654 | the loop finds and removes every block of the arena and nothing else |
| Allocator.PagesFor | kernel/memory.c:526-527 | the fewest pages that hold size and header |
| Allocator.KernelHeap.SysFree | kernel/memory.c:606-660 | the block is no longer live, everything else is; it goes to the end of its list unless its arena is now empty, and then the arena goes; the ASSERTs on the free list hold |
| Allocator.KernelHeap.Serve | kernel/memory.c:491-660 | over any run in which every request is served, once all is freed, bitmaps, mapping, arenas and free lists are as they started |
| FileBlocks.Encode | fs/file.c:365-374 | an indirect table written to a sector reads back word for word |
| FileBlocks.LittleEndian | fs/file.c:365-374 | the least significant byte of a word comes first |
| FileBlocks.PutAppends | fs/file.c:406-433 | writing one chunk appends its bytes to that file and changes no other |
| FileBlocks.GrowKeeps | fs/file.c:282-395 | giving a file more blocks keeps every file's bytes, ownership disjoint and the bitmap exact |
| FileSystem.Partition.Alloc | fs/file.c:65-73 | the lowest free block, now marked; -1 iff none |
| FileSystem.Partition.MapBlocks | fs/file.c:282-395 | all four allocation cases: the file has exactly the blocks it will need and a table iff more than 12; fails iff too few are free |
| FileSystem.Partition.GrowTable | fs/file.c:328-374 | the case that needs a table: one block more for it, the table written with the new pointers |
| FileSystem.Partition.FirstBlock | fs/file.c:262-273 | a file without blocks gets its first one and still no bytes |
| FileSystem.Partition.Fill | fs/file.c:307-364 | the allocation loops: distinct free blocks, recorded in the pointers, bitmap marked for exactly these |
| FileSystem.Partition.WriteSector | fs/file.c:407-429 | the chunk is laid over the bytes the sector already holds for the file |
| FileSystem.Partition.WriteChunks | fs/file.c:397-433 | the chunk loop appends the whole buffer and leaves the position on the last byte |
| FileSystem.Partition.FileWrite | fs/file.c:233-439 | contents become the concatenation, other files are unchanged, exactly the needed blocks are taken, the position is that of the last byte; the exact cases of refusal, full disk and failed ASSERT |
| FileSystem.Partition.LoadPointers | fs/file.c:474-522 | in every case the pointers of the blocks to be read are loaded, the table exists when it is needed |
| FileSystem.Partition.ReadChunks | fs/file.c:524-542 | the loop collects the requested bytes in order |
| FileSystem.Partition.FileRead | fs/file.c:443-546 | exactly the requested slice, cut at the end of the file; for every position and count the exact cases of -1, of the failed ASSERT and of a loop that runs past the file |
| FileSystem.Partition.ReadWithin | fs/file.c:468-546 | loading the pointers and the loop give the slice of the file |
| FileExamples.WritePanics | fs/file.c:275-281 | an empty file and a buffer of 71680 bytes: the failed ASSERT |
| FileExamples.ReadPanics | fs/file.c:468-472 | 71168 bytes can be written and not read back in one call; one byte less can |
| FileExamples.EmptyWriteThenRead | fs/file.c:397-546 | after a first write of no bytes every read fails the ASSERT |
| FileSystem.Partition.Create | fs/inode.c:220-231 | a new file is empty and owns no block |
| FileSystem.Partition.Release | fs/inode.c:163-205 | exactly the file's blocks and table are freed, other files unchanged |
| FileSystem.Partition.Serve | fs/file.c:233-439 | over any run the files are what the requests make of byte sequences, and blocks are conserved |
| FileSystem.NoneLeft | fs/inode.c:163-205 | with no file left exactly the reserved blocks are marked |
| Paths.PathParse | fs/fs.c:215-235 | the next component and the rest, slashes skipped |
| Paths.ComponentsSplit | fs/fs.c:215-235 | a slash separates components wherever it is |
| Paths.OneComponent | fs/fs.c:223-226 | a name without slashes is its own only component |
| Paths.WashPath | shell/path_parse.c:11-56 | the rendering of the components folded with `.` and `..` |
| Paths.WashIdempotent | shell/path_parse.c:11-56 | the result has no `.`, `..` or empty component and is a fixed point |
| Paths.SplitJoin | shell/path_parse.c:11-56 | rendering names and splitting the path are inverse |
| Paths.MakeClearAbsPath | shell/path_parse.c:60-85 | a relative path continues the fold from the current directory |
| DirTree.PathDepth | fs/fs.c:240-258 | the number of components |
| DirTree.FileTree.SearchFile | fs/fs.c:261-325 | for every string: the ASSERT fails iff it is not absolute or too long; otherwise a directory is found where the components lead, a file under the name and in the directory it is entered in, and for a missing name the parent is where the names before it lead; the inode number is unset iff there are only slashes |
| DirTree.SlashesIff | fs/fs.c:261-325 | which are the paths of two to 511 slashes |
| DirTree.WalkFolds | fs/fs.c:261-325 | it ends in the directory whose names are the fold of the components |
| DirTree.WalkStops | fs/fs.c:298-322 | where the search stops for a missing name or a file, and which inode it reports |
| DirTree.FileTree.MkdirAt | fs/fs.c:607-709 | for every string: made iff the path is accepted and only the last component is missing; afterwards the path leads to the new directory, no other directory has moved, the tree shape is kept; the exact cases of the ASSERT and of the unset inode number |
| DirTree.MkdirPlace | fs/fs.c:607-709 | the same on trees: the names of the new directory are the fold of the path |
| DirTree.MkdirKeeps | fs/fs.c:641-709 | each directory but the root is named once, in the directory its `..` names |
| DirTree.FileTree.RmdirAt | fs/fs.c:781-817 | for every string: the exact cases of refusal, ASSERT, unset inode number and removal; afterwards, unless the path ends in a dot, it leads nowhere and no other directory has moved |
| DirTree.RmdirPlace | fs/fs.c:781-817 | the same on trees |
| DirTree.RmdirIff | fs/fs.c:781-817 | removing an empty directory keeps the tree iff the path does not end in `.` |
| DirTree.RmdirDotExample | fs/fs.c:781-817 | `/a/.` as a concrete case |
| DirTree.EnteredBy | fs/fs.c:290-325 | the parent recorded by the search is the directory's own parent unless the last component is a dot |
| DirTree.FileTree.Chdir | fs/fs.c:937-954 | the new current directory is where the path leads, its names the fold of the components; the exact cases of refusal, ASSERT and unset inode number |
| DirTree.FileTree.Getcwd | fs/fs.c:820-934 | the climb ends and the reversal at slashes gives the path of the current directory |
| DirTree.WalkPath | fs/fs.c:261-325 | every directory is found under its own path |
| DirTree.ThereAndBack | fs/fs.c:883-954 | `getcwd` inverts `chdir` on canonical paths, and `chdir` inverts `getcwd` on directories |
| Directory.Dir.constructor | fs/fs.c:669-680 | a new directory holds the two dots, which is the entry list the tree gives it |
| Directory.Dir.Search | fs/dir.c:46-97 | map lookup, and the lookup in the tree's entry list |
| Directory.ScanFinds | fs/dir.c:46-97 | the two agree |
| Directory.Dir.Insert | fs/dir.c:114-238 | map update, `i_size` one entry more, one entry more behind the dots in the tree's list, in the first block with room and there in the first free slot; fails iff no direct block has room |
| Directory.Dir.Delete | fs/dir.c:241-384 | removal of the name of that inode, `i_size` one entry less, that entry gone from the tree's list; false iff there is none |
| Directory.Dir.ScanBlock | fs/dir.c:279-307 | the entry found, the count and the mark of the first block are right |
| Directory.EmptyHasOneBlock | fs/dir.c:455-469 | `dir_is_empty` holds iff only the dots are left, and then all other blocks are unmapped, as `dir_remove` asserts |

## Left out

- The lexer of c4 (`next`): the parser starts from tokens.
- c4 pointers, `char`, strings, casts, `sizeof`, enums and library calls: pointer stores can alias the operand stack.
- FileSystem.Partition.FileWrite: promises nothing about the partition after running out of blocks midway or after a failed ASSERT, because the source leaves a half-grown file there.
- Pages.PageHeap.MallocPage: promises nothing after running out of frames midway, which the source marks as unfinished.
- Allocator.KernelHeap.SysMalloc: the same, also after a page outside the bitmap; and it models the kernel's heap only, not the per-process one.
- Directory.Dir.Insert: direct blocks only; the loops for the indirect table do not advance.
- Paging.PageTables.PageTableAdd: the frame for a new table is a parameter, and the window above 0xffc00000 is excluded from the frame condition.
- ProcessTree.ForkKeeps: memory and file-table copying are not modelled, and a free pid is assumed.
- Paths.PathParse: names of 16 characters or more overflow the caller's buffer in C; strings are unbounded here.
- DirTree.FileTree.SearchFile: for a path of several slashes and nothing else the result says that the inode number is unset; what the callers then do with it is not modelled.
- FileSystem.Partition.FileRead: when the loop runs past the file the model stops; what it would read is not modelled.
- C4Whole.CompileAndRun: a `main` of more than two parameters reads words above the stack that is set up, and is excluded.
- The blocks of Directory are not tied to the block bitmap of FileSystem.
- Locks: liveness beyond lost wake-ups (a woken thread can be overtaken forever) is not claimed.
- LinkedList.List: the kernel's lists of threads appear in the other modules as sequences.
- Contents of allocated memory: that blocks and pages are cleared is not modelled.
- Bitmaps outside module Bitmap are sequences of booleans.
- Boot code, assembly, device drivers, multi-sector transfers, inode persistence, ELF loading, pipes, console and shell commands.
