# GameScript: a verified model of the compiler core, the virtual machine and the runtime tables

GameScript is a Squirrel-derived scripting language: a one-pass bytecode compiler with a peephole
optimizer, a register machine with exceptions, generators and captured variables, and its own hash
table, string table, collector and object model.  This project models those parts in Dafny and proves
what the rest of the system relies on.

| file | what it holds |
|---|---|
| `Bytecode.dfy`, `Peephole.dfy` | the instructions, what one step does, the optimizer, and that optimized straight-line code runs like the plain code |
| `Codegen.dfy`, `Simulation.dfy`, `Watch.dfy`, `Compiler.dfy` | the layout of structured statements, their big-step meaning, and that the machine runs the layout with exactly that meaning; what goes wrong where it does not |
| `Syntax.dfy`, `Meaning.dfy` | programs of expressions, logical operators and statements, and what they mean, by recursion on the program: values, variables and the world, without registers or instructions |
| `Expressions.dfy`, `Targets.dfy`, `Logical.dfy`, `Statements.dfy` | the expression compiler with its target stack, the short-circuit operators and the statements over them: which programs keep the emission discipline, exactly |
| `Values.dfy`, `Programs.dfy` | the code asked for computes what the program means, and so does the code the compiler emits |
| `FuncState.dfy` | the compiler's mutable function state; emitting, popping and patching instructions in place leaves exactly that layout |
| `Frames.dfy`, `Machine.dfy` | calls, tail calls, returns, traps, throws and generators as a list of frames, and the machine with one trap stack and relative offsets that refines it |
| `Traps.dfy` | over whole runs, which handler a throw goes to; arguments of calls, wrong uses of generators |
| `Roots.dfy` | over whole runs, whether the result of a resumed generator goes to the script or to native code |
| `Captures.dfy` | frames and open outers together: where open outers lie, and what a catch does to captured variables |
| `Outers.dfy`, `Resolve.dfy` | captured variables: the open-outer list refines a store of shared cells; compile-time resolution and closure creation, level by level, bind a free name to the nearest declaration |
| `Table.dfy` | the chained scatter table with in-place deletion and rehashing refines a finite map |
| `Collector.dfy` | marking over two doubly linked chains, and resurrection |
| `Strings.dfy`, `RefTable.dfy` | string interning and the table of objects native code holds |
| `SaveLoad.dfy`, `Format.dfy` | the closure stream: saving, loading, round trip; the stream byte by byte, and that exactly such streams load |
| `Heapsort.dfy`, `ClassLayout.dfy`, `Delegation.dfy` | array sorting, class member layout, delegation |
| `Common.dfy`, `Chains.dfy` | shared types and facts about chains of object numbers |

`dafny verify dfyconfig.toml` checks the whole project.

Conventions.  Pointers are numbers into a sequence of objects, `-1` is the null pointer.  User-visible
effects the optimizer cannot see through (table access, arithmetic, comparison, calls) are functions of an
environment over which every theorem quantifies.  Clocks, I/O and native code appear as parameters.

Two disciplines of the compiler, which the machine does not check, are stated once and used as premises.

* `Frames.Legal`: the operands of an instruction are registers of its frame (for the target of a call this is what
  `Frames.CallTargetExactly` decides), and a frame returns only after its
  traps are popped, as the compiler arranges (GameScript/GScompiler.cpp:237-244).
* `Simulation.Flow`: an instruction reads only registers that are not dead temporaries, a merge drops only such a
  temporary, variables below the loop's register count survive the loop's test and body, a re-emitted increment
  obeys the same rules, and the test of a for-loop is not the function's first instruction.  It is computed from the code alone.
  `Statements.StmtExactly` says for every program of the fragment, from its syntax and its increments' code, whether it meets it; `Programs.CompileProgram` is
  the compiler theorem for those that do.

The meaning of a program (`Meaning.Mean`, `Meaning.Eval`, `Meaning.Value`) is defined on its syntax alone.  `Values.EvalRun` shows that the acts
the expression compiler asks for compute it, `Programs.MeanRun` that the structured code of every statement does, and `Programs.CompileProgram`
that the emitted, optimized and patched code does.  Operands are evaluated from left to right, but one that is a variable is read when its
operator runs, as the code does: in `x + (x = v)` both operands are `v` (`Meaning.OperandLate`); an operand that no later
one assigns has the value from its own place (`Meaning.OperandInOrder`).

A modulo that fails is not guarded by the machine, which goes on with the target unwritten.  The discipline may
therefore count on a modulo only in runs in which none fails (`Watch.NoSlip`); without that premise it accepts modulos that update a
variable in place.

## What turned out not to hold

* `GSTable::NewSlot` is documented to return true for a new slot and false for a present one.  It returns
  false for a new key that takes the last free node (`Table.HashTable.NewSlot` states the exact condition,
  `Table.NewKeyReportedAsPresent` is a run that shows it).
* A conditional jump is fused with the comparison before it whatever register it reads: `if (a < b, x)` tests
  `a < b` (`Compiler.BranchMergeExactly`, `Compiler.CommaConditionMiscompiled`).
* A move is fused into the instruction that computes its source, which loses the source's own value; a
  for-increment is emitted a second time without the protection the first emission had, so `y = a + b, x = y`
  stops writing `y` (`Compiler.RetargetExactly`, `Compiler.ChainedIncrementMiscompiled`).  For every computation
  a move can be fused into, the second emission keeps every register if and only if `x` and `y` are the same
  (`Compiler.ChainedReEmissionExactly`).  For longer code a dropped register is harmless when it is written again before
  it is read (`Compiler.ReEmissionKeeps`), so a dropped register alone does not make a loss (`Compiler.DroppedButKept`).
* A failing modulo raises no exception (GameScript/GSvm.cpp:1047) and leaves its target alone.  `x = a % b` is merged into one
  instruction, so with a zero `b` the plain code leaves in `x` what the temporary held and the optimized code leaves `x` as it
  was (`Compiler.ModuloMiscompiled`).  In any one state the variable agrees if and only if the modulo succeeds or the two
  registers held the same (`Compiler.ModuloMergeAt`); for all states, if and only if the move's target is the
  modulo's own (`Compiler.ModuloMergeExactly`).
* A call before a return becomes a tail call whatever register the return reads: `return f(1), x` in a nested function
  returns the result of `f` (`Compiler.CommaReturnMiscompiled`).  It is right if and only if the return reads the register
  the call writes (`Compiler.TailCallExactly`).
* A for-loop whose test is the function's first instruction is never patched and cannot be left through its
  test (`Compiler.UnpatchedTestIgnored`, `Compiler.FirstTestMiscompiled`).
* A generator call whose result is discarded stores the generator in the slot below the caller's base: a local
  variable of the caller's caller can be lost (`Frames.GeneratorCallExactly`, `Frames.LocalLost`).
* A generator once resumed by native code carries its root flag along.  When a script resumes a generator, its
  result goes to native code, and the script's register keeps what it held, if and only if native code resumed that
  generator at some earlier step of the run (`Roots.RootDecides`, `Roots.ResultGoesExactly`); `Roots.ResultLost` is a run
  from a new machine in which the result is lost.
* A call of a script function reads its result register as a signed byte: the result lands in the register the compiler chose if and only if
  that is below 128 (`Frames.CallTargetExactly`); from 128 on it overwrites a slot 256 further down
  (`Frames.WideFrameClobbers`).
* The register of a catch variable is the first local of the try block (GameScript/GScompiler.cpp:1650-1653), and landing in a
  handler closes no outer (GameScript/GSvm.cpp:1397-1407).  A catch keeps every captured variable if and only if no open outer
  points at the handler's register (`Captures.CatchExactly`); a closure that captured that local reads the error
  afterwards (`Captures.CapturedLocalLost`).
* The function that sets up an instance is not always what its class gives for the constructor's name: a data slot of that name hides
  the constructor and leaves it running (GameScript/GSclass.cpp:53-102).  While the name is no field they are the same
  (`ClassLayout.ConstructorIsMember`); after a data slot has taken it, exactly if the data is that function (`ClassLayout.ConstructorHidden`).
* A tail call inside a try block to a function with a larger frame leaves traps that restore a smaller top
  (`Frames.StepTight` states exactly when); the compiler pops the traps before it returns, so it does not emit one.

## Model

| member | source | states |
|---|---|---|
| Table.HashTable.constructor | GameScript/GStable.cpp:10-19 | a new table has a power-of-two node count of at least four and is the empty map |
| Table.HashTable.AllocNodes | GameScript/GStable.cpp:33-44 | fresh free nodes, free pointer on the last one; the map is empty |
| Table.HashTable.FindNode | GameScript/GStable.h:66-75 | the chain walk finds the node of a key exactly when the key is live, although deleted nodes stay linked |
| Table.HashTable.FindKey | GameScript/GStable.h:66-75 | walking from the main slot gives the node holding the key, or none exactly when the map lacks it |
| Table.HashTable.Get | GameScript/GStable.cpp:108-118 | lookup is map lookup; the null key finds nothing |
| Table.HashTable.Set | GameScript/GStable.cpp:195-203 | overwrites exactly a present key; true exactly when it was present |
| Table.HashTable.NewSlot | GameScript/GStable.cpp:119-174 | the map gains or overwrites the entry; true if and only if the key was absent and a free node is left afterwards |
| Table.HashTable.Insert | GameScript/GStable.cpp:128-173 | inserting an absent key keeps the invariant and a free node, rehashing when the last one goes |
| Table.HashTable.Store | GameScript/GStable.cpp:128-161 | the key lands in its main slot, in a node chained to it, or in place of a foreign node that moves to the free one |
| Table.HashTable.StoreByEviction | GameScript/GStable.cpp:140-153 | the foreign node's chain is redirected to the free node and the newcomer takes its place |
| Table.HashTable.StoreInChain | GameScript/GStable.cpp:154-159 | the newcomer goes to the free node, linked directly behind its main slot |
| Table.HashTable.StoreAtMain | GameScript/GStable.cpp:128-161 | a dead main slot takes the key and keeps its link |
| Table.HashTable.SettleFree | GameScript/GStable.cpp:163-171 | the free pointer stops at the highest free node at or below it, or reports that there is none |
| Table.HashTable.RehashAndStore | GameScript/GStable.cpp:172-173 | a forced rehash keeps every entry and the retried insertion finds the key present |
| Table.HashTable.Rehash | GameScript/GStable.cpp:46-71 | growing, shrinking or same-size rehash: same map, valid table, unchanged array only when nothing had to be done |
| Table.HashTable.Reinsert | GameScript/GStable.cpp:62-70 | reinsertion of all live nodes never runs out of free nodes, so it never rehashes again |
| Table.HashTable.Remove | GameScript/GStable.cpp:21-31 | exactly the key leaves the map; its node stays linked; the table may shrink |
| Table.HashTable.Clear | GameScript/GStable.cpp:216-221 | the empty map |
| Table.HashTable.CountUsed | GameScript/GStable.h:101-101 | the number of entries |
| Table.HashTable.Next | GameScript/GStable.cpp:176-192 | one step of iteration: the next live node at or above the position, or the end |
| Table.HashTable.Iterate | GameScript/GStable.cpp:176-192 | a whole traversal lists every entry exactly once |
| Table.HashTable.Clone | GameScript/GStable.cpp:73-106 | the clone is a separate valid table with the same map |
| Table.Replay | GameScript/GStable.cpp:21-221 | any run of insertions, assignments, deletions and clears from a new table leaves what a plain map would hold |
| Table.LastNodeReportsFalse | GameScript/GStable.h:97-98 | whenever one free node is left, inserting a new key succeeds and reports false |
| Table.NewKeyReportedAsPresent | GameScript/GStable.h:97-98 | a concrete run in which a key is absent, its insertion reports false, and it is then present |
| Table.PlaceByEviction | GameScript/GStable.cpp:140-153 | Brent's variation keeps every live key reachable from its main slot |
| Table.PlaceInChain | GameScript/GStable.cpp:154-159 | splicing the free node in keeps chains acyclic with in-degree at most one |
| Table.PlaceAtMain | GameScript/GStable.cpp:128-161 | reviving a dead node in place keeps the invariant |
| Table.ForeignAboveFree | GameScript/GStable.cpp:135-140 | a live main slot held by a foreign key always lies above the free pointer, as the code's test assumes |
| Table.FreeIsAlone | GameScript/GStable.cpp:163-171 | the free node has no link and nothing links to it |
| Table.Deleted | GameScript/GStable.cpp:21-31 | clearing key and value in place keeps the invariant and removes exactly one entry |
| Table.Settled | GameScript/GStable.cpp:163-171 | when a free node is left, links still lie strictly above the free pointer |
| Table.Exhausted | GameScript/GStable.cpp:163-173 | when none is left, no insertion of this key could have left one, and every node is used if nothing was deleted |
| Bytecode.ExecFollows | GameScript/GSvm.cpp:1015-1123 | an instruction run from two states that agree in what it reads ends the same way and agrees in what it writes |
| Peephole.MergedBranch | GameScript/GSfuncstate.cpp:457-463 | comparison and jump fused: same branch, same registers but the dropped one, if the jump reads the comparison's target |
| Peephole.MergedLoad | GameScript/GSfuncstate.cpp:484-501 | a literal load fused into a slot read or a method preparation |
| Peephole.MergedAppend | GameScript/GSfuncstate.cpp:502-519 | a constant load fused into an array append |
| Peephole.MergedMove | GameScript/GSfuncstate.cpp:520-541 | a move fused into the instruction that computes its source, or two moves into one |
| Peephole.MergedPair | GameScript/GSfuncstate.cpp:534-567 | two loads, or runs of null loads, fused |
| Peephole.MergedEquality | GameScript/GSfuncstate.cpp:550-559 | a literal load fused into an equality test |
| Peephole.MergedReturn | GameScript/GSfuncstate.cpp:476-483 | a return replaces the closing of captured variables before it |
| Peephole.MergeFollows | GameScript/GSfuncstate.cpp:451-578 | every safe merge runs like the two instructions it replaces, except for the register it drops |
| Peephole.TailCallFollows | GameScript/GSfuncstate.cpp:476-483 | a call whose result is returned at once may become a tail call |
| Peephole.SelfTargetSame | GameScript/GSfuncstate.cpp:465-475 | dropping a target that equals the stored value changes nothing |
| Peephole.DiscardInLine | GameScript/GSfuncstate.cpp:436-449 | discarding a target changes only that register |
| Peephole.EmitFollows | GameScript/GSfuncstate.cpp:451-578 | one emission through the optimizer keeps the optimized code following the plain code |
| Peephole.FuseFollows | GameScript/GSfuncstate.cpp:451-578 | for every emission sequence under the discipline and every start state, the optimized code has the same control outcome, world and registers as the plain code, except for the dropped temporaries |
| Simulation.SimSeq | GameScript/GScompiler.cpp:204-210 | a sequence of statements |
| Simulation.SimIf | GameScript/GScompiler.cpp:1229-1248 | if without else: the patched jump lands behind the block |
| Simulation.SimIfElse | GameScript/GScompiler.cpp:1229-1248 | if with else: both jumps land where the meaning goes |
| Simulation.SimLogic | GameScript/GScompiler.cpp:511-552 | the short-circuit operators |
| Simulation.SimWhile | GameScript/GScompiler.cpp:1250-1268 | while with break and continue, for any number of turns |
| Simulation.SimDoWhile | GameScript/GScompiler.cpp:1269-1283 | do-while: continue goes to the test, the jump of distance one leaves |
| Simulation.SimFor | GameScript/GScompiler.cpp:1284-1329 | for: the increment is emitted again behind the body and continue goes there |
| Simulation.SimForever | GameScript/GScompiler.cpp:1284-1329 | for without a test |
| Simulation.Sim | GameScript/GScompiler.cpp:1229-1329 | every statement: from agreeing states the machine reaches the end, the break target, the continue target or the end of the frame exactly as the meaning says |
| Compiler.EvMore | GameScript/GScompiler.cpp:1229-1329 | the big-step meaning does not depend on the amount of fuel once it finishes |
| Compiler.SourceToMachine | GameScript/GScompiler.cpp:1229-1329 | whatever the source does within some fuel, the machine does, and it takes at least as many steps while the source does not finish |
| Watch.EvWatched | GameScript/GSvm.cpp:1047-1047 | as long as no modulo fails, a source run that would stop at a failing modulo is the plain run |
| Watch.RunWatched | GameScript/GSvm.cpp:1047-1047 | the same for the machine, over any number of steps |
| Compiler.SuitedRight | GameScript/GScompiler.cpp:1229-1329 | the machine finishes if and only if the source does, in the same way, with the same world and variables, where runs may be stopped at failing modulos |
| Compiler.CompiledRight | GameScript/GScompiler.cpp:1229-1329 | for the machine as it is: it finishes if and only if the source does, in the same way, with the same world and variables; the discipline counts on modulos only where none fails |
| Compiler.CountingLoopFlows | GameScript/GScompiler.cpp:1250-1268 | an ordinary counting loop satisfies the emission discipline of the main theorem, for any registers |
| Compiler.BranchMergeExactly | GameScript/GSfuncstate.cpp:457-463 | fusing comparison and jump takes the same branch, for all environments and states, if and only if the jump reads the comparison's target |
| Compiler.CommaConditionMiscompiled | GameScript/GScompiler.cpp:1229-1235 | a comma condition whose last value differs from the comparison before it is compiled to the wrong branch |
| Compiler.RetargetExactly | GameScript/GSfuncstate.cpp:520-532 | fusing a move into the computation of its source keeps every register, for all environments and states, if and only if the move's target is its source |
| Compiler.ModuloMergeAt | GameScript/GSvm.cpp:1047-1047 | merging a move into a modulo keeps the move's target, in any one state, if and only if the modulo succeeds or both registers held the same |
| Compiler.ModuloMergeExactly | GameScript/GSfuncstate.cpp:520-532 | it keeps it in all environments and states if and only if both instructions have one target |
| Compiler.ModuloMiscompiled | GameScript/GSvm.cpp:82-84 | whenever the modulo of an assignment fails, the plain code leaves the temporary's old value in the variable and the optimized code leaves the variable alone |
| Compiler.TailCallExactly | GameScript/GSfuncstate.cpp:476-479 | turning a call into a tail call gives the same result, in all lawful environments and states, if and only if the return reads the register the call writes |
| Compiler.CommaReturnMiscompiled | GameScript/GSfuncstate.cpp:476-479 | a return behind a comma is emitted as a tail call of what stood before the comma, and returns its result |
| Compiler.ChainedIncrementMiscompiled | GameScript/GScompiler.cpp:1301-1322 | re-emitting a chained increment loses a write the first emission had |
| Compiler.ChainedReEmissionExactly | GameScript/GScompiler.cpp:1301-1322 | for every computation a move can be fused into, emitting the chained increment again keeps every register, for all environments and states, if and only if both assignments have one target |
| Compiler.ReEmissionKeeps | GameScript/GScompiler.cpp:1301-1322 | for all straight-line code: emitting it again changes no register when every register a merge drops is written again before it is read |
| Compiler.DroppedButKept | GameScript/GScompiler.cpp:1301-1322 | a merge that drops a register need not lose anything: three instructions re-emitted as two keep every register if and only if the first is no modulo |
| Compiler.UnpatchedTestIgnored | GameScript/GScompiler.cpp:1324-1324 | with the test as instruction zero its jump is not patched: whatever the test gives, the machine goes on into the loop |
| Compiler.FirstTestMiscompiled | GameScript/GScompiler.cpp:1324-1324 | such a loop runs forever although its meaning ends at once |
| FuncState.State.constructor | GameScript/GSfuncstate.cpp:89-108 | no instruction, optimizer on, nothing unresolved |
| FuncState.State.AddInstruction | GameScript/GSfuncstate.cpp:451-578 | in-place emission equals the optimizer function on the whole instruction list |
| FuncState.State.DiscardTarget | GameScript/GSfuncstate.cpp:436-449 | in-place discard equals the optimizer function |
| FuncState.State.SetInstructionParam1 | GameScript/GSfuncstate.cpp:249-257 | patches one jump and nothing else |
| FuncState.State.ResolveBreaks | GameScript/GScompiler.cpp:1917-1926 | the last recorded breaks are pointed at the current position, and only they |
| FuncState.State.ResolveContinues | GameScript/GScompiler.cpp:1927-1936 | the last recorded continues are pointed at the target, and only they |
| FuncState.State.EndBreakableBlock | GameScript/GScompiler.cpp:68-72 | closing a loop turns exactly its own holes into jumps |
| FuncState.State.EmitLine | GameScript/GScompiler.cpp:396-399 | a straight-line piece emitted behind longer code is optimized as if it stood alone |
| FuncState.State.EmitTest | GameScript/GScompiler.cpp:1233-1235 | an expression and its conditional jump |
| FuncState.State.IfStatement | GameScript/GScompiler.cpp:1229-1248 | leaves the if layout |
| FuncState.State.IfElseStatement | GameScript/GScompiler.cpp:1229-1248 | leaves the if-else layout |
| FuncState.State.LogicalExp | GameScript/GScompiler.cpp:511-552 | leaves the layout of a short-circuit operator |
| FuncState.State.WhileStatement | GameScript/GScompiler.cpp:1250-1268 | leaves the while layout, its holes closed |
| FuncState.State.DoWhileStatement | GameScript/GScompiler.cpp:1269-1283 | leaves the do-while layout, its holes closed |
| FuncState.State.TakeIncrement | GameScript/GScompiler.cpp:1301-1315 | the increment is emitted, copied and popped, and the code before it is untouched |
| FuncState.State.ForStatement | GameScript/GScompiler.cpp:1284-1329 | leaves the for layout |
| FuncState.State.ForeverStatement | GameScript/GScompiler.cpp:1284-1329 | leaves the layout of a for without test |
| FuncState.State.BreakStatement | GameScript/GScompiler.cpp:249-258 | records a hole for break |
| FuncState.State.ContinueStatement | GameScript/GScompiler.cpp:259-268 | records a hole for continue |
| FuncState.State.Compile | GameScript/GScompiler.cpp:211-345 | compiling any structured code appends exactly its layout and records exactly its holes |
| FuncState.CompileFunction | GameScript/GScompiler.cpp:1747-1916 | a function body compiled from scratch is the program the main theorem is about |
| FuncState.FlowIsPlain | GameScript/GScompiler.cpp:211-345 | code that meets the discipline has straight conditions and no break or continue outside a loop |
| FuncState.CompileAndRun | GameScript/GScompiler.cpp:1747-1916 | compile a disciplined body, then run it: the emitted code finishes if and only if the source does, in the same way, with the same world and variables |
| FuncState.AddLocal | GameScript/GSfuncstate.cpp:451-456 | the optimizer never looks behind the start of a fresh piece of code |
| FuncState.EmitsClosed | GameScript/GScompiler.cpp:68-72 | resolving the holes of a loop in place equals closing its layout |
| Expressions.ExprReady | GameScript/GScompiler.cpp:346-765 | the acts of every expression, from any disciplined stream, lead to a disciplined stream in which its value, all variables and all live temporaries agree |
| Expressions.EndsLast | GameScript/GScompiler.cpp:396-399 | what the optimizer sees behind an expression: a comparison or a call exactly when the expression ends with one, in the register a temporary value would take |
| Expressions.DanglesExactly | GameScript/GScompiler.cpp:396-399 | an expression that ends with a comparison or a call has its value there unless a comma and a variable follow |
| Targets.TargetStack.PushTarget | GameScript/GSfuncstate.cpp:270-279 | a given register, or a fresh one behind all that are taken |
| Targets.TargetStack.PopTarget | GameScript/GSfuncstate.cpp:288-299 | the top target; a register without a name is given back |
| Targets.TargetStack.Expression | GameScript/GScompiler.cpp:346-765 | compiling an expression through the target stack issues its acts, leaves its register on the stack and no other register taken |
| Targets.TargetStack.CallArgs | GameScript/GScompiler.cpp:1005-1016 | arguments stand in consecutive registers, variables copied |
| Targets.TargetStack.EndCall | GameScript/GScompiler.cpp:1023-1026 | the registers of arguments, this and closure are given back and the result takes the first of them |
| Statements.TestExactly | GameScript/GScompiler.cpp:1229-1235 | a condition keeps the discipline if and only if it does not end with a comparison, a comma and a variable |
| Statements.ReturnExactly | GameScript/GScompiler.cpp:234-240 | a return keeps it if and only if, in a nested function, it does not end with a call, a comma and a variable |
| Statements.DiscardReady | GameScript/GScompiler.cpp:339-342 | an expression statement always keeps it |
| Statements.DeclareReady | GameScript/GScompiler.cpp:1170-1179 | a declaration always keeps it, and the new variable has its value |
| Statements.StmtExactly | GameScript/GScompiler.cpp:211-345 | every statement of the fragment keeps the discipline if and only if no condition or return dangles, no for-loop tests with the first instruction and increments survive their second emission; then all its variables agree |
| Statements.SettledAgain | GameScript/GScompiler.cpp:1318-1322 | code in which nothing would be merged comes out of its second emission unchanged |
| Statements.StepReEmits | GameScript/GScompiler.cpp:1301-1322 | stepping a variable in place by a constant survives its second emission |
| Statements.CompileStructured | GameScript/GScompiler.cpp:211-345 | for every program whose registers fit and which is sound by its syntax, the emitted code finishes if and only if its structured code does, in the same way |
| Statements.CondReady | GameScript/GScompiler.cpp:511-553 | the code of logical operators nested to any depth always keeps the discipline: its value, all variables and all live temporaries agree behind it |
| Statements.LogicalReady | GameScript/GScompiler.cpp:1170-1179 | so does a declaration whose value is made by logical operators |
| Meaning.VariableKept | GameScript/GScompiler.cpp:346-765 | evaluating an expression changes no variable it does not assign |
| Meaning.OperandInOrder | GameScript/GScompiler.cpp:503-510 | a variable that the operand behind it does not assign has the value from before that operand |
| Meaning.OperandLate | GameScript/GScompiler.cpp:503-510 | a variable that the operand behind it assigns has the new value on both sides of the operator |
| Values.EvalRun | GameScript/GScompiler.cpp:346-765 | the acts of every expression, run one by one from any state, fail as its meaning does or leave its value in its register, the world and the variables as its meaning says, and every other taken register unchanged: left operand left, callee, this and arguments in order |
| Values.ArgsRun | GameScript/GScompiler.cpp:1005-1016 | the values of the arguments, evaluated in order, stand in consecutive registers behind those already there |
| Values.PairRuns | GameScript/GScompiler.cpp:503-510 | two operands evaluated in order are both in their registers when their operator runs |
| Logical.CondRun | GameScript/GScompiler.cpp:511-553 | the jumping code of && and ||, nested to any depth, leaves the value they mean: the first operand where it decides, else the second, which is evaluated only then |
| Programs.DeclareRuns | GameScript/GScompiler.cpp:1170-1179 | the new variable has the value of its expression |
| Programs.DeclareLogicalRuns | GameScript/GScompiler.cpp:1170-1179 | the same for a value made by logical operators |
| Programs.ReturnRuns | GameScript/GScompiler.cpp:234-247 | a return ends the function with the value of its expression |
| Programs.TestRuns | GameScript/GScompiler.cpp:1229-1235 | a condition is judged by the value of its expression |
| Programs.MeanRun | GameScript/GScompiler.cpp:211-345 | the structured code of every statement does what the statement means: same way of ending, same variables, same world, for any number of turns of its loops |
| Programs.MeanWatched | GameScript/GSvm.cpp:1047-1047 | as long as no modulo fails, a program that would stop at a failing modulo means what the program means |
| Programs.CompileProgram | GameScript/GScompiler.cpp:211-345 | compile a program and run it: for every program whose registers fit and which is sound by its syntax, the emitted code finishes if and only if the program does by its meaning, in the same way, with the same world and variables |
| Frames.StepKeepsInv | GameScript/GSvm.cpp:2044-2090 | every step keeps frames nested, the stack larger than every frame needs, and every running generator named by exactly one frame |
| Frames.DeadForever | GameScript/GSclosure.h:124-127 | a dead generator stays dead over every run |
| Frames.SleepsUndisturbed | GameScript/GSobject.cpp:140-169 | a suspended generator keeps everything it saved over every run that does not resume it |
| Frames.YieldSuspends | GameScript/GSobject.cpp:140-169 | what a yield saves: live registers, position, handlers relative to the base |
| Frames.YieldThenResume | GameScript/GSobject.cpp:140-212 | yield, any run that does not wake the generator, resume anywhere: live registers, position and handlers in order are back, shifted by exactly the base difference; the next result goes to the resumer's target, and only this generator is running again |
| Traps.RunSame | GameScript/GSvm.cpp:1353-1364 | the handlers a frame keeps over a run are the same at its end, up to its base |
| Traps.TrapCatches | GameScript/GSvm.cpp:1353-1407 | a handler is pushed, anything runs while its frame keeps it, and a throw comes that this frame catches with it: it goes on at the handler's position with the error in the handler's register and the handlers it had before |
| Traps.PopRestores | GameScript/GSvm.cpp:1359-1364 | popping down to as many handlers as there were, after any run that kept those, brings exactly those back |
| Traps.SetAndJump | GameScript/GSvm.cpp:1117-1117 | setting a register changes it and nothing else; a jump moves the position and nothing else |
| Traps.CallPasses | GameScript/GSvm.cpp:385-456 | a call enters the function at its start, and the values from the given register on are its first registers |
| Traps.HostCallPasses | GameScript/GSvm.cpp:785-806 | a call from native code makes a root frame whose first registers are the values native code pushed last |
| Traps.WrongUse | GameScript/GSvm.cpp:1320-1341 | resuming what is no suspended generator, and yielding outside a generator, do what a throw does |
| Traps.ReturnEnds | GameScript/GSvm.cpp:1049-1053 | a return ends the generator of its frame, and no other |
| Frames.ThrowLands | GameScript/GSvm.cpp:1387-1422 | a throw lands in the innermost frame with a handler: its own base, the error in its register, slots above cleared, registers below kept, generators of the frames above dead and no other changed |
| Frames.ThrowEscapes | GameScript/GSvm.cpp:1387-1422 | without a handler it leaves every frame of the innermost native run and reports the error |
| Frames.CaughtExactly | GameScript/GSvm.cpp:1387-1422 | caught if and only if some frame of the innermost native run has a handler |
| Frames.StepTight | GameScript/GSvm.cpp:1353-1357 | handlers restore their own frame's top after every step, except after exactly one kind of tail call |
| Frames.RunTight | GameScript/GSvm.cpp:1353-1357 | the same over every run without such a tail call |
| Frames.ThrowRestores | GameScript/GSvm.cpp:1396-1407 | after any such run a caught throw restores the catching frame's exact base and top |
| Frames.StepLocal | GameScript/GSvm.cpp:2044-2090 | a step changes nothing under a frame that outlives it |
| Frames.RunLocal | GameScript/GSvm.cpp:2044-2090 | the same over every run |
| Frames.ReturnDelivers | GameScript/GSvm.cpp:458-488 | a return restores the caller's frame, writes exactly the target register, or hands the value to native code for a root frame |
| Frames.CallReturns | GameScript/GSvm.cpp:385-488 | a call, any run above the caller, and the return: every frame is exactly as before and only the target register and the slot next to the callee may have changed |
| Frames.TailCallReplaces | GameScript/GSvm.cpp:920-934 | a tail call takes the frame over: arguments become its first registers, the window never shrinks, and caller, result register, generator, handlers and all other slots stay |
| Frames.GeneratorMade | GameScript/GSvm.cpp:444-452 | calling a generator function leaves the frames alone and makes one suspended generator with the arguments saved |
| Frames.GeneratorCallExactly | GameScript/GSvm.cpp:444-452 | slots under the caller's base are kept if and only if the result is not discarded |
| Frames.LocalLost | GameScript/GSvm.cpp:444-452 | for every caller, a callee that calls a generator as a statement overwrites the register next to its window |
| Frames.CallTargetExactly | GameScript/GSvm.cpp:511-512 | the value a call returns lands in the register the compiler chose if and only if that register is below 128 |
| Frames.WideFrameClobbers | GameScript/GSvm.cpp:511-512 | from 128 on the value goes to a slot under the caller's window and the chosen register keeps what it held |
| Roots.StepFlag | GameScript/GSvm.cpp:808-814 | a step sets the root flag of a living generator if and only if it is native code resuming it, and never clears it |
| Roots.SavedRootExactly | GameScript/GSobject.cpp:140-169 | the root flag a generator saved is set if and only if native code resumed it at some earlier step of the run |
| Roots.ResultGoesExactly | GameScript/GSvm.cpp:458-488 | a script resumes a generator, anything runs above it, it returns or yields: the value goes to native code if and only if the saved root flag is set; otherwise it is in the script's register |
| Roots.RootDecides | GameScript/GSvm.cpp:808-814 | over whole runs: what a resumed generator returns or yields goes to native code if and only if native code resumed that generator before |
| Roots.ResultLost | GameScript/GSvm.cpp:808-814 | a concrete legal run from a new machine after which the script's register lacks the generator's result |
| Roots.HandedOver | GameScript/GSvm.cpp:1320-1335 | a return, and a yield of a generator, hand the value to native code from a root frame and to the caller's target register from any other |
| Roots.NewMachine | GameScript/GSvm.cpp:359-382 | a new machine is a state the losing run can start from |
| Captures.NextGood | GameScript/GSvm.cpp:2075-2090 | over every step of calls, throws, generators and captures, every open outer lies in the window of a live frame, below whatever that frame calls |
| Captures.UnwoundExactly | GameScript/GSvm.cpp:1387-1422 | a caught throw closes exactly the outers of the frames it leaves and none of the frame that catches |
| Captures.CatchExactly | GameScript/GSvm.cpp:1397-1407 | a catch leaves every captured variable's value alone, for every error, if and only if no open outer points at the handler's register; one that does reads the error |
| Captures.CapturedLocalLost | GameScript/GScompiler.cpp:1650-1653 | for every frame and register: capturing the local that shares the catch register and then throwing replaces its value by the error |
| Machine.Machine.constructor | GameScript/GSvm.cpp:359-382 | an empty machine represents one native frame |
| Machine.Machine.EnterFrame | GameScript/GSvm.cpp:2044-2073 | the call record holds the offsets from the caller; the stack grows when too small |
| Machine.Machine.LeaveFrame | GameScript/GSvm.cpp:2075-2090 | base and top are recomputed from the offsets; slots from the caller's top up are cleared |
| Machine.Machine.StartCall | GameScript/GSvm.cpp:385-456 | does what calling does to the list of frames, for plain and generator functions |
| Machine.Machine.HostCallOp | GameScript/GSvm.cpp:794-807 | a call from native code makes a root frame |
| Machine.Machine.TailCallOp | GameScript/GSvm.cpp:920-934 | the frame is reused, arguments move down, the top never shrinks |
| Machine.Machine.Deliver | GameScript/GSvm.cpp:458-488 | the value goes to the target computed from the caller's base, then the frame is left |
| Machine.Machine.Finish | GameScript/GSvm.cpp:1049-1052 | a return kills the frame's generator |
| Machine.Machine.PushTrapOp | GameScript/GSvm.cpp:1353-1357 | a trap records the handler's position and register and the present base and top; `Traps.TrapCatches` says what becomes of it |
| Machine.Machine.PopTrapOp | GameScript/GSvm.cpp:1359-1364 | pops traps of the present frame; `Traps.PopRestores` says which handler is last then |
| Machine.Machine.Raise | GameScript/GSvm.cpp:1387-1422 | the unwinding loop over the flat trap stack lands where the list of frames says |
| Machine.Machine.GeneratorYield | GameScript/GSobject.cpp:140-169 | registers and traps move into the generator, traps reversed and relative; refused exactly when it is not running |
| Machine.Machine.GeneratorResume | GameScript/GSobject.cpp:171-212 | a new frame at the top with the saved registers and the traps in original order, absolute again; refused exactly when not suspended |
| Machine.Machine.YieldOp | GameScript/GSvm.cpp:1320-1335 | yield suspends, then returns the value; outside a generator it raises an error |
| Machine.Machine.ResumeOp | GameScript/GSvm.cpp:1337-1341 | resume, or an error for anything but a suspended generator |
| Machine.Machine.HostResumeOp | GameScript/GSvm.cpp:808-814 | resuming from native code makes the frame a root frame |
| Machine.Machine.Kill | GameScript/GSclosure.h:124-127 | ends the generator |
| Machine.Machine.Do | GameScript/GSvm.cpp:826-1382 | every operation does to the machine's fields exactly what it does to the list of frames |
| Machine.Machine.Perform | GameScript/GSvm.cpp:826-1382 | so does every run: the trap stack stays the concatenation of the frames' traps |
| Machine.UnloadedPacks | GameScript/GSobject.cpp:159-166 | popping a frame's traps one by one gives them reversed and relative to the base |
| Machine.LoadedUnpacks | GameScript/GSobject.cpp:191-198 | pushing them back restores the original order at the new base |
| Outers.VarStack.FindOuter | GameScript/GSvm.cpp:2023-2042 | the one outer of the variable in a slot: found, or linked into the descending list |
| Outers.VarStack.CloseOuters | GameScript/GSvm.cpp:2101-2109 | every open outer at or above the slot takes its value along and no other changes: the variables there have ended |
| Outers.VarStack.RelocateOuters | GameScript/GSvm.cpp:2092-2099 | after the stack moved every open outer points at its slot again |
| Outers.VarStack.GrowStack | GameScript/GSvm.cpp:2064-2071 | growing the stack changes no variable |
| Outers.VarStack.ReadOuter | GameScript/GSvm.cpp:1124-1129 | reads the captured variable's cell, open or closed |
| Outers.VarStack.WriteOuter | GameScript/GSvm.cpp:1130-1138 | writes the cell, so the slot and every other capture see it |
| Outers.VarStack.WriteLocal | GameScript/GSvm.cpp:22-23 | a local write is seen through every open capture and through no closed one |
| Outers.VarStack.Do | GameScript/GSvm.cpp:1124-1138 | every operation refines the store with one cell per variable |
| Outers.VarStack.Perform | GameScript/GSvm.cpp:2023-2109 | so does every run |
| Outers.StaysShared | GameScript/GSvm.cpp:2023-2042 | until its variable ends, an outer and its slot are one cell over every run |
| Outers.ClosedKeeps | GameScript/GSvm.cpp:2101-2109 | a closed cell changes only through its own outer over every run |
| Outers.SnapshotAtClose | GameScript/GSvm.cpp:2101-2109 | capture, run, close, run: the outer has the value the variable had at closing |
| Outers.InsertKeeps | GameScript/GSvm.cpp:2029-2041 | insertion at the found place keeps the list strictly descending and complete |
| Outers.CloseRepresents | GameScript/GSvm.cpp:2101-2109 | closing exactly the outers from a slot up matches ending the variables there |
| Resolve.FuncStates.GetLocalVariable | GameScript/GSfuncstate.cpp:369-380 | the latest declaration of the name in the function |
| Resolve.FuncStates.GetOuterVariable | GameScript/GSfuncstate.cpp:389-415 | an entry exists afterwards if and only if some enclosing function declares the name; then exactly the register of the nearest declaration is marked captured and no function gains more than this one entry; otherwise nothing changes |
| Resolve.FuncStates.MarkLocalAsOuter | GameScript/GSfuncstate.cpp:382-387 | marks exactly this register of this function and changes nothing else |
| Resolve.FuncStates.PushLocal | GameScript/GSfuncstate.cpp:353-366 | a new register shadows and disturbs no entry of any function |
| Resolve.FuncStates.EndScope | GameScript/GScompiler.cpp:54-62 | a CLOSE is emitted if and only if a register that ends is marked captured |
| Resolve.FuncStates.PushFunction | GameScript/GSfuncstate.cpp:628-634 | a nested function starts with no entry |
| Resolve.FuncStates.PopFunction | GameScript/GSfuncstate.cpp:636-641 | every entry of the finished function has a declaration outside it |
| Resolve.TargetIsNearest | GameScript/GSfuncstate.cpp:389-415 | through any depth an entry leads to the nearest enclosing declaration |
| Resolve.MakeClosure | GameScript/GSvm.cpp:605-617 | each outer of the new closure is the cell of the enclosing register or the enclosing closure's own outer |
| Resolve.BindsNearest | GameScript/GSvm.cpp:605-617 | for closures made level by level, every free name at any depth is bound to the cell of the nearest declaration |
| Resolve.FuncStates.Perform | GameScript/GSfuncstate.cpp:389-415 | any run of declarations, uses, scopes and complete nested functions: the open functions keep their entries, only gaining more |
| Resolve.FuncStates.Finish | GameScript/GSfuncstate.cpp:628-641 | whatever the open functions still do before they end, innermost first, the outer lists they end with fit together: each is sound, and contains what the inner ones were compiled against |
| Resolve.Activations.constructor | GameScript/GSvm.cpp:605-617 | the outermost function captures nothing |
| Resolve.Activations.Perform | GameScript/GSvm.cpp:2023-2109 | any run of captures, reads, writes, closings and stack moves leaves every binding as it is |
| Resolve.Activations.Enter | GameScript/GSvm.cpp:605-617 | creating a closure in an activation binds its entries to that activation's registers and to the enclosing closure, for the outer list the compiler finished with |
| Resolve.Activations.Leave | GameScript/GSvm.cpp:2075-2090 | back in the enclosing function its bindings hold |
| Resolve.Activations.FreeBinds | GameScript/GSvm.cpp:605-617 | from resolution, closure creation at every level and arbitrary runs in between: an outer stands for the cell its nearest declaration's register had when the closure around it was made |
| Resolve.Activations.ReadFree | GameScript/GSvm.cpp:1124-1129 | reading a free name gives the value of the variable of its nearest declaration |
| Resolve.Activations.WriteFree | GameScript/GSvm.cpp:1130-1138 | writing a free name changes that variable and nothing else |
| Outers.RunKeepsOuters | GameScript/GSvm.cpp:2023-2109 | over every run an outer keeps standing for its cell |
| Collector.SharedState.RemoveFromChain | GameScript/GSstate.cpp:363-371 | unlinks one object |
| Collector.SharedState.AddToChain | GameScript/GSstate.cpp:355-361 | links one object in front |
| Collector.SharedState.Mark | GameScript/GSobject.cpp:561-565 | on any graph, cyclic or not, marking ends; what it newly marks is reachable, has moved, and refers only to marked objects |
| Collector.SharedState.RunMark | GameScript/GSstate.cpp:244-265 | afterwards the second chain holds exactly what the roots reach and the first exactly the rest, both well formed |
| Collector.SharedState.ResurrectUnreachable | GameScript/GSstate.cpp:267-319 | one chain with every object exactly once plus the new array, no mark left; the array lists exactly the unreachable objects other than prototypes and outers, each once; the count is theirs |
| Collector.SharedState.ListInto | GameScript/GSstate.cpp:282-294 | walks the unreached chain to its last object |
| Collector.SharedState.Rejoin | GameScript/GSstate.cpp:274-303 | the unreached objects go back in front of the rest |
| Collector.SharedState.UnMarkAll | GameScript/GSstate.cpp:305-309 | clears the mark bits and keeps the chain |
| Collector.RemoveKeeps | GameScript/GSstate.cpp:363-371 | removal keeps a doubly linked list well formed, in the same order |
| Collector.AddKeeps | GameScript/GSstate.cpp:355-361 | so does insertion in front |
| Collector.MoveKeeps | GameScript/GSobject.cpp:564-565 | moving an object keeps both lists well formed and the objects split between them |
| Collector.MarkedIsReached | GameScript/GSstate.cpp:244-265 | with nothing half done, marked means reachable |
| Collector.JoinKeeps | GameScript/GSstate.cpp:296-302 | linking the last object of one list to the first of another joins them |
| Strings.HashStr | GameScript/GSstring.h:5-13 | the hash loop |
| Strings.SampledDecide | GameScript/GSstring.h:5-13 | the hash looks at the sampled characters only, from the last one down in steps |
| Strings.HashApart | GameScript/GSstring.h:5-13 | texts of one length that agree in all sampled characters but the lowest have one hash if and only if they agree there too |
| Strings.FirstDecides | GameScript/GSstring.h:5-13 | texts shorter than 32 that differ in the first character only have different hashes |
| Strings.HashSamples | GameScript/GSstring.h:5-13 | two hashes in full |
| Strings.HashStr2 | GameScript/GSstring.h:15-33 | the two-part hash is the hash of the concatenation, for all strings |
| Strings.StringTable.Add | GameScript/GSstate.cpp:620-645 | the one entry of a content, made on first use |
| Strings.StringTable.Concat | GameScript/GSstate.cpp:585-618 | the very entry Add gives for the concatenation |
| Strings.StringTable.Find | GameScript/GSstate.cpp:624-630 | finds the entry exactly when the content is in the table |
| Strings.StringTable.Resize | GameScript/GSstate.cpp:647-663 | every entry moves to its new bucket and none is lost or doubled |
| Strings.StringTable.Remove | GameScript/GSstate.cpp:665-687 | exactly this content leaves the table |
| RefTable.RefTable.AddRef | GameScript/GSstate.cpp:427-433 | the object's count goes up by one, from zero when absent |
| RefTable.RefTable.GetRefCount | GameScript/GSstate.cpp:435-443 | the count, zero when absent |
| RefTable.RefTable.Release | GameScript/GSstate.cpp:446-472 | the count goes down by one; true if and only if it reached zero, and then the object is gone |
| RefTable.RefTable.Resize | GameScript/GSstate.cpp:474-495 | no count is lost |
| RefTable.RefTable.Add | GameScript/GSstate.cpp:497-508 | takes the first free node; used plus free nodes stay the slot count |
| RefTable.RefTable.FreeNode | GameScript/GSstate.cpp:452-466 | returns the node to the free list |
| RefTable.RefTable.Find | GameScript/GSstate.cpp:510-520 | walks the bucket; found exactly when the object is held |
| RefTable.RefTable.AllocNodes | GameScript/GSstate.cpp:532-556 | all nodes free |
| SaveLoad.ReadsObject | GameScript/GSobject.cpp:319-375 | a value written is read back with the rest untouched, and no cut-off value is read |
| SaveLoad.ReadsProto | GameScript/GSobject.cpp:414-557 | a stream running along a saved function tree gives that tree and the rest, or fails if it stops short |
| SaveLoad.RoundTrip | GameScript/GSobject.cpp:377-400 | a saved closure loads back to an equal function and leaves what follows unread |
| SaveLoad.NoPrefixLoads | GameScript/GSobject.cpp:388-400 | no strict prefix of a saved closure loads |
| SaveLoad.SavedApart | GameScript/GSobject.cpp:377-386 | different functions have different streams, whatever fills the padding |
| SaveLoad.Writer.WriteObject | GameScript/GSobject.cpp:319-340 | appends the value's bytes, which `Format.WrittenAs` gives one by one; fails exactly for types without a stream form |
| SaveLoad.Writer.SaveProto | GameScript/GSobject.cpp:414-475 | appends the function's bytes; fails exactly when some value in the tree has no stream form |
| SaveLoad.Reader.Object | GameScript/GSobject.cpp:342-375 | reads one value as the reader function does, which `Format.ObjectReads` pins to the bytes |
| SaveLoad.Reader.LoadProto | GameScript/GSobject.cpp:477-557 | reads a function tree as the reader function does, and ends on every stream |
| SaveLoad.SaveThenLoad | GameScript/GSobject.cpp:414-557 | writing a function and reading the stream gives an equal function and the rest |
| Format.EncIs | GameScript/GSobject.cpp:285-301 | byte i of a written number n is n / 256^i modulo 256 |
| Format.DecIs | GameScript/GSobject.cpp:294-301 | the number read from bytes is the one with these bytes |
| Format.WrittenAs | GameScript/GSobject.cpp:319-340 | a value is written as its type's number, two zero bytes and the type's flags, then eight bytes of a number, four of a float, or the length of a text and the text |
| Format.ObjectReads | GameScript/GSobject.cpp:342-375 | reading gives a value if and only if the stream starts with exactly these bytes of it |
| Format.KindReads | GameScript/GSobject.cpp:342-375 | a value of a kind comes out if and only if the stream starts with that kind's tag and is long enough |
| Format.OuterReads | GameScript/GSobject.cpp:519-526 | a captured variable is its kind in half a word, where it comes from, and its name; the other half may be anything |
| Format.LocalReads | GameScript/GSobject.cpp:529-536 | a local variable is its name, register, first and last instruction |
| Format.LoadReads | GameScript/GSobject.cpp:477-557 | reading gives a function if and only if the stream starts with its fields in their order: names, eight counts, four lists, three blocks, inner functions, frame size, generator flag, parameter flag |
| Format.ClosureReads | GameScript/GSobject.cpp:388-400 | a stream loads as a closure if and only if it starts with the opening mark, the three sizes, the function's fields and the closing mark |
| Format.ClosureWritten | GameScript/GSobject.cpp:377-386 | what is saved is made of exactly these fields, and of nothing else |
| SaveLoad.DecEnc | GameScript/GSobject.cpp:285-301 | a number that fits its bytes survives them |
| Heapsort.SiftDown | GameScript/GSbaselib.cpp:854-892 | ends for every comparator, rearranges only the given part, and restores the heap for a total preorder |
| Heapsort.Sort | GameScript/GSbaselib.cpp:894-909 | an ordered rearrangement for every total preorder; for any comparator, even failing or inconsistent, it ends in bounds with a rearrangement |
| Heapsort.SettleOne | GameScript/GSbaselib.cpp:903-907 | one more element is final |
| Heapsort.RootIsGreatest | GameScript/GSbaselib.cpp:854-892 | with children 2i and 2i+1 counted from zero the root still bounds the heap |
| Heapsort.SiftStep | GameScript/GSbaselib.cpp:878-887 | swapping with the greater child moves the one broken place down |
| Heapsort.TakeRoot | GameScript/GSbaselib.cpp:903-906 | taking the root to the end of the heap settles it |
| ClassLayout.Decodes | GameScript/GSclass.h:18-27 | an index of at most 24 bits decodes to its own kind and position |
| ClassLayout.World.Derive | GameScript/GSclass.cpp:13-34 | a derived class gives for every name what its base gives, has its base's constructor and metamethods, and is unlocked |
| ClassLayout.World.NewSlot | GameScript/GSclass.cpp:53-102 | refused exactly for data on a locked class or beyond the member limit; otherwise the name gives the value and every other name what it gave before; indexes stay in range and apart; the constructor changes only under its own name, and then is the new function |
| ClassLayout.World.NewStatic | GameScript/GSclass.cpp:67-96 | metamethods do not become members; a method is added or replaced, and becomes the constructor exactly under the constructor's name |
| ClassLayout.World.Lock | GameScript/GSclass.h:63-63 | locks exactly the class and the classes it inherits from, and changes nothing else |
| ClassLayout.World.CreateInstance | GameScript/GSclass.cpp:104-108 | an instance starts with exactly the class's values; exactly its class and that class's bases become locked, so their fields stay as many |
| ClassLayout.World.SetField | GameScript/GSclass.h:131-138 | only a field can be set; only that name of that instance changes |
| ClassLayout.ConstructorIsMember | GameScript/GSclass.h:53-60 | there is a constructor if and only if its name took a method slot in the class or one it derives from; unless the name is a field now, it is what the class gives for it |
| ClassLayout.ConstructorHidden | GameScript/GSclass.cpp:97-101 | a data slot under the constructor's name leaves the constructor as it was |
| ClassLayout.FieldSlotted | GameScript/GSclass.cpp:97-101 | a new field takes a slot of its own |
| ClassLayout.MethodSlotted | GameScript/GSclass.cpp:80-90 | a new method takes a slot of its own |
| Delegation.Tables.SetDelegate | GameScript/GSobject.cpp:126-138 | accepted if and only if the graph stays acyclic; then only this link changes |
| Delegation.Tables.Get | GameScript/GSvm.cpp:1587-1596 | without metamethods the lookup ends with the first match along the chain, else the default delegate's entry |
| Delegation.AssignCloses | GameScript/GSobject.cpp:128-133 | a delegate that leads back closes a cycle |
| Delegation.AssignKeeps | GameScript/GSobject.cpp:134-137 | one that does not keeps the graph acyclic |

## Left out

- Lexing, parsing and name lookup of constants, enums, imports and namespaces: the compiler model starts from expression and statement trees whose names are resolved.
- switch, foreach, try and the ternary operator in the layout proofs: they add cases to the same argument; traps themselves are in `Frames.dfy`.
- Debug hooks, LINE instructions, error handlers and error texts; an error is one value.
- Metamethods, native functions and the collector's sweep, which runs finalizers on the list it walks.
- Programs.CompileProgram: scopes end without CLOSE, so blocks declare no captured variables; switch, foreach, try and nested functions are left out.
- Compiler.ReEmissionKeeps: states a sufficient condition for code of any length; the exact one is stated for the chained increments.
- Closing captured locals on break and continue: only the innermost scope is consulted by the code.
- Return type checks, typed arrays and generic annotations.
- Floating point: floats are opaque values.
- Integer widths of sizes, counters and the call-record offsets; only hashes, stream words and member indexes are bounded.
- Operand widths: registers are bytes, the 32-bit operand is an unbounded integer; opcodes no optimizer rule mentions behave like a comparison or an addition and have no rule of their own.
- The captured variables a CLOSE or a tail call ends are an abstract effect in `Bytecode.dfy`; `Outers.dfy` has their meaning, and `Machine.dfy` leaves them out.
- The ternary operator, array, table, class and function literals, increments by `++`, unary operators, raw calls and type checks are not in `Expressions.dfy`; logical operators stand above other operators and under a declaration (`local c = a && b`), not inside arguments or operands.
- Registers are disjoint from the world in `Bytecode.dfy`: a callee or metamethod that writes a captured local of the running frame is outside the compiler theorems.
- Bytecode.ExecFollows: the registers of the frame are not part of the world, as above.
- Captures.NextGood: the open outers are the set of slots they point at; the list and the cells are in `Outers.dfy`.
- Frames.CallReturns: result registers below 128; `Frames.CallTargetExactly` says what happens from 128 on.
- Frames.YieldSuspends: the first register is kept as a value, not as a weak reference.
- Frames.YieldThenResume: the first register comes back as a value, not through a weak reference.
- Machine.Machine.GeneratorResume: the first register comes back as a value, not through a weak reference.
- Machine.Machine.LeaveFrame: closing the frame's outers is in `Captures.dfy` and `Outers.dfy`.
- Machine.Machine.TailCallOp: closing the frame's outers is in `Captures.dfy` and `Outers.dfy`.
- Machine.Machine.YieldOp: closing the frame's outers is in `Captures.dfy` and `Outers.dfy`.
- FuncState.State.Compile: switch, foreach, try, and the POPTRAP of a return inside a try are left out.
- FuncState.State.BreakStatement: the POPTRAP and CLOSE before the jump are code the caller emits.
- FuncState.State.ContinueStatement: the POPTRAP and CLOSE before the jump are code the caller emits.
- Table.HashTable.Get: weak references are not dereferenced on reading.
- Table.HashTable.Clone: models the entry-by-entry copy, the one that is compiled in; the delegate it copies is not part of the table here.
- Machine.Machine.StartCall: default and variable arguments, the bound environment and the read of the not yet written result register are not modelled.
- Machine.Machine.GeneratorYield: the first register is kept as a value, not as a weak reference.
- Machine.Machine.constructor: starts with one value on the stack, so that the native frame has a register.
- Machine.Machine.EnterFrame: resizing the stack always succeeds.
- Machine.Machine.HostCallOp: calling a generator function from native code is left out.
- Machine.Machine.Do: generators are records in one list rather than objects of their own; several frames naming the same one are still distinguished.
- FuncState.CompileFunction: parameters, nested functions and the implicit return at the end of a body are left out.
- Resolve.FuncStates.PushFunction: the chain of parent pointers is a list; the counter of captured locals is replaced by the marks it counts.
- Collector.SharedState.Mark: what each object type visits is the list of references of the object; reference counts are left out.
- Strings.StringTable.Find: the chain of a bucket is a list, and the bucket is the hash modulo the power-of-two size.
- RefTable.RefTable.Find: the chain of a bucket and the free list are lists.
- RefTable.RefTable.Release: releasing an object that is not held, an assertion failure in debug builds, reports false.
- SaveLoad.RoundTrip: the declared return type and the declared types of locals are never written, so they are not part of the model; words are eight bytes and floats four.
- Heapsort.Sort: a comparator that changes the array's elements while it is asked is not modelled.
- ClassLayout.World.NewStatic: cloning a method to record its base class is not modelled.
- ClassLayout.World.NewSlot: cloning a method to record its base class is not modelled, and the member table is a map.
- Delegation.Tables.Get: only tables delegate here; userdata, which share the code, do not appear.
