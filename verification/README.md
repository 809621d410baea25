# JDRuby in Dafny

JDRuby compiles a Ruby-like language in stages: a lexer and a parser build trees, a tree optimizer
folds constants, lowering turns trees into blocks of register instructions, and fusion, an optimizer
and a peephole loop rewrite those blocks. An interpreter runs the result, on top of a garbage-collected
heap, a class hierarchy and a scheduler of green threads. This project models these parts and proves
what they promise.

## The compiler

`Mir` gives the register code its meaning, which is the interpreter's. A call leaves the function: it
is recorded in a trace together with everything the callee can see, and a `World`, an arbitrary
function of the trace so far, answers it. Runs are bounded by gas, one unit for each block entered, so
that a statement about every amount of gas is a statement about every run, finite or not. Integers
have 64 bits; with `overflowChecks` an overflow stops the process, without it wraps around, as the two
builds of the host language do. Three more flags stop a run where a pass is known to disagree with the
interpreter: `disciplined` where two equal booleans are compared, which matters to folding, and for the
peephole loop `identities` where x + 0 and the like are not x, and `objects` where an instance variable
is set and self is no object. So one notion of refinement, "unless it stops, the run is the same", serves
all passes, and each result names only the flags it needs.

`Ssa` defines strict form by paths: a register is available where every path from the entry has passed
its definition. The tables of the passes are insensitive to control flow and are carried from block to
block. They are nevertheless right in strict form, because the defining equation of an available
register holds in every state that a run reaches (`Ssa.BlockKeepsInv`, `Ssa.EdgeInv`). `Rewriting`,
`Removal` and `Graph` turn this into one soundness theorem for each way of changing code: replacing
instructions, deleting them, changing the graph. Every pass is then shown to be an instance, for all
functions in strict form or, where it needs no form, for all functions (`Improvement.Improves`).
`Optimizer.OptimizingIsSound` puts three rounds of eight passes together. Two passes can leave strict form,
exactly as said in `RewritingPasses.ReuseKeepsStrictExactly` and
`DeletingPasses.DeadCodeKeepsStrictExactly`; the rounds are right as long as they do not. Only the removal of
dead stores can change what a call by name alone finds, by removing every store to self; the results ask that
self be kept, which can be read off the optimized function, or off the tree (`LoweredNames`).

The peephole loop runs until nothing changes. `PeepholeLoop.OptimizeFunction` terminates on every
function: what shrinks, where copies form cycles, is the set of registers that copies read.
`FallThrough` has the exact condition on which the cutting of branches keeps a run, and one on the code
under which it keeps all. `SteadyGraph` and `LoweredTails` show which trees lead to such code.

The passes that look at every instruction once and keep a table share the loop `Scan.ScanInstructions`; a
pass is given by how its table is updated and how it rewrites. The other passes have loops of their own.
`Effects`, `CopyEffects` and `Remains` say what each pass changes, what goes and what stays, in terms of the
instructions before and not of the tables: every foldable operation becomes its result, and nothing else
does. `RoundResults` says the same of a whole round, from before to after.

`Operators` says what the interpreter's operators compute: quotients and remainders by their law, shifts by
powers of two, bit operations bit by bit, sums and products modulo 2^64. `Instructions` has the laws of
names, of single instructions and of calls.

`Hir` evaluates trees directly. `LowerCorrect.LoweringIsCorrect` shows that the lowered function makes the
calls that the tree makes and ends as the tree ends, and exactly when it returns the same value;
`LowerLabels` and `LowerRegs` that of every tree, blocks in blocks included, the labels are distinct and
closed and the registers defined once; `BlockSends.BlockIsPassed` that a call hands its block on. Lowered
code that returns the value of a conditional is not in strict form; `LostValues` shows that the optimizer
nevertheless keeps its calls, by looking at the function with such returns masked.
`Pipeline.CompilerIsCorrect` puts tree optimizer, lowering, fusion and optimizer together,
`Pipeline.FinalCodeIsCorrect` and `Pipeline.FinalCodeKeepsCalls` the peephole loop on top.
`SourceConditions` has the same results with conditions on the tree only.

`Limits` holds programs that go wrong without the conditions that these results carry.

## The rest

`HirOptimize` is the tree optimizer. `Interpreter` and `Closures` show what a block sees of the place that
created it (`Closures.ClosureConversion`, from the loads of the captured names to the caller that goes on
after the invocation). `Header` and `HeaderRace` treat the packed object header alone and under any number
of racing threads, `Regions` and `Marking` the heap and a collection cycle. `Classes` is method and constant
lookup on graphs with cycles, and `ClassOrder` the order in which modules, class and superclass answer.
`Syntax` and `Parser` are the precedence tower, which `Precedence` writes out operator by operator; `Lexer`
is the lexer, and `Lexemes` has the texts that it reads as each kind of token. `Scheduler` treats the green
threads.

Code that changes state is modelled by methods that change fields; each is proved against a function of
the old state, and the properties are proved about that function.

## Where the code does not do what it is for

- Common-subexpression elimination carries its table from one arm of a conditional into the other, so
  a function can come to read a register that was never set (`Limits.ReuseNeedsDominance`).
- Integer fusion records the results it folds as 0 for later blocks, so that (2 + 2) + 2 becomes 2
  (`Limits.FusionNeedsLocalOperands`).
- Folding and interpreter disagree on the equality of two equal booleans
  (`Folding.BooleanEqualityDisagrees`).
- Folding comes before the removal of unreachable blocks, so that the compiler can stop at a division no
  run comes to (`Limits.FoldingStopsWithoutFault`).
- Dead-store removal does not know that a call by name alone, or an instance variable, consults self
  (`Limits.DeadStoresNeedSelf`).
- Dead-code elimination does not count the operands of block creation and of sends. The selector of a call
  with a block goes, and the call with it (`Limits.DeadCodeDropsBlockCalls`,
  `DeletingPasses.DeadCodeKeepsStrictExactly`).
- Redundant-load elimination forgets at a call what was stored, but not at a send, which may set constants as
  well (`Limits.ForwardingIgnoresSends`).
- A branch to the next block is turned into an unreachable terminator, which the interpreter runs as a
  return of nil (`Limits.CuttingNeedsNothingToCut`, `FallThrough.CuttingKeepsRunExactly`). Every lowered
  conditional and every loop has such a branch (`LoweredJumps.LoweredHasCut`).
- An instance variable of no object does not read back what was stored, but forwarding pretends it
  does (`Limits.StoredIsReadBackExactly`, `Limits.ForwardingNeedsVariables`).
- x + 0 is simplified to x also where x is a string, for which the interpreter gives nil
  (`Peephole.IdentityExactly`).
- Two negations are dropped also before a value that is no boolean (`HirOptimize.DoubleNegationExactly`).
- Of two strings, and and or give nil (`Hir.ConnectivesExactly`).
- The value of a conditional is lost if the condition is false (`Limits.ConditionalLosesItsValue`,
  exactly `LowerCorrect.LoweringIsCorrect`), and the optimizer may put the constant of the first arm in
  its place (`Limits.LostValueIsPropagated`).
- Two blocks of a module can have the same name, as the register counter starts again with each function,
  also with that of a block around another (`Limits.NestedBlocksShareTheirName`); then both run the body
  that was loaded last (`Interpreter.EveryFunctionFoundExactly`).
- A shade that is overtaken by an installation fails and leaves the object white
  (`HeaderRace.ShadeOvertaken`), and an installation drops the pin (`Header.ForwardedFields`).
- The test for a superclass does not end where the superclasses lead to a cycle
  (`Classes.WalkEndsExactly`), and nothing keeps a definition from closing one (`Classes.DefineCycle`).
- A negation is no operand of a comparison or of any tighter operator: x == !y is a syntax error
  (`Precedence.NegationOnTheRight`). A sign binds more than a power, other than in Ruby
  (`Precedence.SignInFront`).

## Model

| member | source | states |
|---|---|---|
| `Pipeline.CompilerIsCorrect` | crates/jdruby-builder/src/lib.rs:120-141 | tree optimizer, lowering, fusion and three optimizer rounds together, for bodies of statements: if the source tree meets no fault and self is kept, the compiled function ends exactly if the tree does, after the same calls, and with the same value unless the body ends in a conditional |
| `Pipeline.FinalCodeIsCorrect` | crates/jdruby-mir/src/optimize.rs:11-22 | with the peephole loop at the end: where its cuts are harmless, identities are of numbers or nil and loads find what was stored, the final code returns exactly what the tree returns, and ends exactly if the tree does |
| `Pipeline.FinalCodeKeepsCalls` | crates/jdruby-mir/src/optimize.rs:11-22 | the same up to the value for bodies that end in a conditional, whose merge block is where the loop cuts a branch |
| `SourceConditions.StraightLineIsCorrect` | crates/jdruby-mir/src/optimize.rs:11-22 | of straight-line trees the whole compiler, peephole loop included, makes code that returns exactly what the tree returns; self is not set, or not consulted without being named, and instance variables are not read, or those of one self |
| `SourceConditions.PlainCodeIsCorrect` | crates/jdruby-mir/src/optimize.rs:11-22 | the same of straight-line trees without arithmetic, equality and instance variables, on conditions that can all be read off the tree |
| `SourceConditions.FaultFreeNeverFaults` | crates/jdruby-jit/src/interpreter.rs:796-852 | trees whose operators are connectives, comparisons by order and bit operations, and that set no instance variable, meet no fault in any kind of build |
| `SourceConditions.ConditionsAreMet` | crates/jdruby-mir/src/optimize.rs:11-22 | a body that meets these conditions |
| `SourceConditions.TailsAreCorrect` | crates/jdruby-mir/src/optimize.rs:11-22 | of trees with conditionals at their end, on names or calls, it makes code that makes the same calls and ends exactly if the tree does |
| `SourceConditions.StatementsAreCorrect` | crates/jdruby-mir/src/optimize.rs:11-19 | without the peephole loop the same of all statements, under the condition on self only, and with the same value unless the body ends in a conditional |
| `LoweredNames.LoweredWithin` | crates/jdruby-mir/src/lower.rs:139-500 | lowered code stores the parameters first, and then loads, stores and calls only names of the tree |
| `LoweredNames.UntouchedSelfIsKept` | crates/jdruby-mir/src/optimize.rs:190-213 | so a tree that never sets self, or never consults it without naming it, keeps self |
| `LoweredNames.OneSelfInCode` | crates/jdruby-mir/src/opt_peephole.rs:69-95 | and a tree that reads no instance variable, or never sets self, lets loads find what was stored |
| `LoweredTails.TailsAreSteady` | crates/jdruby-mir/src/lower.rs:352-381 | in the lowered code of conditionals at the end every block is reached, and no branch depends on anything but loads and calls |
| `LoweredTails.TailsAreHarmless` | crates/jdruby-mir/src/opt_peephole.rs:98-112 | with their value masked, every branch to the next block only leads to the end |
| `SteadyGraph.CompiledIsSteady` | crates/jdruby-mir/src/optimize.rs:24-36 | fusion and optimizer leave the graph of such code alone, and every instruction is still in its block or has become a simpler one |
| `SteadyGraph.SteadyStaysHarmless` | crates/jdruby-mir/src/opt_peephole.rs:98-112 | so that harmless cuts stay harmless |
| `Pipeline.CompilingIsCorrect` | crates/jdruby-mir/src/lower.rs:84-137 | for every world, argument list and amount of gas, the lowered, fused and optimized function makes the calls the tree makes and ends alike, and returns the same value unless the body ends in a conditional |
| `Pipeline.LoweredCompilesSoundly` | crates/jdruby-mir/src/optimize.rs:11-36 | fusion and the optimizer rounds keep every run of block-local code, and leave it fit for the peephole loop, as long as self is kept |
| `Pipeline.MaskedCompilesSoundly` | crates/jdruby-mir/src/optimize.rs:11-36 | the same for code that returns the value of a conditional, with such returns masked |
| `LostValues.RoundsImproveMasked` | crates/jdruby-mir/src/optimize.rs:24-36 | what the optimizer rounds do to a function they do to the function with such returns masked, so that they keep its calls |
| `LostValues.UnmaskedRuns` | crates/jdruby-mir/src/optimize.rs:24-36 | functions whose masked forms run alike run alike but for the value |
| `LostValues.SweepsMasked` | crates/jdruby-mir/src/opt_peephole.rs:20-30 | so does the peephole loop |
| `Pipeline.FusionIsSound` | crates/jdruby-mir/src/opt_fusion.rs:16-28 | the three fusion passes in order keep every run of a function in strict form, and the form, if no operation that is folded reads a placeholder |
| `Pipeline.FusionKeepsOptimizable` | crates/jdruby-mir/src/opt_fusion.rs:16-28 | and leave it fit for the optimizer, if no operation reads the result of a conditional |
| `Pipeline.OptimizedStmt` | crates/jdruby-hir/src/optimize.rs:14-51 | the tree optimizer turns statements into statements and keeps which of them have a value |
| `Pipeline.Compile` | crates/jdruby-builder/src/lib.rs:120-141 | the whole pipeline in place, peephole loop included: what it produces is related to its input by the passes, and it panics if and only if one of them does |
| `Optimizer.OptimizingIsSound` | crates/jdruby-mir/src/optimize.rs:24-36 | any number of full rounds of the eight passes leave result and call trace of every run of a strict function as they were, and the form, as long as self is kept and in each round common-subexpression elimination keeps strict form and dead-code elimination spares the operands of block calls |
| `Optimizer.OptimizableRounds` | crates/jdruby-mir/src/optimize.rs:24-36 | the conditions on the rounds hold of every function without block calls in which of two equal operations the first is available at the second |
| `Optimizer.RoundsKeepRuns` | crates/jdruby-mir/src/optimize.rs:24-36 | rounds compose: each hands on a strict function, and what self is kept at the end was kept in between |
| `Optimizer.RoundKeepsRuns` | crates/jdruby-mir/src/optimize.rs:26-35 | one round of the eight passes, in their order, under the same conditions |
| `Optimizer.OptimizeRound` | crates/jdruby-mir/src/optimize.rs:26-35 | the passes in place perform one round, or stop if and only if folding comes to an operation that it cannot evaluate |
| `Optimizer.OptimizeFunction` | crates/jdruby-mir/src/optimize.rs:24-36 | the loop performs three rounds in place, or stops if and only if folding stops in one of them |
| `Optimizer.RoundsAreUnique` | crates/jdruby-mir/src/optimize.rs:24-36 | a number of rounds has one result |
| `Optimizer.RoundsDoNotStop` | crates/jdruby-mir/src/optimize.rs:24-36 | and rounds that have been performed do not stop |
| `Rewriting.RewritingIsSound` | crates/jdruby-mir/src/optimize.rs:39-70 | replacing instructions one for one by instructions with the same effect in every reachable state keeps every run and the strict form, loops included |
| `Rewriting.RewritingKeepsStrict` | crates/jdruby-mir/src/optimize.rs:39-70 | such a replacement keeps every definition dominating its uses |
| `Ssa.NotAvailableBeforeDefinition` | crates/jdruby-mir/src/optimize.rs:39-70 | in single-definition code no register is available before its own definition, on any path |
| `Ssa.BlockKeepsInv` | crates/jdruby-jit/src/interpreter.rs:159-219 | at run time the defining equation of every available register holds throughout a block |
| `Ssa.EdgeInv` | crates/jdruby-jit/src/interpreter.rs:198-209 | and is carried along every edge of the control-flow graph, back edges included |
| `Ssa.OperandAvailable` | crates/jdruby-mir/src/optimize.rs:39-70 | where a register is available, so are the operands of its definition |
| `Folding.FoldBinop` | crates/jdruby-mir/src/optimize.rs:72-119 | folding panics exactly on the division of the least integer by -1 |
| `Folding.FoldAgreesExactly` | crates/jdruby-mir/src/optimize.rs:72-119 | a folded constant is what the interpreter computes if and only if the operation is no == or != on two equal booleans |
| `Folding.FoldUnopAgrees` | crates/jdruby-mir/src/optimize.rs:121-130 | a folded unary operation does not fault and has the constant as its value |
| `Folding.BooleanEqualityDisagrees` | crates/jdruby-mir/src/optimize.rs:107-108 | the one disagreement, on the program true == true |
| `Effects.FoldsExactly` | crates/jdruby-mir/src/optimize.rs:72-119 | which operations on constants are folded, kind by kind of operand, and that the constant is the value of the operation, equal booleans aside |
| `Effects.FoldingEffect` | crates/jdruby-mir/src/optimize.rs:39-70 | an operation becomes a constant if and only if it is foldable on the constants last loaded into its operands before it in layout order; nothing else changes |
| `Effects.PropagationEffect` | crates/jdruby-mir/src/optimize.rs:133-156 | a copy becomes a load of a constant if and only if a constant was loaded last into its source before it; nothing else changes |
| `Effects.ReuseEffect` | crates/jdruby-mir/src/optimize.rs:158-188 | an operation becomes a copy of the last equal operation before it, in whatever block, if there is one; nothing else changes |
| `Effects.BranchEffect` | crates/jdruby-mir/src/optimize.rs:272-299 | a branch on the constant last loaded in the function goes to the arm it selects; nothing else changes |
| `Effects.StringFusionEffect` | crates/jdruby-mir/src/opt_fusion.rs:109-137 | a concatenation of two string constants last loaded becomes the whole string; nothing else changes |
| `Effects.IntegerFusionEffect` | crates/jdruby-mir/src/opt_fusion.rs:40-107 | an operation on integers loaded in its block becomes its result if it is no shift and no division by zero; what changes has the result of some integers |
| `Effects.IdentityEffect` | crates/jdruby-mir/src/opt_peephole.rs:115-146 | an operation becomes a copy of its left operand if and only if the constant last loaded into the right one is 0 for + and -, or 1 for * and / |
| `CopyEffects.CopyFusionEffect` | crates/jdruby-mir/src/opt_fusion.rs:154-192 | operations and method calls read what was last copied into their operands, copies the end of the chain of copies that they continue; nothing else changes |
| `CopyEffects.ShorteningEffect` | crates/jdruby-mir/src/opt_peephole.rs:33-66 | a copy of a register that is copied into reads what fusion has the last such copy read; nothing else changes |
| `CopyEffects.ForwardingEffect` | crates/jdruby-mir/src/opt_peephole.rs:69-95 | a load becomes a copy if and only if its name was stored in the block with no call after it; nothing else changes |
| `Remains.DeadStoresEffect` | crates/jdruby-mir/src/optimize.rs:190-213 | a store goes if and only if its name is local to the function and loaded nowhere; nothing else goes |
| `Remains.DeadCodeEffect` | crates/jdruby-mir/src/optimize.rs:216-269 | an instruction without effect goes if and only if no instruction but those for blocks, and no terminator, reads its result; nothing else goes |
| `Remains.NopsEffect` | crates/jdruby-mir/src/optimize.rs:301-306 | no-operations go, and nothing else |
| `Remains.UnreachableEffect` | crates/jdruby-mir/src/optimize.rs:308-333 | with distinct labels, a block goes if and only if no path leads to it |
| `Remains.RoundLeaves` | crates/jdruby-mir/src/optimize.rs:24-36 | after a whole round there is no no-operation, no branch on a register that a constant is loaded into, and no block that cannot be reached |
| `RoundResults.RoundFolds` | crates/jdruby-mir/src/optimize.rs:24-70 | in single-definition code: what is left after one round of a foldable operation on loaded constants is its result |
| `RoundResults.RoundPropagates` | crates/jdruby-mir/src/optimize.rs:24-156 | and of a copy of a loaded constant the load of that constant |
| `RoundResults.RoundReuses` | crates/jdruby-mir/src/optimize.rs:24-188 | after a round no operation is computed twice |
| `RoundResults.RoundForgets` | crates/jdruby-mir/src/optimize.rs:24-213 | a local name that is loaded nowhere is stored nowhere after a round |
| `RoundResults.RoundDiscards` | crates/jdruby-mir/src/optimize.rs:24-269 | an instruction without effect whose result is read nowhere, operations aside, is gone after a round |
| `RoundResults.StableIsClean` | crates/jdruby-mir/src/opt_peephole.rs:20-30 | where the peephole loop ends, no load finds what its block stored, no operation has a neutral constant on its right, no branch leads to the next block, and no copy can be shortened |
| `RewritingPasses.FoldingImproves` | crates/jdruby-mir/src/optimize.rs:39-70 | constant folding with its table carried across blocks keeps every run of a strict function |
| `RewritingPasses.FoldTableTrue` | crates/jdruby-mir/src/optimize.rs:39-70 | every entry of the table of constants is true wherever its register is available |
| `RewritingPasses.FoldingStopsOnFault` | crates/jdruby-mir/src/optimize.rs:72-119 | folding stops only at an operation on known constants that faults on exactly these, so that every run that comes to it stops there too |
| `RewritingPasses.ConstantFolding` | crates/jdruby-mir/src/optimize.rs:39-70 | the scan in place produces the folded function, or stops if and only if it comes to an operation that cannot be folded |
| `RewritingPasses.PropagationImproves` | crates/jdruby-mir/src/optimize.rs:133-154 | constant propagation keeps every run of a strict function |
| `RewritingPasses.ConstantPropagation` | crates/jdruby-mir/src/optimize.rs:133-154 | the scan in place produces the propagated function |
| `RewritingPasses.ReuseImproves` | crates/jdruby-mir/src/optimize.rs:158-175 | common-subexpression elimination keeps every run of a strict function, and the form, if of two equal operations the first is available at the second |
| `RewritingPasses.ReuseIsSound` | crates/jdruby-mir/src/optimize.rs:158-175 | it keeps every run of a strict function wherever its result is strict |
| `RewritingPasses.ReuseKeepsStrictExactly` | crates/jdruby-mir/src/optimize.rs:158-175 | its result is in strict form if and only if every reused register is available where it is reused |
| `RewritingPasses.CommonSubexpressionElimination` | crates/jdruby-mir/src/optimize.rs:158-175 | the scan in place produces the function with reused results |
| `Removal.RemovalIsSound` | crates/jdruby-mir/src/optimize.rs:190-269 | deleting instructions whose register nobody uses, or whose variable nobody observes, keeps every run |
| `Removal.RemovalKeepsStrict` | crates/jdruby-mir/src/optimize.rs:190-269 | and keeps the strict form |
| `DeletingPasses.DeadStoresAreSound` | crates/jdruby-mir/src/optimize.rs:190-213 | dead-store removal keeps every run of any code, strict or not, unless all stores to self go where self is consulted without being named |
| `DeletingPasses.DeadStoresKeepForm` | crates/jdruby-mir/src/optimize.rs:190-213 | and strict form and dominated repeats in any case |
| `DeletingPasses.RemoveDeadStores` | crates/jdruby-mir/src/optimize.rs:190-213 | in place: exactly the stores to plain names that are loaded nowhere go |
| `DeletingPasses.DeadCodeIsSound` | crates/jdruby-mir/src/optimize.rs:216-269 | dead-code elimination keeps every run of any code, and the form, if the operands of block calls are used elsewhere too, or stay for another reason |
| `DeletingPasses.DeadCodeKeepsStrictExactly` | crates/jdruby-mir/src/optimize.rs:216-269 | and the result is in strict form if and only if they are or do |
| `DeletingPasses.CollectUsed` | crates/jdruby-mir/src/optimize.rs:216-269 | the loops collect exactly the registers that the pass counts as used: those of terminators and of all instructions but those for blocks |
| `DeletingPasses.CollectLoaded` | crates/jdruby-mir/src/optimize.rs:190-213 | the loops collect exactly the names that are loaded |
| `DeletingPasses.DeadCodeElimination` | crates/jdruby-mir/src/optimize.rs:216-269 | in place: exactly the pure instructions with unused results go |
| `DeletingPasses.RemoveNops` | crates/jdruby-mir/src/optimize.rs:301-305 | in place: exactly the no-operations go |
| `DeletingPasses.NopsGoneIsSound` | crates/jdruby-mir/src/optimize.rs:301-305 | and every run of any code stays |
| `Graph.DecidingIsSound` | crates/jdruby-mir/src/optimize.rs:272-298 | replacing a conditional branch by the arm it always takes keeps every run and the form |
| `BranchPasses.BranchFoldingImproves` | crates/jdruby-mir/src/optimize.rs:272-298 | branch folding on the constants of the whole function keeps every run of a strict function |
| `BranchPasses.ConstantBranchFolding` | crates/jdruby-mir/src/optimize.rs:272-298 | the two loops in place decide every branch on a known constant |
| `Graph.RetainingIsSound` | crates/jdruby-mir/src/optimize.rs:308-332 | keeping the blocks of a closed set of labels keeps every run |
| `BranchPasses.UnreachableRemovalIsSound` | crates/jdruby-mir/src/optimize.rs:308-332 | so the removal of unreachable blocks keeps every run of any function |
| `Graph.SmallestClosedIsReachable` | crates/jdruby-mir/src/optimize.rs:308-332 | with distinct labels the smallest closed set holds exactly the labels of the blocks reachable from the entry |
| `BranchPasses.ReachableLabels` | crates/jdruby-mir/src/optimize.rs:311-329 | the fixed-point loop terminates with the smallest closed set of labels |
| `BranchPasses.UnreachableRemovalImproves` | crates/jdruby-mir/src/optimize.rs:308-332 | and strict form |
| `BranchPasses.RemoveUnreachableBlocks` | crates/jdruby-mir/src/optimize.rs:308-332 | in place: the blocks of the reachable labels stay, in order |
| `Scan.ScanInstructions` | crates/jdruby-mir/src/optimize.rs:39-70 | the shared in-place loop: every instruction becomes what the table prescribes at its place, the flag says whether anything changed, and it cannot go on if and only if there is a place where it gets stuck |
| `Scan.ScannedIsNotStuck` | crates/jdruby-mir/src/optimize.rs:39-70 | a scan that has come through gets stuck nowhere |
| `Scan.ScannedIsUnique` | crates/jdruby-mir/src/optimize.rs:39-70 | and has one result |
| `Fusion.FoldIntegerOp` | crates/jdruby-mir/src/opt_fusion.rs:75-98 | folding in fusion panics exactly on the division of the least integer by -1 |
| `Fusion.FoldIntegerOpAgrees` | crates/jdruby-mir/src/opt_fusion.rs:75-98 | what it folds is what the interpreter computes, without exception |
| `Fusion.IntegerFusionImproves` | crates/jdruby-mir/src/opt_fusion.rs:40-73 | integer fusion keeps every run if no operation it folds takes a result it folded in an earlier block |
| `Fusion.FuseIntegerArithmetic` | crates/jdruby-mir/src/opt_fusion.rs:40-73 | in place: the fused function, or a stop if and only if folding comes to a division that overflows |
| `Fusion.StringFusionImproves` | crates/jdruby-mir/src/opt_fusion.rs:109-131 | fusion of string constants keeps every run of a strict function |
| `Fusion.FuseStringConcatenation` | crates/jdruby-mir/src/opt_fusion.rs:109-131 | in place: every concatenation of two loaded string constants is replaced |
| `Chains.LinkKeepsForest` | crates/jdruby-mir/src/opt_fusion.rs:161-166 | whatever the code, the copy map stays a forest whose only cycles are roots that point to themselves |
| `Chains.FindCopyRoot` | crates/jdruby-mir/src/opt_fusion.rs:194-203 | so the chase terminates on every map that can arise, and finds the root |
| `Chains.Root` | crates/jdruby-mir/src/opt_fusion.rs:194-203 | the root has no entry of its own, or one that points to itself |
| `Chains.RootKnown` | crates/jdruby-mir/src/opt_fusion.rs:161-203 | in strict code the root holds the value of every register that chases to it |
| `CopyFusion.CopyFusionIsSound` | crates/jdruby-mir/src/opt_fusion.rs:154-192 | reading the root at the use keeps every run of a strict function, and the form |
| `CopyFusion.ChainTrue` | crates/jdruby-mir/src/opt_fusion.rs:154-192 | every entry of the copy map is a copy that holds wherever its register is available |
| `CopyFusion.FuseCopyChains` | crates/jdruby-mir/src/opt_fusion.rs:154-192 | in place: every copy, operation and method call reads through the copy map |
| `Peephole.ShorteningImproves` | crates/jdruby-mir/src/opt_peephole.rs:33-66 | copy-chain elimination keeps every run of a strict function |
| `Peephole.EliminateCopyChains` | crates/jdruby-mir/src/opt_peephole.rs:33-66 | the two loops in place, with a flag that says whether anything changed |
| `Peephole.ForwardingImproves` | crates/jdruby-mir/src/opt_peephole.rs:69-95 | redundant-load elimination keeps every run of a strict function in which each load of a name stored before in its block finds what was stored: nothing since may have changed it, no send and no store to self |
| `Peephole.OneSelfReadsBack` | crates/jdruby-mir/src/opt_peephole.rs:69-95 | that is so without block calls if no instance variable is loaded, or all are set on objects and no block sets self after one |
| `Peephole.EliminateRedundantLoads` | crates/jdruby-mir/src/opt_peephole.rs:69-95 | the loop in place, with a flag that says whether anything changed |
| `Peephole.EliminateDeadBranchesToFallthrough` | crates/jdruby-mir/src/opt_peephole.rs:98-112 | in place: exactly the branches to the next block become unreachable |
| `Peephole.IdentityExactly` | crates/jdruby-mir/src/opt_peephole.rs:115-145 | x + 0, x - 0, x * 1 and x / 1 are x if and only if x is an integer or nil |
| `Peephole.IdentitiesImprove` | crates/jdruby-mir/src/opt_peephole.rs:115-145 | simplifying them keeps every run of a strict function in which the left operand is an integer or nil |
| `Peephole.SimplifyIdentityOps` | crates/jdruby-mir/src/opt_peephole.rs:115-145 | the loop in place, with a flag that says whether anything changed |
| `PeepholeLoop.OptimizeFunction` | crates/jdruby-mir/src/opt_peephole.rs:20-30 | the loop terminates on every function, and ends with one that no pass changes, reached by whole sweeps |
| `PeepholeLoop.ShorteningDescends` | crates/jdruby-mir/src/opt_peephole.rs:33-66 | copy shortening raises no component of the measure, and loses a source of copies if it changes anything |
| `PeepholeLoop.ShorteningLosesSource` | crates/jdruby-mir/src/opt_peephole.rs:33-66 | also on copies that form a cycle: no register becomes a source, and the first source that moves is lost |
| `PeepholeLoop.ForwardingDescends` | crates/jdruby-mir/src/opt_peephole.rs:69-95 | load forwarding lowers the number of loads, operations and branches |
| `PeepholeLoop.CuttingDescends` | crates/jdruby-mir/src/opt_peephole.rs:98-112 | so does the cutting of branches |
| `PeepholeLoop.IdentitiesDescend` | crates/jdruby-mir/src/opt_peephole.rs:115-145 | and the simplification of identities |
| `PeepholeLoop.SweepsImprove` | crates/jdruby-mir/src/opt_peephole.rs:20-30 | where no block branches to the next one and loads find what was stored, the whole loop keeps every run of a strict function |
| `FallThrough.RunUpToCut` | crates/jdruby-mir/src/opt_peephole.rs:98-112 | after the cutting of branches a run goes on as before up to the first cut, and there returns nil |
| `FallThrough.CuttingKeepsRunExactly` | crates/jdruby-mir/src/opt_peephole.rs:98-112 | so a run is kept if and only if it comes to no cut, or was to return nil there without another call or store |
| `FallThrough.HarmlessCutsKeepEnds` | crates/jdruby-mir/src/opt_peephole.rs:98-112 | the pass keeps what every run comes to, if from every reachable cut the code ends with nil and does nothing before |
| `FallThrough.SweepsKeepEnds` | crates/jdruby-mir/src/opt_peephole.rs:20-30 | so does the whole loop on a strict function in which loads find what was stored |
| `LoweredJumps.LoweredHasCut` | crates/jdruby-mir/src/lower.rs:352-405 | in lowered code there is a branch that is cut as soon as the tree contains a conditional or a loop |
| `Limits.ReuseNeedsDominance` | crates/jdruby-mir/src/optimize.rs:158-175 | a strict function on which common-subexpression elimination changes a run: one arm of a conditional reuses the result of the other |
| `Limits.FusionNeedsLocalOperands` | crates/jdruby-mir/src/opt_fusion.rs:40-73 | a strict function that integer fusion makes return 2 instead of 6, by the placeholder 0 |
| `Limits.FoldingStopsWithoutFault` | crates/jdruby-mir/src/optimize.rs:24-36 | a strict function on which folding stops, though every run returns: the division is in a block that is removed only later |
| `Limits.LostValueIsPropagated` | crates/jdruby-mir/src/optimize.rs:133-154 | constant propagation makes if c then 1 else 2 return 1 where c is false; before, the lowered code returned nil |
| `Limits.ForwardingIgnoresSends` | crates/jdruby-mir/src/opt_peephole.rs:69-95 | a strict function on which a constant is forwarded across a send that changes it |
| `Limits.DeadStoresNeedSelf` | crates/jdruby-mir/src/optimize.rs:190-213 | a strict function on which the removal of a store to self changes a call |
| `Limits.DeadCodeDropsBlockCalls` | crates/jdruby-mir/src/optimize.rs:216-269 | a strict function on which dead-code elimination drops a call with a block: it does not count the selector as used |
| `Limits.CuttingNeedsNothingToCut` | crates/jdruby-mir/src/opt_peephole.rs:98-112 | a strict function that returns 1, and nil after the cutting of its branch |
| `Limits.NestedBlocksShareTheirName` | crates/jdruby-mir/src/lower.rs:1304-1307 | two blocks of one function with the same name and different code, of which only the outer one can be found |
| `Limits.StoredIsReadBackExactly` | crates/jdruby-jit/src/interpreter.rs:253-281 | a name reads back what was stored under it if and only if it is no instance variable, or self is an object, or the value is nil |
| `Limits.ForwardingNeedsVariables` | crates/jdruby-mir/src/opt_peephole.rs:69-95 | a strict function on which forwarding of an instance variable changes the result |
| `Limits.ConditionalLosesItsValue` | crates/jdruby-mir/src/lower.rs:352-381 | the tree for a conditional evaluates to 2 where its lowered code returns nil |
| `LowerCorrect.LoweringIsCorrect` | crates/jdruby-mir/src/lower.rs:84-137 | for bodies that nowhere use the value of a conditional as an operand, the lowered function makes the same calls and ends the same way with the same gas; it returns what the tree returns if and only if that is no value of an arm lost at a merge, or is nil |
| `LowerCorrect.LoweredRuns` | crates/jdruby-mir/src/lower.rs:84-137 | it returns the value of the tree, or nil where that is the value of a conditional with a false condition |
| `LowerCorrect.NodeRuns` | crates/jdruby-mir/src/lower.rs:139-500 | the code of a tree leaves the value of the tree in its register, or nil where it is lost, and keeps every other register |
| `LowerCorrect.IfRuns` | crates/jdruby-mir/src/lower.rs:352-381 | the same for conditionals, through both arms and the merge block, where only the register of the first arm is read |
| `LowerCorrect.FirstArmRuns` | crates/jdruby-mir/src/lower.rs:352-381 | with a true condition, the value of the arm is the value of the conditional |
| `LowerCorrect.SecondArmRuns` | crates/jdruby-mir/src/lower.rs:352-381 | with a false one the register of the first arm was never set |
| `LowerCorrect.BlockCallRuns` | crates/jdruby-mir/src/lower.rs:240-345 | the same for a call with a block: after the arguments the block, then self and the selector, then the send |
| `LowerCorrect.LoopRuns` | crates/jdruby-mir/src/lower.rs:382-405 | the same for loops, by induction on the gas |
| `LowerMeaning.StmtIsWellValued` | crates/jdruby-mir/src/lower.rs:352-411 | control flow in statement position only is a special case of what lowering is correct for |
| `Hir.ShortCircuitExactly` | crates/jdruby-mir/src/lower.rs:1286-1287 | evaluating both operands of and and or makes no difference if and only if the right one is needed or has no effect, and the two are not both strings |
| `Hir.ConnectivesExactly` | crates/jdruby-jit/src/interpreter.rs:817-849 | the interpreter gives the operand that settles the value, or else the other, if and only if they are not both strings |
| `Hir.StillHasNoEffect` | crates/jdruby-mir/src/lower.rs:1286-1287 | constants, names and connectives and comparisons of these have no effect |
| `LowerLabels.LoweredIsClosedGraph` | crates/jdruby-mir/src/lower.rs:1241-1269 | of every tree: the labels are distinct, and every branch target names a block, also where functions of blocks are lowered in between |
| `LowerLabels.BlocksAreClosedGraphs` | crates/jdruby-mir/src/lower.rs:1297-1360 | the same of the functions of all blocks in it, however deeply nested |
| `LowerLabels.LabelInjective` | crates/jdruby-mir/src/lower.rs:1241-1245 | labels made from different prefixes or numbers differ |
| `LowerRegs.LoweredDefinesOnce` | crates/jdruby-mir/src/lower.rs:1235-1239 | of every tree: each register has at most one definition, and parameters have none |
| `LowerRegs.BlocksDefineOnce` | crates/jdruby-mir/src/lower.rs:1297-1360 | the same of the functions of all blocks in it, however deeply nested |
| `Lower.BlocksAreLowered` | crates/jdruby-mir/src/lower.rs:1297-1360 | each of these functions is the lowering of a body, started with fresh counters |
| `Lower.NodeApart` | crates/jdruby-mir/src/lower.rs:1298-1303 | lowering a tree does not depend on the functions collected before it |
| `LowerRegs.NodeDefines` | crates/jdruby-mir/src/lower.rs:139-500 | the code of a tree defines only registers between the counter before and after it, each once |
| `LoweredCode.LoweredIsBlockLocal` | crates/jdruby-mir/src/lower.rs:84-137 | operands are defined earlier in the same block, returns of conditionals aside |
| `LoweredCode.BlockLocalIsStrict` | crates/jdruby-mir/src/lower.rs:84-137 | such code is in strict form |
| `LoweredCode.BlockLocalIsOptimizable` | crates/jdruby-mir/src/lower.rs:84-137 | and its repeated operations are dominated |
| `Lower.HirLowering.LowerTree` | crates/jdruby-mir/src/lower.rs:139-500 | lowering in place, field by field, computes the code of a tree, without receivers and yield |
| `Lower.HirLowering.LowerIf` | crates/jdruby-mir/src/lower.rs:352-381 | in place for conditionals |
| `Lower.HirLowering.LowerLoop` | crates/jdruby-mir/src/lower.rs:382-405 | in place for loops |
| `Lower.HirLowering.LowerFunc` | crates/jdruby-mir/src/lower.rs:84-137 | in place for functions |
| `Lower.HirLowering.LowerBlockFunction` | crates/jdruby-mir/src/lower.rs:1297-1360 | a block is lowered as a function of its captures and parameters; the state of the enclosing lowering is put back, and the functions of nested blocks are kept |
| `Lower.HirLowering.LowerCallWithBlock` | crates/jdruby-mir/src/lower.rs:240-345 | in place for calls with a block |
| `BlockSends.BlockIsPassed` | crates/jdruby-mir/src/lower.rs:309-346 | of every call with a block, wherever it stands: the last instruction of its code is a send with a block operand, and when a run comes to it that register holds the block named after the call with the values of the captured names, or the method of its symbol, and the others self, the name and the arguments |
| `Lower.HirLowering.LowerBlockArgument` | crates/jdruby-mir/src/lower.rs:266-309 | in place for the block itself: a symbol becomes a proc, a body a function of its own and a block value |
| `Lower.HirLowering.KeepCaptures` | crates/jdruby-mir/src/lower.rs:291-309 | the loop that loads the captured names, and the block with their registers |
| `Interpreter.MirInterpreter.CallFunction` | crates/jdruby-jit/src/interpreter.rs:159-219 | the loop computes the run, and on return registers and variables of the caller are as before |
| `Interpreter.MirInterpreter.ExecInstruction` | crates/jdruby-jit/src/interpreter.rs:221-290 | each arm changes the state as the meaning of the instruction says |
| `Operators.SumsWrap` | crates/jdruby-jit/src/interpreter.rs:799-801 | sums, differences and products are congruent to the true ones modulo 2^64 |
| `Operators.DivisionTruncates` | crates/jdruby-jit/src/interpreter.rs:802-803 | a is q times b plus r, r is smaller than b in size and has the sign of a; division by zero gives 0, and the one quotient that does not fit stops every build |
| `Operators.PowersWrap` | crates/jdruby-jit/src/interpreter.rs:804 | powers are congruent to the true ones, for the exponent modulo 2^32 |
| `Operators.ComparisonsCompare` | crates/jdruby-jit/src/interpreter.rs:805-811 | each comparison is the comparison of integers, and the spaceship the sign of the difference |
| `Operators.BitsCombine` | crates/jdruby-jit/src/interpreter.rs:812-814 | and, or and exclusive or act bit by bit in two's complement |
| `Operators.ShiftsScale` | crates/jdruby-jit/src/interpreter.rs:815-816 | shifts by the amount modulo 64 multiply, or divide rounding down, by a power of two |
| `Operators.OtherValues` | crates/jdruby-jit/src/interpreter.rs:834-851 | operands that are no two integers: strings are joined and compared, others never equal |
| `Operators.UnaryOperators` | crates/jdruby-jit/src/interpreter.rs:244-251 | negation, not and complement of every value |
| `Operators.TruthOfValues` | crates/jdruby-jit/src/interpreter.rs:42-44 | only false and nil are not true |
| `Operators.FaultsExactly` | crates/jdruby-jit/src/interpreter.rs:796-823 | a build with checks stops exactly where the true result does not fit or a shift amount is out of range, every build where a quotient does not fit |
| `Ints.PowerAdds` | crates/jdruby-jit/src/interpreter.rs:804 | the laws of powers |
| `Ints.BitsDetermine` | crates/jdruby-jit/src/interpreter.rs:812-814 | a number of 64 bits is determined by its bits |
| `Instructions.NamesAreShared` | crates/jdruby-jit/src/interpreter.rs:264-289 | what begins with a capital is set for every function, an instance variable for every function on the same object and no other, anything else for the running function |
| `Instructions.NamesAreApart` | crates/jdruby-jit/src/interpreter.rs:264-289 | setting one name changes no other, unless it is self and the other belongs to self |
| `Instructions.InstructionFrame` | crates/jdruby-jit/src/interpreter.rs:221-328 | an instruction sets its own register and no other, and every call is recorded once |
| `Instructions.ValuesInRegisters` | crates/jdruby-jit/src/interpreter.rs:221-328 | what each instruction leaves in its register |
| `Instructions.CallsAsk` | crates/jdruby-jit/src/interpreter.rs:253-263 | what calls, method calls and sends ask, with which arguments, and that the answer ends up in the register |
| `Instructions.CallsSeeSelf` | crates/jdruby-jit/src/interpreter.rs:854-907 | self takes part in a call if and only if the interpreter does not answer the name itself |
| `Instructions.EntryOfFunction` | crates/jdruby-jit/src/interpreter.rs:159-180 | a function starts with its arguments in the registers of its parameters, nil for missing ones, and no variables |
| `Interpreter.MirInterpreter.LoadModule` | crates/jdruby-jit/src/interpreter.rs:143-147 | the table maps each name to the last function with that name |
| `Interpreter.EveryFunctionFoundExactly` | crates/jdruby-jit/src/interpreter.rs:143-147 | every function of a module can be called if and only if no name stands for two different functions |
| `Interpreter.MirInterpreter.InvokeBlock` | crates/jdruby-jit/src/interpreter.rs:755-771 | captured values come before the arguments; what is no block, or names no function, gives nil |
| `Closures.ClosureConversion` | crates/jdruby-mir/src/lower.rs:1297-1360 | in a module whose names agree: run the code that loads the captures and creates the block in one state, and invoke the block in another; the body is evaluated with the captured names as they were and the parameters bound to the arguments, and the caller goes on with its own registers and variables |
| `Closures.BlockSees` | crates/jdruby-mir/src/lower.rs:1311-1341 | a name means in the block its last parameter, else its last capture, else nil; a missing argument is nil |
| `Closures.CapturedMeansTheSame` | crates/jdruby-mir/src/lower.rs:277-309 | a captured name that no parameter shadows means in the block what it meant at the creation |
| `Closures.SelfIsCaptured` | crates/jdruby-mir/src/lower.rs:254-300 | a block that mentions self means by it what self was at the creation |
| `Closures.LoadsCapture` | crates/jdruby-mir/src/lower.rs:291-299 | the loads emitted at the creation leave in the registers what the names stand for |
| `Closures.CreationCaptures` | crates/jdruby-mir/src/lower.rs:291-309 | the code at the creation runs to a block with the values the captured names have there |
| `Closures.BlockNameInjective` | crates/jdruby-mir/src/lower.rs:278 | two blocks have the same name if and only if they are passed to methods of the same name at the same count of registers |
| `HirOptimize.OptimizingKeepsMeaning` | crates/jdruby-hir/src/optimize.rs:14-119 | the optimized body of a function returns the same value after the same calls, or stops the same way, and ends exactly if the original does |
| `HirOptimize.Simulates` | crates/jdruby-hir/src/optimize.rs:14-51 | the optimized tree comes to the same end with no more gas, where the value is wanted or only its truth |
| `HirOptimize.Enough` | crates/jdruby-hir/src/optimize.rs:14-51 | if the optimized tree ends, the tree ends with enough gas |
| `HirOptimize.MoreGas` | crates/jdruby-hir/src/optimize.rs:14-51 | an evaluation that does not run out of gas does the same with more |
| `HirOptimize.OptimizingIsIdempotent` | crates/jdruby-hir/src/optimize.rs:14-119 | a second run changes nothing, whatever the tree |
| `HirOptimize.UnchangedExactly` | crates/jdruby-hir/src/optimize.rs:14-119 | the trees that a run leaves alone are exactly those with nothing left to do |
| `HirOptimize.OptimizedIsClean` | crates/jdruby-hir/src/optimize.rs:14-120 | in what a run returns no foldable operation on literals, no negation of a negation and no conditional on a literal is left, and it leaves alone exactly the trees without these |
| `HirOptimize.NoDoubleNegationFits` | crates/jdruby-hir/src/optimize.rs:61-71 | trees with no negation directly under a negation are among those whose meaning is preserved |
| `HirOptimize.DoubleNegationExactly` | crates/jdruby-hir/src/optimize.rs:61-71 | dropping two negations keeps the value if and only if it is a boolean, and its truth always |
| `HirOptimize.FoldBinaryAgrees` | crates/jdruby-hir/src/optimize.rs:74-100 | a folded operation does not fault and gives the constant; one that stops the compiler faults |
| `HirOptimize.NegationsCollapse` | crates/jdruby-hir/src/optimize.rs:61-71 | of a chain of negations an even number goes |
| `HirOptimize.HirModule.Optimize` | crates/jdruby-hir/src/optimize.rs:8-12 | the tree optimizer in place, which stops exactly if some fold would |
| `HirOptimize.OptimizeTree` | crates/jdruby-hir/src/optimize.rs:14-51 | the recursion over a tree, children first |
| `HirOptimize.OptimizeTrees` | crates/jdruby-hir/src/optimize.rs:25-33 | the loop over the trees of a body |
| `HeaderRace.LosersGetTheWinner` | crates/jdgc/src/header.rs:156-183 | whatever the schedule, whoever lost was given the address that the one winner installed, and the header forwards there |
| `HeaderRace.ForwardingIsFinal` | crates/jdgc/src/header.rs:156-183 | once moved, the forwarding field never changes again, nor a shaded colour, nor a finished result |
| `HeaderRace.ShadeIsNeverLost` | crates/jdgc/src/header.rs:91-98 | a shade that reports success stays, at most one does, and installations keep the colour |
| `HeaderRace.FailedShade` | crates/jdgc/src/header.rs:91-98 | a shade that reports failure found the object shaded, or the object was moved between its load and its swap |
| `HeaderRace.ShadersShade` | crates/jdgc/src/header.rs:91-98 | without installations the object is shaded as soon as one shade is done, whatever it reported |
| `HeaderRace.ShadeOvertaken` | crates/jdgc/src/header.rs:91-98 | a schedule of one shade and one installation after which the object is still white |
| `HeaderRace.EveryRaceEnds` | crates/jdgc/src/header.rs:169-182 | n threads are all done after at most 5n + 2 actions, whatever the schedule |
| `HeaderRace.RunKeepsInv` | crates/jdgc/src/header.rs:91-183 | every schedule keeps the invariant: one winner, one shader, and every thread right about the word |
| `Header.PaintedFields` | crates/jdgc/src/header.rs:62-116 | changing the colour changes neither forwarding address nor pin |
| `Header.ForwardedFields` | crates/jdgc/src/header.rs:172 | an installation keeps the colour and drops the pin |
| `Header.FieldsDetermineWord` | crates/jdgc/src/header.rs:22-33 | colour, pin and address make up the word |
| `Header.ObjectHeader.TryInstallForwarding` | crates/jdgc/src/header.rs:156-183 | alone at the header, the installation succeeds exactly if the object has not moved |
| `Header.ObjectHeader.TryShadeGray` | crates/jdgc/src/header.rs:91-98 | alone at the header, the shade succeeds exactly on a white object |
| `Regions.ObjectsTile` | crates/jdgc/src/region.rs:131-143 | objects are 8-aligned and lie one behind the other without gap or overlap |
| `Regions.ObjectsAscend` | crates/jdgc/src/region.rs:131-143 | no two of them overlap |
| `Regions.SizesAddUp` | crates/jdgc/src/region.rs:83-85 | their sizes add up to the used bytes |
| `Regions.FootprintIsLeast` | crates/jdgc/src/region.rs:49-56 | an object takes the least multiple of eight bytes that holds sixteen for the header and the payload |
| `Regions.RegionManager.AllocateObject` | crates/jdgc/src/region.rs:49-69 | succeeds exactly if there is room, appends one object to the tiling, and changes nothing if it fails |
| `Regions.RegionManager.IterObjects` | crates/jdgc/src/region.rs:131-143 | the walk by size visits exactly the live objects, once each, in allocation order |
| `Regions.RegionManager.Reset` | crates/jdgc/src/region.rs:123-128 | empties one region and leaves the others |
| `Regions.RegionManager.Allocate` | crates/jdgc/src/region.rs:219-237 | fails exactly if no region has room for the aligned header and payload, and otherwise the current region gets one object if it has room, or else the first that has, which becomes the current one |
| `Regions.RegionManager.Expand` | crates/jdgc/src/region.rs:267-276 | adds empty regions and keeps everything else |
| `Regions.RegionManager.UsedBytes` | crates/jdgc/src/region.rs:245-249 | the sum over the regions, equal to the sizes of the live objects and at most the size of the heap |
| `Regions.RegionManager.ResetAll` | crates/jdgc/src/region.rs:317-322 | empties all regions |
| `Regions.RegionManager.SweepUnmarked` | crates/jdgc/src/region.rs:286-299 | one pass over all regions that performs the sweep |
| `Regions.SweepExactly` | crates/jdgc/src/region.rs:286-299 | the sweep frees the white objects in order and once each, leaves all white, and touches nothing but colours |
| `Regions.RegionManager.LiveAreDistinct` | crates/jdgc/src/region.rs:286-299 | no object is met twice in a pass over the heap |
| `Marking.CycleFreesExactly` | crates/jdgc/src/marker.rs:100-131 | from a white heap, with marking steps and writes in any order between seed and drain, the sweep frees exactly the objects that are neither roots nor caught by the barrier, and restores the heap |
| `Marking.KeptExactly` | crates/jdgc/src/barrier.rs:49-64 | in colours: an object is kept if and only if it is a root, or some step wrote it into an object that was black by then |
| `Marking.BarrierLeavesNoBlackToWhite` | crates/jdgc/src/barrier.rs:49-64 | whatever the colours, after the barrier a black object does not refer to a white one; the barrier shades and queues the target, and nothing else, exactly where it would |
| `Marking.MarkNextBlackens` | crates/jdgc/src/marker.rs:111-131 | a marking step takes the oldest entry and leaves no gray object there |
| `Marking.StepsDrain` | crates/jdgc/src/marker.rs:127-131 | as many marking steps as there are entries finish the marking |
| `Marking.StepsKeepInv` | crates/jdgc/src/barrier.rs:49-64 | marking and barrier steps in any order keep the invariant |
| `Marking.GrayExactlyQueued` | crates/jdgc/src/marker.rs:100-131 | between steps an object is gray exactly if it is in the queue, and it is there once |
| `Marking.Marker.Cycle` | crates/jdgc/src/marker.rs:100-138 | the whole cycle in place, over the regions of the heap |
| `Marking.Marker.SeedFromRoots` | crates/jdgc/src/marker.rs:100-108 | shades and queues the white roots |
| `Marking.Marker.ProcessQueue` | crates/jdgc/src/marker.rs:127-131 | marks until the queue is empty |
| `Marking.Marker.MarkObject` | crates/jdgc/src/marker.rs:111-124 | blackens a gray object and leaves any other |
| `Marking.Marker.WriteBarrier` | crates/jdgc/src/barrier.rs:49-64 | shades the target exactly if the source is black and the target white; afterwards a black source has no white target |
| `Marking.Marker.Pop` | crates/jdgc/src/marker.rs:33-39 | takes the oldest entry |
| `Classes.LinearizationIsReachable` | crates/jdruby-runtime/src/class.rs:198-223 | the search visits every reachable class exactly once, and nothing else, on any graph |
| `Classes.NothingFoundExactly` | crates/jdruby-runtime/src/class.rs:198-223 | nothing is found if and only if no reachable class defines the name |
| `ClassOrder.MethodOrder` | crates/jdruby-runtime/src/class.rs:198-223 | on the lists of the class, in every graph: the last prepended module that finds the name answers, else the class, else the first included module that finds it, else the superclass, each searched on its own; the shared visited set makes no difference |
| `ClassOrder.ConstantOrder` | crates/jdruby-runtime/src/class.rs:227-244 | the class answers, else the last included module that finds the name, else the superclass |
| `ClassOrder.OwnMethodWins` | crates/jdruby-runtime/src/class.rs:198-223 | a method of the class itself is found if no prepended module leads to another definer |
| `ClassOrder.MethodsAreInherited` | crates/jdruby-runtime/src/class.rs:217-221 | a class without modules answers with its own method, or else as its superclass does |
| `ClassOrder.SpentIsSkipped` | crates/jdruby-runtime/src/class.rs:199-200 | leaving out what was visited in vain finds what a search without that finds |
| `ClassOrder.EdgesAreReferences` | crates/jdruby-runtime/src/class.rs:203-221 | a search leads from a class to its prepended and included modules and its superclass, for constants not to prepended ones |
| `Classes.ClassHierarchy.LookupRecursive` | crates/jdruby-runtime/src/class.rs:198-244 | the search with its visited set finds the first definer in the one linearization, and terminates on cyclic graphs |
| `Classes.ClassHierarchy.LookupMethod` | crates/jdruby-runtime/src/class.rs:193-196 | computes the lookup whose order ClassOrder.MethodOrder says |
| `Classes.ClassHierarchy.LookupConst` | crates/jdruby-runtime/src/class.rs:226-244 | computes the lookup whose order ClassOrder.ConstantOrder says |
| `Classes.ClassHierarchy.IsSubclass` | crates/jdruby-runtime/src/class.rs:250-257 | gives no answer exactly where the walk of the source never ends, and otherwise whether the ancestor is on the chain of superclasses |
| `Classes.OrderedWalkEnds` | crates/jdruby-runtime/src/class.rs:181-187 | the walk ends if superclasses are defined before their subclasses |
| `Classes.WalkEndsExactly` | crates/jdruby-runtime/src/class.rs:250-257 | the walk ends if and only if it ends within as many steps as there are classes, and if and only if it comes to no cycle before the ancestor |
| `Classes.CycleNeverEnds` | crates/jdruby-runtime/src/class.rs:250-257 | no walk along a cycle of superclasses, of whatever length, comes to an end of the chain |
| `Classes.ClassHierarchy.DefineClass` | crates/jdruby-runtime/src/class.rs:181-187 | a fresh identifier, and superclasses stay older than subclasses |
| `Classes.DefineCycle` | crates/jdruby-runtime/src/class.rs:181-187 | two definitions build a cycle, on which the walk never ends |
| `Classes.ClassHierarchy.IncludeModule` | crates/jdruby-runtime/src/class.rs:148-152 | the module is in the list once, the others stay where they were, and the list stays free of duplicates |
| `Classes.ClassHierarchy.PrependModule` | crates/jdruby-runtime/src/class.rs:153-157 | the same for prepended modules |
| `Parser.ParsesExactly` | crates/jdruby-parser/src/parser.rs:243-498 | up to a token that continues no expression, the parser returns a tree if and only if the tokens are a legal writing of it |
| `Parser.PrintParse` | crates/jdruby-parser/src/parser.rs:243-498 | printing with only the parentheses the levels demand, and parsing, gives the tree back and consumes exactly what was printed |
| `Syntax.WriteIsShortest` | crates/jdruby-parser/src/parser.rs:243-498 | no legal writing of a tree is shorter than the printed one: the parentheses demanded are the only ones needed |
| `Parser.SameTokensSameTree` | crates/jdruby-parser/src/parser.rs:243-498 | the grammar is unambiguous |
| `Precedence.TwoOperators` | crates/jdruby-parser/src/parser.rs:265-467 | for any operands and any two binary operators, rung by rung and token by token: the tighter one takes the middle operand, of equal ones the first, of two powers the second; after one range there is no other |
| `Precedence.NegationInFront` | crates/jdruby-parser/src/parser.rs:295-306 | a negation takes a whole comparison, and neither a conjunction nor a disjunction |
| `Precedence.NegationOnTheRight` | crates/jdruby-parser/src/parser.rs:265-334 | on the right of an operator a negation is read after and and or, and is an error anywhere else |
| `Precedence.SignInFront` | crates/jdruby-parser/src/parser.rs:454-498 | a sign takes its operand alone on either side of every operator, powers included |
| `Precedence.TernaryLast` | crates/jdruby-parser/src/parser.rs:247-263 | the condition takes every binary operation to its left, and each arm is a whole expression |
| `Precedence.ParenthesesParse` | crates/jdruby-parser/src/parser.rs:639-644 | parentheses leave no trace |
| `Precedence.LeavesParse` | crates/jdruby-parser/src/parser.rs:582-590 | integers and instance variables are read as themselves |
| `Parser.ReadsInto` | crates/jdruby-parser/src/parser.rs:265-452 | left-associative levels read the longest operation to their left |
| `Parser.Recognizes` | crates/jdruby-parser/src/parser.rs:243-498 | whatever a level accepts is a legal writing of the tree it returns |
| `Syntax.WriteIsLegal` | crates/jdruby-parser/src/parser.rs:243-498 | the printer writes every tree legally |
| `Parser.TokenParser.ParseLevel` | crates/jdruby-parser/src/parser.rs:265-498 | each level in place computes the specification, and reports one diagnostic exactly if it fails |
| `Parser.TokenParser.ParseOperators` | crates/jdruby-parser/src/parser.rs:265-452 | the loops that rebuild the left operand |
| `Parser.TokenParser.ParseRangeOrPower` | crates/jdruby-parser/src/parser.rs:335-467 | at most one range; a power takes the rest of its own level |
| `Parser.TokenParser.ParseTernaryExpr` | crates/jdruby-parser/src/parser.rs:247-263 | both arms of a ternary are whole expressions |
| `Parser.TokenParser.ParseParenthesized` | crates/jdruby-parser/src/parser.rs:639-644 | a whole expression between parentheses |
| `Lexer.TokensTile` | crates/jdruby-lexer/src/lexer.rs:33-306 | tokens are non-empty slices in order with only blanks between them, and exactly one end-of-file token closes the list at the end of the source |
| `Lexer.TokensSpellSource` | crates/jdruby-lexer/src/lexer.rs:33-355 | tokens and the text between them spell the source |
| `Lexer.LongestOperator` | crates/jdruby-lexer/src/lexer.rs:97-295 | the nested tests take an operator, and no longer one begins there |
| `Lexemes.WrittenIsRead` | crates/jdruby-lexer/src/lexer.rs:33-305 | a source of texts with blanks between them, each spelling a token of some kind, has exactly these tokens: names, variables, numbers, strings, symbols and operators are read back as what they are |
| `Lexemes.QuotedRead` | crates/jdruby-lexer/src/lexer.rs:362-442 | a string ends at the first quote that belongs neither to an escape nor to an interpolation, however deep its braces |
| `Lexemes.UnclosedIsError` | crates/jdruby-lexer/src/lexer.rs:402-417 | a string without such a quote is an error up to the end of the source |
| `Lexemes.FloatsRead` | crates/jdruby-lexer/src/lexer.rs:462-489 | digits with a fraction, an exponent or both are one number, which is a float |
| `Lexemes.IntegersRead` | crates/jdruby-lexer/src/lexer.rs:449-523 | digits, also in base 16, 2 and 8 after their prefix, are an integer |
| `Lexemes.BlockCommentsRead` | crates/jdruby-lexer/src/lexer.rs:647-681 | a block comment goes from =begin at the start of a line to the end of the first line that begins with =end |
| `Lexemes.CommentsRead` | crates/jdruby-lexer/src/lexer.rs:639-645 | a comment ends before the next newline |
| `Lexemes.OperatorsListed` | crates/jdruby-lexer/src/lexer.rs:97-295 | the operators, one by one |
| `Lexemes.KeywordsRead` | crates/jdruby-lexer/src/token.rs:249-306 | the keywords, by what they are for, are read as keywords |
| `Lexemes.LettersListed` | crates/jdruby-lexer/src/lexer.rs:77-93 | the classes of letters and digits, character by character |
| `Lexer.NamesAreMaximal` | crates/jdruby-lexer/src/lexer.rs:531-559 | an identifier ends where no identifier character follows |
| `Lexer.Scan` | crates/jdruby-lexer/src/lexer.rs:57-305 | every token makes progress and stays inside the source |
| `Lexer.SourceLexer.ReadAll` | crates/jdruby-lexer/src/lexer.rs:33-44 | the loop terminates with the token list, and the diagnostics are the spans of the errors and of the block comments that are not closed, in order |
| `Lexer.SourceLexer.ScanToken` | crates/jdruby-lexer/src/lexer.rs:57-305 | the dispatch on the first character, with one diagnostic exactly for a faulty token |
| `Lexer.SourceLexer.LexQuoted` | crates/jdruby-lexer/src/lexer.rs:362-442 | strings with escapes and interpolations end at the closing quote, with one diagnostic if there is none |
| `Lexer.SourceLexer.LexNumber` | crates/jdruby-lexer/src/lexer.rs:449-523 | the forms of numbers |
| `Lexer.SourceLexer.LexBlockComment` | crates/jdruby-lexer/src/lexer.rs:647-681 | a block comment ends with the line that begins with =end |
| `Lexer.SourceLexer.LexOperator` | crates/jdruby-lexer/src/lexer.rs:97-295 | the operators in place |
| `Scheduler.NothingIsLost` | crates/jdruby-runtime/src/thread.rs:470-629 | whatever the order of steps, also between reading the current thread and setting its state: a runnable thread is queued, about to be queued or about to run, and a sleeping thread has its alarm set or about to be set |
| `Scheduler.NobodyOversleeps` | crates/jdruby-runtime/src/thread.rs:588-599 | whatever other threads do between the turns of the loop that holds the sleep queue: after it no thread sleeps past its deadline, except one whose alarm is yet to be set |
| `Scheduler.DueThreadsAwake` | crates/jdruby-runtime/src/thread.rs:588-599 | and every thread that was due is woken by one of the turns, and on its way to the run queue |
| `Scheduler.InsertKeepsOrder` | crates/jdruby-runtime/src/thread.rs:250-255 | the order of the sleep queue: earliest deadline first, then the smaller thread |
| `Scheduler.LifeOfThread` | crates/jdruby-runtime/src/thread.rs:470-629 | which steps change the state of a thread and to what, for every step and thread |
| `Scheduler.SpawnedIsNew` | crates/jdruby-runtime/src/thread.rs:470-492 | a spawned thread is new and runnable, and no other changes |
| `Scheduler.QueueIsFair` | crates/jdruby-runtime/src/thread.rs:610-624 | the run queue is first in, first out |
| `Scheduler.AlarmsInOrder` | crates/jdruby-runtime/src/thread.rs:250-255 | earlier deadlines come first, and of equal ones the smaller thread |
| `Scheduler.GreenScheduler.ExpireSleepers` | crates/jdruby-runtime/src/thread.rs:588-599 | the loop in place |
| `Scheduler.GreenScheduler.RunBatch` | crates/jdruby-runtime/src/thread.rs:610-624 | up to ten threads leave the run queue, and the runnable ones among them run |
| `Scheduler.GreenScheduler.SpawnThread` | crates/jdruby-runtime/src/thread.rs:470-492 | a new thread is runnable and queued |
| `Scheduler.GreenScheduler.UnparkThread` | crates/jdruby-runtime/src/thread.rs:516-523 | a blocked or sleeping thread is made runnable; in any case it is queued |
| `Scheduler.GreenScheduler.ParkCurrent` | crates/jdruby-runtime/src/thread.rs:505-513 | the current thread is blocked, with its reason |
| `Scheduler.GreenScheduler.SleepCurrent` | crates/jdruby-runtime/src/thread.rs:545-560 | the current thread sleeps, with its alarm set |

## Left out

- Pipeline.CompilerIsCorrect: speaks of bodies with control flow in statement position and without blocks; of blocks the optimizer loses the selectors.
- Pipeline.FinalCodeIsCorrect: the condition on cuts is sufficient for all runs and not necessary; FallThrough.CuttingKeepsRunExactly has the exact condition for one run, SourceConditions trees that meet it.
- Pipeline.FinalCodeKeepsCalls: the same, and no parameter may be named like an instance variable where the setting of these is watched.
- SourceConditions.TailsAreCorrect: conditionals are at the end and depend on a name or the result of a call; of others the optimizer may decide the branch, and the loop cut what follows.
- Optimizer.OptimizingIsSound: asks that the rounds stay in form and that self is kept, and speaks of runs in which no two equal booleans are compared; Limits and Folding.BooleanEqualityDisagrees show what happens otherwise.
- Fusion.IntegerFusionImproves: the condition on placeholders is sufficient and not necessary, since a result may happen to be 0.
- DeletingPasses.DeadStoresAreSound: the condition on self is sufficient and not necessary, since what consults it may not care.
- Peephole.ForwardingImproves: the condition on loads is sufficient and not necessary, since a send may leave a name as it was; Limits.StoredIsReadBackExactly has the exact condition for one store and one load.
- HirOptimize.OptimizingKeepsMeaning: even chains of negations must stand before comparisons or boolean literals where their value is wanted, by HirOptimize.DoubleNegationExactly; the trees of block bodies are not visited, as in the code.
- Lower.HirLowering.LowerTree: calls have no receiver; yield, define_method and splat are missing, and a call with an empty block has none, the implicit block of a method being left out.
- Interpreter.MirInterpreter.ExecInstruction: what a call, a method call or a send finds is left to the world, which answers with everything in view.
- Floating-point constants and operations, arrays, hashes, ranges as values.
- And and Or are evaluated without short-circuiting, as lowering does; Hir.ShortCircuitExactly says when that makes a difference.
- A symbol argument that repeats the symbol of an explicit block, which lowering passes as the block.
- Break, Next and exceptions, class and module definitions in lowering, metaprogramming instructions and inline caches.
- The output of puts, print and p, which is part of the answer of the world to a call.
- A callee that does not return; every call is answered.
- Fusion of calls with known types, which does nothing.
- Module-level lowering, which only collects functions.
- Header operations pin, unpin, shade_black and reset_white under concurrency, and weak memory: a single word has one order of changes.
- Regions: the header in the heap is modelled by its fields, the packed word in Header; concurrent allocation with its add-then-subtract rollback, payload sizes whose sum with the header exceeds the machine word, garbage ratios and evacuation.
- Expanding the heap takes the addresses of the new regions from the system, aligned and apart from the others.
- Tracing of children in marking, which the code leaves open, worker threads, roots and thread-local buffers.
- Visibility, singleton tables and symbol interning in the class hierarchy; the built-in classes, which are defined like others.
- Parser: statements, calls, indexing, literals other than integers and instance variables, spans, and error recovery; the shared loop for left-associative levels stands for one method per level.
- Lexer: sources are sequences of ASCII characters; operator and keyword tokens are told apart by their spelling.
- Scheduler: the code that threads run, stacks and contexts, polling for input and output, work stealing, join, shutdown; the binary heap is modelled by a sorted list.
- Code generation, the just-in-time compiler, binaries, foreign functions and diagnostics text.
