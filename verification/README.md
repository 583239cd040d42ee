# A verified model of the reducer, the Pulley formats and three tools

This project models, in Dafny, the parts of the repository with the most state and the most subtle
promises, and proves what they promise for all inputs, all runs and all oracles.

- **`bugpoint`**, the reducer of CLIF test cases. A function is a layout of blocks and instructions with its
  data-flow tables. Eight mutators hold cursors into it and are driven by passes and phases; whether a
  function still crashes is an arbitrary predicate. Modules `Layouts`, `Clif`, `Mutators`, `Reduction` say
  what happens; `Reducer`, `MutatorLoops`, `EntityLoops` are the loops that do it; `Invariants`,
  `MutatorsKeep`, `BlockMutatorsKeep`, `ReductionTheorems`, `Minimality`, `Measure`, `PassSteps` and `Resolving`
  prove what holds of every reduction; `Values`, `ValuesKept`, `ParamEdges`, `ParamPhase`, `Moving`, `MergeWalk` and
  `Entities` say exactly what each mutator does, and `TryCalls` what compaction misses; `ReductionLimits`,
  `Settling`, `BlindOracles`, `MutatorsAlike`, `BlindPasses` and `BlindExamples` say when a reduction is final and
  when not, and `SelfMerging`, `AliasLoops` and `Acyclic` when it fails; `Semantics`, `MergeSemantics`,
  `MergeSimulation`, `MergeExample` and `MergeScopes` prove that merging blocks preserves what a function does and
  where it cannot fail.
- **The Pulley bytecode**: bit packing (`Bits`, `Packing`), operations for any table of opcodes and operand
  types (`PulleyOps`, `PulleyFormat`), decoding from a checked or an unchecked stream (`PulleyDecode`,
  `PulleyStreams`), the inverse theorems (`PulleyCodec`, `PulleyCut`, `PulleyRaw`), the positions in errors
  (`PulleyErrors`), visitors (`PulleyVisitors`), and the disassembler with its variable-length branch tables
  (`PulleyDisas`, `DisasPulley`).
- **Pulley profiles**: the recorder, the file format and its reader (`Recorder`, `Profile`, `ProfileDecode`,
  `Utf8Text`, `ProfileReader`), and the attribution of samples to functions and instructions (`Profiler`,
  `ProfilerAny`, `ProfilerEvents`, `ProfilerReport`).
- **Three tools**: the search for the largest pool (`Mpk`), the shell quoting of the container script
  (`Shell`, `ShellQuoting`, `LinuxCommand`), and the benchmark schedule, run loop, manifest and summary
  (`Schedule`, `Manifest`, `BenchmarkRuns`, `BenchmarkLoop`, `BenchmarkNames`, `BenchmarkSummary`).

Code that changes things step by step is modelled by classes and loops, each proved equal to a function of
its inputs; the theorems are about those functions. Panics, overflows, loops that never end and reads that
are undefined are explicit outcomes. Machine integers are numbers with explicit bounds.

`dafny verify dfyconfig.toml` checks everything.

## Where the code and what it says differ

- The comment that no shrinking opportunity will ever be found after a quiet pass
  (`cranelift/cranelift/src/bugpoint.rs`, lines 893-894) says too much. No single instruction but the last can be
  deleted from the function that the pass started from (`Minimality.ReduceIsOneMinimal`), but that need not hold
  of the one returned (`ReductionLimits.SettledIsNotMinimal`). The comment holds if the pass came back to where it
  started, which it does exactly if everything it tried was refused (`Settling.FixedIff`, `Settling.FixedIsFinal`).
  Where the pass kept traps for terminators and compacted tables, and the compiler's failure depends on neither, an
  instruction can still be deleted exactly if only the verifier had held it back and does so no longer
  (`BlindOracles.DeletionsAfter`; `BlindExamples.ChooserIsReleased` is a case). If the verifier looks at terminators
  only, the comment holds (`BlindPasses.BlindIsFinal`, `BlindExamples.CallerIsFinal`). That coming back is not
  necessary is `ReductionLimits.MinimalThoughChanged`.
- A `RemoveBlock` phase looks as if it visited every block, but stops after the first removal that is kept:
  `ReductionLimits.RemovesFirstBlock`, `ReductionLimits.LeavesRemovableBlock`.
- Merging never checks that the only predecessor is another block. A block that is its own predecessor and
  has more than its branch is moved behind itself for ever (`SelfMerging.RoundsRotate`, `SelfMerging.SpinLoops`);
  `SelfMerging.SelfMergeIff` says exactly when, and `Acyclic.AcyclicKeeps` and
  `MergeScopes.WellScopedNeverBreaks` when it never happens.
- The guard of merging speaks of an unconditional jump but accepts every branch with one destination, and so
  deletes the call of a `try_call` without handlers: `MergeScopes.TryCallIsMergedAway`.
- Parameters passed for one another in a circle make a loop of aliases, at which a debug assertion fails:
  `AliasLoops.AliasLoopIff`, `AliasLoops.SwappingFails`.
- Compaction of entities does not know `try_call`: `TryCalls.TryCallMeaning` says exactly what becomes of one,
  `TryCalls.TryCallChangesItsCallee` shows one that calls another function afterwards.
- A `SequencedVisitor` runs the callbacks of its second visitor before that one's stream is brought up to date:
  `PulleyVisitors.SequencedIff` says exactly when that makes no difference, `PulleyVisitors.SecondVisitorLagsBehind`
  shows a visitor for which it does.
- The positions in decoding errors differ: an invalid opcode is reported at its byte, an invalid extended opcode
  or register after it: `PulleyErrors.ErrorPositions`.
- `shell_quote` prints the empty word as nothing: `ShellQuoting.EmptyWordIsLost`.
- Distinct workload names may name one directory (`BenchmarkRuns.DotCollides`), at which the benchmark stops
  half-way: `BenchmarkNames.FinishesIff`, `BenchmarkNames.WayUpStops`, `BenchmarkNames.FileBlocks`.
- The orderings of six consecutive trials differ only if the six start at a multiple of six:
  `Schedule.SixesElsewhereMayRepeat`.

## Model

| member | source | states |
|---|---|---|
| `Reducer.ReduceFunction` | cranelift/cranelift/src/bugpoint.rs:807-907 | The reduction as nested loops over passes, phases and tries, with every function and flag updated in place, comes to the result of `Reduce`: the oracle decides which mutations stay, at most 100 passes of eight phases of at most 10000 tries, aliases and source locations tried before and after. |
| `Reducer.AllPasses` | cranelift/cranelift/src/bugpoint.rs:817-897 | The pass loop, which stops after the first pass that kept no change of size. |
| `Reducer.AllPhases` | cranelift/cranelift/src/bugpoint.rs:818-878 | The eight phases of one pass in order, each with a mutator made from the current function. |
| `Reducer.TryAll` | cranelift/cranelift/src/bugpoint.rs:836-875 | The loop of one phase: a skipped or refused mutation is thrown away with the cursor moved on, an accepted one replaces the function. |
| `Reducer.MutatorBox.Mutate` | cranelift/cranelift/src/bugpoint.rs:96-103 | A mutator object moves its cursor and edits the function exactly as the specification of its kind says, for all eight kinds. |
| `Reducer.MutatorBox.DidCrash` | cranelift/cranelift/src/bugpoint.rs:731-733 | Only the merger reacts: it goes back to the block it merged into. |
| `MutatorLoops.EmptyAndRemoveBlock` | cranelift/cranelift/src/bugpoint.rs:336-347 | Taking instructions off a block until none is left and then removing it is removing the block. |
| `MutatorLoops.MoveInsts` | cranelift/cranelift/src/bugpoint.rs:709-715 | Moving first instructions over to another block until the block is empty appends them in order and leaves the block empty; with the same block as target the loop does not end, and `SelfMerging` says what it does. |
| `MutatorLoops.SeekParamLoop` | cranelift/cranelift/src/bugpoint.rs:373-376 | The loop over blocks stops at the next one that has a parameter left. |
| `MutatorLoops.DropArgLoop` | cranelift/cranelift/src/bugpoint.rs:394-400 | Every destination that is the block loses the argument. |
| `MutatorLoops.DropArgsLoop` | cranelift/cranelift/src/bugpoint.rs:388-401 | The same over all predecessors, one after the other. |
| `MutatorLoops.AliasParamsLoop` | cranelift/cranelift/src/bugpoint.rs:700-706 | Parameters become aliases of the arguments, one by one, and a loop of aliases is noticed. |
| `MutatorLoops.InsertConstsLoop` | cranelift/cranelift/src/bugpoint.rs:207-211 | Constants for all results of an instruction, inserted before it in order. |
| `EntityLoops.CollectUsage` | cranelift/cranelift/src/bugpoint.rs:438-453 | The uses of each entity, collected in layout order: for every entry exactly the laid-out instructions that refer to it, in that order, and no entry without one. |
| `EntityLoops.CompactTable` | cranelift/cranelift/src/bugpoint.rs:455-477 | Rebuilding a table entry by entry while rewriting the uses in place keeps exactly the used entries and renames each use once. |
| `ReductionTheorems.ReduceStillCrashes` | cranelift/cranelift/src/bugpoint.rs:790-907 | For every oracle the returned function still crashes, and the arm marked unreachable is not reached. |
| `ReductionTheorems.MutateKeeps` | cranelift/cranelift/src/bugpoint.rs:97-734 | Every mutator, from every function and cursor that satisfy the invariant, keeps it (a layout that is not empty, no empty block, nothing laid out twice, arity of every branch, branches last), leaves a cursor that is usable whether the mutation is kept or thrown away, and fails only as stated. |
| `ReductionTheorems.ReduceKeeps` | cranelift/cranelift/src/bugpoint.rs:807-907 | Over whole reductions, for every oracle: no `unwrap` or `expect` on the layout, no parameter index and no arity assertion fails. If one is stopped, then at a function that it had come to, which crashes, on which a mutator does fail, and whose entry block does not match the signature, or in which a block gets its own parameters in a circle from its only predecessor, or is its own only predecessor, each with the fault that belongs to it. |
| `ReductionTheorems.NeverBreaks` | cranelift/cranelift/src/bugpoint.rs:807-907 | So an oracle that accepts no such function never stops a reduction. |
| `Resolving.NoAliasUsed` | cranelift/cranelift/src/bugpoint.rs:790-796 | After resolving no operand and no branch argument is a value that was an alias. |
| `Resolving.ResolvePreservesMeaning` | cranelift/cranelift/src/bugpoint.rs:790-796 | The resolved function comes to exactly the outcomes of the original, for any effect of the instructions. |
| `Resolving.ReduceResolves` | cranelift/cranelift/src/bugpoint.rs:790-905 | The passes start from the function with aliases resolved and source locations removed, each if it still crashes; what they end on is returned, resolved if that crashes. No alias that is no more is used in it, and no source location is left if the oracle let them be removed. |
| `MergeScopes.WellScopedNeverBreaks` | cranelift/cranelift/src/bugpoint.rs:807-907 | In particular one that accepts only functions whose entry block matches the signature, whose blocks can all be reached and whose uses of parameters are dominated by their blocks. |
| `MergeScopes.ReachableNotSelfLooped` | cranelift/cranelift/src/bugpoint.rs:663-671 | A block that is its own only predecessor cannot be reached. |
| `MergeScopes.DominatedNotTangled` | cranelift/cranelift/src/bugpoint.rs:685-706 | Where all blocks can be reached and uses of parameters are dominated, no block gets its own parameters in a circle from its only predecessor. |
| `SelfMerging.SelfMergeIff` | cranelift/cranelift/src/bugpoint.rs:652-718 | The merger gets into its endless loop exactly if the next block is its own only predecessor, along the only destination of its branch, there is more in it than the branch, and it does not pass itself its own parameters in a circle. |
| `SelfMerging.RoundsRotate` | cranelift/cranelift/src/bugpoint.rs:709-715 | Any number of rounds of taking the first instruction out and appending it to the same block gives that block rotated; it is never found empty. |
| `SelfMerging.SelfMergeLoops` | cranelift/cranelift/src/bugpoint.rs:708-715 | So after the branch is removed no number of rounds ends the loop. |
| `SelfMerging.SpinLoops` | cranelift/cranelift/src/bugpoint.rs:652-718 | A function of two blocks, each ending in its only terminator, on which it happens. |
| `Acyclic.MutateRanked` | cranelift/cranelift/src/bugpoint.rs:97-734 | Every mutator keeps a function without loops so, by the same ranks of its blocks, also the merger, which moves branches to another block. |
| `Acyclic.AcyclicKeeps` | cranelift/cranelift/src/bugpoint.rs:807-907 | So no reduction of a function without loops gets into the endless merge, whatever the oracle; what else stops it does so at a function without loops. |
| `MutatorsKeep.KeepsRemoveInst` | cranelift/cranelift/src/bugpoint.rs:127-139 | Removing an instruction keeps the invariant and the cursor. |
| `MutatorsKeep.KeepsReplaceInstWithConst` | cranelift/cranelift/src/bugpoint.rs:164-229 | So does replacing one by constants, which adds instructions. |
| `ValuesKept.ConstsInPlace` | cranelift/cranelift/src/bugpoint.rs:164-229 | What replacing one by constants does: nothing to the last instruction, nothing to one without results or that looks like a constant, and otherwise, in its place, a zero of the right type for each result and for 128 bits an extension of the 64-bit zero in front of it, each defining exactly that result. No definition is lost and nothing else changes. |
| `ValuesKept.ZerosAreSkipped` | cranelift/cranelift/src/bugpoint.rs:167-187 | What was put in is passed by later, except constants of vectors. |
| `MutatorsKeep.KeepsReplaceInstWithTrap` | cranelift/cranelift/src/bugpoint.rs:254-266 | So does replacing one by a trap. |
| `MutatorsKeep.KeepsMoveInst` | cranelift/cranelift/src/bugpoint.rs:291-315 | So does moving one to the entry block. |
| `Moving.MovesExactly` | cranelift/cranelift/src/bugpoint.rs:291-315 | It moves exactly the instructions outside the entry block that do not end their block, each in front of the last instruction of the entry block, and nothing else changes. |
| `MutatorsKeep.KeepsRemoveBlock` | cranelift/cranelift/src/bugpoint.rs:335-348 | So does removing a block, after which the cursor may be outside the layout. |
| `BlockMutatorsKeep.KeepsReplaceParam` | cranelift/cranelift/src/bugpoint.rs:372-416 | So does replacing a block parameter: all edges lose the argument together with the parameter. |
| `ParamEdges.EdgesAfter` | cranelift/cranelift/src/bugpoint.rs:391-408 | On every edge of every laid-out branch each parameter that is left gets exactly the argument that it got before, destinations that are other blocks keep theirs, and the signature is that of the entry block afterwards if it was before. |
| `ValuesKept.ParamConstInPlace` | cranelift/cranelift/src/bugpoint.rs:372-416 | The parameter is defined by a zero of its type, first in its block, and by nothing else; no definition is lost and nothing else changes. |
| `ParamPhase.SeekExactly` | cranelift/cranelift/src/bugpoint.rs:373-376 | The cursor goes to the next block that has a parameter, past all that have none. |
| `ParamPhase.EveryParamOnce` | cranelift/cranelift/src/bugpoint.rs:836-875 | Whatever the oracle answers, the phase tries every parameter of every block exactly once, blocks in layout order and the parameters of each from the last to the first. |
| `BlockMutatorsKeep.KeepsEntities` | cranelift/cranelift/src/bugpoint.rs:435-629 | So does each compaction. |
| `BlockMutatorsKeep.KeepsMergeBlocks` | cranelift/cranelift/src/bugpoint.rs:652-729 | So does merging blocks; its arity assertion never fails, it gets into an endless loop only where a block is its own only predecessor, and into an alias loop only where a block gets its own parameters in a circle from its only predecessor. |
| `ValuesKept.MutateSsa` | cranelift/cranelift/src/bugpoint.rs:97-734 | Every mutator keeps that no value has two definitions and none is defined and an alias. |
| `ValuesKept.ReduceKeepsSsa` | cranelift/cranelift/src/bugpoint.rs:807-907 | So does every reduction. |
| `MergeWalk.MergeExactly` | cranelift/cranelift/src/bugpoint.rs:652-729 | What the merger does at each block, exactly: pass by one with more than one way in, fail on parameters in a circle and on a block of its own, and merge any other, whose instructions then stand in place of the branch. |
| `MergeWalk.MergerMoves` | cranelift/cranelift/src/bugpoint.rs:731-733 | Where it goes on: if the merge is thrown away, from the block it looked at; if it is kept, from the one that this was merged into, at the block that then follows it. |
| `MergeWalk.ChainMerges` | cranelift/cranelift/src/bugpoint.rs:836-875 | With an oracle that keeps all merges a phase makes one block of a chain of blocks, with all instructions in order but the branches in between; only a loop of aliases can stop it. |
| `MergeWalk.MergePhase` | cranelift/cranelift/src/bugpoint.rs:836-875 | The merge phase of a pass does so for up to 10000 blocks without parameters. |
| `BlockMutatorsKeep.AliasParamsIff` | cranelift/cranelift/src/bugpoint.rs:698-706 | Making parameters aliases of arguments one by one fails exactly if there are parameters each of which is passed, through the aliases there were before, another value that stands for one of them. |
| `AliasLoops.AliasLoopIff` | cranelift/cranelift/src/bugpoint.rs:652-706 | The merger finds a loop of aliases, at which a debug assertion fails, exactly if the only predecessor of the next block passes it, along its only destination, its own parameters in a circle. |
| `AliasLoops.AliasesExactly` | cranelift/cranelift/src/bugpoint.rs:698-706 | Otherwise each parameter stands for what the value passed for it stands for, or for itself, and all other values for what they stood for. |
| `AliasLoops.SwappingFails` | cranelift/cranelift/src/bugpoint.rs:698-706 | A function of two blocks, each ending in its only terminator, on which it happens: a block that swaps its two parameters. |
| `AliasLoops.SameIsNoKnot` | cranelift/cranelift/src/bugpoint.rs:698-706 | One parameter passed for both makes no loop. |
| `Minimality.DeletedIsStruck` | cranelift/cranelift/src/bugpoint.rs:127-139 | What the mutator does to the layout is striking the instruction out and dropping a block that this empties. |
| `Minimality.TryAt` | cranelift/cranelift/src/bugpoint.rs:127-139 | One try deletes the instruction at its index in layout order and moves on by one, whether or not the deletion is kept; the last index ends the phase. |
| `Minimality.RemoveInstPhase` | cranelift/cranelift/src/bugpoint.rs:836-875 | Whatever the oracle answers, on at most 10001 instructions the phase tries every instruction but the last exactly once, in layout order, each try starting from what the ones before left. |
| `PassSteps.PhaseLeaves` | cranelift/cranelift/src/bugpoint.rs:836-875 | A phase leaves what its last attempt left. |
| `PassSteps.PassesExactly` | cranelift/cranelift/src/bugpoint.rs:817-897 | Of at most `n` passes those are run up to the first that keeps no change of size or breaks, each from where the one before ended. |
| `Minimality.QuietPass` | cranelift/cranelift/src/bugpoint.rs:817-896 | A pass that kept no change of size started from a function from which no single instruction but the last can be deleted. |
| `Minimality.ReduceIsOneMinimal` | cranelift/cranelift/src/bugpoint.rs:892-907 | If a reduction stops because a pass kept no change of size, the function that pass started from crashes and no deletion of one instruction but the last does; the returned function crashes. |
| `ReductionLimits.SettledIsNotMinimal` | cranelift/cranelift/src/bugpoint.rs:892-896 | The comment that nothing more will ever be found does not hold of the returned function: an oracle that accepts only functions in which every block ends in its only terminator, and a function of three instructions for which the reduction settles although one more deletion still crashes. |
| `Settling.FixedIff` | cranelift/cranelift/src/bugpoint.rs:818-896 | A pass comes back to its function without a change of size exactly if everything that it tries on that function is refused: every other change, of traps, constants or tables, leads away from it for good. |
| `Settling.FixedIsFinal` | cranelift/cranelift/src/bugpoint.rs:892-896 | Then the comment holds: every further pass comes back to that function, and no instruction but the last can be deleted from it. |
| `Settling.SettledOnStart` | cranelift/cranelift/src/bugpoint.rs:892-907 | A reduction that settles there returns that function, or it with its aliases resolved. |
| `Settling.OneMinimalIff` | cranelift/cranelift/src/bugpoint.rs:127-139 | That no instruction but the last can be deleted is the same as that the first phase refuses everything. |
| `BlindOracles.DeletionsAfter` | cranelift/cranelift/src/bugpoint.rs:892-963 | The check is any verifier that asks for one terminator at the end of each block, and then any compiler whose failure depends neither on which terminators are traps nor on how the tables are numbered. After a pass that kept no change of size and no constant, deleting an instruction other than the last still crashes exactly if the compiler fails without it and the verifier, which refused that deletion in the function that the pass started from, no longer does. |
| `BlindOracles.MinimalAfterIff` | cranelift/cranelift/src/bugpoint.rs:892-963 | So the function is 1-minimal then exactly if the pass released no such instruction. |
| `BlindOracles.FailsAlike` | cranelift/cranelift/src/bugpoint.rs:254-266 | Such a compiler fails alike on all functions that differ in traps for terminators, in the numbers of their tables and in entries that are not referred to. |
| `BlindPasses.BlindIsFinal` | cranelift/cranelift/src/bugpoint.rs:892-896 | If the whole check, which accepts only functions in which every block ends in its only terminator, sees neither, then a pass without a change of size and without a constant ends on a function from which no instruction but the last can be deleted, and every further pass comes back to it. |
| `BlindExamples.CallsAreBlind` | cranelift/cranelift/src/bugpoint.rs:965-983 | A compiler that fails on functions with a call, of at least any given number of blocks, is such a compiler. |
| `BlindExamples.ChecksAreBlind` | cranelift/cranelift/src/bugpoint.rs:946-983 | With a verifier of terminators in front of it, it is such a check. |
| `BlindExamples.CallerIsFinal` | cranelift/cranelift/src/bugpoint.rs:892-983 | A function on which the pass of such a check sets a trap and drops a function from its table, and is final. |
| `BlindExamples.ChooserIsReleased` | cranelift/cranelift/src/bugpoint.rs:892-963 | With a verifier that asks for a definition of every value that is used: a function on which the pass replaces a branch by a trap and so releases the constant that only the branch used; as nothing changed in size, no further pass takes it out. |
| `ReductionLimits.MinimalThoughChanged` | cranelift/cranelift/src/bugpoint.rs:892-896 | Neither condition is necessary: a reduction that settles on a function other than the one its last pass started from, with an oracle that does see traps, and from which nothing can be deleted all the same. |
| `ReductionLimits.RemovesFirstBlock` | cranelift/cranelift/src/bugpoint.rs:335-348 | A phase removes exactly the first block after its cursor, within its tries, whose removal crashes, and none exactly if there is none: the cursor stays on the block that was removed. The entry block is never tried. |
| `ReductionLimits.LeavesRemovableBlock` | cranelift/cranelift/src/bugpoint.rs:335-348 | A function with two removable blocks of which the phase leaves one. |
| `Measure.ShrinkLowers` | cranelift/cranelift/src/bugpoint.rs:82-94 | Every mutation reported as a change of size strictly lowers the lexicographic measure of block parameters, instructions with several results, instructions, and instructions outside the entry block; also for the mutators that add instructions. |
| `Measure.ReplaceInstWithConstLowers` | cranelift/cranelift/src/bugpoint.rs:164-229 | For constants: the inserted instructions have one result each. |
| `Measure.ReplaceParamLowers` | cranelift/cranelift/src/bugpoint.rs:372-416 | For parameters: one parameter fewer outweighs the constant. |
| `Measure.MergeBlocksLowers` | cranelift/cranelift/src/bugpoint.rs:652-729 | For merging: the branch is gone and no parameter is added. |
| `Measure.MoveInstLowers` | cranelift/cranelift/src/bugpoint.rs:291-315 | For moving: one instruction fewer outside the entry block. |
| `Entities.KeepExactly` | cranelift/cranelift/src/bugpoint.rs:455-477 | Compaction keeps exactly the used entries of a table, in their order, and two uses never get the same number. |
| `Entities.CompactKeepsMeaning` | cranelift/cranelift/src/bugpoint.rs:436-626 | Each of the four compactions leaves every tracked laid-out instruction referring to the same function, signature, stack slot or global value, and a global value to the same chain of bases. |
| `Entities.CompactAllKeepsMeaning` | cranelift/cranelift/src/bugpoint.rs:436-626 | So does a whole phase in which all four are kept. |
| `Entities.CompactsOnly` | cranelift/cranelift/src/bugpoint.rs:436-626 | Each changes one table, which keeps exactly what is used, and the references to it of laid-out instructions, and nothing else. |
| `Entities.CompactsIff` | cranelift/cranelift/src/bugpoint.rs:593-602 | Global values are compacted exactly if none has a base or depends on the target; the four come one after the other. |
| `TryCalls.TryCallMeaning` | cranelift/cranelift/src/bugpoint.rs:437-480 | After functions are compacted, a `try_call` that referred to entry `r` dangles exactly if at most `r` entries are used otherwise; if not it refers to what was the used entry with exactly `r` used ones before it, and so means the same exactly if that one is the same callee. Entries may be equal. |
| `TryCalls.DistinctCallees` | cranelift/cranelift/src/bugpoint.rs:437-480 | Among different callees it means the same exactly if every entry up to its own is used otherwise. |
| `TryCalls.OtherCompactions` | cranelift/cranelift/src/bugpoint.rs:481-625 | The other compactions leave what it means. |
| `TryCalls.TryCallChangesItsCallee` | cranelift/cranelift/src/bugpoint.rs:437-480 | A function of two blocks whose `try_call` silently calls another function afterwards, with all blocks terminated and all references in the table before and after. |
| `BlindExamples.SwitchedIsKept` | cranelift/cranelift/src/bugpoint.rs:965-983 | A check that fails on calls keeps that change. |
| `Entities.CompactExtFuncsTwice` | cranelift/cranelift/src/bugpoint.rs:437-480 | A second compaction of functions changes nothing. |
| `Entities.CompactSignaturesTwice` | cranelift/cranelift/src/bugpoint.rs:481-535 | Nor does one of signatures, although functions refer to them too. |
| `Entities.CompactStackSlotsTwice` | cranelift/cranelift/src/bugpoint.rs:536-576 | Nor one of stack slots. |
| `Entities.CompactGlobalsTwice` | cranelift/cranelift/src/bugpoint.rs:577-625 | Nor one of global values. |
| `Entities.CompactAllFixed` | cranelift/cranelift/src/bugpoint.rs:436-626 | What a whole phase of compactions leaves is not compacted again by any of them. |
| `MergeSimulation.MutatorMerges` | cranelift/cranelift/src/bugpoint.rs:652-729 | Where the hypotheses of merging hold and the predecessor can be reached, the merger does return a mutation, and it is the merge that the theorems below speak of. |
| `MergeSimulation.MergeableAliases` | cranelift/cranelift/src/bugpoint.rs:698-706 | There the parameters can be made aliases of the arguments without a loop. |
| `MergeScopes.TryCallIsMergedAway` | cranelift/cranelift/src/bugpoint.rs:673-683 | That the branch is a jump is needed: a `try_call` with one destination is merged too, and then the call, which every run of the original makes, is made by none. |
| `MergeSimulation.PredStep` | cranelift/cranelift/src/bugpoint.rs:652-729 | Running the predecessor and then the block, with parameters bound to jump arguments, gives the same way out and, up to parameters that became aliases, the same environment as running the merged block. |
| `MergeSimulation.Step` | cranelift/cranelift/src/bugpoint.rs:652-729 | One block of the merged function, from any block a run can come to, is one or two blocks of the original. |
| `MergeSimulation.MergePreservesMeaning` | cranelift/cranelift/src/bugpoint.rs:652-729 | Over whole runs, for any effect of the instructions and any world: the merged function comes to exactly the outcomes of the original, if the predecessor is another block and ends in a plain jump, uses of a parameter are dominated by the block, and definitions of arguments dominate the predecessor. |
| `MergeExample.ExampleMerges` | cranelift/cranelift/src/bugpoint.rs:652-729 | A function to which this applies, and the alias that merging makes in it. |
| `Packing.BinaryRoundTrip` | cranelift/pulley/src/regs.rs:191-208 | Three registers, or two and a six-bit immediate, come back from their 16-bit word. |
| `Packing.BinaryWord` | cranelift/pulley/src/regs.rs:210-227 | Every 16-bit word unpacks to valid operands; packing them again forgets only the top bit in the three-register form and nothing in the immediate form. |
| `Packing.U6Range` | cranelift/pulley/src/imms.rs:45-53 | The shift test accepts exactly the values below 64. |
| `Packing.G32RoundTrip` | cranelift/pulley/src/regs.rs:392-413 | The operands of a `g32` address come back from their 32-bit word. |
| `Packing.G32Word` | cranelift/pulley/src/regs.rs:392-404 | Every 32-bit word unpacks to valid operands and only its top bit is forgotten. |
| `Packing.G32BneRoundTrip` | cranelift/pulley/src/regs.rs:451-474 | The operands of a `g32bne` address come back. |
| `Packing.G32BneWord` | cranelift/pulley/src/regs.rs:451-464 | And only the top bit of such a word is forgotten. |
| `PulleyOps.OperandWords` | cranelift/pulley/src/encode.rs:172-249 | What an operand is written as is canonical, and reading it gives the operand back, for every type of operand. |
| `PulleyOps.WordsOperand` | cranelift/pulley/src/decode.rs:355-497 | Whatever is read is an operand of its type, and is written as the canonical form of what was read. |
| `PulleyOps.WidthIsLength` | cranelift/pulley/src/op.rs:139-147 | For every table, `width` is the number of bytes an operation is encoded in. |
| `PulleyFormat.OperandFormat` | cranelift/pulley/src/regs.rs:191-474 | Which bits of a word hold which part of an operand, for every type. |
| `PulleyFormat.FieldFormat` | cranelift/pulley/src/encode.rs:172-249 | Which bytes hold its words, in their order. |
| `PulleyFormat.ByteAt` | cranelift/pulley/src/encode.rs:172-249 | Words are written lowest byte first. |
| `PulleyFormat.OpFormat` | cranelift/pulley/src/encode.rs:251-334 | An ordinary operation starts with its code, an extended one with the first free code and its own in two bytes; the operands follow. |
| `PulleyStreams.SafeBytecodeStream.constructor` | cranelift/pulley/src/decode.rs:129-134 | A stream starts at the start of its slice. |
| `PulleyStreams.SafeBytecodeStream.Read` | cranelift/pulley/src/decode.rs:150-158 | A read takes its bytes off the front and moves the position, or fails and moves nothing. |
| `PulleyStreams.SafeBytecodeStream.DecodeWord` | cranelift/pulley/src/decode.rs:265-392 | A little-endian word, with the check of register numbers. |
| `PulleyStreams.SafeBytecodeStream.DecodeOperand` | cranelift/pulley/src/decode.rs:420-497 | An operand as its one or two words. |
| `PulleyStreams.SafeBytecodeStream.DecodeOperands` | cranelift/pulley/src/decode.rs:752-786 | The operands of an operation, in order, up to the first failure. |
| `PulleyStreams.SafeBytecodeStream.DecodeOneOp` | cranelift/pulley/src/decode.rs:570-604 | An operation: opcode, perhaps an extended one, and operands; the stream is left where decoding stopped. |
| `PulleyStreams.SafeBytecodeStream.DecodeAllOps` | cranelift/pulley/src/decode.rs:520-532 | The loop over the slice collects the operations of `DecodeAll` and ends with the slice empty. |
| `PulleyErrors.ErrorPositions` | cranelift/pulley/src/decode.rs:168-189 | For every table and byte string: an invalid opcode is reported at the start of its operation, an invalid extended one three bytes after it, and an invalid register just after its byte, each exactly in its case. A register is reported exactly if the opcodes are good and some register byte that is there is no register; it is the first such one. |
| `PulleyErrors.ErrorExamples` | cranelift/pulley/src/decode.rs:168-189 | One input for each. |
| `PulleyStreams.UnsafeBytecodeStream.Read` | cranelift/pulley/src/decode.rs:231-235 | An unchecked read of mapped memory. |
| `PulleyStreams.Sink.EncodeOperand` | cranelift/pulley/src/encode.rs:172-249 | An operand is appended to the sink as its encoding, `WIDTH` bytes. |
| `PulleyStreams.Sink.EncodeOperation` | cranelift/pulley/src/encode.rs:251-334 | An operation is appended as its encoding, with the prefix of the extended ones. |
| `PulleyCodec.DecodesExactly` | cranelift/pulley/src/decode.rs:520-532 | For every table, program and byte string: the string decodes to the program exactly if it is the encoding up to ignored bits. |
| `PulleyCodec.RoundTrip` | cranelift/pulley/src/op.rs:123-148 | For every table and program, decoding the concatenated encodings gives exactly that program. |
| `PulleyCodec.Reencoding` | cranelift/pulley/src/decode.rs:520-532 | Encoding what was decoded gives a string of the same length that differs only in the top bits of three-register words and of `g32` and `g32bne` words, and that decodes to the same operations. |
| `PulleyCut.Truncation` | cranelift/pulley/src/decode.rs:150-166 | For every cut of an encoded program, decoding succeeds exactly if the cut is between two operations, with exactly the ones before it; otherwise it fails with an unexpected end at the start of the first read that does not fit. |
| `PulleyCut.CutIsFirstUnfit` | cranelift/pulley/src/decode.rs:150-158 | That position is the sum of the reads before the first one that needs more bytes than there are. |
| `PulleyRaw.RawRefines` | cranelift/pulley/src/decode.rs:230-235 | Whenever the checked stream decodes an operation, the pointer stream over the same bytes decodes the same one and lands as far from its start. |
| `PulleyRaw.RawProgram` | cranelift/pulley/src/decode.rs:230-235 | The same over a whole program. |
| `PulleyRaw.StepsAgree` | cranelift/pulley/src/decode.rs:752-786 | Decoding an opcode and then its operands gives the operation, the error and the stream of `decode_one`, on either kind of stream. |
| `PulleyVisitors.DecodeAllLoop` | cranelift/pulley/src/decode.rs:520-532 | The loop with any visitor whose callbacks never move the stream back: one result for each operation. |
| `PulleyVisitors.MaterializeIsDecodeAll` | cranelift/pulley/src/op.rs:233-283 | With the visitor that materializes operations, the results are the decoded operations. |
| `PulleyVisitors.SequencedAll` | cranelift/pulley/src/decode.rs:642-675 | Two visitors run together over a whole program each end as they do alone and the results are joined one by one, if no callback moves the stream and the second visitor is the same before its stream is brought up to date as after, at every operation it comes to; a failure leaves the stream of the second one behind, and nothing else. |
| `PulleyVisitors.SequencedMany` | cranelift/pulley/src/decode.rs:642-675 | The same after any number of operations, for any join. |
| `PulleyVisitors.SequencedIff` | cranelift/pulley/src/decode.rs:642-675 | That condition is exact: for all tables, streams and visitors that do not move their streams, the two are as alone after every number of operations exactly if, at every operation that the second visitor comes to on its own, its callback gives the same result and state from the start of the operation as from its end. |
| `PulleyVisitors.BlindIsSame` | cranelift/pulley/src/decode.rs:642-675 | A visitor that never looks at its stream meets it. |
| `PulleyVisitors.SecondVisitorLagsBehind` | cranelift/pulley/src/decode.rs:661-675 | A second visitor that does not move its stream but returns its position sees where the operation starts instead of where it ends. |
| `PulleyDisas.OneTiles` | cranelift/pulley/src/disas.rs:361-385 | The lines of one operation and its table continue those before it up to where the stream then is. |
| `PulleyDisas.RunTiles` | cranelift/pulley/src/disas.rs:102-113 | Over a whole run the lines tile the bytecode: all of it, or what is before the operation that could not be decoded. |
| `PulleyDisas.TiledBytes` | cranelift/pulley/src/disas.rs:365-385 | Lines that tile it are in bounds and in order, and show all of its bytes. |
| `PulleyDisas.TableShape` | cranelift/pulley/src/disas.rs:102-113 | A branch table shows its operation, then four bytes for each entry while they last, then an empty line for each entry that is missing. |
| `DisasPulley.Disassembler.BeforeVisit` | cranelift/pulley/src/disas.rs:361-363 | A line starts at the position of the stream. |
| `DisasPulley.Disassembler.AfterVisit` | cranelift/pulley/src/disas.rs:365-385 | The slice that is shown is in bounds, and the lines then reach the position. |
| `DisasPulley.Disassembler.DisasBrTable32` | cranelift/pulley/src/disas.rs:102-113 | The loop over the entries. |
| `DisasPulley.Disassembler.DecodeOneInto` | cranelift/pulley/src/decode.rs:570-604 | One operation with the disassembler as visitor. |
| `DisasPulley.DisasPulleyLoop` | cranelift/src/disas.rs:107-147 | The loop over a function: an end at the very start of an operation stops it, any other failure is returned. |
| `DisasPulley.EndsAtEof` | cranelift/src/disas.rs:120-121 | Such an end means exactly that nothing is left. |
| `DisasPulley.DisasPulleyFaithful` | cranelift/src/disas.rs:107-147 | The address overflows exactly if an operation that can be decoded starts where its address does not fit in 64 bits. Otherwise a function is disassembled exactly if everything in it can be decoded; the bytes of the instructions make up the function and each address is `addr` plus the bytes before it. |
| `DisasPulley.InsideNeverTooFar` | cranelift/src/disas.rs:107-147 | A function that ends within the address space never overflows. |
| `DisasPulley.DisasItems` | cranelift/src/disas.rs:107-147 | Encoded operations with their branch tables are disassembled into one instruction each, with exactly its bytes: for a branch table with count `n`, the operation and `n` entries of four bytes. |
| `Recorder.SampleBuffer.constructor` | cranelift/pulley/src/profile.rs:168-176 | An empty buffer has room for the count. |
| `Recorder.SampleBuffer.Append` | cranelift/pulley/src/profile.rs:147-150 | A sample is appended and counted; a count past 32 bits is reported. |
| `Recorder.SampleBuffer.Finalize` | cranelift/pulley/src/profile.rs:157-159 | The count is filled in and the samples stay. |
| `Recorder.SampleBuffer.Reset` | cranelift/pulley/src/profile.rs:161-165 | Nothing is left. |
| `Recorder.ProfileRecorder.AddFunction` | cranelift/pulley/src/profile.rs:109-121 | A record of the function, or, where a length does not fit in 32 bits, the part of it before that length. |
| `Recorder.ProfileRecorder.AddSamples` | cranelift/pulley/src/profile.rs:123-130 | A record of the buffered samples, after which the buffer is empty. |
| `Recorder.RecordAll` | cranelift/pulley/src/profile.rs:109-166 | For every interleaving of calls whose lengths and counts fit, the file is the encoding of the recorded events and decodes to exactly them. |
| `Profile.EventRoundTrip` | cranelift/pulley/src/profile.rs:206-254 | A record is decoded from its bytes, whatever follows. |
| `Profile.FunctionFormat` | cranelift/pulley/src/profile.rs:109-121 | Where a function record has its address, lengths, name and body. |
| `Profile.SamplesFormat` | cranelift/pulley/src/profile.rs:123-130 | Where a record of samples has its count and each sample. |
| `Utf8Text.Utf8Iff` | cranelift/pulley/src/profile.rs:216-222 | A name is accepted exactly if it is the UTF-8 encoding of some Unicode text. |
| `ProfileDecode.DecodesExactly` | cranelift/pulley/src/profile.rs:206-254 | For all bytes: a record is decoded exactly if the bytes begin with its encoding, and what is left is what follows it. |
| `ProfileDecode.FunctionErrors` | cranelift/pulley/src/profile.rs:206-233 | Each error of a function record, and its success, exactly by which bytes are there and whether its name is text. |
| `ProfileDecode.OtherErrors` | cranelift/pulley/src/profile.rs:235-254 | The same for a record of samples; any other first byte is an unknown one. |
| `Profile.EventCut` | cranelift/pulley/src/profile.rs:206-254 | No proper prefix of a record is taken for a record; the error names the first part that is cut off. |
| `Profile.RoundTrip` | cranelift/pulley/src/profile.rs:196-254 | A whole file yields exactly its records and then ends. |
| `Profile.Truncation` | cranelift/pulley/src/profile.rs:196-254 | A cut file yields the whole records before the cut and then, for ever, a clean end or the error of the record that was cut. |
| `Profile.CleanEndIffBoundary` | cranelift/pulley/src/profile.rs:196-204 | It ends cleanly exactly if the cut is between two records. |
| `Profile.NoEventAfterFailure` | cranelift/pulley/src/profile.rs:196-204 | In any file, after a failure nothing is ever decoded again. |
| `ProfileReader.EventReader.NextItem` | cranelift/pulley/src/profile.rs:196-204 | The iterator, whose slice moves only past whole records. |
| `ProfileReader.EventReader.ReadFunction` | cranelift/pulley/src/profile.rs:208-233 | A function record, read part by part. |
| `ProfileReader.EventReader.ReadSamples` | cranelift/pulley/src/profile.rs:236-250 | A sample record. |
| `ProfileReader.ReadAll` | cranelift/pulley/src/profile.rs:196-204 | Reading to the end or to the first failure gives the items of the iterator up to there. |
| `ProfilerReport.ProfilerTables.AddFunction` | cranelift/pulley/examples/profiler-html.rs:76-88 | A function is inserted; one at an address that is taken panics. |
| `ProfilerReport.ProfilerTables.AddSample` | cranelift/pulley/examples/profiler-html.rs:91-103 | A sample is charged to the last function at or below it, with every assertion, conversion and overflow that can stop it. |
| `ProfilerReport.ProfilerTables.AddSamples` | cranelift/pulley/examples/profiler-html.rs:89-104 | The samples of one record, up to the first panic. |
| `ProfilerReport.ProfilerTables.TakeEvents` | cranelift/pulley/examples/profiler-html.rs:74-113 | All events, and whether there were functions and samples. |
| `Profiler.ChargeKeeps` | cranelift/pulley/examples/profiler-html.rs:91-103 | In every state that adds up, a sample is refused for one of four reasons only (the hits, the offset and the count cannot overflow), and one that is accepted is counted in one place. |
| `Profiler.FloorContains` | cranelift/pulley/examples/profiler-html.rs:93-95 | With bodies that are not empty and do not overlap, the function that contains an address is the only one and is the one looked up. |
| `Profiler.ChargeIff` | cranelift/pulley/examples/profiler-html.rs:91-103 | A sample is then counted exactly if it is inside a function and the total has room, and for that function at its offset. |
| `Profiler.TakeAllIff` | cranelift/pulley/examples/profiler-html.rs:74-106 | A whole profile whose functions do not overlap is taken without a panic exactly if every function is new where it is recorded, every sample is in a function recorded before it, and there are no more samples than the total can count. |
| `Profiler.TakeAllExact` | cranelift/pulley/examples/profiler-html.rs:74-106 | Then each count is the number of samples at its address, the hits of a function are the sum of its counts, and the total is the sum of the hits and the number of samples. |
| `Profiler.WholeProfileExact` | cranelift/pulley/examples/profiler-html.rs:70-106 | The same from the start of the program. |
| `Profiler.EmptyBodyHidesFunction` | cranelift/pulley/examples/profiler-html.rs:93-95 | Without the condition on bodies it fails: a function with an empty body hides the one around it. |
| `ProfilerEvents.FunctionsAreRecorded` | cranelift/pulley/examples/profiler-html.rs:74-87 | A profile that is taken knows exactly the functions recorded in it, each with its address, name and body. |
| `ProfilerEvents.ChargePanics` | cranelift/pulley/examples/profiler-html.rs:91-103 | Each panic of a sample exactly in its case, by the last function that starts at or below it, in every state that adds up. |
| `ProfilerAny.ChargeIffAny` | cranelift/pulley/examples/profiler-html.rs:91-103 | For any functions, overlapping or empty: a sample is counted exactly if it is inside the last function that starts at or below it, that function ends within 64 bits, and the total has room. |
| `ProfilerAny.ChargedToIff` | cranelift/pulley/examples/profiler-html.rs:93-95 | A sample inside a function is charged to it exactly if no other function starts between that one and the sample. |
| `ProfilerAny.TakeAllIffAny` | cranelift/pulley/examples/profiler-html.rs:74-106 | Any whole profile is taken without a panic exactly if every function is new where it is recorded, every sample can be charged to one recorded before it, and there are no more samples than the total can count. |
| `ProfilerAny.TakeAllCounts` | cranelift/pulley/examples/profiler-html.rs:74-106 | Then each count is the number of samples charged to its function and offset. |
| `ProfilerReport.WalkInstructions` | cranelift/pulley/examples/profiler-html.rs:145-191 | The walk over the instructions takes their counts out of the map; what is left are exactly the counts at offsets at which no instruction starts. |
| `ProfilerReport.EmptyIffAllStart` | cranelift/pulley/examples/profiler-html.rs:195-195 | So the final assertion holds exactly if an instruction starts at every sampled offset. |
| `Mpk.ExponentialSearch.constructor` | cranelift/examples/mpk.rs:153-159 | The search starts growing, between 0 and 1. |
| `Mpk.ExponentialSearch.Record` | cranelift/examples/mpk.rs:163-178 | One answer: the bounds move as specified and stay in order, or 32-bit arithmetic overflows. |
| `Mpk.AlwaysSound` | cranelift/examples/mpk.rs:93-113 | Whatever the machine answers, in every state of every run the lower bound and the mapped bytes are those of the last success (or 0), and when the search is done the attempt just above the lower bound has failed. |
| `Mpk.FindsLimit` | cranelift/examples/mpk.rs:152-182 | On a machine with a limit below the greatest word, no step overflows, gaps are powers of two until the search is done, it is done at exactly the limit, and after at most `2m` attempts, where `2^m - 1` is the first value of the growing phase above the limit. |
| `Mpk.FirstAboveExists` | cranelift/examples/mpk.rs:163-171 | There is such an `m` for every limit. |
| `Mpk.OverflowsWithoutLimit` | cranelift/examples/mpk.rs:163-175 | The bound on the limit is exact: a machine that refuses nothing makes the search overflow. |
| `Mpk.ProbeEngineSize` | cranelift/examples/mpk.rs:93-113 | The loop ends for every machine and gives the last value that succeeded and what that one mapped. |
| `ShellQuoting.QuotedIff` | sld/scripts/validate-top-crates-apple-containers.py:199-202 | A word is printed as it is exactly if it holds no blank, no control character and none of the punctuation the shell may act on. |
| `ShellQuoting.QuoteRun` | sld/scripts/validate-top-crates-apple-containers.py:199-202 | The shell reads a quoted word as that word, and the quoted empty word as nothing. |
| `ShellQuoting.JoinedWords` | sld/scripts/validate-top-crates-apple-containers.py:195-202 | Tokenizing joined words and removing the quotes gives back the words that are not empty, with nothing left to expand; so all words come back exactly if none is empty. |
| `ShellQuoting.EmptyWordIsLost` | sld/scripts/validate-top-crates-apple-containers.py:199-202 | An empty word disappears and the next one takes its place. |
| `LinuxCommand.LinuxShellCommand` | sld/scripts/validate-top-crates-apple-containers.py:157-182 | The whole command is read as the tokens of its pieces with `&&` between them; splitting at unquoted `&&` gives back the pieces, and the words of the build and validation commands are theirs. |
| `LinuxCommand.ValidatedIsBuilt` | sld/scripts/validate-top-crates-apple-containers.py:157-182 | The binary that is validated is the one that the build puts into its target directory for its profile. |
| `Schedule.BalancedSchedule` | scripts/benchmark-artifact-cache.py:144-155 | For every trial count and every shuffle: as many valid blocks as trials, each ordering `q` or `q + 1` times in `6q + r` trials, and none twice in each six trials from a multiple of six on; no schedule for fewer than one trial. |
| `Schedule.SixesElsewhereMayRepeat` | scripts/benchmark-artifact-cache.py:144-155 | Six consecutive trials that start elsewhere can have an ordering twice. |
| `Schedule.OrderingsComplete` | scripts/benchmark-artifact-cache.py:149-149 | The six orderings are all there are. |
| `Manifest.ValidateRunManifest` | scripts/benchmark-artifact-cache.py:863-909 | Validation by collected sets succeeds exactly if the manifest has every expected run once, nothing else, and directories that are there and differ; each error is given exactly in its case. |
| `BenchmarkLoop.RunBenchmark` | scripts/benchmark-artifact-cache.py:1334-1425 | The nested loops make the directory of each run, write its files and append the run: the population and then every state of every trial, for one workload after the other. They end with all of these exactly if no name is absolute and all directories can be made in that order, and otherwise stop. |
| `BenchmarkLoop.RunWorkload` | scripts/benchmark-artifact-cache.py:1336-1425 | The part for one workload. |
| `BenchmarkLoop.RunTrial` | scripts/benchmark-artifact-cache.py:1381-1422 | The states of one trial in their order. |
| `BenchmarkLoop.RunOne` | scripts/benchmark-artifact-cache.py:709-757 | A run is appended after its directory is made, and not if that is there or if it or one of its parents is a file. |
| `BenchmarkRuns.RunsInOrder` | scripts/benchmark-artifact-cache.py:1334-1425 | The runs of a workload follow those of the ones before it: its population, and then the states of every trial in the order of the schedule, each with the time and the directory of its own key. |
| `BenchmarkLoop.MakeAllIff` | scripts/benchmark-artifact-cache.py:709-757 | Directories can be made in order exactly if each, with every `..` resolved, is not there at the start, is not one of its own parents, was not made for or on the way to an earlier one, and neither it nor a parent is a file of an earlier run. |
| `BenchmarkLoop.FinishedIsAccepted` | scripts/benchmark-artifact-cache.py:1334-1425 | For every valid schedule and any names, what the loop has appended when it ends is accepted by validation. |
| `BenchmarkNames.FinishesIff` | scripts/benchmark-artifact-cache.py:1334-1425 | In an output directory without runs and with names that never lead up, the loop ends exactly if no name is absolute and no workload path is the same as an earlier one, a prefix of it, or leads to or through a file that a run of an earlier one has written. |
| `BenchmarkNames.PlainNamesFinish` | scripts/benchmark-artifact-cache.py:1334-1425 | For names that are one path component that means that the workloads are distinct. |
| `BenchmarkNames.RootedStops` | scripts/benchmark-artifact-cache.py:1377-1377 | A name that starts at the root stops the loop, wherever it is in the list. |
| `BenchmarkNames.ResolveUps` | scripts/benchmark-artifact-cache.py:709-709 | Each `..` takes back a name, and goes up from the output directory when there is none left. |
| `BenchmarkNames.ResolveDown` | scripts/benchmark-artifact-cache.py:709-709 | Names that lead down are added to where a path leads. |
| `BenchmarkNames.WayUpStops` | scripts/benchmark-artifact-cache.py:709-709 | The name `..` stops the loop, and so does a detour to a directory that it has made. |
| `BenchmarkNames.FileBlocks` | scripts/benchmark-artifact-cache.py:711-757 | A second name inside that of an earlier workload stops the loop exactly if it is the name of one of the seven files that the population of the earlier one writes. |
| `BenchmarkNames.RunFileBlocks` | scripts/benchmark-artifact-cache.py:711-757 | A workload below the directory of a measured run stops it exactly if it is named like one of the six files of that run. |
| `BenchmarkRuns.DotCollides` | scripts/benchmark-artifact-cache.py:1389-1395 | Distinct names can share a directory. |
| `BenchmarkRuns.RunPathsDiffer` | scripts/benchmark-artifact-cache.py:1389-1395 | Directories of runs that differ in workload directory, trial or order differ. |
| `BenchmarkSummary.GroupRuns` | scripts/benchmark-artifact-cache.py:922-934 | The groups are the measured runs of each workload and state in order, and the table by trial has the last run of each cell. |
| `BenchmarkSummary.AcceptedCells` | scripts/benchmark-artifact-cache.py:924-934 | In an accepted manifest a workload was run in a trial and a state exactly if the metadata calls for it. |
| `BenchmarkSummary.AcceptedTrials` | scripts/benchmark-artifact-cache.py:967-971 | So the table by trial has an entry for every workload and trial and nothing else, each with all three states: the lookups are defined. |
| `BenchmarkSummary.AcceptedGroups` | scripts/benchmark-artifact-cache.py:935-963 | And every group of which a median is taken is not empty. |
| `BenchmarkSummary.PairedComparisons` | scripts/benchmark-artifact-cache.py:967-993 | The comparisons have one sample for each trial, so their medians are defined. |

## Left out

- ReductionTheorems.ReduceKeeps: names the function at which a reduction stopped, not a condition on the start function alone, because the oracle is arbitrary; `Acyclic.AcyclicKeeps` gives such a condition for the endless merge.
- MutatorLoops.MoveInsts: takes another block as target, because with the same one it would not end; `SelfMerging.RoundsRotate` is about that case.
- BlindOracles.DeletionsAfter: passes that keep a constant for a result, which gives new instructions, are not covered; nor are failures that depend on the terminators. `Settling.FixedIff` covers all oracles.
- BlindPasses.BlindIsFinal: takes a check that sees neither traps for terminators nor table numbers at all; of the conditions of the CLIF verifier it models the one on terminators, and where uses are verified too `BlindOracles.DeletionsAfter` says what is left to delete.
- BlindExamples.ChecksAreBlind: counts calls after which a block goes on, not `return_call`, which ends its block and may be replaced by a trap.
- ValuesKept.ReduceKeepsSsa: is about definitions; that every use is reached by its definition is not kept by removing instructions and is left to the oracle.
- MergeSimulation.MergePreservesMeaning: assumes that uses of parameters are dominated by the block and definitions of arguments dominate the predecessor, which the CLIF verifier checks and the model does not derive.
- PulleyVisitors.SequencedAll: the join is a function without state, visitors are values with functions instead of a trait, and callbacks that move the stream are left out.
- PulleyStreams.UnsafeBytecodeStream.Read: memory is a map and a read outside it is excluded, as the caller has to; decoding through it is modelled on values by `PulleyDecode`.
- DisasPulley.DisasPulleyLoop: an overflow is noticed where an address is computed, not where the text of an operand shows a position.
- ProfilerReport.WalkInstructions: percentages, thresholds and colours do not appear; every function is walked.
- LinuxCommand.LinuxShellCommand: takes the container path and the validation arguments as any strings; reserved words, assignments before a command and expansions other than the `$PATH` of the script are not modelled.
- BenchmarkLoop.RunBenchmark: takes the time of a run as given; an absolute name stops the model also where it lies in the output directory; what a command itself writes, failing commands and changes of the repository or the seed, which stop the original too, are not modelled.
- BenchmarkNames.FinishesIff: for names that lead up only `BenchmarkLoop.MakeAllIff` says when the loop ends.
- Manifest.ValidateRunManifest: metadata and runs are typed records, so fields that are missing or of another type, except a missing directory, do not occur.
- The Cranelift verifier, compiler, panic hooks, printing and command line around `bugpoint`; the oracle is deterministic.
- The linked lists and pools behind layouts and data-flow graphs, jump tables shared by several instructions, and signatures in exception tables.
- Contents of constants and types beyond what decides which constant is inserted.
- The list of Pulley operations: all results hold for any table of at most 255 ordinary and 65536 extended ones.
- Mnemonics, padding and operand text of the disassembler, and the jump and return flags derived from it.
- Raw pointers, alignment, `ExecutingPc`, flushing and failures of file input and output.
- `Pool::compare`, `/proc` parsing and engine configuration in `mpk.rs`.
- Seconds as floats, absolute deviations, statistics files, hashing, git and host metadata in the benchmark script.
- The other scripts, examples, benchmarks, fuzz targets and vendored files of the repository.
