# Models and proofs for the WebAssembly translator

The translator compiles WebAssembly to Go source and to Plan 9 assembly. This project models four
groups of its algorithms in Dafny and proves that they preserve meaning, partition what they say they
partition, and keep apart what must not overlap. `dafny verify dfyconfig.toml` checks everything.

## What is modelled

**Structured control flow** (`Cfg`, `GoStmt`, `StructuredSim`, `LoopLabels`, `EmitSurvey`,
`EmitStructured`). A control-flow graph over abstract block bodies, edge copies, conditions and
selectors, and a language of `for`, `if`, `switch`, labelled `break` and `continue` with Go's binding
rule. The emitter is a class with the emitter's own fields. Its main theorem is an equality, not an
inclusion: for every state and every number of executed blocks the emitted body and the graph end in the
same way, whatever the post-dominator and loop tables say. It gives up exactly where a survey of the
graph, which emits nothing, meets a block that cannot be rendered, passes a cap, or misses a block.

**Call-graph partitioning** (`CallGraph`, `TarjanInvariant`, `Tarjan`, `Reachability`, `Packing`,
`FirstFit`, `MultiPkg`). The iterative component search over explicit frames and arrays, worklist
reachability, first-fit-decreasing packing, and the plan built from them.

**Fused regions** (`FusedTree`, `Reassociate`, `ChainRewrite`, `ChainFold`, `ScheduleOrder`,
`ScalarSplice`, `ListSchedule`, `SplatSink`, `SimdFuse`, `Reorder`, `HoistInterveners`, `FusedWindow`,
`WindowRuns`). Operations are uninterpreted; all that is known is that some associate. Chain
reassociation and scheduling are methods of the builder class and are proved to preserve root values and
memory for every interpretation. Moving statements ahead of a window and deferring window members to the
last one are instances of one theorem about reordering, and all planned windows together are proved over
whole runs with loops.

**Assembly: emission, post-passes, frames and registers** (`FlatCode`, `FlatSim`, `FlatEmit`,
`FusedCompare`, `FusedBranch`, `AsmCode`, `DeadStores`, `RegTrack`, `RegReuse`, `Coalesce`, `Frame`,
`SlotReuse`, `SlotAlloc`, `SlotThrift`, `SlotPlan`, `SlotMeaning`, `CompactFrame`, `FrameChain`,
`LinearScan`, `RegHomes`). Instructions are a datatype. Both post-passes are proved over whole runs with
jumps to labels. Slot and register allocation are proved at byte and register level: what is stored is
what every recorded read finds, and a new slot or no register is given only where nothing free would do.

`Basics` holds the few definitions that all groups share.

## Conventions

Go map iteration order is a nondeterministic choice (`Expire`, `SortedTemps`, `CountHolders`,
`ApplyOverrides`). Runs carry fuel that counts executed blocks or jumps, so statements about all fuel
values speak about infinite runs too. What expressions, block bodies and operations compute is a
parameter, and results hold for all of them.

## Hypotheses that are not checked by the code

- Structured and flat emission: each table routes a selector value to one successor; edges stay in the
  function. Flat emission also takes for granted that empty blocks, and edges into blocks without phis,
  do nothing.
- Scheduling: every scalar node is an argument of some node and takes no vector node; a root is preserved
  when the region does not mix stores and scalar loads, which the caller checks afterwards
  (`internal/codegen/simd_fuse.go:1868-1885`); `FusedTree.MixedLosesValue` shows that the check is needed.
- Hoisting: a candidate reads its recorded parameters and variables of earlier candidates.
- Fused windows: identifiers are distinct, phis lead their block and other values read only what precedes
  them, members are SIMD operations that store only if the window does, no scalar load takes a vector
  address, and members are listed once.
- Coalescing: the only successor of the latch inside the body is the header. The statements about reads of
  the carry also take for granted that it is defined once and is no phi.
- Register tracking: moves copy whole values, that is one access width per slot, with register contents
  compared at that width.
- Allocation: register pools hold distinct registers, are disjoint, and overrides spare the module cache
  (`AmdSuits` and `ArmSuits` show it for amd64 and arm64); overrides come from an allocator that respects
  register classes, and loop carries have homes of their class. Phi temporaries lie between the allocated
  slots and the end of the frame.

## What does not hold in general

The register tracker forgets only one register when a slot is overwritten
(`internal/asmgen/regtrack.go:89-96`). If another still mirrors the slot, a later load into it is dropped
although the slot has changed; `RegTrack.StaleMirror` is such a program. `StoreHarmlessIff` and
`StoreImmHarmlessIff` say exactly, over all states, when a store keeps the maps right; under that
condition at every store `SweepKeepsRuns` covers whole runs. `StoreOtherHarmlessIff` and `CallHarmlessIff`
do the same for the remaining slot-writing move and for calls. The comment at
`internal/asmgen/regtrack.go:40-47` promises it without the condition.

Coalescing looks at the readers of the phi but not of the carry, and reserves the shared register in the
loop only (`internal/asmgen/regalloc_coalesce.go:349-359`). A block after the loop may overwrite it and then
read the carry: `Coalesce.CarryLostAfterLoop`. `CarryLocalIff` says exactly which blocks read the carry
rightly: those that read it only in the latch after it is written, or on the edges out of the latch.

Where reads of the phi after the loop are allowed, they find the carry instead if the loop is left by its
latch: `Coalesce.PhiLostAfterLatch`. They are right in every run that leaves the loop elsewhere
(`LiveOutSeesEntry`), and a way out hands the phi on for all code exactly when it does not start at the latch
(`ExitKeepsPhiIff`).

The overrides leave phis and their direct arguments alone
(`internal/asmgen/regalloc16_bridge.go:80-93`), but coalescing looks through copies. A carry that its phi
names through a copy may be moved away from its phi: `RegHomes.CarryLosesHome`. `KeepsHomeIff` says exactly
which values keep their home under all overrides that respect register classes.

A comment at `internal/asmgen/asmgen.go:2027-2029` places a fused window at its first member; the code
places it at the last.

The dead-store pass does not treat labels other than `L<n>` as boundaries, which its comment says all
labels are. `EliminationKeepsRuns` shows that this is harmless: no label needs to be one.

The check at `internal/codegen/simd_fuse.go:532` that a chain has two more leaves than interior nodes
never fails, and the bail-out of the greedy loop is never taken (`AlwaysReady`).

## Model

| member | source | states |
|---|---|---|
| `EmitStructured.StructEmitter.EmitStructured` | internal/codegen/emit_structured.go:100-152 | a body is returned exactly when there is an entry, the graph is reducible, no loop is bad, and the survey of the graph from the entry comes to an end, reaches every block, passes no cap and meets no block that is malformed or does not render; it then behaves on every state and for every number of executed blocks as the graph run from the entry, cut-off runs included; its loop labels are distinct, each is named by a break or continue inside its own loop, and no jump names a loop that does not enclose it |
| `EmitStructured.StructEmitter.Region` | internal/codegen/emit_structured.go:254-429 | for arbitrary post-dominator and loop tables: running the emitted statements follows the graph from `b`; falling off the end means control is at `stop`, a break or continue, bound by Go's rules, means control is at the follow or header of that loop, a return means the graph returned; what was emitted is what the survey from `b` finds, and the region is refused only if that survey meets trouble or passes a cap; it terminates because every pass either emits a block under the cap or opens a loop under the nesting cap |
| `EmitSurvey.SettledAnswer` | internal/codegen/emit_structured.go:139-147 | a survey that comes to an end decides the answer: accepted exactly when it met no trouble, kept to the cap and saw every block |
| `EmitSurvey.FailedAnswer` | internal/codegen/emit_structured.go:139-142 | if some stretch of the survey meets trouble or passes a cap, the function is not accepted |
| `EmitSurvey.NotBoth` | internal/codegen/emit_structured.go:254-301 | trouble found within any number of steps is in the whole survey, so an answer never depends on how far one looks |
| `EmitSurvey.WhileLoopFits` | internal/codegen/emit_structured.go:264-284 | a `while` loop whose blocks render is accepted |
| `EmitStructured.StructEmitter.OpenLoop` | internal/codegen/emit_structured.go:265-284 | the `for` around a loop header, with its lazily chosen label, follows the graph from the header to the follow block; it is refused only if the survey of its body fails |
| `EmitStructured.StructEmitter.EmitIf` | internal/codegen/emit_structured.go:342-378 | both arms together with the code at the join follow the graph from the end of the block, whatever block the table gives as the join |
| `EmitStructured.StructEmitter.EmitSwitch` | internal/codegen/emit_structured.go:379-423 | the switch over a br_table follows the graph, a bare break inside it leaving only the switch |
| `EmitStructured.StructEmitter.EmitClauses` | internal/codegen/emit_structured.go:391-412 | one clause per successor, the default label's successor as `default`, each following the graph along its own edge |
| `EmitStructured.StructEmitter.Join` | internal/codegen/emit_structured.go:368-378 | after a branch, control continues at the join, as a jump if the join is a header or follow of an open loop |
| `EmitStructured.StructEmitter.Branch` | internal/codegen/emit_structured.go:434-447 | an arm follows the graph along its edge, phi copies first, up to the join; it is refused only if the copies do not render or the survey of the arm fails |
| `EmitStructured.StructEmitter.GoTo` | internal/codegen/emit_structured.go:454-466 | the copies of an edge and the jump, if one is needed, follow the graph along the edge |
| `EmitStructured.StructEmitter.Jump` | internal/codegen/emit_structured.go:482-515 | a break or continue is produced exactly when the target is a header or follow of an open loop, and Go binds it to that loop, switches in between included |
| `EmitStructured.StructEmitter.FrameBreak` | internal/codegen/emit_structured.go:528-539 | a break to the follow of a loop is produced exactly when the target is that follow; it is labelled exactly when the caller asks or a switch was opened since the loop; it leaves that loop |
| `EmitStructured.StructEmitter.FrameLabel` | internal/codegen/emit_structured.go:518-523 | a loop is named once, with a fresh label |
| `StructuredSim.SimSwitch` | internal/codegen/emit_structured.go:379-423 | clauses that follow their edges make a switch that follows the br_table |
| `StructuredSim.SimFor` | internal/codegen/emit_structured.go:264-284 | a body that follows the graph from the header makes a `for` that does, iterations of any number included |
| `StructuredSim.SimIf` | internal/codegen/emit_structured.go:342-378 | arms that follow their edges make an `if` that follows the branch |
| `StructuredSim.ChooseIsTableIndex` | internal/codegen/emit_structured.go:403-412 | with disjoint case values the clause Go selects is the successor the table names |
| `Tarjan.TarjanSCC` | internal/codegen/multipkg.go:216-296 | for every graph whose edges stay in range: terminates and returns every vertex exactly once, grouped into exactly the maximal mutually reachable sets, and an edge between two sets goes to one returned earlier |
| `Tarjan.SccFinder.Explore` | internal/codegen/multipkg.go:236-289 | the loop over the explicit frame stack keeps the search invariant and finishes every vertex reachable from the start |
| `Tarjan.SccFinder.Close` | internal/codegen/multipkg.go:267-287 | closing a frame either emits a component or hands its low link to the frame below |
| `Tarjan.SccFinder.PopComponent` | internal/codegen/multipkg.go:268-280 | popping down to a root removes exactly the root and what lies above it |
| `TarjanInvariant.EnterKeeps` | internal/codegen/multipkg.go:241-248 | numbering a vertex keeps the invariant of indices, low links, stack and finished components |
| `TarjanInvariant.LookKeeps` | internal/codegen/multipkg.go:250-263 | looking at one edge keeps it |
| `TarjanInvariant.LeaveKeeps` | internal/codegen/multipkg.go:281-287 | leaving a vertex that is not a root keeps it |
| `TarjanInvariant.EmitKeeps` | internal/codegen/multipkg.go:268-280 | the vertices popped at a root are one maximal mutually reachable set, all of whose outside edges go to components emitted before |
| `Reachability.ComputeReachableFuncs` | internal/codegen/reachability.go:37-94 | the result is exactly the closure under calls of the start function, the table entries and the kept exports |
| `Reachability.Marker.Propagate` | internal/codegen/reachability.go:86-92 | the work list ends with exactly what the marked functions reach |
| `Reachability.LiveUniform` | internal/codegen/multipkg.go:67-78 | mutually reachable functions are live together, so one member decides for a component |
| `FirstFit.Pack` | internal/codegen/multipkg.go:96-118 | first-fit decreasing: a bin below the limit goes to the first chunk that, with the bins packed before it, has room, and opens a new chunk exactly when none has, as a bin at or above the limit always does; every chunk holds what came to it in that order, so bins are never split or lost and bytes are conserved; a chunk exceeds the limit only if it is a single bin, and any two chunks exceed it together |
| `FirstFit.SortIsStable` | internal/codegen/multipkg.go:89-91 | the bins are packed by falling size, and bins of one size in the order they came in |
| `Packing.ChunkCount` | internal/codegen/multipkg.go:96-118 | if any two chunks exceed the limit together, `k >= 2` chunks satisfy `k * limit < 2 * total` |
| `MultiPkg.PlanLinknamePackagesWith` | internal/codegen/multipkg.go:51-134 | the plan never splits a component, lists each kept function in exactly one chunk in ascending order, conserves bytes, and keeps the bounds on chunk size and number; every function lies in the chunk that first-fit decreasing over the components gives |
| `MultiPkg.PlanIsGood` | internal/codegen/multipkg.go:51-134 | the same from the packed bins, for any reachability filter |
| `MultiPkg.PlansExactlyLive` | internal/codegen/multipkg.go:75-84 | filtered by the reachability result the plan holds exactly the live functions |
| `FusedTree.SameValue` | internal/codegen/simd_fuse.go:573-583 | a topological rearrangement that keeps the order of memory operations gives every node the value it had, if stores and scalar loads are not mixed |
| `FusedTree.SameFinalMemory` | internal/codegen/simd_fuse.go:592-601 | and leaves memory the same |
| `FusedTree.MixedLosesValue` | internal/codegen/simd_fuse.go:1868-1885 | with a store and a scalar load in one region, a topological rearrangement that keeps the order of vector memory operations may change a value, so the guard is needed |
| `Reassociate.TreeVal` | internal/codegen/simd_fuse.go:510-530 | a tree of one associative operation is the left fold of its leaves in walk order, by associativity alone |
| `Reassociate.SlotVal` | internal/codegen/simd_fuse.go:549-566 | slot `k` of a rewritten chain holds the fold of the first `k + 2` leaves |
| `Reassociate.SameOutside` | internal/codegen/simd_fuse.go:549-566 | nodes other than the interior of a rewritten chain keep their values |
| `ChainRewrite.UsesKept` | internal/codegen/simd_fuse.go:484-566 | rewriting a chain leaves every use count as it was, so the counts taken before the first rewriting stay right |
| `ChainRewrite.ChainQualifies` | internal/codegen/simd_fuse.go:504-548 | what the walk gathers is a chain whose interior nobody else uses and whose leaves fit their slots |
| `SimdFuse.FusedTreeBuilder.Collect` | internal/codegen/simd_fuse.go:506-526 | the walk gathers exactly the interior nodes and, in order, the leaves under an argument |
| `SimdFuse.FusedTreeBuilder.FoldChain` | internal/codegen/simd_fuse.go:499-566 | a chain is rewritten exactly when it has two interior nodes and every leaf comes before its slot, and then into the left fold |
| `ChainFold.FoldKeeps` | internal/codegen/simd_fuse.go:499-566 | the rewriting of one chain keeps topological order, operations, use counts, memory and all values outside the interior |
| `ChainFold.SameTree` | internal/codegen/simd_fuse.go:484-530 | whatever was folded before, the walk under the next head gathers the tree it has in the region as it came, because what reads the inside of a folded tree belongs to that tree |
| `ChainFold.FoldsTree` | internal/codegen/simd_fuse.go:499-571 | one round of the loop over the heads: the tree is folded exactly if it is foldable in the region as it came, and the trees folded before are left alone |
| `SimdFuse.FusedTreeBuilder.ReassociateChains` | internal/codegen/simd_fuse.go:484-571 | the whole pass, said of the region as it came: the heads are exactly the foldable nodes that do not lie inside the tree of another head; each of their trees becomes the left fold of its leaves and nothing else changes; every node outside the interiors of these trees, heads and roots included, keeps its value; memory, operations and use counts stay |
| `ScheduleOrder.AlwaysReady` | internal/codegen/simd_fuse.go:668-730 | while a vector node is left one is ready, so the bail-out of the greedy loop is dead |
| `ScheduleOrder.EmitKeeps` | internal/codegen/simd_fuse.go:626-667 | emitting a ready node keeps operands before uses, memory operations in order, and the dependency counters |
| `ScheduleOrder.SinkKeeps` | internal/codegen/simd_fuse.go:731-770 | a pure node may move down to its one use |
| `ListSchedule.Pick` | internal/codegen/simd_fuse.go:668-727 | a node is picked whenever one is ready: one that chains on the node emitted last if there is one, else one that frees a value, else the pure one that comes first, and a memory operation only if no pure node is ready |
| `ListSchedule.Walk` | internal/codegen/simd_fuse.go:584-730 | all vector nodes once, operands first, memory operations in their original order, and every node the best of those ready when it was emitted |
| `SplatSink.SinkSplats` | internal/codegen/simd_fuse.go:731-770 | between a splat with one use that is no root and the node that uses it nothing stands but splats like it; all other nodes keep their order, and operands still come first |
| `ScalarSplice.Place` | internal/codegen/simd_fuse.go:775-790 | a scalar node is placed behind everything it reads and never twice |
| `ScalarSplice.Splice` | internal/codegen/simd_fuse.go:771-804 | with the scalar chains spliced in, every node is listed once, after all its operands; the vector nodes keep their order, and what stands in front of one is only what it reads |
| `ScalarSplice.Renumber` | internal/codegen/simd_fuse.go:805-828 | the renumbered list is the old one permuted, with arguments still pointing backward |
| `SimdFuse.FusedTreeBuilder.ScheduleNodes` | internal/codegen/simd_fuse.go:584-863 | the new list is the reassociated one in the order of the schedule: best node first, splats sunk to their use, scalars in front of their first reader; it is topologically ordered, keeps the order of vector loads and stores, carries the SSA values along, and gives every remapped root the value it had and memory its final state when stores and scalar loads are not mixed |
| `Reorder.EarlyFirst` | internal/codegen/simd_fuse.go:2126-2143 | statements that are independent of those they overtake may all run first |
| `HoistInterveners.FuseInterferenceFree` | internal/codegen/simd_fuse.go:2161-2187 | accepted exactly when no intervener writes what an earlier candidate reads or writes, or reads what one writes |
| `HoistInterveners.StoresUncrossed` | internal/codegen/simd_fuse.go:1886-1906 | accepted exactly when no memory read moves ahead of an earlier store |
| `HoistInterveners.MayHoist` | internal/codegen/simd_fuse.go:1886-2002 | both checks together, over the interveners as gathered |
| `HoistInterveners.HoistKeepsMeaning` | internal/codegen/simd_fuse.go:1981-2002 | for every accepted window, running all interveners first leaves every variable and all memory as in the original order |
| `FlatEmit.FlatEmitter.PassthroughTarget` | internal/asmgen/asmgen.go:1508-1531 | the block that `FlatCode.TargetIff` characterises |
| `FlatCode.TargetIff` | internal/asmgen/asmgen.go:1508-1531 | a block is the target exactly when a path of at most eight blocks that do nothing but lead on reaches it, and it is the eighth hop or does something itself |
| `FlatEmit.FlatEmitter.EmitBlock` | internal/asmgen/asmgen.go:1566-1746 | a block is emitted or rejected as its kind demands; the code is that of the specification |
| `FlatEmit.FlatEmitter.EmitFunc` | internal/asmgen/asmgen.go:450-465 | a function is emitted exactly when all its blocks can be |
| `FlatSim.CodeIsLaidOut` | internal/asmgen/asmgen.go:456-465 | every block's code follows the one before, and every label is found in the code of its own block |
| `FlatSim.BranchRuns` | internal/asmgen/emit_archs.go:103-114 | a conditional branch reaches the right target also when a jump is dropped or the condition inverted |
| `FusedBranch.JumpIfIsJump` | internal/asmgen/emit_archs.go:51-114 | a conditional jump of the flat program is taken exactly when the jump instruction chosen for the comparison is, on the flags of that comparison |
| `FusedBranch.FusedBranchRuns` | internal/asmgen/emit_archs.go:51-114 | a fused compare-and-branch, in each of its three forms, goes to the block that the comparison of the operands selects |
| `FlatSim.IfRuns` | internal/asmgen/asmgen.go:1645-1711 | with phis on either side the copies of the edge taken, and only those, run |
| `FlatSim.CasesRun` | internal/asmgen/emit_archs.go:38-49 | the chain of comparisons routes every selector value as the table does |
| `FlatSim.FlatRuns` | internal/asmgen/asmgen.go:1566-1746 | from every block, state and fuel the program does what the graph with redirected edges does, block for block |
| `FlatSim.RedirectRuns` | internal/asmgen/asmgen.go:1476-1531 | every run of the redirected graph is a run of the graph that also passes the empty blocks |
| `FlatSim.FlatAgrees` | internal/asmgen/asmgen.go:1476-1746 | whatever the flat program does is a run of the graph, and whatever the graph finishes with the program finishes with |
| `FusedCompare.LoweringIsRight` | internal/asmgen/emit_archs.go:165-196 | for all 32- and 64-bit operands the jump chosen for a fused comparison is taken exactly when it holds, its inverse exactly when not |
| `FusedCompare.SignedLess` | internal/asmgen/emit_archs.go:186-193 | sign and overflow of the subtraction differ exactly when the first operand is the smaller signed number |
| `DeadStores.DeadStoreSweep.Mark` | internal/asmgen/asmgen.go:552-613 | the sweep marks exactly the stores whose slot is next touched by a store of the same width before control can leave |
| `DeadStores.DeadStoreSweep.Eliminate` | internal/asmgen/asmgen.go:552-635 | the output is the code without exactly those stores |
| `DeadStores.EliminationKeepsRuns` | internal/asmgen/asmgen.go:528-551 | every run of the shortened program, jumps into the middle included, agrees with the original at every jump, call, return and at the end |
| `RegTrack.RegTracker.Look` | internal/asmgen/regtrack.go:129-275 | one instruction updates the four maps and is kept, dropped or rewritten as the specification says |
| `RegTrack.RegTracker.Rewrite` | internal/asmgen/regtrack.go:48-275 | the output of the pass is the specified sweep |
| `RegTrack.StepKeeps` | internal/asmgen/regtrack.go:81-125 | every mapped register and immediate still equals its slot after an instruction that is harmless where it stands |
| `RegTrack.EmittedSame` | internal/asmgen/regtrack.go:174-229 | a dropped or rewritten load does what the load did |
| `RegReuse.ReloadDropped` | internal/asmgen/regtrack.go:165-201 | anywhere in a program: a load into the register that was stored to the slot or loaded from it before is dropped, if neither slot nor register is written in between and control goes straight on |
| `RegReuse.ReloadMoved` | internal/asmgen/regtrack.go:216-229 | a load of a slot stored from a register that is still there becomes a move from that register, unless it is dropped |
| `RegReuse.ImmediateLoaded` | internal/asmgen/regtrack.go:202-215 | a load of a slot that was given an immediate at the same width becomes a load of the immediate, unless it is dropped |
| `RegTrack.SweepKeepsRuns` | internal/asmgen/regtrack.go:40-47 | if every instruction is harmless where the sweep meets it, every run of the rewritten program is the run of the original |
| `RegTrack.StoreHarmlessIff` | internal/asmgen/regtrack.go:96-103 | a store keeps the maps right from every state in which they were right exactly when the tracker knows of no other register mirroring the slot, or knows that the slot does not change |
| `RegTrack.StoreImmHarmlessIff` | internal/asmgen/regtrack.go:242-262 | the same for storing an immediate |
| `RegTrack.StoreOtherHarmlessIff` | internal/asmgen/regtrack.go:242-262 | the same for a move of anything else into a slot, over all that may be stored |
| `RegTrack.CallHarmlessIff` | internal/asmgen/regtrack.go:96-119 | a call keeps the maps right, whatever the callee does, exactly when no register that survives it is mapped |
| `RegTrack.StaleMirror` | internal/asmgen/regtrack.go:96-103 | a program of five instructions on which the pass changes the result: two registers mirror a slot, only one is forgotten when it is overwritten |
| `Coalesce.NaturalLoopBody` | internal/asmgen/regalloc_coalesce.go:374-398 | the body is exactly the header and the blocks from which the latch is reached without passing it |
| `Coalesce.CoalesceUsesSafe` | internal/asmgen/regalloc_coalesce.go:430-483 | accepted exactly when the carry is a value of the latch and no other read of the phi comes after it, on an edge, or outside the loop; with live-out reads allowed, values outside the loop may read the phi |
| `Coalesce.PhiReadsSeeEntry` | internal/asmgen/regalloc_coalesce.go:413-429 | for every accepted loop, with or without live-out reads, and over every run in one register: each read of the phi other than the carry's own sees what the phi was set to at the last header entry (with live-out reads, each read inside the loop), although the carry overwrites the register and whatever reads the carry |
| `Coalesce.LatchHandsOver` | internal/asmgen/regalloc_coalesce.go:20-48 | from the carry to the end of the latch the register holds what the carry computed, so the back edge needs no copy |
| `Coalesce.LiveOutSeesEntry` | internal/asmgen/regalloc_coalesce.go:457-466 | with live-out reads, and nothing else touching the register outside the loop: over every run, wherever it is, the register holds the phi of the last header entry until the carry is written, unless the run has left the loop by the latch since |
| `Coalesce.ExitKeepsPhiIff` | internal/asmgen/regalloc_coalesce.go:457-466 | a way out of an accepted loop hands the phi on, whatever the code computes, exactly when it does not start at the latch |
| `Coalesce.PhiLostAfterLatch` | internal/asmgen/regalloc_coalesce.go:457-466 | an accepted loop, left by the latch, whose exit block reads 7 where the phi was 3 |
| `Coalesce.CarryLocalIff` | internal/asmgen/regalloc_coalesce.go:334-361 | a block does the same in one register as in two, for all code and all states that are as they should be, exactly when it reads the carry only in the latch after it is written or on the edges out of it |
| `Coalesce.CarryLostAfterLoop` | internal/asmgen/regalloc_coalesce.go:349-359 | an accepted loop whose exit block overwrites the register and then reads the carry: 9 instead of 7 |
| `Coalesce.SharingIsSafe` | internal/asmgen/regalloc_coalesce.go:20-48 | over every run of an accepted loop whose blocks all read the carry that way, phi and carry in one register give the same blocks and the same state as phi and carry apart |
| `FusedWindow.ResolveFusedWindow` | internal/asmgen/fusedwindow.go:111-262 | a window is accepted exactly when its members lie unclaimed in one block, what stands between them may go first, only roots are read outside, and its operands and roots can be addressed; the last is a parameter |
| `FusedWindow.NoOtherReader` | internal/asmgen/fusedwindow.go:188-206 | when the counts of all uses and of uses inside the window agree there is no other reader |
| `FusedWindow.Planner.PlanFusedWindows` | internal/asmgen/fusedwindow.go:62-104 | in order, a window is planned exactly when it is acceptable beside those planned before, at the one place it has; every planned window stands at its last member and shares no member with another |
| `FusedWindow.DeferralKeepsMeaning` | internal/asmgen/fusedwindow.go:106-110 | deferring all members to the last one gives every value but the hidden members, and memory, what they have in block order |
| `FusedWindow.DeferralUnseen` | internal/asmgen/fusedwindow.go:188-206 | after one execution of a window, no other code of the function sees the difference; `WindowRuns` takes this to runs |
| `WindowRuns.BlockAgrees` | internal/asmgen/emitarm64.go:560-572 | a block with all its planned windows emitted at their last members, the other members left out, ends as the block in order does, but for members no one outside their window reads |
| `WindowRuns.RunsAgree` | internal/asmgen/fusedwindow.go:62-104 | over every run, loops and repeated windows included, the function with all planned windows fused has the memory and every value but the hidden members as the function in block order |
| `WindowRuns.SameWay` | internal/asmgen/fusedwindow.go:188-206 | and every block is left on the same value of its control, so both runs take the same way |
| `SlotReuse.CrossBlock` | internal/asmgen/asmgen.go:2627-2671 | the values read by an argument or a control outside their block |
| `SlotReuse.LastUses` | internal/asmgen/asmgen.go:2673-2786 | the last recorded read of every value of a block, phi arguments, control and results counted at its end |
| `SlotPlan.SlotPlanner.AssignSlots` | internal/asmgen/asmgen.go:2672-2940 | a layout in which shared values of a block whose lifetimes meet have different slots, dedicated values are alone, and no two slots overlap; a shared value is the first in its slot only if every shared slot of its shape that was there before is held by an earlier value of its block that is still to be read; every slot lies no further than alignment requires behind another or the callee area, and the frame ends with one |
| `SlotPlan.SlotPlanner.Place` | internal/asmgen/asmgen.go:2787-2933 | one value: expired slots are handed back, then it gets its own, or a free one of its size and alignment if there is one, and a new one only if not |
| `SlotPlan.LayoutSound` | internal/asmgen/asmgen.go:2672-2940 | the steps of the planner, one value after another over all blocks, keep what `AssignSlots` promises |
| `SlotMeaning.MeetingApart` | internal/asmgen/asmgen.go:2609-2626 | two values of a block overlap only if one is defined after the last recorded read of the other |
| `SlotMeaning.DedicatedApart` | internal/asmgen/asmgen.go:2903-2908 | a cross-block, 8-byte, pinned or ineligible value overlaps nobody |
| `SlotMeaning.RecordedReadsSeeIt` | internal/asmgen/asmgen.go:2693-2785 | from any memory, every recorded read of a block's own value finds what this execution stored |
| `SlotMeaning.DedicatedHolds` | internal/asmgen/asmgen.go:2903-2908 | over every run the slot of a dedicated value holds what was last stored to it |
| `SlotMeaning.CopiesSpareShared` | internal/asmgen/asmgen.go:2706-2747 | phi copies at the end of a block leave the shared slots alone |
| `CompactFrame.FramePlan.Compact` | internal/asmgen/compact_frame.go:41-147 | surviving slots are packed in order from the callee area, temporaries behind them, and the frame ends eight-aligned behind those |
| `CompactFrame.SurvivorsApart` | internal/asmgen/compact_frame.go:77-84 | survivors are aligned, share a new slot exactly when they shared an old one, and are otherwise disjoint |
| `CompactFrame.SurvivorsBelowTemps` | internal/asmgen/compact_frame.go:101-109 | survivors end below the temporaries |
| `CompactFrame.TempsApart` | internal/asmgen/compact_frame.go:110-141 | temporaries are aligned and disjoint |
| `CompactFrame.NeverGrows` | internal/asmgen/compact_frame.go:143-147 | the frame never grows |
| `CompactFrame.CompactTwice` | internal/asmgen/compact_frame.go:36-40 | running the pass twice is running it once |
| `FrameChain.LaidCompacts` | internal/asmgen/compact_frame.go:41-84 | whatever moved to registers, what slot allocation laid out is what packing needs: sharers of a slot have one shape, and slots lie aligned and in order |
| `FrameChain.PackedFrameFits` | internal/asmgen/compact_frame.go:41-147 | so packing an allocated frame never makes it grow, and survivors share or are disjoint as before |
| `LinearScan.LastUses` | internal/asmgen/regalloc.go:159-227 | no value is read in its block or on an outgoing edge after its recorded last use, and every recorded last use is a read |
| `LinearScan.CrossBlock` | internal/asmgen/regalloc.go:228-305 | the values read in another block or by a phi of their own block |
| `LinearScan.Expire` | internal/asmgen/regalloc.go:376-389 | registers last read before a position become free, whatever order the map is walked in |
| `LinearScan.ScanBlock` | internal/asmgen/regalloc.go:152-457 | for any pools of distinct registers: two values of a block have one register only if the first is last read before the second is defined; no lifetime spans a CALL; reserved registers and the module cache are not given out; cross-block values get none; a local value that could have a register goes without only if every register it could get is held by an earlier value that is read here or later; each step is one of the specified scan |
| `RegHomes.RegPlan.ComputeRegHomes` | internal/asmgen/regalloc.go:132-148 | that holds for all blocks at once, the homes of coalesced loop carries stay, every home is of the class of its value if those were, and in no block a value goes without a register that was left unused |
| `RegHomes.ReadsSeeRegister` | internal/asmgen/regalloc.go:307-325 | in every execution of a block each read of a homed value finds it in its register, CALLs clobbering all of them |
| `RegHomes.RegPlan.ApplyOverrides` | internal/asmgen/regalloc16_bridge.go:80-135 | for any iteration order: the homes are those of walking the new homes one by one with phis and their direct arguments exempt, and an overridden value ends as the only holder of its new register |
| `RegHomes.OverrideKeepsHomes` | internal/asmgen/regalloc16_bridge.go:102-135 | for the pools of any architecture, overrides that respect register classes keep everything the scan promised; exempt coalesced values keep their homes, and no overridden value takes a register that anybody holds |
| `RegHomes.PhiTouched` | internal/asmgen/regalloc16_bridge.go:80-93 | the exempt values are exactly the phis and what stands as an argument of one |
| `RegHomes.KeepsHomeIff` | internal/asmgen/regalloc16_bridge.go:80-135 | a value, coalesced or not, keeps its home under all new homes within the register classes, all spills and iteration orders, exactly when it is a phi or stands as an argument of one, or no override register of its own class is free |
| `RegHomes.CarryLosesHome` | internal/asmgen/regalloc16_bridge.go:80-93 | a coalesced carry that its phi names through a copy moves from R12 to DI while the phi stays |
| `RegHomes.AmdSuits` | internal/asmgen/regalloc16_bridge.go:293-316 | the amd64 pools hold distinct registers of two kinds, and overrides spare the module cache |
| `RegHomes.ArmSuits` | internal/asmgen/emitarm64.go:168-192 | the same for the arm64 pools |

## Left out

- `buildCallGraph` and `scanDirectCalls`: decoding of function bodies; call graphs are arbitrary.
- `analyzeLoops`, `blocksReachingRet` and the post-dominator computation: the emitter is proved for arbitrary tables.
- Rendering of expressions, conditions and phi copies as Go syntax, staging of parallel copies, declarations: a flag says whether a piece can be rendered, and its meaning is abstract.
- The state of the structured emitter after a failed emission; the caller falls back to another emitter.
- `peakLive`, the shape key, gather normalization and the register budgets: heuristics that decide whether a region is used, not what it means.
- The walk that builds a fused region, and definitions that drop out of a window because the region absorbed them.
- FusedWindow.ResolveFusedWindow: operand resolution (`internal/asmgen/fusedwindow.go:208-262`) is the field `resolves` of a window; slots and frame references of its parameters are not computed, and the model reads operands as values, which is what pinning their slots provides.
- `prescanFusedWindows`: which operands are pinned is a parameter of the slot planner.
- runCoalesceWith: the loop over back edges, type and eligibility filters and the taking of registers from the pool; safety of one coalesced pair is what is proved.
- FusedWindow.DeferralUnseen: speaks of one execution of one window; all windows over whole runs are `WindowRuns.RunsAgree`.
- WindowRuns: phi copies of an edge are arbitrary statements that read phi arguments and temporaries; their staging is not modelled.
- SlotReuse.LastUses: lifetimes are those the code records; a phi argument defined in the phi's own block but copied on an edge from another block is recorded at the end of its block only, and nothing is claimed about the later read. Operands of comparisons absorbed by a branch are likewise covered only where they are recorded.
- The slot allocation that follows the overrides, and the cross-block allocator itself, whose package is not part of this model.
- RegTrack: divisions write two registers the tracker does not see; they are outside the model, as each is followed by a store of its result and a jump. Instructions other than moves are taken not to write slots.
- Peephole rewrites, module-pointer deduplication, per-operation lowering, calls, returns and argument frames.
- FusedCompare: the arm64 twins of branch emission; the amd64 forms are modelled.
- FirstFit.Pack: byte totals are unbounded integers.
- FlatEmit.FlatEmitter.EmitBlock: a table with more case lists than successors is rejected, where the code would index out of range.
- `sort.Slice`, `sort.SliceStable` and `sort.Ints` are modelled by insertion sorts.
