# Immutability analysis: a verified model of its engines

The repository is an LLVM pass that decides whether the public `const` methods
of a C++ class really leave the object unchanged. This project models the
engines that drive it and proves what they promise:

- **The per-function solver** (`FunctionAnalysis`): a FIFO worklist of basic
  blocks, abstract heaps stored per control-flow edge and overwritten there, a
  loop that postpones blocks whose predecessors have no state yet, an optional
  ignored edge, and a merge of the exit states.
  `SolverSpec`, `StepMeaning`, `Fixpoint`, `Solver`, `PathSoundness`, `HiddenBranch`,
  `Reachability`, `Acyclic`, `LoopTermination`, `MergeCounting`, `LoopExamples`,
  `EdgeSplitting`, `FunctionResult`.
- **Its recursion over calls** (`handleCall`): a nested analysis for each call,
  cut where the parent chain already holds the function.
  `ParentChain`, `Lockstep`, `Interprocedural`, `CallTermination`, `CallTraces`.
- **The cross-method closure** (`ImmutabilityAnalysis`): up to sixteen tasks that
  take an initial state of some method under a mutex, run the method, and publish
  its final state to every method unless it is subsumed there.
  `SharedStates`, `Ledger`, `Closure`, `CallSequences`, `EndToEnd`.
- **The class queries** (`ClassQuery`): inherited types and virtual tables by a
  breadth-first search, and where one struct sits inside another.
  `Hierarchy`, `Layout`, and `Receiver` for the choice of the struct of `this`.
- **The call-tree counter** (`FunctionTest`). `CallTree`.

The bodies of the heap operations (`Merge.cpp`, `Equivalent.cpp`,
`MoreSpecific.cpp`, `Clone.cpp`) are not in the repository, so the engines are
proved over every abstract domain that satisfies the laws in `AbstractDomain`
and `SolverSpec.Problem.Valid`: `moreSpecific` is a preorder with bottom least;
`merge` is an upper bound and respects mutual specificity; `equivalent` implies
mutual specificity; PHI transfers, refinements and the return marking are
monotone, and refinement keeps bottom. Nothing asks `merge` for a least upper
bound or the domain for finite height.

The transfer of an instruction or call, `visit`, only has to respect mutual
specificity. It need not be monotone, because for a call it is a whole nested
run. What instructions and calls really do along a path is a separate effect
(`PathSoundness.Effects`), monotone and below what `visit` computed from the
states the solver ended with. `PathSoundness.OwnIsBelow` takes `visit` itself as
the effect where it is monotone. For calls, `Interprocedural` proves that nested
runs respect mutual specificity, where `equivalent` decides it, and `CallTraces`
that what a callee does along its own paths is below the nested run's result.
Monotone are asked to be: ordinary instructions, unknown calls, and the mapping of
arguments and results; not the nested runs. The function a call enters depends on
the state it is reached with, as `getVTableEntry` looks a virtual call up by the
type of the receiver's node; states that are the same must give the same function.
Nothing makes that the function the program really enters, so soundness is stated
for the executions that an analysis *resolves*: at the calls on them, from its
final states, it enters the functions they enter (`CallTraces.Resolves`). Direct
calls are always resolved (`CallTraces.FixedResolves`).

A round of `run` is modelled as one step per block: the instruction deque never
holds more than one iterator, so taking a block, running its instructions and
handling its terminator follow each other without interleaving. Iteration over
`DenseMap` and `SmallPtrSet` is an arbitrary choice in every loop that does it;
in `Interprocedural` it is a function of the blocks processed and the exit blocks.

## What the proofs found

- A conditional branch whose two targets are the same block can lose its false
  side: `getCurrentState` compares the target with the first successor, so both
  edges are refined as if the condition held. A path is *lost* when it takes such
  a side and passes no landing pad. The function's result is above every complete
  path that is not lost (`PathSoundness.ResultCoversPath`), and no weaker
  condition on paths would do: on every graph there is an analysis whose result,
  after every run that stops, covers a complete path if and only if the path is
  not lost (`HiddenBranch.CoveredIffNotLost`; a concrete function in
  `HiddenBranch.HiddenSideExample`). With other analyses, such as one whose
  refinement changes nothing, a lost path may be covered all the same.
- When the single exit block is entered twice from one block, `getIgnoredEdges`
  returns the same edge twice and both runs return bottom
  (`EdgeSplitting.SharedEdgeResultIsBottom`; a concrete function, whose two runs
  stop, in `EdgeSplitting.SharedEdgeExample`). A complete path
  that is not lost and hands something back is covered by one of the two results
  if and only if the two edges differ (`EdgeSplitting.CoveredIffEdgesDiffer`).
- `run` need not stop, even over a finite lattice with least upper bounds and
  monotone transfers: on a block that jumps to itself, reading the initial state
  for the missing one and overwriting it afterwards can alternate for ever
  (`LoopExamples.FlippingNeverStops`, `LoopExamples.NoFlippingRunStops`). Which
  functions are safe from this is exact: every analysis, whose `equivalent` holds of
  a state and itself, stops on a function if and only if it has no loop that control
  can reach and go round without a landing pad.
  Without one all do, whatever edge is ignored
  (`LoopTermination.StopsWithoutLiveLoop`); with one the analysis that counts
  merges does not (`MergeCounting.StopsIffNoLiveLoop`). Calls add nothing to this:
  an analysis returns exactly when its own loop and the loops of the nested
  analyses it meets stop (`CallTermination.ReturnsIffMetLoopsStop`).
- `getIgnoredEdges` dereferences a null block exactly when a function has no exit
  block; this is the error outcome of `EdgeSplitting.GetIgnoredEdges`, and
  `LoopExamples.LoopingHasNoExit` is such a function.
- `getResult` fails its assertion exactly when no exit block is reached
  (`Reachability.ResultMissingIffNoExitReached`), as on the same function when the
  solver does stop (`LoopExamples.StopsWithoutExit`).
- `hasEquivalentInitialState` asks for `moreSpecific`, not for equivalence; the
  proofs use what it does.

## Model

| member | source | states |
|---|---|---|
| StepMeaning.InputIsMerge | Immutability/ImmutabilityAnalysis/FunctionAnalysis.cpp:143-175 | a block starts from the initial state, from bottom when nothing but bottom has arrived, or from the merge, in order, of the states that are neither bottom nor on the ignored edge, the initial state read for a missing one |
| StepMeaning.InputIgnoresEdge | Immutability/ImmutabilityAnalysis/FunctionAnalysis.cpp:154-157 | the state on the ignored edge does not matter to that |
| StepMeaning.PhiReadsIgnoredEdge | Immutability/ImmutabilityAnalysis/FunctionAnalysis.cpp:389-407 | but a PHI node reads the ignored edge like any other, exactly when its state is not bottom |
| StepMeaning.InstructionRuns | Immutability/ImmutabilityAnalysis/FunctionAnalysis.cpp:580-690 | nothing happens in a bottom state, a landing pad makes it bottom, a PHI node gets the edges it reads, and any other instruction has its transfer |
| StepMeaning.SendQueuesInOrder | Immutability/ImmutabilityAnalysis/FunctionAnalysis.cpp:432-453 | the blocks a terminator queues come behind the queue, in the order of the successors |
| Fixpoint.InputIsAbove | Immutability/ImmutabilityAnalysis/FunctionAnalysis.cpp:143-175 | a non-bottom state on an edge that is not ignored is below the block's input, and its source is among the live predecessors |
| Fixpoint.PhiHasLiveEdge | Immutability/ImmutabilityAnalysis/FunctionAnalysis.cpp:389-410 | the assertion in handlePHINode cannot fail: a block with PHI nodes that starts from a non-bottom state has a live incoming edge |
| Fixpoint.OutputCongruent | Immutability/ImmutabilityAnalysis/FunctionAnalysis.cpp:143-175 | replacing stored edge states by mutually specific ones, as happens without requeueing, changes no block's output beyond that |
| Fixpoint.FinishSettles | Immutability/ImmutabilityAnalysis/FunctionAnalysis.cpp:421-454 | after a block is finished, every processed block that is not queued has sent what its current input demands, including the block itself when it loops to itself or repeats a successor |
| Fixpoint.RoundKeeps | Immutability/ImmutabilityAnalysis/FunctionAnalysis.cpp:542-577 | one round of the main loop, fallback included, keeps the fixpoint invariant |
| Solver.RunHasInv | Immutability/ImmutabilityAnalysis/FunctionAnalysis.cpp:527-577 | the fixpoint invariant holds after every number of rounds; with an empty worklist it is a fixpoint over all processed blocks |
| Solver.LastPick | Immutability/ImmutabilityAnalysis/FunctionAnalysis.cpp:432-453 | since a processed block was last taken from the queue its input has not changed beyond mutual specificity |
| Solver.FunctionAnalysis.constructor | Immutability/ImmutabilityAnalysis/FunctionAnalysis.h:81-107 | the containers of a new analysis are those of a run of no rounds |
| Solver.FunctionAnalysis.Analysed | Immutability/ImmutabilityAnalysis/FunctionAnalysis.h:81-108 | the constructor with its loop: the worklist is empty and the edge and exit states are a fixpoint over the processed blocks |
| Solver.FunctionAnalysis.AddToWorklist | Immutability/ImmutabilityAnalysis/FunctionAnalysis.cpp:65-73 | a block is appended unless it is queued already |
| Solver.FunctionAnalysis.ShouldWait | Immutability/ImmutabilityAnalysis/FunctionAnalysis.cpp:104-121 | true exactly when some predecessor edge that is not ignored has no state |
| Solver.FunctionAnalysis.TakeBlock | Immutability/ImmutabilityAnalysis/FunctionAnalysis.cpp:543-555 | the first queued block that does not wait is taken, else the front; the rest is the old queue rotated; the count of tries reaches its maximum exactly when every queued block waits |
| Solver.ReadyDoesNotWait | Immutability/ImmutabilityAnalysis/FunctionAnalysis.cpp:548-555 | every block before the chosen one waits and the chosen one does not, unless all wait |
| Solver.FunctionAnalysis.AllBottomOrNull | Immutability/ImmutabilityAnalysis/FunctionAnalysis.cpp:123-141 | true exactly when every predecessor edge that counts is missing or bottom |
| Solver.FunctionAnalysis.Merge | Immutability/ImmutabilityAnalysis/FunctionAnalysis.cpp:143-175 | the initial state without predecessors, else the merge of the non-bottom predecessor states, else bottom |
| Solver.FunctionAnalysis.StartBlock | Immutability/ImmutabilityAnalysis/FunctionAnalysis.cpp:561-567 | the short-cut for a block taken although it waits and the merge of all others compute one function of the edge states |
| Solver.FunctionAnalysis.HandlePhi | Immutability/ImmutabilityAnalysis/FunctionAnalysis.cpp:389-410 | the PHI transfer gets exactly the incoming edges whose state, or else the initial state, is not bottom, the ignored edge among them |
| Solver.FunctionAnalysis.RunInstructions | Immutability/ImmutabilityAnalysis/FunctionAnalysis.cpp:584-687 | the instructions run one after the other, each as the source does it, from the state the block starts with to the one its terminator gets |
| Solver.FunctionAnalysis.SendState | Immutability/ImmutabilityAnalysis/FunctionAnalysis.cpp:438-452 | the successor is queued unless its edge held an equivalent state, and that state is overwritten either way |
| Solver.FunctionAnalysis.HandleTerminator | Immutability/ImmutabilityAnalysis/FunctionAnalysis.cpp:421-454 | an exit state is stored, or each successor not ended by unreachable gets the refined state and is queued unless its old state is equivalent; nothing else changes |
| Solver.FinishRequeues | Immutability/ImmutabilityAnalysis/FunctionAnalysis.cpp:443-450 | exactly the successors with a missing or changed edge state are queued |
| Solver.FunctionAnalysis.ProcessNext | Immutability/ImmutabilityAnalysis/FunctionAnalysis.cpp:542-577 | the steps together are one round of the specification |
| Solver.FunctionAnalysis.RunToEnd | Immutability/ImmutabilityAnalysis/FunctionAnalysis.cpp:527-690 | the main loop, on a problem with a run that stops: it ends, at a fixpoint over the processed blocks |
| Solver.FunctionAnalysis.Run | Immutability/ImmutabilityAnalysis/FunctionAnalysis.cpp:527-690 | whenever the loop is left, the containers satisfy the fixpoint invariant; within the budget it stops exactly when the worklist is empty |
| Solver.FunctionAnalysis.GetResult | Immutability/ImmutabilityAnalysis/FunctionAnalysis.cpp:456-525 | the return and resume states that are not bottom, each once and with its return value unless the function is void, are merged from the left in some order; bottom when there is none; and it fails exactly without exit states |
| Solver.ExitsAreMerged | Immutability/ImmutabilityAnalysis/FunctionAnalysis.cpp:495-511 | the fold of exit states is that merge |
| PathSoundness.TakenIsBelowSent | Immutability/ImmutabilityAnalysis/FunctionAnalysis.cpp:177-198 | the refinement by the side really taken is below the one sent, unless both sides meet and the false one is taken |
| PathSoundness.PathIsCovered | Immutability/ImmutabilityAnalysis/FunctionAnalysis.cpp:421-454 | when the worklist is empty, composing what blocks do and the branch refinements along a path that hides no false side stays below the state on its last edge and its last block's output |
| PathSoundness.OwnIsBelow | Immutability/ImmutabilityAnalysis/FunctionAnalysis.cpp:578-690 | monotone transfers of the solver itself may be taken as what the instructions do |
| PathSoundness.EdgeCoversPath | Immutability/ImmutabilityAnalysis/FunctionAnalysis.cpp:421-454 | the same for the last edge of every path that hides no side, or that a landing pad stops before |
| PathSoundness.ExitCoversPath | Immutability/ImmutabilityAnalysis/FunctionAnalysis.cpp:412-419 | every path to an exit that is not lost is below the exit state |
| PathSoundness.ResultCoversPath | Immutability/ImmutabilityAnalysis/FunctionAnalysis.cpp:456-525 | the function's result is above what every complete path returns that is not lost |
| HiddenBranch.EdgeCoveredIffNotHidden | Immutability/ImmutabilityAnalysis/FunctionAnalysis.cpp:177-198 | on every graph there is a valid analysis whose runs, when they stop, cover the state on a path's last edge if and only if the path hides no side or passes a landing pad before that edge |
| HiddenBranch.CoveredIffNotLost | Immutability/ImmutabilityAnalysis/FunctionAnalysis.cpp:177-198 | its result covers what a complete path returns if and only if the path is not lost |
| HiddenBranch.HiddenSideExample | Immutability/ImmutabilityAnalysis/FunctionAnalysis.cpp:177-198 | a two-block function on which the solver stops and the result misses the complete path through the false side |
| Reachability.StoppedRunProcessesReached | Immutability/ImmutabilityAnalysis/FunctionAnalysis.cpp:432-449 | a stopped run has processed exactly the blocks reached from entry without entering unreachable-terminated ones |
| Reachability.ResultMissingIffNoExitReached | Immutability/ImmutabilityAnalysis/FunctionAnalysis.cpp:456-461 | after a stopped run the assertion that the function exits fails if and only if no block without successors is reached |
| Acyclic.InOrderTakesReady | Immutability/ImmutabilityAnalysis/FunctionAnalysis.cpp:548-555 | without loops some queued block never waits, so the rotation finds it |
| Acyclic.RunEarns | Immutability/ImmutabilityAnalysis/FunctionAnalysis.cpp:432-453 | the target of an ignored edge is processed, or queued, at most once for each of its processed predecessors |
| Acyclic.StraightRunIsShort | Immutability/ImmutabilityAnalysis/FunctionAnalysis.cpp:542-577 | on a loop-free function with all blocks reachable no run has more rounds than blocks, or, when an edge into an exit is ignored, than the other blocks and the edge uses into that exit |
| Acyclic.StraightStops | Immutability/ImmutabilityAnalysis/FunctionAnalysis.cpp:542-577 | so on such a function some run, the only one that does, reaches an empty worklist |
| Acyclic.SplitRunIsShort | Immutability/ImmutabilityAnalysis/ImmutabilityAnalysis.cpp:717-721 | a run that ignores one of the two edges into the only exit has at most one round more than there are blocks, and processes no block again but the exit |
| Acyclic.StraightRunIsComplete | Immutability/ImmutabilityAnalysis/FunctionAnalysis.cpp:542-577 | such a run processes each block not ended by unreachable exactly once and in topological order; with an ignored edge, all but its target |
| Acyclic.StraightRunNeverGivesUp | Immutability/ImmutabilityAnalysis/FunctionAnalysis.cpp:548-563 | such a run never takes a waiting block and never reads the initial state for a missing predecessor that counts |
| Acyclic.RunStraight | Immutability/ImmutabilityAnalysis/FunctionAnalysis.cpp:527-690 | the loop ends on such a function |
| LoopTermination.OutputStays | Immutability/ImmutabilityAnalysis/FunctionAnalysis.cpp:143-175 | once no further edge receives a first state and the states from live sources are quiet, a block's output stays the same |
| LoopTermination.BlockComesToRest | Immutability/ImmutabilityAnalysis/FunctionAnalysis.cpp:432-453 | then some run leaves the edges out of the block quiet for good |
| LoopTermination.StopsWithoutLiveLoop | Immutability/ImmutabilityAnalysis/FunctionAnalysis.cpp:542-577 | on a function without a live loop every analysis has a run that stops, with any ignored edge and any blocks that cannot be reached |
| MergeCounting.StoppedHasNoLiveLoop | Immutability/ImmutabilityAnalysis/FunctionAnalysis.cpp:143-175 | where the analysis that counts merges stops, the counts and the distances from entry rank the live edges |
| MergeCounting.StopsIffNoLiveLoop | Immutability/ImmutabilityAnalysis/FunctionAnalysis.cpp:542-577 | on every function that analysis stops if and only if there is no live loop |
| MergeCounting.StopsIffLoopless | Immutability/ImmutabilityAnalysis/FunctionAnalysis.cpp:542-577 | on a function without landing pads and with all blocks reachable, if and only if there is no loop |
| LoopExamples.FlippingIsMonotone | Immutability/ImmutabilityAnalysis/FunctionAnalysis.cpp:421-454 | an analysis of a two-block function over five states, with monotone transfers |
| LoopExamples.FlippingNeverStops | Immutability/ImmutabilityAnalysis/FunctionAnalysis.cpp:542-577 | for every number of rounds it has a run that long, whose worklist is not empty |
| LoopExamples.NoFlippingRunStops | Immutability/ImmutabilityAnalysis/FunctionAnalysis.cpp:542-577 | and no run of it has an empty worklist |
| LoopExamples.LoopingHasNoExit | Immutability/ImmutabilityAnalysis/ImmutabilityAnalysis.cpp:48-62 | the same function has no exit block for getIgnoredEdges to look at |
| LoopExamples.StopsWithoutExit | Immutability/ImmutabilityAnalysis/FunctionAnalysis.cpp:456-461 | another analysis stops on it and has no exit state |
| FunctionResult.Analyse | Immutability/ImmutabilityAnalysis/FunctionAnalysis.h:81-118 | if the loop ends, there is no result exactly when no exit is reached, and a result covers every complete path that is not lost |
| FunctionResult.AnalyseToEnd | Immutability/ImmutabilityAnalysis/FunctionAnalysis.h:81-118 | the same without a budget, where the loop ends |
| EdgeSplitting.GetIgnoredEdges | Immutability/ImmutabilityAnalysis/ImmutabilityAnalysis.cpp:48-70 | the two edges into the one exit block when it has exactly two incoming edge uses, no edges otherwise, and the error outcome exactly without exit blocks |
| EdgeSplitting.IgnoringRemovesUses | Immutability/ImmutabilityAnalysis/FunctionAnalysis.cpp:154-157 | ignoring an edge removes exactly the paths that take it |
| EdgeSplitting.PathTakesOneFinalEdge | Immutability/ImmutabilityAnalysis/ImmutabilityAnalysis.cpp:62-68 | a path to the exit takes exactly one of two different final edges, once |
| EdgeSplitting.PathSurvivesIffEdgesDiffer | Immutability/ImmutabilityAnalysis/ImmutabilityAnalysis.cpp:62-68 | a path to the exit survives in one of the two runs if and only if the final edges differ |
| EdgeSplitting.SplitRunsCoverPath | Immutability/ImmutabilityAnalysis/ImmutabilityAnalysis.cpp:717-721 | with different final edges every complete path that is not lost is below the result of one of the two runs |
| EdgeSplitting.SharedEdgeResultIsBottom | Immutability/ImmutabilityAnalysis/ImmutabilityAnalysis.cpp:62-68 | with one shared final edge both runs return bottom, so nothing is published |
| EdgeSplitting.CoveredIffEdgesDiffer | Immutability/ImmutabilityAnalysis/ImmutabilityAnalysis.cpp:62-68 | a complete path that is not lost and hands something back is covered by one of the two results if and only if the final edges differ |
| EdgeSplitting.SharedEdgeExample | Immutability/ImmutabilityAnalysis/ImmutabilityAnalysis.cpp:62-68 | a two-block function on which both runs stop and both results miss a path that hides nothing |
| SharedStates.InitialStates.constructor | Immutability/ImmutabilityAnalysis/ImmutabilityAnalysis.cpp:737-755 | after clearing, every method has its fresh state in Incomplete |
| SharedStates.InitialStates.HasEquivalentInitialState | Immutability/ImmutabilityAnalysis/ImmutabilityAnalysis.cpp:434-443 | true exactly when the state is more specific than a listed one |
| SharedStates.InitialStates.OfferOne | Immutability/ImmutabilityAnalysis/ImmutabilityAnalysis.cpp:450-468 | the state is pushed to Incomplete unless Complete or Incomplete subsumes it; absent keys become empty entries |
| SharedStates.InitialStates.HandleFinalState | Immutability/ImmutabilityAnalysis/ImmutabilityAnalysis.cpp:445-471 | the state is offered to every method once, in some order |
| SharedStates.InitialStates.TakeInitialState | Immutability/ImmutabilityAnalysis/ImmutabilityAnalysis.cpp:674-712 | a task finds nothing, erases an empty entry, or moves the last state of some method to Complete |
| Ledger.PublishKeeps | Immutability/ImmutabilityAnalysis/ImmutabilityAnalysis.cpp:445-471 | afterwards every method knows its version of the final state, nothing known is lost, and no push is below an earlier one |
| Ledger.PublishAdds | Immutability/ImmutabilityAnalysis/ImmutabilityAnalysis.cpp:445-471 | each method gets its version of the final state at the back of what is waiting, unless a listed state is above it, and nothing else changes |
| Ledger.SeededKeeps | Immutability/ImmutabilityAnalysis/ImmutabilityAnalysis.cpp:737-755 | before the loop each method has its fresh state waiting and nothing else |
| Ledger.TakeKeeps | Immutability/ImmutabilityAnalysis/ImmutabilityAnalysis.cpp:689-710 | moving a state loses nothing known and keeps the histories in balance |
| Ledger.EraseKeeps | Immutability/ImmutabilityAnalysis/ImmutabilityAnalysis.cpp:682-687 | erasing an empty entry loses nothing |
| Closure.DriverKeeps | Immutability/ImmutabilityAnalysis/ImmutabilityAnalysis.cpp:757-766 | every step of the driver keeps the invariant |
| Closure.RunKeeps | Immutability/ImmutabilityAnalysis/ImmutabilityAnalysis.cpp:714-721 | finishing one run and publishing it keeps the invariant |
| Closure.TraceHasInv | Immutability/ImmutabilityAnalysis/ImmutabilityAnalysis.cpp:674-766 | the invariant holds in every interleaving of driver and tasks |
| Closure.RunsArePublished | Immutability/ImmutabilityAnalysis/ImmutabilityAnalysis.cpp:445-471 | in every interleaving each run of each completed state is in flight, bottom, or known to every method |
| Closure.OnlyDriverMovesAfterTest | Immutability/ImmutabilityAnalysis/ImmutabilityAnalysis.h:23-30 | between seeing all futures invalid and reading Incomplete, no task can act |
| Closure.ExitIsQuiescent | Immutability/ImmutabilityAnalysis/ImmutabilityAnalysis.cpp:759-766 | when the loop is left no worker is in flight, nothing is pending, and Complete holds every fresh state and is closed under all runs |
| Closure.HistoryNeverBelow | Immutability/ImmutabilityAnalysis/ImmutabilityAnalysis.cpp:455-468 | a state pushed later for a method is never more specific than one pushed earlier, although states are taken from the back |
| Closure.RunsAreBounded | Immutability/ImmutabilityAnalysis/ImmutabilityAnalysis.cpp:714-721 | over finitely many states a class takes at most 2 * methods * states runs, those in progress among them |
| CallSequences.CallIsCovered | Immutability/ImmutabilityAnalysis/ImmutabilityAnalysis.cpp:646-672 | one call from a covered state leads to covered states only |
| CallSequences.ExitCoversSequences | Immutability/ImmutabilityAnalysis/ImmutabilityAnalysis.cpp:724-766 | at exit every sequence of calls on a fresh object starts its next call below a completed state |
| EndToEnd.PathEffectIsMonotone | Immutability/ImmutabilityAnalysis/FunctionAnalysis.cpp:177-198 | what a path returns is monotone in the state it starts from |
| EndToEnd.RunCoversPath | Immutability/ImmutabilityAnalysis/ImmutabilityAnalysis.cpp:703-721 | from a state in Complete, one of a method's runs, split or not, is above every complete path that is not lost, unless its one exit is entered twice from one block |
| EndToEnd.ExitCoversPathSequences | Immutability/ImmutabilityAnalysis/ImmutabilityAnalysis.cpp:646-766 | at exit, in every interleaving, every sequence of calls along such paths starts its next call below an analysed state; only runs from states in Complete are asked to have stopped |
| Lockstep.RunHasTwin | Immutability/ImmutabilityAnalysis/FunctionAnalysis.cpp:432-453 | from two initial states that are the same up to mutual specificity, the solver takes the same rounds |
| Solver.StoppedRunIsUnique | Immutability/ImmutabilityAnalysis/FunctionAnalysis.cpp:527-577 | a run that stops is the only run that stops |
| Interprocedural.Functions.HandleCallAlike | Immutability/ImmutabilityAnalysis/FunctionAnalysis.cpp:219-387 | handling a call, with its nested analysis, respects mutual specificity |
| Interprocedural.Functions.CallRuns | Immutability/ImmutabilityAnalysis/FunctionAnalysis.cpp:219-387 | a call of an unknown function, or of one on the chain or without a body, is an unknown call; one whose entry ends in unreachable is passed over; any other goes on with what the nested analysis returns, or with bottom |
| Interprocedural.Functions.BottomCallEndsBlock | Immutability/ImmutabilityAnalysis/FunctionAnalysis.cpp:356-360 | past a call whose nested analysis returned bottom, the rest of the block, its edges and its exit state are bottom |
| Interprocedural.Functions.ResultMerges | Immutability/ImmutabilityAnalysis/FunctionAnalysis.cpp:353-355 | the nested result is the merge of the exit states that are not bottom, each with its return value |
| Interprocedural.Functions.AnalysisIsValid | Immutability/ImmutabilityAnalysis/FunctionAnalysis.cpp:353 | every nested analysis is again a problem the solver is proved for |
| Interprocedural.Functions.HaltsAlike | Immutability/ImmutabilityAnalysis/FunctionAnalysis.cpp:353 | an analysis that stops with an exit state and with all the analyses of its calls also does from a state that is the same |
| Interprocedural.Functions.ResultAlike | Immutability/ImmutabilityAnalysis/FunctionAnalysis.cpp:354-387 | and returns the same result, up to mutual specificity |
| Interprocedural.Functions.FinalCallHalts | Immutability/ImmutabilityAnalysis/FunctionAnalysis.cpp:353 | a call analysed on the way also stops from the state it has at the end |
| CallTermination.AnalysisReturns | Immutability/ImmutabilityAnalysis/FunctionAnalysis.cpp:219-223 | the parent chain ends the recursion: when the loop of every frame stops, an analysis returns with the analyses of all its calls |
| CallTermination.AllReturnIffLoopsStop | Immutability/ImmutabilityAnalysis/FunctionAnalysis.cpp:353 | all analyses return if and only if the loops of all frames stop |
| CallTermination.ReturnsIffMetLoopsStop | Immutability/ImmutabilityAnalysis/FunctionAnalysis.cpp:353 | one analysis returns, with all those nested in it, if and only if its loop stops and so do the loops of the analyses it meets, from the states it meets them with |
| CallTermination.ReturnsWithoutLiveLoops | Immutability/ImmutabilityAnalysis/FunctionAnalysis.cpp:219-223 | in a program of functions without live loops that reach an exit, every analysis returns from every state, with any ignored edge |
| CallTraces.RealIsMonotone | Immutability/ImmutabilityAnalysis/FunctionAnalysis.cpp:219-387 | what a tree of calls does is monotone, although nested analyses need not be |
| CallTraces.FixedResolves | Immutability/ImmutabilityAnalysis/FunctionAnalysis.cpp:596-621 | calls whose function is fixed are resolved by every analysis |
| CallTraces.HappensIsBelow | Immutability/ImmutabilityAnalysis/FunctionAnalysis.cpp:219-387 | a call that follows its tree of calls, and is resolved, ends below what handleCall computed |
| CallTraces.TraceIsBelow | Immutability/ImmutabilityAnalysis/FunctionAnalysis.cpp:353 | so the solver's proofs apply to a path with its trees of calls that the analysis resolves, in every frame of the chain and with any ignored edge |
| CallTraces.ReturnedIsBelow | Immutability/ImmutabilityAnalysis/FunctionAnalysis.cpp:353-387 | interprocedural path soundness: a frame's result is above what every tree of calls returns that is resolved, complete and not lost at each level |
| CallTraces.ExitCoversClients | Immutability/ImmutabilityAnalysis/ImmutabilityAnalysis.cpp:646-766 | at exit, in every interleaving, every sequence of calls on a fresh object, each with a tree of calls that the runs resolve, starts its next call below an analysed state |
| Hierarchy.NothingIsSkipped | Immutability/ImmutabilityAnalysis/ClassQuery.cpp:677-688 | whatever is k inheritance steps away left the queue by level k, or the queue still holds an entry of level at most k |
| Hierarchy.AdvanceKeeps | Immutability/ImmutabilityAnalysis/ClassQuery.cpp:677-688 | marking at pop, with repeated entries, keeps the search breadth-first |
| Hierarchy.TurnDescends | Immutability/ImmutabilityAnalysis/ClassQuery.cpp:677-688 | each turn visits a new type or leaves one visited queue entry fewer |
| Hierarchy.TableAdvances | Immutability/ImmutabilityAnalysis/ClassQuery.cpp:709-726 | first-come filling keeps every slot with a nearest visited type that defines it |
| Hierarchy.SearchIsComplete | Immutability/ImmutabilityAnalysis/ClassQuery.cpp:669-728 | at an empty queue the supertypes are the images of the known reachable types other than the start, and each slot is a nearest definition or undefined everywhere |
| Hierarchy.ClassQuery.Expand | Immutability/ImmutabilityAnalysis/ClassQuery.cpp:681-688 | exactly the unvisited direct supertypes are queued and, if known, recorded |
| Hierarchy.ClassQuery.FillSlots | Immutability/ImmutabilityAnalysis/ClassQuery.cpp:709-726 | the table grows to the slots seen and keeps the entries it has |
| Hierarchy.ClassQuery.CloseOver | Immutability/ImmutabilityAnalysis/ClassQuery.cpp:669-728 | the search terminates on every finite graph, cyclic or not, with exactly the specified supertypes and table |
| Hierarchy.ClassQuery.PopulateNonDirect | Immutability/ImmutabilityAnalysis/ClassQuery.cpp:669-728 | a type's entries are exactly the specified ones and no other entry changes |
| Hierarchy.ClassQuery.PopulateAll | Immutability/ImmutabilityAnalysis/ClassQuery.cpp:512-514 | every listed type gets its exact supertypes and table |
| Layout.RSplit | Immutability/ImmutabilityAnalysis/ClassQuery.cpp:46-50 | a name is split around its last dot, if it has one |
| Layout.BaseNames | Immutability/ImmutabilityAnalysis/ClassQuery.cpp:39-56 | a base type is named by a stem with .base behind it, and perhaps a dot and a number behind that, except class.base and struct.base |
| Layout.HitIsFirst | Immutability/ImmutabilityAnalysis/ClassQuery.cpp:914-948 | the element where the search stops is the shortest, then lexicographically least, match |
| Layout.PassElement | Immutability/ImmutabilityAnalysis/ClassQuery.cpp:914-948 | passing an element misses no path |
| Layout.PopFront | Immutability/ImmutabilityAnalysis/ClassQuery.cpp:914-948 | dropping a struct whose elements were all passed misses no path |
| Layout.IsSupertype | Immutability/ImmutabilityAnalysis/ClassQuery.cpp:829-869 | true exactly when some non-empty index path ends at the struct or at a base type whose layout starts it |
| Layout.GetSupertypeIndices | Immutability/ImmutabilityAnalysis/ClassQuery.cpp:910-955 | the first path in breadth-first order to a match (or to the one hard-coded class); fails exactly when there is none |
| Layout.SearchesAgree | Immutability/ImmutabilityAnalysis/ClassQuery.cpp:829-955 | without the hard-coded class inside, indices exist exactly when isSupertype is true, and lead to the first match |
| Layout.FirstIsUnique | Immutability/ImmutabilityAnalysis/ClassQuery.cpp:910-955 | the first match is one path |
| Receiver.EnteredIffFound | Immutability/ImmutabilityAnalysis/ImmutabilityAnalysis.cpp:91-103 | a base type also enters the first struct of the module with its name less five characters, or null if there is none |
| Receiver.SubStructsComeFromElements | Immutability/ImmutabilityAnalysis/ImmutabilityAnalysis.cpp:105-117 | the recursion over elements collects exactly the structs at index paths and what base types stand for |
| Receiver.AddSubStructs | Immutability/ImmutabilityAnalysis/ImmutabilityAnalysis.cpp:105-117 | exactly those are added to the set |
| Receiver.ChooseReceiver | Immutability/ImmutabilityAnalysis/ImmutabilityAnalysis.cpp:320-336 | a later receiver is chosen over the current one exactly when it contains it, so one that contains all others and is contained in none is chosen in every order of the methods |
| ParentChain.Frame.RecursiveIffOnChain | Immutability/ImmutabilityAnalysis/FunctionAnalysis.cpp:200-208 | isRecursive answers whether the function is on the parent chain |
| ParentChain.Frame.ChainIsSimple | Immutability/ImmutabilityAnalysis/FunctionAnalysis.cpp:219-223 | no function repeats on a chain built past the guard |
| ParentChain.Frame.DepthIsBounded | Immutability/ImmutabilityAnalysis/FunctionAnalysis.h:63-70 | nesting is at most the number of defined functions |
| CallTree.AddCall | Immutability/ImmutabilityAnalysis/ImmutabilityAnalysis.cpp:527-537 | a followed call adds the callee's chains, each once, behind its site |
| CallTree.SameLength | Immutability/ImmutabilityAnalysis/ImmutabilityAnalysis.cpp:548-552 | two duplicate-free lists of the same chains have one length, so the count is well defined |
| CallTree.Counter.Test | Immutability/ImmutabilityAnalysis/ImmutabilityAnalysis.cpp:548-552 | the counter grows by the number of call-site chains that repeat no function, and each reachable block is popped once |
| CallTree.Counter.Run | Immutability/ImmutabilityAnalysis/ImmutabilityAnalysis.cpp:520-546 | the same for the loop, which terminates |
| CallTree.Counter.VisitCalls | Immutability/ImmutabilityAnalysis/ImmutabilityAnalysis.cpp:527-537 | one block contributes the chains that start at its sites |
| CallTree.Counter.PushSuccessors | Immutability/ImmutabilityAnalysis/ImmutabilityAnalysis.cpp:539-543 | successors not visited join the worklist without duplicates |

## Left out

- Solver.FunctionAnalysis.Run: takes a budget of rounds, because there are functions on which the loop never ends (`LoopExamples.NoFlippingRunStops`); `Solver.FunctionAnalysis.RunToEnd` is the loop where it ends.
- Solver.FunctionAnalysis.constructor: does not run the loop, for the same reason; `Solver.FunctionAnalysis.Analysed` does.
- FunctionResult.Analyse: promises a result only if the loop ends within the budget; `FunctionResult.AnalyseToEnd` has no budget.
- EndToEnd.ExitCoversPathSequences: leaves out calls of a method whose one exit is entered twice from one block, for which both runs return bottom (`EdgeSplitting.SharedEdgeResultIsBottom`), and of a method without an exit block, on which `getIgnoredEdges` and `getResult` fail. Other methods of the same class are covered. `CallTraces.ExitCoversClients` is the same.
- CallTraces.ReturnedIsBelow: takes what an unknown call does, which a call of a function on the parent chain is too, to be its transfer; and does not cover an execution that enters another function than the analysis looked up for a virtual call.
- Interprocedural.Functions.ResultAlike: takes the order in which exit states are merged to be a function of the analysed function, the blocks processed and the exit blocks. A `DenseMap` lists its keys by address and order of insertion, which these fix within one run of the program.
- Hierarchy.ClassQuery.PopulateNonDirect: leaves PublicConstMethods out, whose duplicate test compares demangled names through libiberty structures.
- The heap operations themselves, the per-instruction `visit` transfers, `refineBool`, `unionAll` and `ConstantRange` arithmetic: their bodies are not in the repository or belong to LLVM, so they are parameters of the domain.
- The rest of `handleCall`: how arguments are copied and the callee's state is adopted are the parameters `enter` and `leave` of `Interprocedural.Functions`; the hard-coded names that are skipped and argument counts that do not match are part of its `callee`.
- `checkArgument`, `checkReturn` and the issue database: reporting only; their marking of nodes is part of `SharedStates.Program.final`.
- Liveness of the driver: idle tasks may be spawned without bound while a slow run is in flight, so only safety and the bound on real runs are stated.
- Entry skip lists and the fix-up for one parser class in `runOnModule`: constants without a property.
- `MemoryAliases`, `Node`, `MemQuery`, virtual-table instruction matching, debug-info parsing, printing and graph output: bookkeeping or pattern tables.
- Thread-pool internals, sleeps and the unsynchronised `IterationNum` counter: not visible to the properties.
