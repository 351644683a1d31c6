# A model of the SSA optimiser

The repository is an optimiser for programs in SSA form: a control-flow graph of basic blocks with
ordered successor slots, predecessor lists, phis with source blocks and instruction lists, and on top
of it analyses and transformations. This project models the passes whose correctness is a statement
about graphs and runs, and proves what each of them promises.

- **Dominator tree**: Lengauer-Tarjan with path compression, down to labels, shortcuts and buckets,
  against all-paths dominance.
- **Loop analysis**: depth-first colouring, splitting of back edges into nested loops, pre-headers, phi
  propagation, loop population and the loop tree. It is proved as an analysis (innermost natural loops)
  and as a rewriting (runs, dominance and strict SSA form preserved, phis complete, lists symmetric). `LoopAnalysis.Run`
  is the whole pass, and its result is the normal form that liveness analysis assumes.
- **Liveness**: the special linear order and the single backward sweep, against liveness defined by paths,
  from below (live points are covered) and from above (nothing else than the interval between them is).
- **Linear scan**: active list, expiry, spilling, against the rule that intersecting ranges are kept
  apart. `EndToEnd` puts liveness and allocation together: the allocated program simulates the SSA program.
  `Pipeline` adds loop analysis: the allocated program simulates the original one, under the two conditions
  that the code needs, and `LoopExample` meets them.
- **Linear order**: the layout with fallthrough, inverted branches and jump blocks, against the runs of
  the graph.
- **Check elimination** and **dead code elimination**: which instructions go, what is left in the lists,
  and that every run keeps its failures and effects.
- **Generation markers**: a data refinement of one set of objects per live marker.

## How the model is laid out

Each pass is a class whose fields and loops are those of the source, proved against functions on values;
the theorems are lemmas about these functions. The modules, in the order in which they build on each other:

| modules | contents |
|---|---|
| `Cfg`, `Traversal`, `Orders` | graphs, paths, dominance, the three depth-first passes |
| `Semidominators`, `PathCompression`, `DominatorTree` | semidominator theory, the link forest for any order of operations, the pass, the dominance query |
| `Ssa`, `Execution` | programs in SSA form, liveness, runs with parallel phi copies |
| `LiveRanges`, `Coverage`, `CoverageLimit`, `ExactRanges`, `LoopTree`, `BlockOrder`, `OrderChoice`, `Liveness` | the sweep, its soundness, the exact ranges, the order and why there is only one, the pass |
| `ConcreteGraphs`, `UnsharedLatches` | paths and loops of a given graph, and a graph on which the sweep is wrong |
| `Ranges`, `LinearScan`, `RegisterSafety`, `RegisterLimits`, `StackSlots` | the allocator as written, when it is safe, when it spills, and where |
| `IntendedScan`, `EndToEnd` | the allocator with the expiry as intended, and both passes together |
| `NaturalLoops`, `BackEdges`, `Redirection`, `LoopRewrite`, `Preservation`, `HeaderShape`, `HeaderRewriter`, `LoopPopulation`, `LoopNormalForm`, `SplitOrder`, `SsaRewrite`, `LoopAnalysis` | loop analysis, phase by phase |
| `Pipeline`, `LoopExample` | loop analysis, liveness and allocation in a row, and a program that meets all assumptions |
| `FlowGraph`, `LinearOrder` | edge operations and layout |
| `InstructionList`, `Editing`, `Thinning`, `DeadCode`, `Checks`, `CheckElimination`, `CheckSafety` | instruction lists and the two eliminations |
| `Markers`, `MarkerSession` | marks and generations as a machine, and the classes that take its steps |

Conventions: a block, tree node, loop or instruction is named by its number where the source holds a
pointer, and -1 stands for a null pointer. `DomTree::Node` pointers compare like depth-first numbers because
the node vector is reserved and filled in that order. The start block is block 0. Integers are unbounded
except for the 32-bit generation counter. What an instruction computes is a parameter: any function of its
operands and of what has been observed so far. The result of `std::sort` is any sorted order of
the ranges; it is a stable insertion by number for back edges. The number of registers is a parameter and at
least one, because the spill reads the last active range.

Assertions are taken as enabled: a pass stops where one fails, and `CheckElimination.Run` says when that
happens. Loop analysis is modelled on fresh blocks: `ResetState` (`pass/loop_analysis.cpp:258-263`) drops the
loops but does not clear the loop pointers of the blocks, and `Graph::ClearLoops` is never called, so on a
second run of the source's pass they would point to loops that are gone.

## Where the code falls short of its intent

The model follows the code. For each of these the failing input and the exact condition are proved:

- `pass/linear_scan.cpp:111-122`: when all active intervals have expired, the last one is released but stays
  listed. The places that the pass leaves are right if and only if no step meets its guard
  (`RegisterLimits.AllocationSound`); `GapThenOverlap` is a family of inputs that are allocated wrongly, and
  `NoGapNoHazard` a condition on the ranges alone that excludes them. With the expiry as intended every input is
  allocated soundly (`IntendedScan.IntendedIsSound`).
- The same step spills without need when there is one register: without pressure everything stays in registers
  if and only if there are two registers or at most one range (`RegisterLimits.NoPressureNoSpillIff`).
- `pass/liveness_analysis.cpp:181-187`: ranges are extended to the end of the latch. This is sound if and only
  if no block of a loop follows its latch (`CoverageLimit.SoundIffLoopsEndWithLatch`), which holds if and only if
  the loops between a latch's innermost loop and its own loop share the latch (`BlockOrder.LivenessSoundIff`).
  `UnsharedLatches` has a graph on which it fails.
- `pass/loop_analysis.cpp:76-77`: the search starts at the latch even when it is the marked header, and then
  runs back to the start block. The loop tree is right if and only if no reducible loop is a single block
  (`LoopPopulation.RightIffNoSelfLoop`).
- `pass/check_elimination.cpp:26-58, 119`: users of the subject may have it as their index only. A visit fails the
  assertion on first operands at a size check with another subject, and deletes a size check of the subject
  against itself twice. The pass gets through if and only if the source has no clash
  (`CheckElimination.Run`, `Checks.Clashing`); what it deletes is then right.
- `utils/marker/marker_factory.cpp:35-42`: generations repeat after 2^32 - 1 markers; `Markers.ExactBudget`.

For this one there is a counterexample, and a theorem about what does hold:

- `pass/rpo.cpp:27`: the block is pushed before its successors, so the pass yields a preorder.
  `Orders.PreorderNotTopological` shows the difference, `Orders.DominatorsComeFirst` what users of the pass get.

And here the model reads the intent of code whose own behaviour C++ leaves undefined:

- `pass/loop_analysis.cpp:109-116` appends to the vector of loops that it iterates over. The model goes on to
  the appended loops, by index.
- `pass/loop_analysis.cpp:208` compares iterators of two copies of the inputs. The model reads it as the
  test whether an input from the latch was found.

## Model

| member | source | states |
|---|---|---|
| `Traversal.PreorderComplete` | pass/dfs.cpp:22-33 | the depth-first order lists exactly the reachable blocks, each once, start block first |
| `Traversal.DFS.Run` | pass/dfs.cpp:5-15 | the recursive visit with marks produces that order, whatever an earlier run left behind |
| `Semidominators.CommonAncestor` | pass/dom_tree.cpp:100-112 | path lemma for the numbering: a path from a smaller to a larger number meets a common tree ancestor of both ends |
| `Semidominators.PathHasCandidate` | pass/dom_tree.cpp:33-43 | every semidominator path is accounted for by a predecessor or by an `Eval` candidate: the recurrence misses nothing |
| `Semidominators.SemiIsImmDominator` | pass/dom_tree.cpp:44-50 | if no node between the semidominator and the node has a smaller semidominator, the semidominator is the true immediate dominator (all paths) |
| `Semidominators.SharedImmDominator` | pass/dom_tree.cpp:22-31 | otherwise the node shares its immediate dominator with the node of least semidominator in between |
| `DominatorTree.SemiComputed` | pass/dom_tree.cpp:36-43 | a value that is below all candidates and is the source of a semidominator path is the semidominator |
| `PathCompression.CompressedRefines` | pass/dom_tree.cpp:68-83 | compression keeps every shortcut on the way to the root and every label a node of least semidominator on the part that is skipped, and leads the node to its root |
| `PathCompression.AnswerIsBest` | pass/dom_tree.cpp:58-66 | `Eval` answers as the uncompressed forest does: a root itself, otherwise a node of least semidominator on the path below the root |
| `PathCompression.EveryAnswerBest` | pass/dom_tree.cpp:53-83 | so does every `Eval` in every sequence of links, evaluations and changes of the semidominators of roots, in any order |
| `DominatorTree.LinkPath` | pass/dom_tree.cpp:33-56 | when the nodes from some number on are linked, the link path of a node is the linked part of its tree path |
| `DominatorTree.EvalStep` | pass/dom_tree.cpp:58-66 | in the tree `Eval` therefore gives the node itself at a root, otherwise a node of least semidominator among its linked tree ancestors |
| `DominatorTree.BucketMember` | pass/dom_tree.cpp:46-50 | what processing a bucket entry decides does not depend on whether the entry was processed before: the bucket that is never emptied is harmless |
| `DominatorTree.DomTree.FillTree` | pass/dom_tree.cpp:85-112 | tree nodes are numbered in depth-first order, with parents, subtree extents and predecessor lists; comparing node pointers is comparing these numbers |
| `DominatorTree.DomTree.Link` | pass/dom_tree.cpp:53-56 | linking a node extends the forest and keeps all shortcuts valid |
| `DominatorTree.DomTree.Eval` | pass/dom_tree.cpp:58-66 | returns the answer and leaves the forest that `AnswerIsBest` speaks of |
| `DominatorTree.DomTree.Compress` | pass/dom_tree.cpp:68-83 | terminates and leaves the forest that `CompressedRefines` speaks of, whatever the links are |
| `DominatorTree.DomTree.ComputeSdoms` | pass/dom_tree.cpp:33-51 | afterwards every `semi` is the true semidominator and every `dom` is ready for the last pass |
| `DominatorTree.DomTree.ComputeDoms` | pass/dom_tree.cpp:22-31 | the last pass in depth-first order turns these into the dominator tree |
| `DominatorTree.DomTree.Run` | pass/dom_tree.cpp:8-20 | for every graph, each reachable block but the start block gets its true all-paths immediate dominator, every other block none |
| `DominatorTree.DominanceAntisymmetric` | ir/bb.cpp:77-93 | two different reachable blocks never dominate each other, so chains of dominators are finite |
| `DominatorTree.ChainStep` | ir/bb.cpp:77-93 | dominating a block is dominating its immediate dominator or being the block itself |
| `DominatorTree.DomTree.BlockDominates` | ir/bb.cpp:77-93 | walking the chain of immediate dominators decides all-paths dominance, in both directions |
| `Orders.PostorderComplete` | pass/po.cpp:21-32 | the postorder lists exactly the reachable blocks, each once |
| `Orders.PO.Run` | pass/po.cpp:5-32 | the recursive visit produces that postorder |
| `Orders.DominatorsComeLast` | pass/po.cpp:21-32 | in postorder every block comes before its dominators, so inner headers come before outer ones |
| `Orders.RPO.Run` | pass/rpo.cpp:5-32 | the pass that is called reverse postorder produces a preorder |
| `Orders.DominatorsComeFirst` | pass/rpo.cpp:21-32 | that preorder still puts every block after its dominators |
| `Orders.PreorderNotTopological` | pass/rpo.cpp:27-31 | a concrete acyclic graph on which that preorder is not topological |
| `Ranges.IntersectIffCommonPoint` | utils/range/range.cpp:3-14 | two non-empty ranges intersect exactly when they share a point |
| `Ssa.LiveIsDominated` | pass/liveness_analysis.cpp:147-189 | in strict SSA a value is live only where its definition dominates |
| `LoopTree.DominatorRank` | pass/liveness_analysis.cpp:22-48 | in a normal-form graph dominators have smaller rank among forward edges |
| `BlockOrder.SuccessorLoop` | pass/liveness_analysis.cpp:64-84 | a successor that becomes ready is in a loop around the current block, or is the header entered through the pre-header |
| `BlockOrder.FrontInOpenLoop` | pass/liveness_analysis.cpp:56-84 | while a loop is open the front of the queue belongs to it, however deep the nesting |
| `BlockOrder.RoundKeepsInv` | pass/liveness_analysis.cpp:56-86 | every round keeps: emitted blocks have their forward predecessors before them, the queue holds exactly the ready blocks from deeper loops to their ancestors, and open loops are contiguous |
| `BlockOrder.OrderIsTopological` | pass/liveness_analysis.cpp:50-108 | the finished order is a permutation of the blocks with dominators first and every edge forward except from latch to header |
| `BlockOrder.LoopsContiguous` | pass/liveness_analysis.cpp:50-108 | between two blocks of a loop there are only blocks of that loop |
| `BlockOrder.LatchIsLast` | pass/liveness_analysis.cpp:181-187 | when a latch is emitted its whole loop has been emitted, provided the loops in between share the latch |
| `BlockOrder.EndsWithLatchIffShared` | pass/liveness_analysis.cpp:181-187 | every loop of the layout ends with its latch if and only if every loop between the innermost loop of a latch and the loop of that latch has the same latch |
| `BlockOrder.LivenessSoundIff` | pass/liveness_analysis.cpp:7-20 | the computed ranges cover every live point of every strict-SSA program over the graph if and only if latches are shared as above |
| `OrderChoice.RoundKeepsChoice` | pass/liveness_analysis.cpp:68-85 | every round takes the ready block of the innermost loop, among these the one that became ready last, among successors of one block the one in the first slot |
| `OrderChoice.OrderIsDetermined` | pass/liveness_analysis.cpp:50-87 | that choice leaves nothing open: exactly one finished order makes it everywhere |
| `UnsharedLatches.NestedFinished` | pass/liveness_analysis.cpp:50-108 | two nested loops where a block of the outer one follows its latch: a graph in normal form with a finished order |
| `UnsharedLatches.LatchesNotShared` | pass/liveness_analysis.cpp:181-187 | there the latch of the outer loop belongs to the inner loop, which has another latch |
| `UnsharedLatches.SweepMissesLivePoint` | pass/liveness_analysis.cpp:181-187 | and a strict-SSA program over this graph has a live point outside its range |
| `Coverage.BlockLiveIn` | pass/liveness_analysis.cpp:147-179 | a value used in the block before any redefinition, or passed through from the initial live set, is in the final live set of the block |
| `Coverage.HeldFlowsBack` | pass/liveness_analysis.cpp:200-215 | a value held by a successor that is already swept flows into the initial live set |
| `Coverage.LiveInHeld` | pass/liveness_analysis.cpp:147-215 | a value live into a block is held by the block or by the header of a loop around it, although every block is swept once |
| `Coverage.LoopCovers` | pass/liveness_analysis.cpp:181-187 | the extension of a range over a loop reaches every point of every block of the loop |
| `Coverage.LiveCovered` | pass/liveness_analysis.cpp:140-215 | main theorem of the single sweep: if loops end with their latch, every point where a value is live lies in its range |
| `Coverage.DefCovered` | pass/liveness_analysis.cpp:155-162 | every instruction has a non-empty range that contains its own number, used or not |
| `ExactRanges.EndsAreNeeded` | pass/liveness_analysis.cpp:140-198 | no range is too large, in any order: both ends of every range are points where the value is live or has just been defined |
| `ExactRanges.RangeIsHull` | pass/liveness_analysis.cpp:140-198 | exact ranges: if loops end with their latch, a number is in the range of a value if and only if it lies between two points where the value is live or defined |
| `ExactRanges.PassIsExact` | pass/liveness_analysis.cpp:7-20 | so it is for every strict-SSA program whenever latches are shared |
| `ExactRanges.StartsAtDefinition` | pass/liveness_analysis.cpp:159-163 | the range of an instruction starts at its number, used or not |
| `ExactRanges.StartsAtPhi` | pass/liveness_analysis.cpp:151-154 | the range of a used phi starts with its block |
| `ExactRanges.EndsAtLastUse` | pass/liveness_analysis.cpp:147-198 | a range ends right behind a use, at the end of a block that the value is live out of, or behind a definition that nothing uses |
| `ExactRanges.LocalRange` | pass/liveness_analysis.cpp:156-171 | a value whose uses are all in its block has the range from its definition to its last use |
| `ExactRanges.RangesHaveHoles` | pass/liveness_analysis.cpp:191-198 | a range is one interval: a branch where a value is not live lies in its range, because the order puts the branch before the use |
| `CoverageLimit.WitnessMissed` | pass/liveness_analysis.cpp:181-187 | for a loop block placed after the latch there is a strict-SSA program with a live point outside its range |
| `CoverageLimit.SoundIffLoopsEndWithLatch` | pass/liveness_analysis.cpp:181-187 | over all strict-SSA programs on a normal-form graph the sweep is sound if and only if no block of a loop comes after its latch |
| `Liveness.LivenessAnalysis.Init` | pass/liveness_analysis.cpp:110-138 | every phi gets the live number of the start of its block, every instruction that of its place, and every block its range |
| `Liveness.LivenessAnalysis.InstAddLiveRange` | pass/liveness_analysis.cpp:191-198 | the range of one value becomes the smallest range that covers both |
| `Liveness.LivenessAnalysis.CalculateInitialLiveSet` | pass/liveness_analysis.cpp:200-215 | the initial live set is the union over successors of their live sets and of the phi inputs from this block |
| `Liveness.LivenessAnalysis.CalculateLiveRanges` | pass/liveness_analysis.cpp:147-189 | the loops over one block compute the step of the sweep whose result `RangeIsHull` pins down from both sides |
| `Liveness.LivenessAnalysis.CalculateLiveness` | pass/liveness_analysis.cpp:140-145 | the reverse loop over the order computes the whole sweep |
| `Liveness.LivenessAnalysis.AllForwardEdgesVisited` | pass/liveness_analysis.cpp:22-48 | decides whether all forward predecessors have been emitted |
| `Liveness.LivenessAnalysis.LoopInside` | ir/loop.cpp:57-68 | walking the outer loops decides strict nesting |
| `Liveness.LivenessAnalysis.InsertInOrder` | pass/liveness_analysis.cpp:70-84 | a block is put before the first queued block that is not strictly inside its loop |
| `Liveness.LivenessAnalysis.EmitFront` | pass/liveness_analysis.cpp:56-86 | one turn of the work list is one round of the specification |
| `Liveness.LivenessAnalysis.LinearizeBlocks` | pass/liveness_analysis.cpp:50-87 | terminates and leaves the one finished order in which every block is preferred to all others that were ready |
| `Liveness.LivenessAnalysis.Run` | pass/liveness_analysis.cpp:7-20 | the pass leaves that order, the numbers, and the ranges of the whole sweep |
| `LinearScan.Allocator.ExpireOldIntervals` | pass/linear_scan.cpp:109-123 | releases the registers of the expired prefix and erases it, except that the last range stays listed when all have expired, as in the code |
| `LinearScan.Allocator.SpillAtInterval` | pass/linear_scan.cpp:125-139 | the range that ends last goes to the stack and hands its register over, or the current one does |
| `LinearScan.Allocator.AssignRegister` | pass/linear_scan.cpp:150-162 | the first unmarked register is marked and given to the range |
| `LinearScan.Allocator.AddToActive` | pass/linear_scan.cpp:171-177 | inserts before the first active range that ends later |
| `LinearScan.Allocator.Allocate` | pass/linear_scan.cpp:45-56 | the loop over the sorted ranges computes the run that the theorems below pin down: places, spills and stack slots |
| `RegisterSafety.RunFacts` | pass/linear_scan.cpp:45-177 | after every step, for any input: the active list is sorted by end and bounded by the number of registers, marked registers belong to active ranges, every processed range has a location, and stack slots are pairwise distinct |
| `RegisterLimits.RunMarks` | pass/linear_scan.cpp:45-177 | until a step meets the guard, the marks are exactly the registers of the active ranges, or of all but the first when that one has ended and is still listed |
| `RegisterSafety.SpillFurthest` | pass/linear_scan.cpp:125-139 | a spill sends exactly one range to a new slot, one of maximal end among the active ranges and the current one, the current one if nothing ends later, and changes no other location |
| `StackSlots.SpillsIffAllHeld` | pass/linear_scan.cpp:45-56 | with two registers or more, a step sends one range to the stack if and only if every register is held by a range that goes on beyond the start of the current one |
| `StackSlots.SpillsTheLast` | pass/linear_scan.cpp:125-148 | and then it is the range that ends last, one of the holders or the current range if no holder ends later; it gets the next stack slot and hands its register over |
| `StackSlots.GetsLowestFree` | pass/linear_scan.cpp:150-162 | until a step meets the guard, a range that needs no spill gets the lowest register that no range going on beyond its start holds |
| `StackSlots.SlotsArePacked` | pass/linear_scan.cpp:184-188 | for every input and every number of registers the stack slots are exactly 0 up to the number of spilled ranges, each once |
| `RegisterSafety.HazardHarms` | pass/linear_scan.cpp:111-122 | when the retained range meets the guard, the current range gets the register of a live one |
| `RegisterSafety.SafeIffNoHazard` | pass/linear_scan.cpp:45-56 | what holds during the run: listed ranges that are still live keep pairwise different registers at every step if and only if no step meets the guard |
| `RegisterLimits.AllocationSound` | pass/linear_scan.cpp:24-56 | what the pass leaves, for any number of registers and any sorted ranges: every range has a register or a stack slot of its own, and intersecting ranges are in different places if and only if no step of the run meets the guard |
| `RegisterLimits.HazardMeansGap` | pass/linear_scan.cpp:109-123 | as long as nothing has been spilled, the first step that meets the guard comes after a range that starts when all before it have ended, and overlaps that range |
| `RegisterLimits.NoGapNoHazard` | pass/linear_scan.cpp:24-56 | a condition on the ranges alone: without pressure, if no such range is followed by one that overlaps it, no step meets the guard |
| `RegisterSafety.GapThenOverlap` | pass/linear_scan.cpp:111-122 | a whole family of inputs that the code allocates wrongly: a gap, then two overlapping ranges |
| `RegisterSafety.HazardExample` | pass/linear_scan.cpp:111-122 | the smallest straight-line program of that family |
| `RegisterLimits.NoPressureNoSpillIff` | pass/linear_scan.cpp:45-56 | if no point is covered by more ranges than there are registers, every range gets a register if and only if there are at least two registers or at most one range |
| `RegisterLimits.OneRegisterNoPressure` | pass/linear_scan.cpp:109-177 | with one register and ranges one after the other, the first range gets it and every later one goes to the stack |
| `RegisterLimits.OneRegisterExample` | pass/linear_scan.cpp:109-177 | two such ranges |
| `IntendedScan.IntendedIsSound` | pass/linear_scan.cpp:109-123 | if expiry erased exactly the expired prefix, every input would be allocated soundly, and the marks would always be the registers of the active ranges |
| `IntendedScan.IntendedSpillsUnderPressure` | pass/linear_scan.cpp:109-139 | and nothing would be spilled without pressure, with one register too |
| `EndToEnd.NoLiveValueClobbered` | pass/linear_scan.cpp:24-56 | if live points lie in their ranges and intersecting ranges are kept apart: values live at the same point, or live after an instruction and defined by it, are in different places |
| `EndToEnd.StepAgrees` | pass/linear_scan.cpp:14-22 | one instruction keeps the allocated store in agreement with the SSA store on all live values |
| `EndToEnd.CrossAgrees` | pass/linear_scan.cpp:14-22 | so does crossing an edge with its parallel phi copies |
| `EndToEnd.AllocatedRunAgrees` | pass/linear_scan.cpp:14-22 | along every path and for every semantics of instructions, the allocated program reads the same operands, keeps every live value in its place and observes the same events as the SSA program |
| `BackEdges.RecordedIff` | pass/loop_analysis.cpp:30-58 | an edge is recorded as a back edge exactly when it is reachable and leads to an ancestor of its source in the depth-first tree, or to the source itself |
| `BackEdges.CycleHasBackEdge` | pass/loop_analysis.cpp:30-58 | every reachable cycle contains a recorded edge |
| `BackEdges.NumberIsIndex` | pass/loop_analysis.cpp:35 | `id_to_dfs_idx_` holds the place of every block in the visiting order |
| `BackEdges.RecordGroups` | pass/loop_analysis.cpp:38-48 | recording one edge keeps the loops exactly the recorded edges grouped by header |
| `BackEdges.BackEdgeCollector.CollectBackEdges` | pass/loop_analysis.cpp:30-58 | the recursive colouring records exactly the specified edges and restores the grey marks |
| `BackEdges.BackEdgeCollector.Run` | pass/loop_analysis.cpp:10-17 | on blocks that no loop has been given to yet, the loops hold exactly the recorded edges, grouped by header |
| `FlowGraph.CfgGraph.RedirectEdge` | ir/graph.cpp:113-126 | the edge changes its target and both predecessor lists follow |
| `FlowGraph.CfgGraph.InsertBasicBlockBefore` | ir/graph.cpp:99-111 | the new block takes over all incoming edges and leads to the old block |
| `Redirection.ExpandIsPath` | pass/loop_analysis.cpp:107-186 | putting the new block into an old path gives a path of the new graph |
| `Redirection.EraseExpand` | pass/loop_analysis.cpp:107-186 | erasing the new block gives the old path back |
| `Redirection.ExpandErase` | pass/loop_analysis.cpp:107-186 | every path of the new graph between old blocks is the expansion of its erasure, so executions correspond one to one |
| `Redirection.DominanceUnchanged` | pass/loop_analysis.cpp:162-186 | dominance and reachability among old blocks do not change, so dominators computed before stay usable |
| `Redirection.HeaderNormal` | pass/loop_analysis.cpp:162-186 | if all entries are redirected, exactly the latch and the new block lead to the header, and the header still dominates the latch |
| `LoopRewrite.MoveFacts` | pass/loop_analysis.cpp:200-233 | every phi keeps its back-edge input, and its other inputs are merged by one new phi or passed on when there is only one |
| `LoopRewrite.CrossThrough` | pass/loop_analysis.cpp:188-234 | over a redirected edge, through the new block, every header phi takes the value it took before |
| `LoopRewrite.CrossPlain` | pass/loop_analysis.cpp:188-234 | over all other edges every phi reads what it read before |
| `LoopRewrite.RewritePreservesRuns` | pass/loop_analysis.cpp:107-234 | along every path, with the new block put in, the rewritten program computes the same values and observes the same events |
| `Preservation.FitKept` | pass/loop_analysis.cpp:188-234 | after a rewriting every phi again has exactly one input for every predecessor, and new ids are fresh |
| `Preservation.ChainPreserves` | pass/loop_analysis.cpp:107-160 | any number of rewritings in a row preserves runs, one to one, and dominance |
| `HeaderShape.InFrontSymmetric` | ir/graph.cpp:77-126 | predecessor and successor lists stay symmetric and free of duplicates |
| `HeaderShape.SplitLists` | pass/loop_analysis.cpp:142-148 | inserting a block in front of a header and taking one back edge back is a redirection of all other edges |
| `HeaderShape.PreHeaderLists` | pass/loop_analysis.cpp:162-186 | so is redirecting the entries one by one to a pre-header |
| `HeaderShape.NewDominates` | pass/loop_analysis.cpp:133-138 | the new header dominates everything the old header dominated, so the new loops are reducible |
| `HeaderShape.AcyclicNext` | pass/loop_analysis.cpp:142-148 | a graph that is acyclic but for its back edges stays so when the remaining back edges move to the new header |
| `HeaderRewriter.SortBySorts` | pass/loop_analysis.cpp:124-128 | the back edges in the order of their depth-first numbers: ascending and a permutation |
| `HeaderRewriter.SplitLoopsAt` | pass/loop_analysis.cpp:120-149 | the loops after a split: the old header keeps the first back edge, the i-th new header has the next one |
| `HeaderRewriter.SplitMore` | pass/loop_analysis.cpp:142-148 | every turn of the splitting loop keeps the loops well formed, the remaining back edges dominated by the current header and the rest of the graph acyclic |
| `HeaderRewriter.SplitNested` | pass/loop_analysis.cpp:120-149 | the loops of one split have the back edges one by one, and the header of each dominates the headers of those before it |
| `SplitOrder.SortedIsOrdered` | pass/loop_analysis.cpp:124-128 | sorting by the collected numbers is sorting by the time at which depth-first search visits the blocks |
| `SplitOrder.NestsAreInOrder` | pass/loop_analysis.cpp:107-149 | in terms of the graph before the pass: a header that dominates its back edges keeps the one visited first, the loops around it have the others in order, outward; any other header keeps all |
| `HeaderRewriter.PreHeaderTidy` | pass/loop_analysis.cpp:151-160 | blocks are added as new headers and as pre-headers of reducible loops only |
| `HeaderRewriter.CalculateReducibility` | ir/loop.cpp:15-25 | with the dominator tree: true exactly if the header dominates every back edge |
| `HeaderRewriter.HeaderRewriter.PropagatePhis` | pass/loop_analysis.cpp:188-234 | the loop over the phis of a header, each rewritten in place |
| `HeaderRewriter.HeaderRewriter.SplitBackEdge` | pass/loop_analysis.cpp:120-149 | splits one loop into nested loops with one back edge each, and every change is a meaning-preserving rewriting |
| `HeaderRewriter.HeaderRewriter.SplitBackEdges` | pass/loop_analysis.cpp:107-118 | the loop over the growing list ends, and afterwards every reducible loop has at most one back edge |
| `HeaderRewriter.HeaderRewriter.RecalculateLoopsReducibility` | pass/loop_analysis.cpp:272-285 | afterwards exactly the truly reducible loops are marked, also when the pass returns early |
| `HeaderRewriter.HeaderRewriter.AddPreHeader` | pass/loop_analysis.cpp:162-186 | exactly the predecessors that are no back edges are redirected to the pre-header |
| `HeaderRewriter.HeaderRewriter.AddPreHeaders` | pass/loop_analysis.cpp:151-160 | every reducible header ends up with exactly one latch, which it dominates, and one pre-header, whose only successor it is |
| `HeaderRewriter.HeaderRewriter.Run` | pass/loop_analysis.cpp:18-20 | splitting and pre-headers together: normal headers, exact flags, an acyclic rest, and all runs preserved |
| `NaturalLoops.SearchFindsLoop` | pass/loop_analysis.cpp:85-105 | the backward search from the latch, with the header marked, visits exactly the rest of the natural loop |
| `NaturalLoops.SharedBlockNests` | pass/loop_analysis.cpp:85-105 | reducible loops that share a block are nested |
| `NaturalLoops.HeaderInside` | pass/loop_analysis.cpp:85-105 | a loop whose header lies in another loop lies in it altogether |
| `LoopPopulation.SearchExactIff` | pass/loop_analysis.cpp:69-105 | the search finds exactly the natural loop, unless the latch is the header and the header has other predecessors: then it leaks out of the loop |
| `LoopPopulation.IrreducibleKeepsInv` | pass/loop_analysis.cpp:79-82 | an irreducible loop gives up its header and changes nothing else |
| `LoopPopulation.BuiltIsInnermost` | pass/loop_analysis.cpp:236-256 | in the finished tree, being in a loop is being in its natural loop, for every block and every level of nesting |
| `LoopPopulation.LoopPopulator.RunLoopSearch` | pass/loop_analysis.cpp:85-105 | the recursion visits the specified blocks and sets loop and outer pointers as specified |
| `LoopPopulation.HeaderKeepsInv` | pass/loop_analysis.cpp:69-83 | if no loop is a single block, after the next header in postorder every block points to the innermost visited loop around it |
| `LoopPopulation.SelfLoopClaimsStart` | pass/loop_analysis.cpp:69-105 | a reducible loop of one block makes the search run back to the start block and claim it |
| `LoopPopulation.RightIffNoSelfLoop` | pass/loop_analysis.cpp:60-105 | exact condition: the tree is right for every block and every loop if and only if no reducible loop is a single block |
| `LoopPopulation.SelfLoopExample` | pass/loop_analysis.cpp:76-77 | the smallest graph on which it is wrong |
| `LoopPopulation.LoopPopulator.PopulateLoop` | pass/loop_analysis.cpp:69-83 | one header does to the loop and outer pointers what the lemmas above speak of |
| `LoopPopulation.LoopPopulator.Run` | pass/loop_analysis.cpp:60-67 | every block gets its innermost reducible natural loop, every reducible loop the smallest loop strictly around it, and the root if there is none, if and only if no reducible loop is a single block |
| `LoopNormalForm.CollectedIsReady` | pass/loop_analysis.cpp:17-20 | what collecting back edges finds meets the assumptions of splitting: distinct back edges, true flags, and a graph that is acyclic without them |
| `LoopNormalForm.PreHeaderOutside` | pass/loop_analysis.cpp:236-256 | a pre-header lies in the outer loop of its loop |
| `LoopNormalForm.SourcedHeaders` | pass/loop_analysis.cpp:18-21 | what splitting and pre-headers leave meets the assumptions of population |
| `LoopAnalysis.AnalysisDone` | pass/loop_analysis.cpp:10-28 | splitting, pre-headers and population together: if all loops are reducible, the normal form that liveness analysis assumes is reached if and only if no loop is a single block |
| `LoopAnalysis.ChainHasNoSelfEdges` | pass/loop_analysis.cpp:76-77 | no rewriting creates a block that is its own successor, so the leak of the loop search stays excluded |
| `LoopAnalysis.Run` | pass/loop_analysis.cpp:10-28 | the whole pass: runs and dominance preserved, strict SSA form kept, exact reducibility, loops split in the order of the search, no other blocks than headers and pre-headers, and a right loop tree if and only if no reducible loop is a single block |
| `SsaRewrite.PhiDefs` | pass/loop_analysis.cpp:219-231 | old phis keep their ids and blocks, and exactly the merging phis are new |
| `SsaRewrite.UsedIff` | pass/loop_analysis.cpp:188-234 | which old values are used does not change, and every new phi is used |
| `SsaRewrite.StrictSsaKept` | pass/loop_analysis.cpp:188-234 | moving phis keeps strict SSA form: every used value still has one definition, which dominates all its uses |
| `SsaRewrite.ChainKeepsSsa` | pass/loop_analysis.cpp:107-160 | so does any number of rewritings in a row, with unique ids and no new uses |
| `Pipeline.SharedLatchesCover` | pass/liveness_analysis.cpp:181-187 | live points lie in their ranges if latches are shared; if they are not, some program over the same graph has one that does not |
| `Pipeline.AsWritten` | pass/linear_scan.cpp:109-123 | after liveness analysis the allocator as written keeps values apart if and only if no step meets its guard |
| `Pipeline.AsIntended` | pass/linear_scan.cpp:109-123 | with the expiry as intended it always does |
| `Pipeline.OriginalRunAgrees` | pass/linear_scan.cpp:14-22 | loop analysis, liveness and allocation together, whenever live points lie in their ranges and intersecting ranges are kept apart: along every path of the original program the allocated program observes the same and keeps every old live value in its place |
| `LoopExample.AssumptionsCanBeMet` | pass/linear_scan.cpp:14-22 | all assumptions of that theorem hold of a program with a loop, a phi and several live values, rewritten by loop analysis and allocated by the code in two registers |
| `FlowGraph.Invert` | ir/inst.cpp:384-415 | the inverted condition holds exactly when the condition does not |
| `FlowGraph.InsertedSymmetric` | ir/graph.cpp:88-97 | putting a block on an edge keeps the lists symmetric and free of duplicates |
| `FlowGraph.InvertedSymmetric` | ir/graph.cpp:128-190 | so does inverting a branch |
| `FlowGraph.CfgGraph.ReplaceSuccessor` | ir/bb.cpp:150-164 | the first slot that holds the old successor gets the new one |
| `FlowGraph.CfgGraph.ReplacePredecessor` | ir/bb.cpp:166-178 | the first matching predecessor is replaced |
| `FlowGraph.CfgGraph.RemovePredecessor` | ir/bb.cpp:142-148 | the search through the list finds the first entry for the predecessor and erases it |
| `FlowGraph.CfgGraph.InsertBasicBlock` | ir/graph.cpp:88-97 | the new block stands on the edge and takes its place in all four lists |
| `FlowGraph.CfgGraph.InvertCondition` | ir/graph.cpp:169-190 | condition negated and the two successors swapped |
| `LinearOrder.LinearOrder.ProcessSingleSuccessor` | pass/linear_order.cpp:108-122 | the block before leads to the next one by falling through, or gets a jump |
| `LinearOrder.LinearOrder.ProcessTwoSuccessors` | pass/linear_order.cpp:124-141 | falls through, inverts the branch, or gets a jump block, and leads where it led |
| `LinearOrder.LinearOrder.ProcessLast` | pass/linear_order.cpp:83-106 | the last block ends in a return or a jump, or in a branch with a jump block behind it |
| `LinearOrder.LinearOrder.Linearize` | pass/linear_order.cpp:52-106 | the layout is finished: every block of the order once and in order, every jump block once, every position suits what follows; a jump is appended only if the successor is not next, a condition inverted exactly if its successor is next, a jump block put in only if neither successor is next, and all else is as it was |
| `LinearOrder.JumpBlockIsNeeded` | pass/linear_order.cpp:124-141 | every jump block of the layout stands behind a branch neither of whose successors comes next in the order |
| `LinearOrder.RunsAgree` | pass/linear_order.cpp:52-141 | where a block leads in the layout is where it led in the graph, through at most one jump block |
| `LinearOrder.LayoutPreservesControl` | pass/linear_order.cpp:52-141 | for every start block and all values compared by the branches, executing the layout visits the same original blocks in the same order as the graph |
| `LinearOrder.LayoutIsComplete` | pass/linear_order.cpp:155-182 | the layout lists exactly the reachable blocks of the new graph, each once |
| `Checks.JustifiesTransitive` | pass/check_elimination.cpp:37-58 | a check that deletes takes over what the deleted check justified |
| `Checks.VictimsAreJustified` | pass/check_elimination.cpp:50-57 | skipping the order test inside a block is harmless: by the visiting order every check deleted there stands later |
| `Checks.VisitKeepsInv` | pass/check_elimination.cpp:27-60 | one visit that does not fail keeps: every deleted check is justified by one that is still there |
| `CheckElimination.FailsIff` | pass/check_elimination.cpp:26-58 | a visit fails exactly at a remaining size check in the block or dominated whose index is the visited subject and whose own subject is another value, or at one that the copied user list names twice and that is deleted |
| `Checks.FailureIsClash` | pass/check_elimination.cpp:26-58 | a visit of the run fails only if the source has a clash, a condition on the checks before the pass starts |
| `Checks.FinishedIsClear` | pass/check_elimination.cpp:26-58 | a run that visits everything proves that there was none |
| `Checks.WrongSubjectExample` | pass/check_elimination.cpp:111-124 | two size checks in one block, where the index of the first is the subject of the second: the assertion fails |
| `Checks.DoubledExample` | pass/check_elimination.cpp:9-58 | the same size check of a value against itself twice: the second is deleted two times |
| `Checks.SelfCheckExample` | pass/check_elimination.cpp:43-49 | one such check alone does no harm |
| `CheckElimination.CheckElimination.DeleteCheck` | pass/check_elimination.cpp:9-21 | the check leaves its block and the user lists of its inputs, nothing else changes |
| `CheckElimination.CheckElimination.EquivalentChecks` | pass/check_elimination.cpp:89-135 | the assertion holds exactly if the subjects agree, and then the result is equality of all further operands, constants by value |
| `CheckElimination.CheckElimination.DeleteDominatedChecks` | pass/check_elimination.cpp:26-60 | deletes exactly the equivalent checks among the users of the subject that are dominated or in the same block, or stops exactly when the visit fails |
| `CheckElimination.CheckElimination.VisitCheck` | pass/check_elimination.cpp:157-206 | notes exactly a zero or null check of a constant on which it passes, and deletes what the check dominates; fails only on a source with a clash |
| `CheckElimination.CheckElimination.VisitGraph` | pass/check_elimination.cpp:65-75 | visits every check that is still there once, dominators first, though the lists change meanwhile |
| `CheckElimination.TestsSuffice` | pass/check_elimination.cpp:26-195 | the tests of the pass find everything: if they find nothing more, no check takes a constant on which it passes, and none is repeated in its block or below with the same subject and the same further operands or equal constants |
| `CheckElimination.CheckElimination.Run` | pass/check_elimination.cpp:65-82 | the pass gets through if and only if the source has no clash; then exactly the deleted checks have left their blocks, each passes on a constant or repeats one that stays and comes before it, and of the reachable checks that stay none passes on a constant and none is repeated |
| `CheckSafety.JustifiedOnSameValues` | pass/check_elimination.cpp:26-135 | on every run, before a justified check is executed, the justifying check has been executed on the same operand values |
| `CheckSafety.DeletedPass` | pass/check_elimination.cpp:26-165 | a deleted check does not fail on any run on which the checks that stay have passed so far |
| `CheckSafety.FailuresPreserved` | pass/check_elimination.cpp:65-82 | on every path up to every point, a check fails in the original program if and only if one fails in the program that is left |
| `CheckSafety.RunsUnchanged` | pass/check_elimination.cpp:65-82 | apart from the checks the program that is left runs as before: same path, same events, same values |
| `DeadCode.DCE.MarkRecursively` | pass/dce.cpp:26-35 | marks everything needed for an instruction, also through cycles of phis, and nothing else |
| `DeadCode.DCE.Mark` | pass/dce.cpp:15-24 | the marked instructions are the least set that holds the reachable `NO_DCE` instructions and is closed under inputs |
| `DeadCode.DCE.Sweep` | pass/dce.cpp:37-64 | exactly the unmarked instructions and phis of reachable blocks are unlinked |
| `DeadCode.DCE.Run` | pass/dce.cpp:5-13 | both together: in the reachable blocks exactly the least set survives, nothing is touched elsewhere, and exactly the entries of what is removed are gone from the user lists |
| `DeadCode.EliminationPreservesRuns` | pass/dce.cpp:5-64 | every run takes the same path and performs the same `NO_DCE` instructions on the same operand values |
| `Editing.SweepLeavesInverse` | pass/dce.cpp:37-64 | after the sweep the user lists are the inverse of the inputs of the survivors |
| `Editing.Ir.RemoveUser` | ir/inst.cpp:245-248 | the pass over the list erases exactly the entries of the user and keeps the others in order |
| `InstructionList.UnlinkedRepresents` | ir/bb.cpp:284-339 | the four cases of relinking: the links that are left represent the list without the instruction, in both directions |
| `InstructionList.RemovedIsDropped` | ir/bb.cpp:284-339 | which is the block that the passes are left with |
| `InstructionList.InstList.UnlinkInst` | ir/bb.cpp:284-339 | the instruction leaves the linked list, all others stay in order |
| `InstructionList.InstList.PushBackInst` | ir/bb.cpp:180-193 | the instruction is linked in behind the last one |
| `InstructionList.InstList.Precedes` | ir/inst.cpp:339-357 | walking the links decides the order of two instructions of a block |
| `Thinning.RunsPreserved` | pass/dce.cpp:5-64 | taking away instructions that nothing left uses preserves every run |
| `Markers.MarkerFactory.InitMarker` | utils/marker/marker_factory.cpp:5-22 | takes the first free slot and the next generation; fails when all slots are taken |
| `Markers.MarkerFactory.NewGen` | utils/marker/marker_factory.cpp:35-42 | the 32-bit counter goes up by one, wraps around, and never issues the reserved generation |
| `Markers.MarkerFactory.DisposeMarker` | utils/marker/marker_factory.cpp:24-27 | frees the slot, the marks in the objects stay |
| `Markers.Markable.SetMark` | utils/marker/markable.cpp:16-21 | overwrites the slot and reports whether this marker had set it |
| `Markers.Markable.ClearMark` | utils/marker/markable.cpp:24-29 | erases the slot and reports whether this marker had set it |
| `MarkerSession.Session.Create` | utils/marker/marker_factory.cpp:5-22 | on the class itself: creating a marker is the step of the abstract machine, and fails exactly when that step is illegal |
| `MarkerSession.Session.Dispose` | utils/marker/marker_factory.cpp:24-27 | so is disposing of one |
| `MarkerSession.Session.Set` | utils/marker/markable.cpp:16-21 | so is setting a mark, which reports what the abstract machine probes |
| `MarkerSession.Session.Clear` | utils/marker/markable.cpp:24-29 | so is clearing one |
| `MarkerSession.Session.Probe` | utils/marker/markable.cpp:10-13 | and probing |
| `Markers.CreateLegalIff` | utils/marker/marker_factory.cpp:5-22 | a marker can be created exactly when fewer than four are alive |
| `Markers.RunKeeps` | utils/marker/marker_factory.cpp:5-42 | after any legal interleaving within the budget, probing tells exactly whether that marker set the object and has not cleared it since |
| `Markers.StaleMark` | utils/marker/marker_factory.cpp:35-42 | after 2^32 - 1 generations a new marker finds the mark of a marker that is long gone |
| `Markers.ExactBudget` | utils/marker/marker_factory.cpp:35-42 | marks are exact in every interleaving that creates at most n markers if and only if n is at most 2^32 - 1 |

## Left out

- Peephole rewritings (`pass/peepholes.cpp`): one-branch identities, several of which do not preserve values as written (lines 196-199 and 250).
- Removal of dead blocks (`pass/dbe.cpp`): it adds only symmetry of edges.
- Inlining and `Graph::SplitBasicBlock`: transfer of ownership between graphs.
- `InsertConnectingSpillFills` and `FixCriticalEdge` (`pass/linear_scan.cpp:58-107`): phi copies on an edge are parallel here, as SSA defines them; the moves that the pass inserts are not ordered as a parallel copy.
- Blocks that cannot be reached: loop analysis, liveness and check elimination assume that all blocks can be reached.
- Irreducible loops in `LinearizeBlocks`: line 31 of `pass/liveness_analysis.cpp` assumes that there are none, and so does `LoopTree.NormalForm`.
- Loops whose header is the start block: `pass/loop_analysis.cpp:177` asserts an entry from outside, so no edge leads to the start block.
- Phi sources in linear order: `Graph::InsertBasicBlock` does not rename them, so the layout is about control flow only.
- `ProcessMultipleSuccessors` (`pass/linear_order.cpp:143-148`): no instruction has more than two successors.
- User lists during phi propagation and the lists of blocks and inner loops of a loop: not modelled; `loopOf` and `outer` say the same.
- The moment at which the new headers of a split are created: the source creates them before the first is inserted, the model right before each insertion. Their numbers are the same.
- `Loop::AddBackEdge` during collection: the flag is computed for all back edges of a loop at once.
- HeaderRewriter.HeaderRewriter.PropagatePhis: assumes an input from outside in every phi, because the source reads the first one unconditionally.
- Floating-point constants and comparisons: operands are integers, so inverting a condition is exact.
- Object lifetime and ownership: memory is treated as garbage collected. Passes work on a block as the sequence that `InstructionList` proves its links to represent.
- CheckElimination.CheckElimination.Run: says nothing about the program after a failed assertion, where the pass stops.
- BackEdges.BackEdgeCollector.Run: requires blocks without loop pointers; a second run of the pass over the same blocks is not modelled.
- LoopPopulation.HeaderKeepsInv: assumes that no loop is a single block; `RightIffNoSelfLoop` covers the others.
- Assertion-only code (`LivenessAnalysis::CheckLinearOrder`, `LoopAnalysis::Check`, `LinearScan::Check`): what it asserts is proved where it matters.
- The linear numbers of instructions (`pass/liveness_analysis.cpp:119, 128`): nothing reads them.
- Visitor dispatch, pass manager and caching of passes, graph builder, dump functions, the instruction set metaprogramming, `pass/bfs.cpp`: plumbing. Which instructions are checks, constants, `NO_DCE` or branches is given by predicates and sets.
