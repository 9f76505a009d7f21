# Verified models of the libnd4j native backend

libnd4j is the C++ library behind ND4J: strided n-dimensional arrays, matrix products, a
graph executor for TensorFlow-like graphs, CUDA helpers and .npy input and output. This
project restates six of its cores in Dafny and proves what they are for.

* **Graph executor** (`FlowPath`, `Graph`, `ExecutorSteps`, `GraphExecutioner`,
  `ExecutorRewinds`, `ExecutorMarks`, `ExecutorFailures`, `ExecutorLiveness`, `ExecutorLoop`,
  `ExecutorNest`). `GraphExecutioner` is the executor as it runs, with nested loops that update
  the flow path, the frame stack and the nodes in place.
  `ExecutorSteps` is the same as a transition system, and every method is tied to it, so
  theorems about all runs of the transition system are theorems about the loops. What an op
  computes is left open: an arbitrary function gives the status, the branch and whether a
  second variable exists, for every node visit.
* **Stride sorting and raw iteration** (`StrideSort`, `RawIteration`, with `Shapes` for
  linear indices): the explicit-stack quicksort with its moving hole, the odometer macros,
  and the reversal of negative strides for two and three operands.
* **Atomics** (`CasLoops`, `Atomics`): the compare-and-swap loops as threads that interleave
  one atomic action at a time, including the half-precision add on half of a shared word.
* **Strided arrays and products** (`NDArray`, `NDArrayTile`, `NDArrayBroadcast`,
  `NDArrayDiagonal`, `Gemm`, `MatrixProduct`, `ProductLayout`, `MatrixDispatch`, `Readings`,
  `Reshaping`, `Axes`, `TensorDot`, `Contraction`): element access, views, copying into a box,
  tiling, broadcasting, the diagonal, GEMM and GEMV with their callers, for which layouts the products
  are right, reshaping without a copy, and tensor contraction down to the buffers it reads.
  Elements are reals.
* **CUDA launch configuration** (`LaunchConfig`): resident blocks and the block-size search.
* **.npy headers** (`NpyText`, `Npy`), with a reader of the format by its own text
  (`NpyFormat`), and the FNV hashes (`Hash`).

## Findings

Places where the code does something else than its documentation or name says, with the
member that shows it and the one that says exactly when the code is right.

* A skipped Merge is never marked inactive, so a node that reads a dead Merge still runs: a
  run of a five-node graph executes a node none of whose inputs ran
  (`ExecutorLiveness.DeadMergeFeeds`). Say a Merge is stale if it should not run but was
  marked active when the run began. A loop-free run executes the nodes it should if and only
  if there is no node that should not run although every input of it feeds it or is a stale
  Merge - for a Merge, although one of its two inputs is (`RunIsIntendedIff`,
  `InputsRanIff`).
* A loop whose Exit stands behind its NextIteration runs its body once for every condition that
  holds (`ExecutorLoop.LoopRuns`). But `buildGraph` puts an Exit one layer behind the Switch it
  reads, beside the first layer of the body, and an Exit asks neither its inputs nor the branch.
  Every loop with its Exit before its NextIteration leaves its frame in the first pass; if the
  condition holds, the NextIteration then takes the innermost frame of an empty stack
  (`ExecutorLoop.EarlyExitBreaks`; `BuiltLoopBreaks` is the whole run of the smallest one).
* A loop inside the body of another runs all its passes in all passes of the outer one
  (`ExecutorNest.NestRuns`, `NestTimes`), but the run does not come out of the outer loop, even
  if all Exits stand behind their NextIterations. In the pass whose outer condition fails the
  inner Exit is visited all the same and leaves the outer frame; the outer NextIteration or Exit
  then asks for the innermost of no frames (`NestBreaks`, `NestWhole`).
* `SortStrideArray` is documented to sort by descending absolute value; it sorts by ascending
  signed stride. The two agree if and only if no two different strides have a positive sum
  (`StrideSort.DocumentedOrderIff`); the documented example itself comes out differently
  (`DocumentedExample`).
* `tile` passes an address, computed with the strides of the source, as a linear index
  (`NDArrayTile.ColumnMajorMisread`). It repeats a source with distinct cells, whatever it
  holds, if and only if no count is above one or the source is row-major
  (`NDArrayTile.TileRightIff`).
* `applyTrueBroadcast` inherits this for operands it has to tile, leaves a plain copy of
  `this` for an `other` of rank 0 (`NDArrayBroadcast.OtherIgnoredWrong`), and gives the op its
  operands the other way round when `other` has the higher rank (`OperandsSwappedWrong`). For
  arrays with distinct cells in buffers of their own it is right, whatever they hold and the op
  is, if and only if `other` has axes but no more than `this`, and every operand that must be
  tiled is row-major (`BroadcastRightIff`).
* `operator()(i, j, k)` compares `j` with the last size where `k` is meant
  (`NDArrays.Check3Iff`).
* `getTrace` of a rank-0 array adds its element 10^8 times
  (`NDArrayDiagonal.ScalarTraceIff`), because the search for the shortest axis starts there.
* `mmulHelperMxM` reads operands whose element-wise stride is neither 1 nor -1 as if they
  were packed (`MatrixProduct.StridedOperandMisread`), and writes every column-major C as if
  it were, whatever its strides (`ProductLayout.StridedTargetMiswritten`: 14 where the product
  is 7). For A and B in different buffers it gives alpha * A * B + beta * C, for all contents
  and factors, if and only if every operand with an element-wise stride other than -1, and a
  column-major C, has packed strides on its axes longer than one (`ProductRightIff`).
* `mmulHelperMxV` takes both buffers as they are and copies neither operand
  (`MatrixDispatch.WindowMisread`). `mmulHelper` is therefore right, for all contents of two
  different buffers, if and only if the strides are packed of both operands of a matrix times a
  column, and of those with an element-wise stride otherwise (`HelperRightIff`).
* `tensorDot` goes wrong with that on ordinary packed arrays. Its `reshapei` makes a view
  without a copy where it can, and the view's strides need not be packed. A packed 2 x 2 x 2
  array of 0 to 7, contracted on axis 0 with the vector (0, 1), comes out with 1 where the sum
  is 4 (`Contraction.CubeMiscontracted`). The result is the direct sum, for all contents, if and
  only if every side that the product reads raw has packed strides (`TensorDotRightIff`). For
  a proper matrix times a single column that is so if A's side had to be copied or its two
  groups of axes step as in a packed matrix (`ColumnReadIff`, `MatrixStrides`,
  `TransposedReadIff`); other products of arrays with element-wise stride 1 or none are always
  right (`OnlyColumnsGoWrong`).
* `simpleMMul` with beta = 0 accumulates onto the old C and scales that too. It agrees with
  alpha * A * B + beta * C if and only if beta is not 0, or alpha is 0, or C was zero
  (`MatrixProduct.SimpleAgreesIff`).
* `default_block_size` counts down in warps until it meets zero. If the limit is not a
  multiple of the warp size it never does, and goes on with negative sizes unless one of the
  sizes before that fills the multiprocessor and ends the search
  (`LaunchConfig.DefaultBlockSize`); a limit of 100 threads does it
  (`LaunchConfig.WarpsStepOverZero`).
* The .npy parser looks for the key `fortranOrder`; the writer writes `fortran_order`. The
  flag is therefore decided by the payload: reading back gives the written header if and
  only if no stray key in the payload says otherwise (`Npy.LoadsWhatWasWritten`,
  `StrayKeyMisleads`). What is written is nevertheless what the format asks for
  (`HeaderDeclares`). The length field is right if and only if the dictionary is shorter
  than 65536 bytes (`HeaderAligned`), which a shape of 21845 ones is not (`OnesMisaligned`).
* The 64-bit offset basis ends in 2645 where the FNV definition has 0xcbf29ce484222325, so no
  text gets the 64-bit FNV hash (`Hash.NeverFnv64`).

## Model

| member | source | states |
|---|---|---|
| GraphExecutioner.Execute | blas/cpu/GraphExecutioner.cpp:189-478 | the nested loops end in exactly the state the transition system reaches from the start, with the flow path, frame ids and rewind layers updated in place to match |
| GraphExecutioner.VisitNode | blas/cpu/GraphExecutioner.cpp:242-320 | one pass of the node loop: an Exit bypasses the frame clean-up and the skip check, any other node first drops a frame just left, then is skipped or executed |
| GraphExecutioner.ShouldSkip | blas/cpu/GraphExecutioner.cpp:272-316 | the input loop reaches the verdict of the recursive check; a skipped node is marked inactive unless it is a Merge |
| GraphExecutioner.ExecuteNode | blas/cpu/GraphExecutioner.cpp:322-458 | frame id propagated only if none was set, node marked active, and the branch for its kind taken |
| GraphExecutioner.EnterNode | blas/cpu/GraphExecutioner.cpp:329-346 | a frame is opened unless it is the innermost one already; a failing op stops the run |
| GraphExecutioner.NextIterationNode | blas/cpu/GraphExecutioner.cpp:348-374 | plans a rewind for the innermost frame once, to the layer the Merge recorded; an empty input list throws and a missing frame is told apart |
| GraphExecutioner.ExitNode | blas/cpu/GraphExecutioner.cpp:376-405 | an unactivated frame is skipped, a planned rewind is consumed and jumps, otherwise the op runs; the frame is left except after a rewind |
| GraphExecutioner.OtherNode | blas/cpu/GraphExecutioner.cpp:408-458 | runs the op and marks the node executed, or stops with its status |
| GraphExecutioner.ProcessNode | include/graph/execution/impl/LogicMerge.cpp:16-64 | a Merge closing a loop tells its NextIteration its own layer, activates its frame and resets the executed mark it consumes |
| ExecutorSteps.Visit | blas/cpu/GraphExecutioner.cpp:236-240 | a visit costs one unit of budget, and the run is cut short exactly when that unit is the 10001st |
| FlowPaths.FlowPath.MarkNodeActive | include/graph/impl/FlowPath.cpp:54-58 | only that mark of that node changes |
| FlowPaths.FlowPath.MarkExecuted | include/graph/impl/FlowPath.cpp:127-129 | only that mark of that node changes |
| FlowPaths.FlowPath.MarkBranch | include/graph/impl/FlowPath.cpp:66-70 | only the branch of that node changes |
| FlowPaths.FlowPath.MarkFrameActive | include/graph/impl/FlowPath.cpp:78-82 | only the activation of that frame changes |
| FlowPaths.FlowPath.PlanRewind | include/graph/impl/FlowPath.cpp:88-90 | only the plan of that frame changes |
| FlowPaths.FlowPath.SetRewindPosition | include/graph/impl/FlowPath.cpp:96-98 | only the position of that frame changes |
| FlowPaths.FlowPath.SetRewindPositionOnce | include/graph/impl/FlowPath.cpp:100-102 | a position is recorded only while none (below zero) is |
| FlowPaths.FlowPath.ForgetFrame | include/graph/impl/FlowPath.cpp:109-112 | the frame is back to its defaults, all others keep their state |
| ExecutorRewinds.Halts | blas/cpu/GraphExecutioner.cpp:228-240 | for every graph, all ops and all rewinds some number of steps reaches a halted state, and that state is the result of the run: no loop rewinds forever |
| ExecutorRewinds.BudgetKept | blas/cpu/GraphExecutioner.cpp:237-240 | in every reachable state at most 10000 visits were let through plus at most one failing one, and the run was cut short exactly in the latter case |
| ExecutorRewinds.StackShapeAlways | blas/cpu/GraphExecutioner.cpp:261-268 | in every reachable state neighbours on the frame stack differ, and a frame about to be dropped is open |
| ExecutorRewinds.OpenAlways | blas/cpu/GraphExecutioner.cpp:261-341 | in every reachable state the frame stack is what the log says was opened and not dropped since |
| ExecutorRewinds.EnterOpens | blas/cpu/GraphExecutioner.cpp:329-346 | when an Enter has run, the innermost frame is its own, on top of exactly the frames that were open before, or none added if it was innermost already |
| ExecutorMarks.CheckIs | blas/cpu/GraphExecutioner.cpp:289-316 | a node other than a Merge is skipped exactly if some input is inactive or diverges to another branch, before any unknown one, and runs exactly if all are known and none does; an op diverges by its descriptor, or as logic op 30 |
| ExecutorMarks.ExitOutcome | blas/cpu/GraphExecutioner.cpp:376-405 | an Exit goes back if its frame is activated and has a plan, and in all other cases ends the frame, run or disabled |
| ExecutorMarks.MarksAlways | blas/cpu/GraphExecutioner.cpp:458 | in every reachable state of a run from a new flow path only nodes that ran are marked executed, and all of them that no Merge has as its second input |
| ExecutorMarks.MergeConsumes | include/graph/execution/impl/LogicMerge.cpp:16-64 | a loop Merge takes the executed mark off its second input exactly if it finds that variable |
| ExecutorFailures.SameSoFar | blas/cpu/GraphExecutioner.cpp:344-436 | for every graph, loops included: as long as no op fails at a node that runs, the run is the one in which no op fails |
| ExecutorFailures.FirstFailure | blas/cpu/GraphExecutioner.cpp:344-436 | the first op that fails ends the run with its code |
| ExecutorRewinds.RewindsBalance | blas/cpu/GraphExecutioner.cpp:359-396 | in every reachable state, for every frame since it was last forgotten: rewinds planned = rewinds taken + 1 if one is pending; and every rewind ever taken went to the layer of the last plan before it |
| ExecutorRewinds.RewindLands | blas/cpu/GraphExecutioner.cpp:376-405 | a rewind is taken only at an Exit, for the innermost frame, and the walk goes on at the beginning of the layer the plan named, whether or not that layer has nodes |
| ExecutorRewinds.RewindsGoToLoopMerges | blas/cpu/GraphExecutioner.cpp:364-370 | in every reachable state, planned, pending and taken rewinds name the layer of a Merge that closes a loop, or -1 when the NextIteration ran before any such Merge |
| ExecutorLiveness.CheckDecides | blas/cpu/GraphExecutioner.cpp:272-319 | with marks that match the definition of liveness, the check lets a node run if and only if it is live |
| ExecutorLiveness.ExecutesTheLive | blas/cpu/GraphExecutioner.cpp:272-327 | in every reachable state of a loop-free run the nodes executed are exactly the live ones among those visited, in order, by a liveness defined on the graph alone |
| ExecutorLiveness.LoopFreeRun | blas/cpu/GraphExecutioner.cpp:230-327 | how a loop-free run ends; if the ops succeed it finishes if and only if the graph has at most 10000 nodes, having executed exactly the live nodes |
| ExecutorLiveness.InputsRanIff | blas/cpu/GraphExecutioner.cpp:274-282 | up to every node the executor's choice is the intended one if and only if no earlier node is held by stale Merges; the condition speaks of the intended choice and the initial marks only |
| ExecutorLiveness.RunIsIntendedIff | blas/cpu/GraphExecutioner.cpp:230-327 | the ids a loop-free run executes, when the ops succeed and at most 10000 nodes are there, are those of the intended nodes if and only if no node is held by stale Merges |
| ExecutorLiveness.DeadMergeFeeds | blas/cpu/GraphExecutioner.cpp:281-282 | the run of a five-node graph finishes and executes nodes 1 and 5, although 5 reads a Merge that did not run and only node 1 should |
| ExecutorLoop.LoopRuns | blas/cpu/GraphExecutioner.cpp:230-405 | for every well-formed loop, condition and body of any size: n true conditions and a false one give n complete passes and one that skips the body and leaves the loop, unless the visits run out before; then the run is cut short |
| ExecutorLoop.TimesRun | blas/cpu/GraphExecutioner.cpp:230-405 | in the log of that, every node behind the Switch ran n times, and every other but the Exit n + 1 times, if it stands in one place |
| ExecutorLoop.WholeRun | blas/cpu/GraphExecutioner.cpp:189-478 | a graph that is an Enter and such a loop, from a new flow path: it finishes with exactly that log if and only if 1 + (n + 1) * nodes visited per pass is at most 10000, and is cut short otherwise |
| ExecutorLoop.SmallestWellFormed | blas/cpu/GraphExecutioner.cpp:230-405 | seven nodes with the Exit behind the NextIteration are such a loop, with six visits a pass |
| ExecutorNest.NestRuns | blas/cpu/GraphExecutioner.cpp:230-405 | a loop in the body of another: in every outer pass the inner frame is opened above the outer one, the inner loop makes its own passes and is left, its frame is dropped, and the run is back at the outer head with the outer frame innermost; or it is cut short, if the visits run out |
| ExecutorNest.NestTimes | blas/cpu/GraphExecutioner.cpp:230-405 | in that log a node of the inner body ran as often as the inner condition held in all outer passes, m * n times for m passes with n each |
| ExecutorNest.NestBreaks | blas/cpu/GraphExecutioner.cpp:376-405 | a pass whose outer condition fails never finishes: the run ends without an open frame, or for lack of visits |
| ExecutorNest.NestWhole | blas/cpu/GraphExecutioner.cpp:189-478 | the whole run of such a graph from a new flow path |
| ExecutorNest.SmallestNestFits | blas/cpu/GraphExecutioner.cpp:230-405 | thirteen nodes, with their op numbers, that are such a nest |
| ExecutorLoop.EarlyExitBreaks | blas/cpu/GraphExecutioner.cpp:255-405 | for every loop in the outermost frame whose Exit stands anywhere between Switch and NextIteration: if the condition holds the run ends, without an open frame, at the first NextIteration, or is cut short if the visits run out before |
| ExecutorLoop.BuiltLeavesEarly | include/graph/impl/Graph.cpp:597-667 | the layers `buildGraph` gives to the smallest loop put its Exit before its NextIteration |
| ExecutorLoop.BuiltLoopBreaks | include/graph/impl/Graph.cpp:597-667 | with the layers `buildGraph` gives to the same nodes, the Exit beside the body: the whole run, which ends only if the condition fails at once, and otherwise asks for a frame when none is open |
| StrideSort.Partition | include/pairwise_util.h:292-307 | with the pivot put back, the range is a rearrangement of itself with smaller strides left and larger ones right of the hole; nothing outside changes |
| StrideSort.SplitStack | include/pairwise_util.h:308-318 | the arrays hold the stack with its top interval replaced by the two parts, smaller one on top |
| StrideSort.SplitSizes | include/pairwise_util.h:311-318 | size(level k) * 2^k <= n is kept for both parts |
| StrideSort.QuickSort | include/pairwise_util.h:284-324 | sorted ascending by stride and a permutation, for every length and content; the stack's top level is at most log2(n), so the 300 entries suffice; the loop ends |
| StrideSort.SortStrideArray | include/pairwise_util.h:167-179 | every axis once with its own stride, ascending by stride; entries beyond ndim untouched |
| StrideSort.RearrangedTags | include/pairwise_util.h:170-179 | a sorted rearrangement of the tagged strides names every axis exactly once |
| StrideSort.DocumentedOrderIff | include/pairwise_util.h:157-163 | the documented descending-magnitude order holds if and only if strides that differ never have a positive sum |
| StrideSort.DocumentedExample | include/pairwise_util.h:161-162 | strides (4, -2, 12) give [(1,-2), (0,4), (2,12)], not the documented result |
| RawIteration.NextCoord | include/pairwise_util.h:63-74 | one odometer step advances the first-axis-fastest index by one with every pointer at base + coord . strides; when all axes wrap the pointers are back at base |
| RawIteration.NextCoordF | include/pairwise_util.h:76-87 | the same for the last axis fastest |
| RawIteration.RawIter | include/pairwise_util.h:58-150 | for one to four operands: the body runs product-of-shape times, visit k is at the k-th coordinate, all pointers right, all back at base at the end |
| RawIteration.RawIterF | include/pairwise_util.h:76-87 | the same in row-major order |
| RawIteration.FlipVisits | include/pairwise_util.h:496-510 | reversing any axes of all operands together keeps the multiset of visited address tuples |
| RawIteration.PrepareTwoRawArrayIter | include/pairwise_util.h:346-418 | first-operand strides non-negative, and the prepared arrays visit the same multiset of address pairs, also for zero-sized axes |
| RawIteration.ReverseTwo | include/pairwise_util.h:361-388 | the loop for two operands, in place on the outputs, keeps the multiset of address pairs |
| RawIteration.PrepareThreeSmall | include/pairwise_util.h:450-487 | the special cases of rank 0 and 1 keep the multiset of address triples |
| RawIteration.ReverseThree | include/pairwise_util.h:496-530 | the general loop, in place on the outputs, keeps it too |
| RawIteration.PrepareThreeRawArrayIter | include/pairwise_util.h:440-531 | for every rank: first-operand strides non-negative, same multiset of address triples |
| Shapes.FIndexUnravel | include/pairwise_util.h:64-74 | the k-th first-axis-fastest coordinate lies in the box and has index k |
| Shapes.LastFastest | include/helpers/shape.h:2458-2471 | in the row-major index the last axis runs fastest |
| Shapes.CUnravelIndex | include/helpers/shape.h:2458-2471 | unravelling a row-major index gives back the coordinate |
| CasLoops.EveryInterleaving | include/templatemath.h:1004-1010 | in every interleaving, at every moment, the word is what the committed calls leave one after another, each returned call committed once and replaced the word its predecessors left |
| CasLoops.NothingLost | include/templatemath.h:1004-1010 | for calls that commute the word is what exactly the returned calls leave: no update lost or doubled |
| CasLoops.AnyOrder | include/templatemath.h:1004-1010 | commuting calls leave the same word in any order |
| CasLoops.ProgressAlways | include/templatemath.h:1005-1009 | a swap fails only because another call has committed since the read |
| CasLoops.TurnsCount | include/templatemath.h:1005-1009 | every turn of a call that has not returned is its first read or a failed swap |
| CasLoops.EveryCallReturns | include/templatemath.h:1005-1010 | among n calls, one that gets n + 1 turns has returned, whatever the others do |
| Atomics.WholeWordTotals | include/templatemath.h:1001-1011 | concurrent double adds: the word is its start plus the values of exactly the returned calls, at every moment of every interleaving, and each call returns what the word was just before its own commit; the loop of the double multiply (lines 1060-1070) is the same with another operation |
| Atomics.HalvesApart | include/templatemath.h:1028-1036 | what one half holds depends on the calls to that half only |
| Atomics.HalfWordTotals | include/templatemath.h:1014-1044 | float16 adds on both halves of one word: each half is its start plus its returned adds, and each call returns what its half held just before its own commit |
| LaunchConfig.RoundsUp | include/cuda_launch_config.h:101-122 | the rounded value is the least multiple that is large enough |
| LaunchConfig.FitsIff | include/cuda_launch_config.h:126-283 | n blocks fit if and only if n is at most the computed count, fitting being said of the device's and the kernel's fields: block slots, threads, n times the least multiple of the granularity that holds static and dynamic shared memory, and registers per block, or per warp with all warps on a side, with the numbers of each compute capability |
| LaunchConfig.RegistersFit | include/cuda_launch_config.h:261-277 | count * warps * rounded registers per warp (or count * rounded registers per block) stays within the register file |
| LaunchConfig.OccupancyBound | include/cuda_launch_config.h:295-313 | no block size has more resident threads than the multiprocessor holds, so the early exit loses nothing |
| LaunchConfig.CandidatesAreMultiples | include/cuda_launch_config.h:297-301 | for a limit that is a multiple of the warp size the sizes visited are all positive warp multiples up to it |
| LaunchConfig.DefaultBlockSize | include/cuda_launch_config.h:291-317 | the largest of the visited sizes of which most threads fit with the shared memory that size asks for, 0 only if no visited size fits; the countdown passes zero if and only if the limit is no warp multiple and no visited size reaches the thread limit |
| LaunchConfig.WarpsStepOverZero | include/cuda_launch_config.h:295-313 | a kernel limited to 100 threads on a device of warps of 32, for which the countdown passes zero |
| Npy.CreateNpyHeader | include/cnpy/cnpy.h:356-389 | the loops append the preamble, the length and the padded dictionary, and a reader of the format finds there the byte order, kind and word size, the row-major order, and the shape, and the payload behind |
| Npy.HeaderDeclares | include/cnpy/cnpy.h:361-376 | the same for every payload: the dictionary has exactly the entries descr, fortran_order (False) and shape, for shapes whose header is short enough for the length field |
| Npy.WriteShape | include/cnpy/cnpy.h:366-373 | entries separated by ", ", a single one followed by a comma |
| Npy.Pad | include/cnpy/cnpy.h:376-378 | 1 to 16 characters, all blanks but a final newline |
| Npy.HeaderAligned | include/cnpy/cnpy.h:375-388 | magic, version, total length a multiple of 16; the length field leads to the payload if and only if the dictionary is shorter than 65536 bytes |
| Npy.OnesMisaligned | include/cnpy/cnpy.h:380-388 | for a shape of at least 21845 ones the length field does not lead to the payload |
| Npy.ParseShape | include/cnpy/cnpy.cpp:137-141 | the consuming loop reads the entries the recursive reader reads |
| Npy.ParseNpyHeaderStr | include/cnpy/cnpy.cpp:117-156 | the fields, or the error, for every text: out-of-range positions throw, a byte order other than little or none fails the assertion |
| Npy.ShapeTextReadsBack | include/cnpy/cnpy.cpp:130-141 | the written shape text is read back with its rank and all entries |
| Npy.KeyOnlyBehind | include/cnpy/cnpy.cpp:127-128 | the key the parser looks for can only be found behind the header |
| Npy.LoadNpyFromPointer | include/cnpy/cnpy.cpp:251-283 | parses the C string from byte 11 and leaves the cursor behind the first newline; without one the source runs on undefined |
| Npy.LoadsWhatWasWritten | include/cnpy/cnpy.cpp:251-283 | round trip for every payload and either byte order: big-endian fails the assertion, little-endian gives the same word size, rank and shape, cursor at the first payload byte; the flag is false and loading succeeds except for a stray key, and exactly then as stated |
| Npy.StrayKeyMisleads | include/cnpy/cnpy.cpp:127-128 | for every shape, a payload behind its header with which loading reports the flag as true, and one with which it throws |
| NpyText.AtoiToString | include/cnpy/cnpy.h:266-270 | reading a written number gives it back, with or without a blank in front |
| Gemm.Op | include/ops/impl/gemm.cpp:41-91 | C becomes alpha * op(A) * op(B) + beta * C; no cell outside the M x N block changes |
| Gemm.ResultIs | include/ops/impl/gemm.cpp:71-88 | an entry of that is alpha times the sum of the products of a row and a column, plus beta times the entry of C |
| Gemm.HeldIs | include/ops/impl/gemm.cpp:13-20 | what a buffer holds row by row and column by column |
| Gemm.DotEntry | include/ops/impl/gemm.cpp:71-82 | one entry is alpha times row times column, for both transpose flags |
| Gemm.PutEntry | include/ops/impl/gemm.cpp:84-88 | one entry of C changes, all others keep their value |
| Gemm.PlaceOnce | include/ops/impl/gemm.cpp:13-20 | different matrix positions lie at different buffer places |
| Gemm.Gemv | include/ops/impl/gemm.cpp:94-120 | Y becomes alpha * A * X + beta * Y, for both storage orders of A; no other cell changes |
| Gemm.BlasReadsTheSame | blas/cpu/NDArrayFactory.cpp:536-542 | the leading dimensions passed make a column-major xGEMM read the same places as the fallback |
| MatrixProduct.MmulHelperMxM | blas/cpu/NDArrayFactory.cpp:450-581 | a row-major C gets alpha * A * B + beta * C of the operands as they are read; a column-major C gets it written over its raw block as packed elements; without C a fresh product; cells outside C, or outside that block, stay |
| ProductLayout.ProductRightIff | blas/cpu/NDArrayFactory.cpp:509-559 | C' = alpha * A * B + beta * C for all contents and factors if and only if operands with element-wise stride other than -1 and a column-major C have packed strides; the "only if" for A and B in different buffers |
| ProductLayout.StridedTargetMiswritten | blas/cpu/NDArrayFactory.cpp:509-513 | a valid column-major C with strides 1 and 3 in which 14 is left where the product is 7 |
| MatrixProduct.DeliveredPacked | blas/cpu/NDArrayFactory.cpp:509-563 | for a row-major or packed C the value left is the product of the operands as read plus beta * C |
| MatrixProduct.MultiplyInto | blas/cpu/NDArrayFactory.cpp:509-563 | a row-major result by way of a column-major copy, a column-major one directly in its buffer; no other cell changes |
| MatrixProduct.Multiply | blas/cpu/NDArrayFactory.cpp:536-559 | flags from the orders give the product of the operands as read |
| MatrixProduct.Prepare | blas/cpu/NDArrayFactory.cpp:523-534 | the operand itself, or a packed copy if its element-wise stride is -1 |
| MatrixProduct.ReadsOperand | blas/cpu/NDArrayFactory.cpp:523-534 | an operand of element-wise stride -1 or packed strides is read as it is, whatever the buffer holds |
| MatrixProduct.RawReadsIff | blas/cpu/NDArrayFactory.cpp:523-534 | the raw buffer reads as the operand, for every content, if and only if axes longer than one have packed strides |
| MatrixProduct.StridedOperandMisread | blas/cpu/NDArrayFactory.cpp:523-534 | a valid operand of element-wise stride 2 that is misread |
| MatrixProduct.SimpleMMul | blas/cpu/NDArrayFactory.cpp:771-808 | refused exactly for shapes that do not fit; else C holds what the triple loop, the scaling and the final add leave |
| MatrixProduct.WithBeta | blas/cpu/NDArrayFactory.cpp:785-805 | with beta not 0 that is alpha * A * B + beta * C |
| MatrixProduct.Accumulate | blas/cpu/NDArrayFactory.cpp:794-797 | the triple loop adds the product onto what was there |
| MatrixProduct.SimpleAgreesIff | blas/cpu/NDArrayFactory.cpp:785-805 | it agrees with mmulHelperMxM if and only if beta is not 0, alpha is 0, or C was zero |
| MatrixDispatch.ChoiceOfFitting | blas/cpu/NDArrayFactory.cpp:626-643 | for fitting sizes the dot product is never chosen, and the matrix-vector routine exactly for a single column and a proper matrix |
| MatrixDispatch.MmulHelperMxV | blas/cpu/NDArrayFactory.cpp:586-617 | alpha times the product of the two raw buffers, in a fresh column |
| MatrixDispatch.MmulHelper | blas/cpu/NDArrayFactory.cpp:621-647 | alpha times the product of the operands as the chosen routine reads them: raw for a matrix times a column, else raw unless the element-wise stride is -1 |
| MatrixDispatch.HelperRightIff | blas/cpu/NDArrayFactory.cpp:596-643 | that is the product of the operands for all contents if and only if every operand read raw has packed strides; the "only if" for different buffers |
| MatrixDispatch.WindowMisread | blas/cpu/NDArrayFactory.cpp:596-614 | a window of a wider matrix times a column: 10 where the product is 2 |
| Reshaping.ReshapeCF | include/helpers/shape.h:4605-4735 | the loops over both shapes find the strides of a view, or that the elements have to be copied, as the definition by groups of axes does |
| Reshaping.ReshapeAddress | include/helpers/shape.h:4605-4735 | with these strides every element lies where the one of the same row-major index lay before |
| Reshaping.CopyOnlyIfNeeded | include/helpers/shape.h:4605-4735 | a copy is made if and only if there are no strides at all with which every element would stay in its cell |
| Reshaping.MatrixView | include/helpers/shape.h:4605-4735 | two groups of axes become a matrix without a copy if and only if each can be stepped through evenly, and then with those steps |
| TensorDot.GetOrder | include/helpers/shape.h:2756-2802 | the order letter of a permuted view, from its strides |
| TensorDot.Reshapei | blas/cpu/NDArray.cpp:1675-1783 | a view on the same cells where the strides allow it, else a packed row-major copy |
| TensorDot.ReshapeAt | blas/cpu/NDArray.cpp:1675-1783 | either way the reshaped array holds at a coordinate what the array holds at the same row-major index, and a view holds it in the same cell |
| Contraction.MakeSide | blas/cpu/NDArrayFactory.cpp:137-155 | a side is permuted and reshaped only if necessary, with the strides, order and element-wise stride that leaves |
| Contraction.ContractSides | blas/cpu/NDArrayFactory.cpp:157 | the product step gives the product of the sides as the chosen routine reads them, raw or not |
| Contraction.ContractAlong | blas/cpu/NDArrayFactory.cpp:130-166 | refused if and only if the named axes, -k being rank - k, differ in number or size or one is named twice; else the shape is the sizes of A's other axes, ascending, then those of B, and, if no side is read raw with other than packed strides, every element is the sum over the named axes of the products of elements there |
| Contraction.ReadPlainlyIff | blas/cpu/NDArrayFactory.cpp:130-166 | for all contents of both buffers that condition is also needed |
| Contraction.OnlyColumnsGoWrong | blas/cpu/NDArrayFactory.cpp:130-166 | for arrays of element-wise stride 1 or none it holds unless a proper matrix meets a single column |
| Contraction.TransposedReadIff | blas/cpu/NDArrayFactory.cpp:137-155 | a matrix contracted on its first axis is transposed only, and read right raw if and only if its rows or its columns are packed in the order it is given |
| Contraction.TensorDotIsDirectSum | blas/cpu/NDArrayFactory.cpp:130-166 | if the sides read raw have packed strides, it is at every coordinate the sum over the contracted axes of the products of elements |
| Contraction.TensorDotRightIff | blas/cpu/NDArrayFactory.cpp:130-166 | it is that sum for all contents of both buffers if and only if the sides read raw have packed strides |
| Contraction.MatrixStrides | blas/cpu/NDArray.cpp:1675-1783 | when a side that is reshaped is a view, and its strides, from the shape and strides of the array |
| Contraction.ColumnReadIff | blas/cpu/NDArrayFactory.cpp:143-157 | for a reshaped A side times a single column: packed if and only if it was copied or its groups step by the size of the contracted one and by 1 |
| Contraction.CubeMiscontracted | blas/cpu/NDArrayFactory.cpp:137-157 | a packed 2 x 2 x 2 array and a vector for which entry 0 comes out as 1 and the sum is 4 |
| TensorDot.EvalShapeForTensorDot | include/helpers/impl/ShapeUtils.cpp:19-95 | an error exactly when the axes do not match; else contracted axes last in A and first in B, in the order they are named, the free ones ascending, and the shape of the result |
| TensorDot.PlanFits | include/helpers/impl/ShapeUtils.cpp:50-61 | matching axes give plans that permute all axes and pair equal sizes |
| TensorDot.PlanPermutes | include/helpers/impl/ShapeUtils.cpp:50-61 | free axes and contracted axes, in either order, list every axis once |
| TensorDot.PermuteAt | blas/cpu/NDArrayFactory.cpp:137-141 | the permuted view holds at the permuted coordinate what the array holds at the original one |
| TensorDot.SideAt | blas/cpu/NDArrayFactory.cpp:137-155 | an operand as matrix: rows and columns unravel to the two groups of its axes |
| TensorDot.FlatIsBox | blas/cpu/NDArrayFactory.cpp:157-158 | summing over the flat inner index is summing over all inner coordinates |
| NDArrays.IsContiguous | blas/cpu/NDArray.cpp:992-1004 | true if and only if coord . strides is the row-major index for every coordinate |
| NDArrays.TightIff | blas/cpu/NDArray.cpp:992-1004 | coord . strides is the row-major index times a unit, for every coordinate, if and only if every axis longer than one has the packed stride times that unit |
| NDArrays.Ind2subC | include/helpers/shape.h:2458-2487 | the loop of divisions gives the coordinate with that row-major index |
| NDArrays.GetOffset | include/helpers/shape.h:4035-4055 | base + coord . strides with axes of size 1 left out, or -1 if and only if another axis is exceeded |
| NDArrays.NDArray.ByElementWiseStride | blas/NDArray.h:1322-1334 | from the strides alone: element i in the array's own order lies at offset + i * element-wise stride, row-major and column-major |
| NDArrays.NDArray.Locate | blas/NDArray.h:1322-1334 | the shortcuts for element-wise stride 1 and above lead to the same cell as unravelling |
| NDArrays.NDArray.Element | blas/NDArray.h:1317-1335 | refused if and only if the index is out of length, else the element at the row-major coordinate |
| NDArrays.NDArray.SetElement | blas/NDArray.h:1340-1358 | the same for writing: exactly one cell changes |
| NDArrays.NDArray.Element2 | blas/NDArray.h:1363-1371 | refused if and only if rank or indices do not fit, else the element |
| NDArrays.NDArray.Element3 | blas/NDArray.h:1389-1397 | what is refused, what is read, and which indices lead to cell -1 |
| NDArrays.Check3Iff | blas/NDArray.h:1391-1392 | the check accepts all valid indices if and only if the middle axis is no longer than the last, and always accepts an invalid one |
| NDArrays.NDArray.Subarray | blas/cpu/NDArray.cpp:2441-2470 | a window of the box's shape on the same buffer and strides, starting at the first cell; refused if and only if the intervals do not fit |
| NDArrays.ViewCell | blas/cpu/NDArray.cpp:2462-2466 | a view addresses its parent at start plus coordinate |
| NDArrays.ViewOfView | blas/cpu/NDArray.cpp:2441-2470 | a view of a view addresses the first array at the sum of the two starts |
| NDArrays.ViewValid | blas/cpu/NDArray.cpp:2441-2470 | a box of a valid array with distinct cells is one too |
| NDArrays.Assign | blas/cpu/NDArray.cpp:854-880 | a scalar fills, arrays of equal length are copied element by element whatever their shapes, by columns if both are column-major with the same element-wise stride, another length is refused; cells of no element stay |
| NDArrays.AssignBox | blas/cpu/NDArray.cpp:3013-3018 | the box gets the elements of other in row-major order, box cell first + c gets other[c] for equal shapes, or the scalar; every other element and every other cell is untouched |
| NDArrayTile.TileShapeIs | blas/cpu/NDArray.cpp:1835-1858 | the shape after repeating: sizes times counts, aligned at the last axis, and what is given where only one of them is |
| NDArrayTile.SubArrayIndex | include/helpers/shape.h:4896-4913 | the address, by the strides of the smaller array, of the coordinate taken modulo its shape |
| NDArrayTile.TileReadsIff | blas/cpu/NDArray.cpp:1868-1869 | that address is the index of coordinate mod shape for every coordinate if and only if the source is row-major |
| NDArrayTile.ColumnMajorMisread | blas/cpu/NDArray.cpp:1868-1869 | a column-major 2 x 2 source for which it is not |
| NDArrayTile.FillTiled | blas/cpu/NDArray.cpp:1868-1869 | every element is read at that index, for any source; a row-major source never runs out and is repeated |
| NDArrayTile.Tile | blas/cpu/NDArray.cpp:1835-1873 | which element of any source every element of the result is; source[c mod shape] aligned at trailing axes for row-major sources and for counts of one; refused for a zero count |
| NDArrayTile.TileRightIff | blas/cpu/NDArray.cpp:1835-1873 | the source is repeated for all contents if and only if no count is above one or it is row-major |
| NDArrayBroadcast.RepeatsReach | blas/cpu/NDArray.cpp:2136-2153 | repeating an operand by the quotients gives the aligned result shape if and only if every axis divides it |
| NDArrayBroadcast.BroadcastMultiple | blas/cpu/NDArray.cpp:2125-2153 | shapes that broadcast divide the shape of the result |
| NDArrayBroadcast.BroadcastIsLeast | include/helpers/impl/ShapeUtils.cpp:341-414 | the check and the result shape: two shapes broadcast if and only if both can be stretched, on axes of size 1 and by axes in front, to a common one, and the result is the least such shape |
| NDArrayBroadcast.SameAreAligned | include/helpers/impl/ShapeUtils.cpp:453-466 | an axis is among those of equal size if and only if its size is that of the aligned one |
| NDArrayBroadcast.SortedAscends | blas/cpu/NDArray.cpp:2086-2088 | the axes broadcast along are those given, ascending |
| NDArrayBroadcast.GetDimsWithSameShape | include/helpers/impl/ShapeUtils.cpp:453-466 | the axes of the larger array whose size is that of the aligned axis of the smaller, ascending |
| NDArrayBroadcast.ApplyTrueBroadcast | blas/cpu/NDArray.cpp:2109-2164 | for any ranks: with the check refused if and only if the target's shape is not the least common one, and else this[c] op other[c] at the coordinates that stand for c, if nothing is stretched without being row-major; without the check when it is refused, when it stops, and which elements are combined |
| NDArrayBroadcast.StretchedRightIff | blas/cpu/NDArray.cpp:2109-2164 | for the least common shape of two arrays of distinct cells in different buffers: right for all contents and ops if and only if other has axes and nothing is stretched without being row-major |
| NDArrayBroadcast.FromIsWrapIff | blas/cpu/NDArray.cpp:2136-2157 | an operand is read at the broadcast coordinate, for every coordinate, if and only if it is row-major or need not be tiled |
| NDArrayBroadcast.CombinedIsOutcome | blas/cpu/NDArray.cpp:2109-2164 | what the method leaves, as a function of the contents of both arrays |
| NDArrayBroadcast.BroadcastRightIff | blas/cpu/NDArray.cpp:2109-2164 | this[c] op other[c] at broadcast coordinates for all contents of the buffers and all ops if and only if other has axes, no more than this, and operands that must be tiled are row-major; the "only if" for different buffers |
| NDArrayBroadcast.OtherIgnoredWrong | blas/cpu/NDArray.cpp:2154-2163 | for an other of rank 0, zero plus one comes out as zero |
| NDArrayBroadcast.OperandsSwappedWrong | blas/cpu/NDArray.cpp:2115-2122 | for an other of higher rank, zero minus one comes out as one |
| NDArrayBroadcast.ApplyBroadcast | blas/cpu/NDArray.cpp:2082-2103 | along any distinct axes in any order: op of each element and the one at its coordinates on those axes; another length is refused, no axes leave everything |
| NDArrayDiagonal.SetIdentity | blas/cpu/NDArray.cpp:3022-3043 | ones where all indices are equal and below 10^8, zeros elsewhere, cells of no element untouched |
| NDArrayDiagonal.DiagonalStep | blas/cpu/NDArray.cpp:3031-3034 | the offset of (1, ..., 1) steps from one diagonal element to the next |
| NDArrayDiagonal.GetTrace | blas/cpu/NDArray.cpp:3253-3276 | the sum of the diagonal elements, as many as the shortest axis has but at most 10^8 |
| NDArrayDiagonal.TraceOfIdentity | blas/cpu/NDArray.cpp:3253-3276 | the trace of what setIdentity leaves is the length of the diagonal |
| NDArrayDiagonal.ScalarTraceIff | blas/cpu/NDArray.cpp:3258-3275 | the trace of a rank-0 array is its element if and only if that is zero |
| Hash.MultiplyBack | include/flatbuffers/hash.h:34-50 | multiplying by the inverse of the prime undoes the multiplication, for both widths |
| Hash.HashFnv1 | include/flatbuffers/hash.h:45-53 | the loop hashes the bytes up to the terminating zero, multiplying first |
| Hash.HashFnv1a | include/flatbuffers/hash.h:55-63 | the same, mixing in the byte first |
| Hash.StepIs | include/flatbuffers/hash.h:45-63 | FNV-1 multiplies by 16777619 or 1099511628211 and then mixes in the byte, every bit by exclusive or; FNV-1a the other way round |
| Hash.KnownHashes | include/flatbuffers/hash.h:45-63 | the published 32-bit hashes of "a" |
| Hash.StepInjective | include/flatbuffers/hash.h:48-61 | a step loses nothing of the hash, for 32 and 64 bits and both variants |
| Hash.OneByteChangesHash | include/flatbuffers/hash.h:45-63 | texts that differ in one byte have different hashes |
| Hash.NeverFnv64 | include/flatbuffers/hash.h:39-43 | no text gets the hash that the basis of the FNV definition would give it |
| Hash.SameEnd | include/flatbuffers/hash.h:45-63 | texts with a common end have equal hashes if and only if their beginnings have |

## Left out

- GraphExecutioner.Execute: profiling, logging, workspaces, building the graph and embedded graphs; an op is an arbitrary outcome. Reading the innermost frame when there is none is undefined in the source and ends the run with a status of its own here, as does an input the graph does not know.
- GraphExecutioner.ProcessNode: the arrays a Merge hands on, and the rewind node id that only a debug message reads.
- ExecutorLiveness.LoopFreeRun: graphs with loops have no liveness definition here; for them the theorems are those of `ExecutorRewinds` and `ExecutorLoop`.
- ExecutorLoop.LoopRuns: several Merges, Switches or Exits; failing ops are those of `ExecutorFailures`. If the run is cut short the log is left open.
- ExecutorNest.NestRuns: one inner loop, in the body; deeper nests and loops inside a condition.
- ExecutorNest.NestBreaks: inner conditions that read nothing of the outer body but their own Merge, and an outer loop inside a further frame.
- ExecutorLoop.BuiltLoopBreaks: `buildGraph` itself; the layers it gives to the seven nodes are written down.
- ExecutorLoop.EarlyExitBreaks: a frame around the loop's own, whose rewind the NextIteration would plan instead.
- StrideSort.QuickSort: lengths beyond the int range, which the parameter type excludes.
- RawIteration.PrepareTwoRawArrayIter: pointer width; addresses are unbounded integers. The outputs are separate from each other and from the inputs.
- Atomics.WholeWordTotals: rounding; the operation is any commutative semigroup. Subtraction, division and the float versions mix operands and conversions and promise nothing to prove. Memory order weaker than interleaving is not modelled.
- LaunchConfig.DefaultBlockSize: what the search makes of negative sizes once it has passed zero.
- LaunchConfig.FitsIff: int overflow of the products.
- Npy.ParseNpyHeaderStr: the type letter, which the parser ignores, and atoi beyond the int range.
- Npy.CreateNpyHeader: rank 0, for which the source reads an entry that is not there. Byte order, type letter and word size are parameters.
- Npy.LoadNpyFromPointer: file handles, .npz archives and ownership of the data.
- MatrixProduct.MmulHelperMxM: provided BLAS libraries beyond the places they read. C shares no buffer with A or B.
- MatrixDispatch.MmulHelper: a result given by the caller, sizes that do not fit, arrays of more than two axes, and a provided GEMV.
- MatrixProduct.SimpleMMul: ranks other than 2 and a C that is null, which the source dereferences.
- Contraction.ContractAlong: arrays are values here, so an A and a B that share a buffer are not modelled. Every block that is read raw has to lie in its buffer, and cells are distinct; reading beyond the buffer is undefined in the source.
- Reshaping.ReshapeCF: the column-major variant, which tensorDot does not ask for.
- TensorDot.EvalShapeForTensorDot: axes out of range, which the source reads past the shape.
- NDArrays.AssignBox: intervals that are empty or leave the shape. `other` shares no buffer with the array.
- NDArrays.Assign: arrays that share a buffer.
- NDArrays.NDArray.Element: a negative index, which the source does not check.
- NDArrayTile.FillTiled: an address below zero is undefined in the source and ends the loop here.
- NDArrayBroadcast.ApplyBroadcast: an array of the length of the chosen axes but another shape, repeated axes, and a target other than the array itself.
- NDArrayBroadcast.ApplyTrueBroadcast: a target that shares a buffer with an operand.
- Pointer replacement and null-C `simpleMMul`: the code is marked unfinished or does not do what its name says.
- FlatBuffers and TensorFlow import, elementary functions, op dispatch tables, the native op interface, getters and setters: input and output, or only easy members.
- OpenMP: parallel loops whose iterations write different cells are sequential here.
