# The graph middle end, verified

The compiler's middle end works on one data structure: a graph of nodes that read and write
values, where every value knows its readers (`users_`) and its producer.  Passes differentiate
the graph, differentiate whole loops, recompute forward values to save memory, fuse nodes, put
them in an order, rewrite them and simulate the memory they need.  This project models those
passes and proves, for all graphs and all runs, what each of them is for: gradients are the
adjoint of the derivative, rewrites preserve what the graph computes, orders respect the data
flow, loops end, def-use links stay right.

How the model is built:

- `Ir` has nodes, values and the meaning of operators.  A *run* is an assignment of data to all
  values in which every node's outputs are what its operator makes of its inputs (`Solves`);
  operators without a model are arbitrary functions (`Kernels`).  "Preserves" always means that
  every run before is matched by a run after with the same values, and the other way round.
- `GraphIr` is the mutable graph; `Builder` adds nodes to it.  Ids stand for pointers, and a
  detached node leaves the map of nodes but stays in the list of nodes.
- Read-only passes take a `Snapshot` of the graph.  A check of the program that may fail
  (`CHECK`) is a result `ok`, false exactly when the program would abort.
- Tensors are reals (all shapes equal), integers, booleans, sequences, or tensors seen along
  their leading axis; `Gemm` has matrices.

Modules by source file:

| source | modules |
|---|---|
| gradient_ops.cc | `Dual`, `GradientOps`, `GemmGradient`, `LoopGradientMeaning`, `LoopGradientRuns`, `LoopGradient`, `LostGradient` |
| gradient.cc | `ReverseMode`, `Gradient`, `GradientReach`, `GradientGraphs`, `GradientRuns`, `ForwardMode` |
| gradient_with_order.cc | `OrderMeaning`, `OrderPlan`, `OrderRuns`, `Orders`, `OrderGradients`, `OrderSync`, `OrderAdjoint` |
| topology.cc, scheduler.cc | `Worklist`, `Topology`, `Delay`, `Scheduler`, `ClassifyValues` |
| fusion.cc | `FusionCandidates`, `FusionChoice`, `FusionPlan`, `Renaming`, `FusionMeaning`, `Fusion` |
| simplifier.cc | `Simplifier`, `Loops`, `ScanMeaning`, `ReplaceScan` |
| merge.cc, constant_propagation.cc | `Rewriting`, `MergeSum`, `ConstantPropagation` |
| subgraph_canonicalizer.cc | `CanonicalizerMeaning`, `Canonicalizer` |
| memory_simulator.cc | `MemorySimulator` |
| graph.cc, node.cc, value.cc, graph_builder.cc | `Ir`, `GraphIr`, `Builder` |

Where the code does not do what one would expect, the exact condition is proved:

- `CheckSanity` asks for a positive order while the schedulers skip nodes whose order is zero or
  more; with all inputs present and no cycle it fails exactly when a necessary node has order 0
  (`Scheduler.SaneUnlessOrderZero`; one node of order 0 is enough, `Scheduler.OrderZeroFails`).
- `FuseAllConnectedNodes` marks the candidates before `CreateFusionGroup` may decline a group that
  takes nothing in or gives nothing out, and a later search that meets a marked node aborts.  It
  aborts exactly when a plan told on the first graph does, which goes through the list with the sets
  of nodes grouped and marked so far (`FusionPlan.Plans`, in
  `Fusion.FusedGraph.FuseAllConnectedNodes`).  In particular it never does if no set of nodes of the
  first graph would be declined; it does only if one that takes nothing in has a fusable reader
  outside; and it does if what is selected of some component of that graph is worth a group and
  takes nothing in, while a node of the component that is not first in the list was not selected,
  whatever groups are formed elsewhere before (four nodes in `Fusion.ConstantRootAborts`).
- `MaybeMergeAddToSum` does not look whether the intermediate sum is an output of the graph.  The
  outputs are preserved exactly when none of them is, in the first graph, written by a sum and used
  once, by a sum (`MergeSum.MergeOperations`; two additions in `MergeSum.OutputIsMerged`).
- The gradient of a loop that runs zero times loses what comes in for a state that no state of its
  body depends on.  The backward loop is the adjoint exactly when there are iterations or, for each
  input value, what is lost adds up to nothing (`LoopGradientMeaning.LoopAdjoint`); a loop that
  overwrites its only state loses its gradient (`LostGradient.ZeroIterationsLoseGradient`).
- Under arbitrary orders, what one reader has contributed to the gradient of a value is overwritten
  when the value is recomputed before another reader, computed only once, is differentiated
  (`OrderGradients.GradientIsOverwritten`).  All contributions are kept along a list of orders
  exactly when, whenever a node is differentiated, each of its inputs is staged as itself, or where
  its gradient is current, or has no gradient yet; the orders alone tell which holders have a
  gradient and which have the current one (`OrderSync.CompleteExactlyCurrent`).  Then the orders
  compute what reverse mode computes (`OrderAdjoint.OrdersAreReverseMode`).
- `SimulateMemoryUsage` skips an unknown size (-1) when it allocates and subtracts it when it
  frees; the simulated memory is exact if and only if no value of unknown size has been freed
  (`MemorySimulator.ExactUnlessUnknownFreed`; one such value leaves a byte in use,
  `MemorySimulator.UnknownLeavesAByte`).

## Model

| member | source | states |
|---|---|---|
| GraphIr.Graph.AddInput | compiler/node.cc:181-184 | One more input; after it, as after every operation below, the users of every value are, as a multiset, its occurrences among the inputs of attached nodes (`Valid`). |
| GraphIr.Graph.AddOutput | compiler/node.cc:191-200 | The output is inserted at the index and the value's producer is the node. |
| GraphIr.Graph.AddNode | compiler/graph.cc:347-352 | A new node; every input has one more user, every output the new producer. |
| GraphIr.Graph.Detach | compiler/node.cc:202-209 | The node is gone, and so is each of its uses. |
| GraphIr.Graph.ReplaceInput | compiler/node.cc:219-225 | The first occurrence of one input becomes the other value, and one use moves with it. |
| GraphIr.Graph.ReplaceOutput | compiler/node.cc:227-233 | One output becomes the other value, which gets the producer the old one loses. |
| Builder.Emit | compiler/graph_builder.cc:75-80 | Exactly one node and one value are new, and all nodes of before are as they were. |
| Builder.GetLiveNodes | compiler/graph.cc:166-172 | The attached nodes, all of them, in the order of the list of nodes. |
| Dual.DualDivIsInverse | compiler/gradient_ops.cc:225-233 | The derivative of a quotient is the one that makes division the inverse of multiplication. |
| Dual.PullbackIsAdjoint | compiler/gradient_ops.cc:198-237 | For Add, Sub, Mul, Square, Div, Neg and Identity: what the operands receive times their tangents is the output's gradient times its tangent. |
| GradientOps.GradientContext.Retain | compiler/gradient_ops.cc:70-87 | The value itself in one-graph mode, and nothing changes; with two graphs, a value that a Constant writes is copied by one new Constant and not retained, and any other value has one placeholder, made the first time only. |
| GradientOps.GradientContext.SetGrad | compiler/gradient_ops.cc:147-160 | The gradient is set, or an accumulating node adds it to the one there was. |
| GradientOps.GradientContext.GradOp | compiler/gradient_ops.cc:162-177 | A node writes a new value which is set or accumulated as gradient. |
| GradientOps.GradientContext.AddGradFn | compiler/gradient_ops.cc:198-201 | In every run of the graphs it leaves behind, the gradient of every value has grown by exactly what the node passes back to it, with equal operands counted twice. |
| GradientOps.GradientContext.SubGradFn | compiler/gradient_ops.cc:203-206 | The same for Sub. |
| GradientOps.GradientContext.MulGradFn | compiler/gradient_ops.cc:208-216 | The same for Mul, including Mul(x, x); what each operand gets is reduced to the shape of that operand. |
| GradientOps.GradientContext.SquareGradFn | compiler/gradient_ops.cc:218-223 | The same for Square. |
| GradientOps.GradientContext.DivGradFn | compiler/gradient_ops.cc:225-233 | The same for Div. |
| GradientOps.GradientContext.SameOpGradFn | compiler/gradient_ops.cc:235-237 | The same for Neg, and for Identity (lines 337-339). |
| GradientOps.GradientContext.AddGradientForNode | compiler/gradient_ops.cc:1227-1332 | False exactly when a necessary output gradient is missing; nothing changes then, nor for operators without a gradient. |
| ReverseMode.StepKeepsProduct | compiler/gradient.cc:166-168 | One step of reverse mode keeps the inner product of pending gradients and tangents. |
| ReverseMode.Adjoint | compiler/gradient.cc:156-169 | After all steps that product is the one at the requested inputs. |
| Gradient.FilterOutUnnecessaryNode | compiler/gradient.cc:65-92 | Keeps exactly the nodes that depend on the requested inputs. |
| Gradient.ReverseOfNecessary | compiler/gradient.cc:161-164 | The chosen nodes, every one before the writers of what it reads. |
| Gradient.UnreachedIsConstant | compiler/gradient.cc:83-91 | Nodes that are filtered out have outputs that do not vary with the inputs. |
| Gradient.UnneededIsZero | compiler/gradient.cc:159-163 | Values the outputs do not need receive no gradient. |
| Gradient.GenerateGradientNodes | compiler/gradient.cc:156-169 | For every run and all tangents, output gradients times output tangents equal computed gradients times input tangents; exactly the nodes both needed and dependent are gone through. |
| GradientGraphs.RetainOutputs | compiler/gradient.cc:113-126 | Each retained value leaves one graph as an output and enters the other as an input, once: two nodes for each and no others are new. |
| GradientGraphs.CrossesMeans | compiler/gradient.cc:118-125 | So its placeholder holds the forward value in every joint run. |
| ForwardMode.OneGraphOrTwo | compiler/gradient.cc:103-127 | The graphs that a call for one graph and a call for two leave behind give the same gradients, in any runs with equal forward values and equal output gradients. |
| GradientGraphs.GradientNodesCloseNoCycle | compiler/gradient_ops.cc:162-177 | Although accumulating nodes are listed before the nodes they read, no cycle arises. |
| GradientGraphs.GenerateGradientNodesImpl | compiler/gradient.cc:103-127 | The adjoint identity for one graph or two; exactly the requested values that an output depends on get gradients; in two graphs, gradient nodes read nothing of the forward graph, and exactly the values carried over leave it, each once and none of them a constant; in one graph, it stays acyclic; in both every forward run continues through all nodes. |
| GradientGraphs.JointRunExists | compiler/gradient.cc:103-127 | Two graphs: every run of the forward graph and of what was in the other one is part of a joint run, with everything retained crossing over. |
| GradientReach.GradientsReach | compiler/gradient.cc:156-169 | A requested value gets a gradient exactly when a path of operators with gradients leads from it to an output. |
| GradientRuns.RunExtends | compiler/gradient_ops.cc:198-237 | Gradient nodes never get stuck: every run of the forward graph, with any output gradients, extends to them. |
| ForwardMode.TangentsExist | compiler/gradient.cc:156-169 | Every run has tangents, whatever those of the requested inputs are, so the adjoint identity is about something. |
| ForwardMode.GradientsUnique | compiler/gradient.cc:156-169 | Therefore the adjoint identity determines every requested gradient. |
| GemmGradient.GradAIsAdjoint | compiler/gradient_ops.cc:464-482 | For all sizes and all transpositions the node built for the first factor is the adjoint of the product in it. |
| GemmGradient.GradBIsAdjoint | compiler/gradient_ops.cc:484-502 | The same for the second factor. |
| GemmGradient.GemmAdjoint | compiler/gradient_ops.cc:459-502 | Both together are the adjoint of the derivative of alpha * op(A) * op(B). |
| GemmGradient.DerivativeIsLinearPart | compiler/gradient_ops.cc:459-502 | That derivative is the linear part of the change of the product. |
| LoopGradient.OutputIterationCount | compiler/gradient_ops.cc:805-824 | The counter becomes one more state, at the end of the states outside, at the end of all outputs inside. |
| LoopGradient.CountKeepsComplete | compiler/gradient_ops.cc:817-823 | With the counter the body is still complete and acyclic. |
| LoopGradient.DifferentiateBody | compiler/gradient_ops.cc:857-875 | The body's gradient graph is the adjoint of the body and shares no value with it. |
| LoopGradient.PopRetained | compiler/gradient_ops.cc:889-894 | One pop per retained value, in one order for all lists. |
| LoopGradient.PushInBody | compiler/gradient_ops.cc:897-905 | One push per retained value, in that order. |
| LoopGradient.PassGradients | compiler/gradient_ops.cc:929-936 | In every run the gradients outside grow by what the backward loop leaves at the states the body differentiates. |
| LoopGradient.LoopGradFn | compiler/gradient_ops.cc:826-969 | Leaves loops with scan outputs or without gradients alone; else the two loops have the form from which the theorems below follow, no constant of the body is pushed, the gradients outside grow accordingly, and every run of the forward graph and of the loop as it was becomes a joint run of both loops, one as often as the other. |
| LoopGradientMeaning.ForwardIsLoop | compiler/gradient_ops.cc:896-922 | Every run of the forward loop with counter and stacks is a run of the loop. |
| LoopGradientRuns.ForwardRuns | compiler/gradient_ops.cc:896-922 | And every run of the loop, with the counter and the stacks put in, is one of the forward loop. |
| LoopGradientMeaning.ForwardEnds | compiler/gradient_ops.cc:805-824 | The counter ends as the number of iterations, each stack with the values of all of them in order. |
| LoopGradientMeaning.StacksPairUp | compiler/gradient_ops.cc:889-922 | The backward loop runs as often, its k-th step has the values of forward step n-1-k, and all stacks end empty. |
| LoopGradientRuns.JointRunMade | compiler/gradient_ops.cc:826-969 | Neither loop gets stuck: every run of the loop and of the graph around it is part of a joint run with as many backward steps, whatever gradients come in. |
| LoopGradientMeaning.LoopAdjoint | compiler/gradient_ops.cc:826-969 | In a joint run the backward loop is the adjoint of the forward loop, for all tangents, exactly when there are iterations or nothing is lost of the gradient of any input value. |
| LostGradient.ZeroIterationsLoseGradient | compiler/gradient_ops.cc:930-936 | A loop of no iterations that overwrites its state: both loops have a joint run, and the backward loop is not the adjoint. |
| OrderMeaning.RecomputeIsFaithful | compiler/gradient_with_order.cc:324-352 | A recomputed node's outputs equal the original ones in every run. |
| Orders.OrderRun.ConstraintsHold | compiler/gradient_with_order.cc:173-205 | The checks of CheckConstraints never fail. |
| Orders.OrderRun.ComputeFirst | compiler/gradient_with_order.cc:290-304 | A first computation goes through exactly when its inputs are staged as themselves and its outputs are not staged. |
| Orders.OrderRun.HoldAll | compiler/gradient_with_order.cc:310-330 | Forward values that a recomputation reads get a placeholder, at most one each. |
| Orders.OrderRun.Recompute | compiler/gradient_with_order.cc:305-353 | Goes through exactly when the inputs are staged and the outputs forgotten; its node reads only values of the backward graph. |
| Orders.OrderRun.ComputeBackward | compiler/gradient_with_order.cc:357-421 | Whatever the gradient of the node reads equals the original operand and, with two graphs, belongs to the backward graph; a constant of either graph is copied and not retained. |
| OrderPlan.CourseInOrder | compiler/gradient_with_order.cc:271-436 | In every accepted list of orders a recomputation reads what there was or what earlier ones made, and only nodes computed once are recomputed or differentiated. |
| OrderRuns.CopyGoes | compiler/gradient_with_order.cc:324-352 | Every run goes on through a recomputed node, with the original's values. |
| Orders.OrderRun.AddGradientNodesForTrainingWithOrders | compiler/gradient_with_order.cc:207-462 | Succeeds exactly when the orders are accepted one after the other; what is staged at the end, and what each recomputation has read, is what the orders say. Every recomputed or staged value equals its original, every gradient is given what it asks for, nothing else is added but the crossing of retained values, and every forward run goes on. |
| OrderSync.CompleteExactlyCurrent | compiler/gradient_with_order.cc:357-421 | Along any accepted list of orders, begun with gradients at forward values only, all gradients are complete after each order exactly when at each backward order every input is staged as itself, or where its gradient is current, or has no gradient yet: a fold over the orders alone. |
| OrderSync.RecomputedBeforeBoth | compiler/gradient_with_order.cc:357-421 | A value forgotten and recomputed once, before both its readers are differentiated: nothing is lost. |
| OrderAdjoint.OrdersAreReverseMode | compiler/gradient_with_order.cc:357-421 | Under that condition the gradient of every forward value is, after any number of orders, what reverse mode makes of the nodes differentiated so far, with operands read where they are staged. |
| OrderAdjoint.OrdersAreAdjoint | compiler/gradient_with_order.cc:357-421 | Orders that differentiate the nodes between inputs and outputs, each once and after its readers, compute the adjoint of the tangents. |
| OrderAdjoint.OrdersAgreeWithPass | compiler/gradient_with_order.cc:357-421 | And so the same gradients as the pass without orders leaves behind, in one graph or two. |
| OrderGradients.Run.SteadyIsComplete | compiler/gradient_with_order.cc:357-421 | All gradients stay complete when every node is differentiated with the very values that it was last computed from. |
| OrderGradients.GradientIsOverwritten | compiler/gradient_with_order.cc:357-421 | Seven orders after which one of two contributions to a shared value is lost. |
| Orders.OrderRun.AddRetainedParts | compiler/gradient_with_order.cc:130-142 | Placeholders receive the forward values, guards are skipped. |
| Topology.SortTopologicallyWithDistance | compiler/topology.cc:69-115 | A topological list sorted by distance; all nodes come out exactly when they are closed under producers and acyclic. |
| Topology.DistanceBoundsPaths | compiler/topology.cc:96-112 | No path to a node is longer than its distance. |
| Topology.LongestPath | compiler/topology.cc:96-112 | One path is that long. |
| Topology.SortTopologically | compiler/topology.cc:61-67 | The same list without distances. |
| Worklist.MakeValueReady | compiler/topology.cc:99-111 | Decrements at all users, once per use, and lists exactly the nodes that have become ready. |
| Worklist.GetNumActualInputs | compiler/node.cc:211-217 | The number of inputs that are not null. |
| ClassifyValues.ClassifyValues | compiler/topology.cc:15-59 | Inputs are read and not written inside, outputs are written inside and used outside or results of the graph, temporaries are the rest. |
| Scheduler.GetNecessaryNodesAndInputCounts | compiler/graph.cc:286-322 | Exactly the least set of nodes that suffices for the outputs, with the right counts. |
| Scheduler.ScheduleNaively | compiler/scheduler.cc:106-144 | Visits exactly the necessary nodes that can run, each once and after its inputs, also when the graph is incomplete or has cycles, and returns the unscheduled ones. |
| Scheduler.ScheduleGreedy | compiler/scheduler.cc:148-200 | The same, and every node is among the cheapest that could run. |
| Scheduler.EmplacedBehindEqual | compiler/scheduler.cc:156-160 | A node queues up behind those that cost as much, and before those that cost more. |
| Scheduler.ScheduledGraph.CheckSanity | compiler/scheduler.cc:202-235 | Passes exactly when every necessary node has a positive order or gets one. |
| Scheduler.SaneUnlessOrderZero | compiler/scheduler.cc:202-235 | Without cycles and missing inputs it fails exactly for an order 0. |
| Scheduler.OrderZeroFails | compiler/scheduler.cc:202-235 | It does fail for a single node of order 0. |
| Scheduler.SaneOnFreshGraph | compiler/scheduler.cc:202-235 | With nothing scheduled before, it passes exactly when there is no cycle and no missing input. |
| Scheduler.NumberingIsConsistent | compiler/scheduler.cc:252-260 | New orders increase along every edge, together with the old ones. |
| Scheduler.ScheduledGraph.ScheduleComputation | compiler/scheduler.cc:239-261 | On a graph as it is made, without orders, it goes through exactly when the necessary nodes are closed under their inputs and acyclic; then exactly these have orders, those after the given one, each once and increasing along the data. Over any number of calls orders stay consistent with the data flow. |
| Delay.EstimateMemoryIncrease | compiler/scheduler.cc:19-44 | Bytes written less the shares of the bytes read, 0 when a size is unknown. |
| Delay.SharesAddUp | compiler/scheduler.cc:28 | Over all uses of a value the shares add up to at most its bytes, and to more than its bytes less the number of its users. |
| Delay.DelayChain | compiler/scheduler.cc:67-92 | Each move puts a cheap node just before its first reader; every node moves at most once. |
| Delay.FlattenIsSchedule | compiler/scheduler.cc:97-102 | The result is a permutation and still a schedule, and only cheap nodes were overtaken. |
| Delay.DelaySimpleNodes | compiler/scheduler.cc:48-103 | The same for the whole pass: the list returned has every node in its slot or, moved once, in that of its first reader, and every simple node that may move does. |
| FusionCandidates.RejectCyclicNodes | compiler/fusion.cc:26-58 | Removes exactly the candidates that a path leaving the candidates comes back to. |
| FusionCandidates.SeparatedIsConvex | compiler/fusion.cc:26-58 | What is left is convex: no path leaves it and re-enters. |
| FusionCandidates.RejectUnusedConstants | compiler/fusion.cc:60-79 | Drops constants that nobody inside reads, and the rest stays separated. |
| Renaming.ReplaceValue | compiler/fusion.cc:102-115 | Inside the group, and only there, one value takes the place of another. |
| FusionMeaning.FuseIsEquivalent | compiler/fusion.cc:90-163 | Contracting a group preserves every value but its temporaries, in both directions. |
| FusionMeaning.FuseIsAcyclic | compiler/fusion.cc:90-163 | Contracting a separated group closes no cycle. |
| Fusion.FusedGraph.CreateFusionGroup | compiler/fusion.cc:90-163 | The graph becomes exactly the one with the group contracted, or stays when nothing goes in or out. The new node reads all that some node of the group reads and none writes, but for values with an initializer when these may be fused: their initializers are then inside, and otherwise none is. |
| FusionChoice.ComponentIsConnected | compiler/fusion.cc:173-199 | A path of fusable nodes of one phase leads from the base node to each node of its component. |
| Fusion.FusedGraph.Connected | compiler/fusion.cc:173-199 | Finds exactly that component, or fails, exactly when one of its nodes is marked. |
| Fusion.FusedGraph.FuseAllConnectedNodes | compiler/fusion.cc:165-214 | Group after group the graph stays acyclic and computes the same outputs; at the end no component is worth a group but those left over by one. Every new group holds the least number of nodes with operators other than Identity, Constant and Reshape, and reads what enters it in the first graph, with initializers moved inside only if they may be; groups are numbered one by one. Which groups are created, and exactly when the pass aborts, is told by a plan on the first graph, with simpler conditions under which it must and must not. |
| Fusion.ConstantRootAborts | compiler/fusion.cc:90-190 | A constant, its Relu, an operator that is not fusable, and the sum of the latter two: the plan aborts, and so does the pass. |
| ScanMeaning.CompiledValidates | compiler/node.cc:119-133 | The loop built for a scan meets the rules for its numbers of inputs and outputs. |
| ScanMeaning.LoopRunsScan | compiler/simplifier.cc:129-271 | Every run of the loop is a run of the scan, for any numbers of states, inputs and outputs and any common length. |
| ScanMeaning.ScanRunsLoop | compiler/simplifier.cc:129-271 | And every run of the scan is matched by one of the loop. |
| ReplaceScan.ReplaceScan | compiler/simplifier.cc:129-271 | Builds that loop and adds nothing else to either graph. |
| Simplifier.RedirectUsers | compiler/simplifier.cc:514-516 | Every reader of the output reads the input instead, as often as it did. |
| Simplifier.ReplaceIdentity | compiler/simplifier.cc:510-518 | Applies exactly to temporary ends; the output is left without readers. |
| Simplifier.BypassIsEquivalent | compiler/simplifier.cc:510-518 | Bypassing the node preserves every other value. |
| Simplifier.SplitIsEquivalent | compiler/simplifier.cc:52-55 | Splitting the first two operands off a sum preserves every old value. |
| Simplifier.ReplaceSum | compiler/simplifier.cc:44-58 | The chain of additions computes the sum, closes no cycle and leaves one Sum less. |
| Simplifier.Simplify | compiler/simplifier.cc:972-988 | The loop ends, preserves all values that are not temporary, and leaves no Sum and no Identity between temporaries. |
| MergeSum.MergeIsEquivalent | compiler/merge.cc:324-346 | Merging preserves every value but the intermediate one. |
| MergeSum.MergeIsAcyclic | compiler/merge.cc:324-346 | And closes no cycle. |
| MergeSum.PreservedUnlessMerged | compiler/merge.cc:325-344 | One merge preserves the outputs exactly when the intermediate value is none of them, also for sums of one operand. |
| MergeSum.PreservedExactly | compiler/merge.cc:404-425 | So does the whole loop, for the values that it merges. |
| MergeSum.MaybeMergeAddToSum | compiler/merge.cc:324-346 | Merges exactly when the value is used once and by a sum; there is one node less. |
| MergeSum.MergeOperations | compiler/merge.cc:404-425 | The loop ends, merges exactly the values of the first graph that a sum writes and that are used once, by a sum, preserves the outputs exactly when none of these is one, and stops only when no sum used once feeds a sum. |
| MergeSum.OutputIsMerged | compiler/merge.cc:404-425 | Two additions whose first result is an output: it is lost. |
| ConstantPropagation.FoldedIsEquivalent | compiler/constant_propagation.cc:41-65 | Folding a node leaves the runs of the graph as they are. |
| ConstantPropagation.DoConstantPropagation | compiler/constant_propagation.cc:41-77 | Preserves all outputs; beside the node only constants are detached, and of those that fed it exactly the ones that nobody reads and that are no outputs; fails, changing nothing, exactly when the node cannot be evaluated to its number of outputs. |
| ConstantPropagation.Pass | compiler/constant_propagation.cc:117-126 | What is gone after a pass was a constant or a foldable node, everything else is as it was; a pass that fails leaves a node that cannot be evaluated. |
| ConstantPropagation.PropagateConstants | compiler/constant_propagation.cc:117-128 | The loop ends, preserves all outputs, and succeeds exactly when no foldable node has constant inputs only, as for every graph with a run; else such a node cannot be evaluated. |
| ConstantPropagation.StuckHasNoRun | compiler/constant_propagation.cc:41-77 | A graph with a node that cannot be evaluated has no run. |
| ConstantPropagation.DivisionByZeroIsStuck | compiler/constant_propagation.cc:41-77 | A division by the constant 0 is one, as the reals have no infinity. |
| CanonicalizerMeaning.LiftedRunsLoop | compiler/subgraph_canonicalizer.cc:49-76 | Every run of the lifted loop is one of the loop with its captured values, also with scan outputs. |
| CanonicalizerMeaning.LoopRunsLifted | compiler/subgraph_canonicalizer.cc:49-76 | And the other way round. |
| CanonicalizerMeaning.LiftedRunsIf | compiler/subgraph_canonicalizer.cc:77-113 | The same for an If: the branch that is taken has its captured values. |
| CanonicalizerMeaning.IfRunsLifted | compiler/subgraph_canonicalizer.cc:77-113 | And the other way round. |
| Canonicalizer.GetRequiredValues | compiler/subgraph_canonicalizer.cc:12-34 | Exactly the values used in a graph that are neither inputs nor written there. |
| Canonicalizer.LiftLoop | compiler/subgraph_canonicalizer.cc:49-76 | The loop becomes the lifted one, names resolve in the symbol table or to a new value, and the body requires nothing any more. |
| Canonicalizer.LiftIf | compiler/subgraph_canonicalizer.cc:77-113 | Both branches get one input per name that either of them requires, copied where the branch captures that name; afterwards neither requires anything. |
| MemorySimulator.SimulateMemoryUsage | compiler/memory_simulator.cc:13-61 | After every step the simulated memory is what the values in use are charged; with known sizes the peak is the greatest level of all points within all steps, and no more than what was allocated. The bytes of the parameters are the sum over the necessary inputs with an initializer and a known size. |
| MemorySimulator.ParamsStay | compiler/memory_simulator.cc:33-41 | After every node that sum is what is charged for the parameters, and no more than the memory in use. |
| MemorySimulator.FreedForGood | compiler/memory_simulator.cc:43-58 | Parameters are never freed; what is freed was allocated before and stays freed. |
| MemorySimulator.ExactUnlessUnknownFreed | compiler/memory_simulator.cc:19-32 | The simulated memory is exact if and only if no value of unknown size has been freed. |
| MemorySimulator.UnknownLeavesAByte | compiler/memory_simulator.cc:19-32 | One value of unknown size, written and freed, leaves a byte in use. |

## Left out

- Kernels, rounding, infinities, shapes and types: arithmetic is over reals and integers, all tensors of a gradient have one shape, so `ChainerReduceSumTo` has nothing to reduce; shape inference and broadcasting are not modelled.
- Gradients of the other operators, the bias of Gemm, `IfGradFn`, MatMul: only the operators named above. What is proved of tangents is about runs in which none comes to another operator; that the program aborts on an operator without a registered gradient (gradient_ops.cc:1320-1321) is left out.
- A null gradient counts as zero.
- GradientOps.GradientContext: one object serves all nodes of a pass where the program makes one per node; `grad_` is a map.
- LoopGradient.LoopGradFn: the graph around the loop is differentiated in one-graph mode, joint runs are built for loops that read and write values of the forward graph, and the loop node is an object of its own beside the nodes of that graph.
- Orders.OrderRun.ComputeBackward: states what the gradient of a node reads; the gradients themselves are followed beside the graph, as contributions (`OrderGradients`, `OrderSync`) and as numbers (`OrderAdjoint`), for nodes that contribute to all their inputs once their outputs have gradients; the nodes that compute them are not in the graph. The temporary renaming of the node's inputs and outputs, the order numbers given to the nodes and the initial gradients are left out.
- Scheduler.ScheduleGreedy: the delaying of simple nodes it calls runs on an empty list there, since the flag for nodes scheduled before is set by newly scheduled ones (scheduler.cc:189-198); `Delay.DelaySimpleNodes` is proved for any schedule.
- Scheduler.GetNecessaryNodesAndInputCounts: detached nodes, which stay in the program's list with their outputs cleared, are not in the snapshot.
- Worklist.MakeValueReady: null values that are queued are taken to have no users, because topology.cc:99 does not skip them as scheduler.cc:134 does.
- Orders of `std::map` and `std::set` over pointers are arbitrary in the model; sorting by name is left out, and so are names themselves except in `Canonicalizer`, where a value of one graph stands for its name.
- ClassifyValues.ClassifyValues: the marker INT_MAX for results of the graph is never used up.
- Fusion.FusedGraph.CreateFusionGroup: the topological sort of the migrated nodes is left out.
- Canonicalizer.LiftLoop: one level of nesting; the recursion into subgraphs of the body, and a name captured by several of them, are left out. The same goes for `Canonicalizer.LiftIf`.
- ReplaceScan.ReplaceScan: stacking an empty list of rows gives an empty tensor here, while the runtime cannot stack nothing; detaching the Scan node is left to `Simplify`.
- MergeSum.MergeOperations: only the merger AddToSum; the others check too little for a general equivalence (merge.cc:23-46, 130-132, 238-239, 312-317).
- Simplifier.Simplify: only the simplifiers of Identity and Sum.
- ConstantPropagation.DoConstantPropagation: constants of strings, and types of the new constants; an operator that cannot be evaluated makes the result false.
- MemorySimulator.SimulateMemoryUsage: the necessary values are a parameter, any list of different values.
- The extra input of Resize (node.cc:44-47), dumping, flags, configuration, code generation, runtime and external backends are not part of this model.
