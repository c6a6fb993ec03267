# Verified model of RusTorch's exact algorithms

RusTorch is a tensor library with reverse-mode autodiff, tiled attention, an int8 inference path
and a training console. This project models the exact algorithmics of five of its parts and proves
what they are for. Arithmetic is over the reals (over an arbitrary commutative addition for the
autograd engine); `exp` is any positive function that turns sums into products.

- **Autograd** (`Tape`, `Backward`, `Engine`, `Sending`, `Paths`, `Inlining`, `Checkpointing`, `Transposition`).
  A tape is the DAG of backward nodes. The imperative engine (depth-first sort, pending map, shared
  leaf slots) is proved to deliver to every leaf the sum over all paths, which is the transpose of
  forward mode; checkpoints, with their nested `backward`, do not change it.
- **Operations** (`Vectors`, `Duals`, `OpRules`, `Axes`, `GroupSoftmax`, `AxisSoftmax`, `Ops`, `OpGraphs`,
  `MatrixKernels`, `OpKernels`). Each backward rule is the adjoint of the derivative of its own forward formula,
  evaluated on dual numbers, so a graph of operations and checkpoints run backward is the transpose
  of the same graph run forward on dual numbers.
- **Attention** (`Floats`, `OnlineSoftmax`, `Attention`, `FlashForward`, `FlashScalar`,
  `NaiveForward`, `SoftmaxRules`, `AttentionGradient`, `FlashBackward`). The tiled kernels against the
  plain form, with the exact condition for agreement, and the backward kernel as true adjoint.
- **Event hub** (`Hub`, `HubRuns`). Publish, subscribe with replay, and lagging receivers as a state
  machine; safety over every interleaving. Replay after `Last-Event-ID` is the reconnection rule of
  section 9.2.4 of the WHATWG HTML Living Standard.
- **Index arithmetic and quantisation** (`Strides`, `IndexMaps`, `Broadcasting`, `Unbroadcasting`,
  `Elementwise`, `GatherScatter`, `Parallel`, `Quant`). Round trips, adjoint pairs, scheduling
  independence, and error bounds.

`Sums`, `Matrices`, `Sequences`, `Tensors` and `Options` hold shared definitions, `Examples` the concrete inputs.

How the statements connect: `Engine.Run` gives the slots in terms of `PathSum`, which
`PathSumIsSumOverPaths` identifies with the sum over paths and `BackwardIsTranspose` with the
transpose. `KernelsAgreeExactly` compares what `FlashForwardMasked` and `NaiveForwardMasked` write.
`Unbroadcast`, `gather`/`scatter_add`, row selection and the bias gradient are all instances of
`PushAdjoint` for an index map that is defined independently of the loops.

## Where the code and its documentation differ

The model follows the code; the exact condition is proved in each case.

- `online_softmax_full` documents sum 0 for all `-inf` scores. Absorbing `-inf` into the empty state
  computes `-inf - -inf`, so the sum is NaN (`StreamedAsDocumented`, `MaskedScoreIsNaN`). The documented
  sum 1 for a single `+inf` holds (`SingleInfinite`).
- `cpu_forward.rs` and `mask.rs` document that masking with `-inf` carries no NaN risk. A padding mask
  that hides the whole first key tile makes the row NaN for good (`FlashMatchesExactly`, `MaskedFirstTile`).
- `quantize` documents a clamped sum. The sum of the saturated quotient and the zero point can
  overflow 32 bits and wrap in release builds (`QuantizeAsDocumented`, `OverflowExample`).
- `QParams::asymmetric` documents that `min` maps to -128 and `max` to 127; the code first extends the
  range to contain zero, so this holds for the extended ends (`AsymmetricEnds`) and for the documented
  ones exactly when they lie within half a step of them, with a condition of its own at the scale floor
  (`AsymmetricEndsExactly`, `OneSidedRange`).
- `BinaryOpPlan::build` takes strides from the shape alone, so `map_binary` misreads operands whose own
  strides are not row-major (`PlanRightExactly`, `TransposedIsMisread`).
- `gather` and `scatter` document one element per coordinate but do not compare the shapes on the other
  axes, so a longer index tensor wraps into other rows or panics (`IntendedExactly`, `TooLongExample`).
- A checkpoint none of whose explicit inputs requires grad drops the gradients of captured variables
  (`TransparentExactly`, `CapturedLost`).

## Model

| member | source | states |
|---|---|---|
| `Engines.Engine.Run` | crates/rustorch-autograd/src/backward.rs:60-109 | `backward` on an output: an error and no change without a `grad_fn`; otherwise every slot that outlives the run ends with its old value plus the path sum of the seed, whatever the sharing |
| `Engines.Engine.Backward` | crates/rustorch-autograd/src/backward.rs:71-109 | The sort and reverse walk from a root: with nodes that keep the `Node` contract it succeeds and each slot receives exactly the path sum; an arity error names a reachable node that broke the contract; success means that the root was applied to the seed and that every applied node, and every node that an applied one feeds, has the right arity and no failed recompute |
| `Engines.Engine.ApplyNode` | crates/rustorch-autograd/src/backward.rs:82-107 | One step of the walk removes the pending gradient of a node and passes its gradients on: what pending nodes still owe each slot, plus what it holds, is unchanged. It succeeds only when the node returned one gradient per edge and no recompute failed, and then every node it feeds is pending |
| `Engines.Engine.Walk` | crates/rustorch-autograd/src/backward.rs:78-109 | The reverse walk over the sorted nodes, with the same results |
| `Engines.Engine.PassOn` | crates/rustorch-autograd/src/backward.rs:100-106 | Accumulating the returned gradients edge by edge keeps the total owed to every slot, loses no pending gradient, and gives every fed node one |
| `Engines.Engine.AccumulateIntoEdge` | crates/rustorch-autograd/src/backward.rs:125-158 | A gradient is added to the pending map, to the leaf slot, or dropped, by the kind of edge; nothing else changes |
| `Engines.Engine.Apply` | crates/rustorch-autograd/src/checkpoint.rs:56-66 | `apply` of a checkpoint re-runs the function and a nested `backward`: it returns what the fresh leaves received and adds to captured slots what the nested graph sends them; over a lawful body it panics if and only if the function returns an untracked variable, or the single input of the single-input form got no gradient |
| `Engines.EdgeStep` | crates/rustorch-autograd/src/backward.rs:100-106 | Delivering one edge moves its gradient from the edges still to do into a slot or the pending map; the total owed to every slot stays the same |
| `Engines.ApplyStep` | crates/rustorch-autograd/src/backward.rs:82-107 | Replacing a pending node by the gradients it sends keeps, for every lasting slot, held plus owed |
| `Engines.WalkStart` | crates/rustorch-autograd/src/backward.rs:78-79 | At the start of the walk the pending seed owes each slot exactly the path sum of the root |
| `Engines.PendingAdd` | crates/rustorch-autograd/src/backward.rs:130-142 | Adding a gradient to a pending entry adds exactly what that gradient sends onward, because apply is additive |
| `Engines.InputReceives` | crates/rustorch-autograd/src/variable.rs:201-209 | A gradient for an input goes nowhere when it is untracked, into the graph when it has a node, and otherwise into its own grad slot |
| `Sending.SendsExactly` | crates/rustorch-autograd/src/node.rs:51-66 | When operations decide by their inputs which of them get a gradient, a slot receives one if and only if some path of edges that carry gradients leads to it, through edges or a recompute |
| `Sending.RecomputeFailsExactly` | crates/rustorch-autograd/src/checkpoint.rs:56-66 | Whether a recompute fails does not depend on the gradient: exactly when its function returns an untracked variable, or, in the single-input form, no path leads from there to the fresh leaf |
| `Tapes.Tape.PathSumAdditive` | crates/rustorch-autograd/src/node.rs:51-66 | If every node keeps the `Node` contract, the gradient that reaches a slot is additive in the seed, checkpoints included |
| `Paths.PathSumIsSumOverPaths` | crates/rustorch-autograd/src/backward.rs:13-14 | What a slot receives is the sum, over all paths from the root to its leaf edges, of the composed edge maps: shared subgraphs and repeated inputs count once per path. Through a checkpoint a path runs inside the recomputed function to a captured variable, or to a fresh leaf and on along that input |
| `Paths.AllPathsExact` | crates/rustorch-autograd/src/node.rs:51-66 | The enumerated paths are exactly the routes that lead to the slot, checkpoints included |
| `Paths.AllPathsDistinct` | crates/rustorch-autograd/src/node.rs:51-66 | No path is enumerated twice |
| `Backwards.TopoSort.Visit` | crates/rustorch-autograd/src/backward.rs:111-123 | `visit` terminates, keeps what was listed, lists exactly the newly visited nodes, all reachable, with every input before its consumer |
| `Backwards.TopologicalOrder` | crates/rustorch-autograd/src/backward.rs:81-82 | In the order that `visit` leaves, a node that can reach another comes later: the reverse walk applies every consumer before its producers |
| `Backwards.PostOrderClosed` | crates/rustorch-autograd/src/backward.rs:111-123 | A listed node has everything reachable from it listed |
| `Transposition.ReverseIsTranspose` | crates/rustorch-autograd/src/backward.rs:1-14 | For operations that are adjoint to derivatives, in graphs with checkpoints: pairing the seed with the forward-mode tangent of the output equals pairing the accumulated gradients with the direction. Forward mode through a checkpoint is forward mode through its function |
| `Checkpointing.CheckpointTransparent` | crates/rustorch-autograd/src/checkpoint.rs:90-104 | For a node outside the recompute, the graph with the checkpoint and the graph of the direct call send every lasting slot the same gradient, captured variables included |
| `Checkpointing.CheckpointedEqualsDirect` | crates/rustorch-autograd/src/checkpoint.rs:125-167 | Two runs of `backward`, one per graph, from equal slots leave every lasting slot equal |
| `Checkpointing.TransparentExactly` | crates/rustorch-autograd/src/checkpoint.rs:133-143 | Transparency holds for a slot if and only if an explicit input requires grad or no path leads from the checkpoint to the slot |
| `Checkpointing.InlinedLawful` | crates/rustorch-autograd/src/checkpoint.rs:153-166 | The graph of the direct call is well formed and keeps the node contract |
| `Inlining.InlineNode` | crates/rustorch-autograd/src/checkpoint.rs:90-104 | Inlining law: after inlining, a node sends what it sent before plus what its gradients of fresh leaves send through the checkpoint inputs |
| `Inlining.InlinedAcyclic` | crates/rustorch-autograd/src/checkpoint.rs:90-98 | Wiring consumers and fresh leaves as the direct call would leaves the graph acyclic |
| `Examples.CheckpointedSquare` | crates/rustorch-autograd/src/checkpoint.rs:175-182 | The checkpointed square at `x` meets every assumption of the theorems and sends `2 x g` to its input |
| `Examples.CapturedLost` | crates/rustorch-autograd/src/checkpoint.rs:157-165 | With an untracked input the checkpoint has no backward node: a captured leaf loses the gradient that the direct call sends |
| `OpGraphs.BackwardIsTranspose` | crates/rustorch-autograd/src/ops.rs:1-30 | For every graph of the modelled operations and checkpoints that a forward pass recorded, every seed and every direction: pairing the seed with the tangent that the forward pass on dual numbers gives the output equals pairing the gradients that `backward` accumulates with the direction |
| `OpGraphs.EvaluateIs` | crates/rustorch-autograd/src/ops.rs:1-30 | Evaluating the recorded graph on dual numbers, re-running checkpoint functions on dual inputs, gives at every node the value that was recorded and the forward-mode tangent |
| `OpGraphs.BuiltUniform` | crates/rustorch-autograd/src/node.rs:51-66 | A graph of the modelled operations decides by its inputs alone which of them get a gradient |
| `Examples.SquareRecorded` | crates/rustorch-autograd/src/ops.rs:149-165 | The graph of `x * x` meets the assumptions of the transposition theorem and its forward pass gives the square |
| `Ops.OpAdjoint` | crates/rustorch-autograd/src/ops.rs:149-1553 | For each of the nine operations the backward rule is the adjoint of the derivative of its forward formula |
| `OpGraphs.ApplyIsAdjoint` | crates/rustorch-autograd/src/ops.rs:149-1553 | The same for the buffers that `apply` takes and returns, with detached inputs |
| `OpGraphs.ApplyAdditive` | crates/rustorch-autograd/src/node.rs:58-62 | Every modelled `apply` is additive in the gradient, as the engine assumes; it follows from being an adjoint |
| `Ops.MulAdjoint` | crates/rustorch-autograd/src/ops.rs:149-165 | `MulBackward`, operands of any broadcastable shapes, is the adjoint of the product rule |
| `Ops.DivAdjoint` | crates/rustorch-autograd/src/ops.rs:1122-1146 | `DivBackward` with broadcasting is the adjoint of the quotient rule wherever the divisor is not zero |
| `Ops.MatMulAdjoint` | crates/rustorch-autograd/src/ops.rs:246-262 | `MatMulBackward` is the adjoint of the derivative of the flat matrix product |
| `Ops.LinearAdjoint` | crates/rustorch-autograd/src/ops.rs:722-738 | `LinearBackward`: the three gradients are jointly adjoint to the derivative of product plus bias |
| `Ops.AddBiasAdjoint` | crates/rustorch-autograd/src/ops.rs:636-646 | `AddBiasBackward`: gradient and batch sum are adjoint to adding the bias to every row |
| `Ops.BatchAdjoint` | crates/rustorch-autograd/src/ops.rs:1497-1542 | `bmm_grad_inputs` is the adjoint of the derivative of the batched product |
| `Ops.SoftmaxAdjoint` | crates/rustorch-autograd/src/ops.rs:1011-1027 | `SoftmaxBackward` along any axis is the adjoint of the derivative of softmax |
| `Ops.LogSoftmaxAdjoint` | crates/rustorch-autograd/src/ops.rs:1067-1084 | `LogSoftmaxBackward` along any axis, using `exp` of the saved output, is the adjoint of the derivative of log-softmax |
| `Ops.IndexSelectAdjoint` | crates/rustorch-autograd/src/ops.rs:1433-1455 | `IndexSelectBackward` is the adjoint of selecting rows |
| `OpRules.ElementwiseAdjoint` | crates/rustorch-autograd/src/broadcast.rs:1-20 | Two broadcast operands: multiplying by the local factors and summing back through the two index maps is the adjoint of the elementwise tangent |
| `OpRules.QuotientTangent` | crates/rustorch-autograd/src/ops.rs:1122-1140 | The tangent of a quotient splits into the factors `1/y` and `-x/(y*y)` that the kernel uses |
| `OpRules.ProductDualIs` | crates/rustorch-autograd/src/ops.rs:232-233 | The matrix product of dual numbers has the product as value and the two-term product rule as tangent |
| `OpRules.ProductAdjoint` | crates/rustorch-autograd/src/ops.rs:246-262 | `G Bᵀ` and `Aᵀ G` are jointly adjoint to the tangent of `A B` |
| `OpRules.FlatProductAdjoint` | crates/rustorch-autograd/src/ops.rs:246-262 | The same on row-major buffers |
| `OpRules.BmmAdjoint` | crates/rustorch-autograd/src/ops.rs:1497-1542 | The same for a stack of matrices, batch element by batch element |
| `OpRules.BiasAdjoint` | crates/rustorch-autograd/src/ops.rs:636-646 | Summing over the batch axis is adjoint to reading the bias in every row |
| `GroupSoftmax.SoftmaxDualIs` | crates/rustorch-cpu/src/backend.rs:578-591 | The forward formula on dual numbers has the softmax as value and `y (dx - sum(y dx))` as tangent; the reference points of the groups cancel |
| `GroupSoftmax.GroupSumsToOne` | crates/rustorch-cpu/src/backend.rs:578-591 | The outputs of every softmax group sum to one |
| `GroupSoftmax.SoftmaxGradIsAdjoint` | crates/rustorch-cpu/src/cpu_backend.rs:1311-1322 | `softmax_grad` pairs with a direction as the gradient pairs with the tangent, for groups along any axis |
| `GroupSoftmax.LogSoftmaxDualIs` | crates/rustorch-autograd/src/ops.rs:1052-1054 | The log-softmax formula on dual numbers has `dx - sum(y dx)` as tangent |
| `GroupSoftmax.ExpOfLogSoftmax` | crates/rustorch-autograd/src/ops.rs:1068-1071 | `exp` of the saved log-softmax output is the softmax |
| `GroupSoftmax.LogGradIsAdjoint` | crates/rustorch-autograd/src/ops.rs:1067-1084 | `grad - softmax * sum(grad)` is the adjoint of the log-softmax tangent |
| `GroupSoftmax.GroupIsBroadcast` | crates/rustorch-cpu/src/cpu_backend.rs:1318-1321 | Broadcasting the axis sum back reads at each position the sum of that position's own group |
| `OpKernels.MatMulValue` | crates/rustorch-autograd/src/ops.rs:269-273 | The value part of the differentiated formula is the element that the matrix kernel writes |
| `OpKernels.LinearValue` | crates/rustorch-autograd/src/ops.rs:768-770 | The same for the biased product |
| `OpKernels.BmmValue` | crates/rustorch-cpu/src/cpu_backend.rs:2275-2288 | The same for the batched product |
| `OpKernels.MulValue` | crates/rustorch-autograd/src/ops.rs:172-176 | The same for the broadcast elementwise product |
| `OpKernels.DivValue` | crates/rustorch-autograd/src/ops.rs:1152-1158 | The same for the broadcast quotient |
| `OpKernels.AddBiasValue` | crates/rustorch-autograd/src/ops.rs:652-668 | The same for bias addition |
| `OpKernels.LogSoftmaxValue` | crates/rustorch-autograd/src/ops.rs:1088-1093 | On every line along the axis the exponential of the differentiated log-softmax sums to one, in the ratio of the exponentials of the inputs |
| `OpKernels.LogSoftmaxDifference` | crates/rustorch-autograd/src/ops.rs:1088-1093 | Along a line the outputs differ as the inputs do, and what the backward node exponentiates is the output |
| `OpKernels.SoftmaxGradient` | crates/rustorch-autograd/src/ops.rs:1011-1027 | `SoftmaxBackward` in coordinates: output times gradient minus the sum of gradient times output over the line along the axis |
| `OpKernels.LogSoftmaxGradient` | crates/rustorch-autograd/src/ops.rs:1067-1084 | `LogSoftmaxBackward` in coordinates: gradient minus softmax times the sum of the gradient over the line along the axis |
| `Axes.SameGroup` | crates/rustorch-cpu/src/cpu_backend.rs:1311-1322 | Two positions are in one softmax group if and only if their coordinates agree on every axis but the given one |
| `Axes.LineSum` | crates/rustorch-cpu/src/cpu_backend.rs:1318-1321 | Summing over a group is summing over the positions `c[dim := t]`, each once |
| `AxisSoftmax.GroupRatio` | crates/rustorch-cpu/src/backend.rs:578-591 | Within a group the outputs are in the ratio of the exponentials of the inputs |
| `OpKernels.IndexSelectValue` | crates/rustorch-autograd/src/ops.rs:1463-1466 | The same for row selection |
| `OpKernels.SoftmaxValue` | crates/rustorch-autograd/src/ops.rs:1034-1037 | The differentiated softmax is the saved output; for every position, the outputs at the positions that differ from it only along the axis sum to one and are in the ratio of the exponentials of the inputs |
| `MatrixKernels.MatmulNaive` | crates/rustorch-cpu/src/cpu_backend.rs:2182-2219 | The strided triple loop computes the matrix product of the two operands as their own strides lay them out |
| `MatrixKernels.MatmulWithTransposes` | crates/rustorch-cpu/src/backend.rs:46-64 | `op(a) @ op(b)` for all four flag settings; refused exactly when the inner dimensions differ |
| `MatrixKernels.FlatEntry` | crates/rustorch-cpu/src/cpu_backend.rs:2182-2219 | An element of the product is the sum of products of a row and a column |
| `MatrixKernels.MatMulBackward` | crates/rustorch-autograd/src/ops.rs:246-262 | The two transposing products of the backward node are the gradients of the adjoint rule |
| `MatrixKernels.TransposeDense` | crates/rustorch-cpu/src/cpu_backend.rs:1210-1215 | Swapping strides and materialising gives the transposed matrix row-major |
| `MatrixKernels.AddBias` | crates/rustorch-cpu/src/cpu_backend.rs:1233-1275 | The bias entry of its column is added to every element |
| `MatrixKernels.AddBiasView` | crates/rustorch-cpu/src/cpu_backend.rs:1233-1302 | On any layout: refused exactly on a shape mismatch; otherwise the bias entry of its column is added to what lies in the storage at each position, in order; panics if and only if the storage is too short |
| `MatrixKernels.BiasedIsLogical` | crates/rustorch-cpu/src/cpu_backend.rs:1293-1302 | That is the tensor's own element when its strides are row-major on all axes longer than one |
| `MatrixKernels.MatmulWithBias` | crates/rustorch-cpu/src/backend.rs:73-81 | Matrix product with the bias added to every row |
| `MatrixKernels.Bmm` | crates/rustorch-cpu/src/cpu_backend.rs:2248-2291 | `bmm_impl`: every batch element is the product of its two operands |
| `MatrixKernels.BatchedEntry` | crates/rustorch-cpu/src/cpu_backend.rs:2248-2291 | Every element is the sum of products of a row of its own left operand and a column of its own right operand |
| `MatrixKernels.BmmGradInputs` | crates/rustorch-autograd/src/ops.rs:1497-1542 | The loops compute the two gradients that `BmmAdjoint` is about |
| `Matrices.LeftAdjoint` | crates/rustorch-autograd/src/ops.rs:232-233 | `<G, A B> = <G Bᵀ, A>` for all matrices |
| `Matrices.RightAdjoint` | crates/rustorch-autograd/src/ops.rs:232-233 | `<G, A B> = <Aᵀ G, B>` for all matrices |
| `OnlineSoftmax.SummaryCombines` | crates/rustorch-attention/src/online_softmax.rs:105-131 | Combining the summaries of two lists is the summary of their concatenation: a homomorphism to `combine_tiles` |
| `OnlineSoftmax.TilingsAgree` | crates/rustorch-attention/src/online_softmax.rs:93-131 | Any cutting into tiles, combined in any order and bracketing, gives the same state as any other for the same multiset of scores |
| `OnlineSoftmax.CombineIdentity` | crates/rustorch-attention/src/online_softmax.rs:97-111 | EMPTY is an identity on both sides |
| `OnlineSoftmax.CombineCommutes` | crates/rustorch-attention/src/online_softmax.rs:93-131 | Combining is commutative on proper states |
| `OnlineSoftmax.CombineAssociates` | crates/rustorch-attention/src/online_softmax.rs:93-131 | Combining is associative on proper states |
| `OnlineSoftmax.AbsorbIsCombine` | crates/rustorch-attention/src/online_softmax.rs:64-77 | `absorb` equals combining with the state of a single score |
| `OnlineSoftmax.OnlineSoftmaxState.Absorb` | crates/rustorch-attention/src/online_softmax.rs:68-77 | In place, the state becomes the absorbed one |
| `OnlineSoftmax.OnlineSoftmaxFull` | crates/rustorch-attention/src/online_softmax.rs:145-151 | For every list of scores, NaN and infinities included: the documented statistics, or the maximum with a NaN sum |
| `OnlineSoftmax.StreamedAsDocumented` | crates/rustorch-attention/src/online_softmax.rs:136-145 | The result is the documented one if and only if the first score is not `-inf`, no score is NaN and at most one is `+inf`; otherwise the sum is NaN |
| `OnlineSoftmax.MaskedScoreIsNaN` | crates/rustorch-attention/src/online_softmax.rs:139-145 | A single `-inf` score gives NaN where zero is documented |
| `OnlineSoftmax.SingleInfinite` | crates/rustorch-attention/src/online_softmax.rs:143-144 | A single `+inf` anywhere among finite scores gives `(+inf, 1)` |
| `Attention.TileStep` | crates/rustorch-attention/src/cpu_forward.rs:311-403 | One key tile keeps the row state: running maximum, sum and unnormalised output of the keys so far, or NaN for good after a masked first tile |
| `Attention.AttendAt` | crates/rustorch-attention/src/cpu_forward.rs:732-753 | The softmax average does not depend on the reference point of the exponentials |
| `Attention.RowFinish` | crates/rustorch-attention/src/cpu_forward.rs:405-421 | Normalising a finished row state gives the output function of the tiled form |
| `Attention.FlashMatchesExactly` | crates/rustorch-attention/src/cpu_forward.rs:342-421 | A tiled row equals softmax attention if and only if its first key tile shows a key or no tile does, and is NaN if and only if its first tile shows none |
| `Attention.FirstKeyVisible` | crates/rustorch-attention/src/mask.rs:40-46 | Without a mask or with the causal one, the first key is visible to every query |
| `Attention.DenominatorPositive` | crates/rustorch-attention/src/cpu_forward.rs:742-743 | The softmax normaliser is positive if and only if some key is visible |
| `Attention.MaskedIgnored` | crates/rustorch-attention/src/mask.rs:37-47 | Neither the scores nor the values of masked keys reach the output |
| `Attention.CausalPrefix` | crates/rustorch-attention/src/mask.rs:40-46 | Under the causal mask query `i` attends to keys `0..i` exactly as unmasked attention over them |
| `Attention.PaddingKeeps` | crates/rustorch-attention/src/mask.rs:42-45 | Under a padding mask attention is unmasked attention over the problem whose key and value rows are exactly those whose flag is set, and NaN if and only if no flag is set |
| `Attention.PaddingShows` | crates/rustorch-attention/src/mask.rs:42-45 | A range of keys shows one if and only if a flag in the range is set |
| `Attention.AcceptsExactly` | crates/rustorch-attention/src/cpu_forward.rs:142-169 | A forward call is accepted if and only if it has features, every buffer has `batch * heads * n * dim` elements, and a padding mask has one flag per key |
| `Attention.RefusesExactly` | crates/rustorch-attention/src/cpu_forward.rs:142-201 | Otherwise the error names the first condition that fails, with the expected and the given length |
| `FlashForward.FlashForwardMasked` | crates/rustorch-attention/src/cpu_forward.rs:193-242 | For all batch, head, sequence and tile sizes of at least one: the same errors in the same order, and every output row is the tiled form of its row, tail tiles included |
| `FlashForward.FlashSlab` | crates/rustorch-attention/src/cpu_forward.rs:268-425 | One (batch, head) slab: every row is written, nothing outside the slab changes |
| `FlashForward.Scratch.KeyTile` | crates/rustorch-attention/src/cpu_forward.rs:312-403 | Scores, mask, softmax update and value accumulation advance every row of the query tile by one key tile |
| `FlashForward.Scratch.QueryTile` | crates/rustorch-attention/src/cpu_forward.rs:299-403 | All key tiles leave every row with the state of all keys |
| `FlashForward.Scratch.WriteRow` | crates/rustorch-attention/src/cpu_forward.rs:405-421 | A row of the output is the tiled form, and only that row changes |
| `FlashForward.SoftmaxRow` | crates/rustorch-attention/src/cpu_forward.rs:354-386 | The online update of one row: new maximum, rescaled sum and output, probabilities of the tile; other rows unchanged |
| `FlashForward.MaskTile` | crates/rustorch-attention/src/cpu_forward.rs:342-352 | Masked scores become `-inf`, the others stay |
| `FlashForward.ScoreTile` | crates/rustorch-attention/src/cpu_forward.rs:326-337 | The score tile holds the scaled products of query and key rows |
| `FlashForward.ValueAccumulate` | crates/rustorch-attention/src/cpu_forward.rs:388-400 | Every output row gains its probability-weighted values |
| `FlashScalar.ScalarSlab` | crates/rustorch-attention/src/cpu_forward.rs:594-686 | The row-by-row form writes the same rows as the tiled form |
| `FlashScalar.ScalarRow` | crates/rustorch-attention/src/cpu_forward.rs:616-682 | One row of it: the state of all keys, then the normalised output |
| `NaiveForward.NaiveForwardMasked` | crates/rustorch-attention/src/cpu_forward.rs:702-763 | The reference form: every row is softmax attention over the visible keys, NaN where none is |
| `NaiveForward.KernelsAgreeExactly` | crates/rustorch-attention/src/cpu_forward.rs:193-763 | The outputs of the two kernels agree if and only if the first tile shows the query a key or no later one does; without a padding mask always, and finite |
| `Examples.MaskedFirstTile` | crates/rustorch-attention/src/cpu_forward.rs:339-341 | Two keys, the first padded, tile size one: the tiled form is NaN, the reference form finite |
| `SoftmaxRules.SoftmaxTangentIsDerivative` | crates/rustorch-attention/src/cpu_backward.rs:147-149 | Differentiating the softmax row by dual numbers, with any tangent of the reference point, gives the tangent rule |
| `SoftmaxRules.SoftmaxAdjoint` | crates/rustorch-attention/src/cpu_backward.rs:147-159 | The row rule for `dS` is the adjoint of the softmax tangent |
| `SoftmaxRules.SoftmaxSumsToOne` | crates/rustorch-attention/src/cpu_backward.rs:111-121 | Probabilities of a row sum to one |
| `SoftmaxRules.SoftmaxRatio` | crates/rustorch-attention/src/cpu_backward.rs:111-121 | They are in the ratio of the exponentials of the scores |
| `SoftmaxRules.SoftmaxShift` | crates/rustorch-attention/src/cpu_backward.rs:111-121 | They do not depend on the reference point |
| `AttentionGradient.OutputDualIs` | crates/rustorch-attention/src/cpu_forward.rs:702-763 | Evaluating a slab on dual numbers, scores, softmax rows with any reference points, weighted values, gives the attention output and the tangent that the backward kernel is paired with |
| `AttentionGradient.BackwardIsAdjoint` | crates/rustorch-attention/src/cpu_backward.rs:123-181 | For every direction of Q, K and V: pairing dO with the tangent of the slab evaluated on dual numbers equals the three pairings of dQ, dK, dV |
| `AttentionGradient.ScoreGradientRowsVanish` | crates/rustorch-attention/src/cpu_backward.rs:147-159 | Every row of dS sums to zero |
| `AttentionGradient.KeyGradientVanishes` | crates/rustorch-attention/src/cpu_backward.rs:171-181 | dK sums to zero over the keys |
| `FlashBackward.Backward` | crates/rustorch-attention/src/cpu_backward.rs:46-185 | The whole call: the errors in order with outputs untouched, otherwise the three gradient buffers hold dQ, dK, dV of every slab |
| `FlashBackward.BackwardRefuses` | crates/rustorch-attention/src/cpu_backward.rs:46-78 | A backward call is accepted if and only if all seven buffers fit; otherwise the error names the first input that does not, else the largest output length |
| `FlashBackward.BackwardSlab` | crates/rustorch-attention/src/cpu_backward.rs:95-181 | One slab: the gradients are written there and nothing else changes |
| `FlashBackward.Probabilities` | crates/rustorch-attention/src/cpu_backward.rs:95-122 | The recomputed matrix is the softmax of the scaled scores |
| `FlashBackward.ScoreGradient` | crates/rustorch-attention/src/cpu_backward.rs:150-159 | The loops compute dS |
| `FlashBackward.AccumulateSlab` | crates/rustorch-attention/src/cpu_backward.rs:123-181 | The accumulation loops compute a scaled matrix product into the slab, either factor transposed |
| `FlashBackward.KernelIsAdjoint` | crates/rustorch-attention/src/cpu_backward.rs:46-185 | What the kernel wrote satisfies the adjoint identity, slab by slab |
| `FlashBackward.ForwardAgrees` | crates/rustorch-attention/src/cpu_backward.rs:94-122 | Without a mask the output of the forward kernels is the matrix product that is differentiated |
| `Hubs.Topic.EvictOld` | crates/rustorch-console-server/src/sse.rs:89-101 | Popping from the front equals filtering by age and keeping the newest 4096 |
| `Hubs.Topic.Publish` | crates/rustorch-console-server/src/sse.rs:160-171 | Assigns the next id, pushes, evicts and fans out, as the published state says; nothing in the ring is older than 30 s, and it has at most 4096 entries |
| `Hubs.Topic.Subscribe` | crates/rustorch-console-server/src/sse.rs:128-146 | Evicts, replays exactly the ring events after the last id in order, nothing without a last id, and adds an empty receiver |
| `Hubs.Hub.Publish` | crates/rustorch-console-server/src/sse.rs:151-172 | A payload that does not serialise changes nothing and returns 0; otherwise only the named topic changes |
| `Hubs.Hub.Subscribe` | crates/rustorch-console-server/src/sse.rs:128-146 | Only the named topic changes; an unknown topic is created; the replay is empty without a last id, and otherwise exactly the ring events with a later id in order |
| `Hubs.RecentIsSuffix` | crates/rustorch-console-server/src/sse.rs:91-97 | On a ring sorted by time, the recent entries are a suffix |
| `Hubs.EvictedKeeps` | crates/rustorch-console-server/src/sse.rs:89-101 | Eviction leaves a suffix of at most 4096 entries, still sorted |
| `HubRuns.RunKeeps` | crates/rustorch-console-server/src/sse.rs:128-218 | In every reachable state of every interleaving: ids are 1, 2, 3, …; the ring is the tail of the log with sorted stamps and at most 4096 entries; each client's emitted, replayable, lost and pending events make up all ids from its first |
| `HubRuns.StepKeeps` | crates/rustorch-console-server/src/sse.rs:128-218 | Each publish, subscribe and poll keeps that invariant |
| `HubRuns.PublishKeeps` | crates/rustorch-console-server/src/sse.rs:151-172 | Publish keeps it for the log, the ring and every client |
| `HubRuns.SubscribeKeeps` | crates/rustorch-console-server/src/sse.rs:128-146 | Subscribe keeps it; the new client joins at the seam |
| `HubRuns.PollKeeps` | crates/rustorch-console-server/src/sse.rs:193-218 | Emitting a replay event, a lag marker or a live event keeps it |
| `HubRuns.StreamSafety` | crates/rustorch-console-server/src/sse.rs:193-218 | Over every run, deliveries carry published events with increasing ids, consecutive between adjacent deliveries, and without a gap from the first id until a lag marker |
| `HubRuns.NoDuplicates` | crates/rustorch-console-server/src/sse.rs:193-218 | Ids strictly increase over the whole stream |
| `HubRuns.NoGapBeforeLag` | crates/rustorch-console-server/src/sse.rs:193-218 | Before the first lag marker the stream holds exactly the ids from the first on |
| `HubRuns.ReplayExactly` | crates/rustorch-console-server/src/sse.rs:133-141 | Replay contains a published event after the last id if and only if it is young enough and among the newest 4096 |
| `HubRuns.ResumesExactly` | crates/rustorch-console-server/src/sse.rs:128-146 | A client that reconnects after an id continues right after it if and only if that id was published and every later event is young enough and among the newest 4096 |
| `HubRuns.FirstTimeStartsAtSeam` | crates/rustorch-console-server/src/sse.rs:128-146 | Over every run, a client without a last id is sent nothing old and starts with the next event to be published |
| `HubRuns.PollExactly` | crates/rustorch-console-server/src/sse.rs:193-218 | What the next item of a stream is: a lag marker exactly when the replay is drained and more than 1024 events wait, skipping all but the newest 1024; otherwise the event with the next id, or nothing when there is none |
| `HubRuns.RingEvicts` | crates/rustorch-console-server/src/sse.rs:89-101 | What eviction drops was older than 30 s or followed by 4096 later events |
| `Strides.StridesRoundTrip` | crates/rustorch-cpu/src/cpu_backend.rs:1622-1645 | `decode_coords` and the dot product with `contiguous_strides` are mutually inverse on all shapes without a zero-size axis |
| `Strides.ContiguousStrides` | crates/rustorch-cpu/src/cpu_backend.rs:1622-1631 | The backward loop computes the row-major strides |
| `Strides.DecodeCoords` | crates/rustorch-cpu/src/cpu_backend.rs:1634-1645 | The division loop computes the coordinates |
| `Strides.LinearToOffset` | crates/rustorch-cpu/src/iterator.rs:92-101 | Base plus the dot product of the decoded coordinates with the given strides |
| `Strides.DotIsEncode` | crates/rustorch-cpu/src/cpu_backend.rs:1400-1404 | The dot product with row-major strides is the linear index |
| `Strides.DecodeEncode` | crates/rustorch-cpu/src/cpu_backend.rs:1634-1645 | Decoding the index of coordinates gives them back |
| `Strides.EncodeDecode` | crates/rustorch-cpu/src/cpu_backend.rs:1634-1645 | Encoding the coordinates of an index gives it back |
| `Broadcasting.BroadcastWith` | crates/rustorch-core/src/tensor/shape.rs:138-164 | Returns the least shape both operands broadcast to, axis by axis from the right; fails if and only if two sizes differ and neither is one, and then there is no common shape |
| `Broadcasting.JoinUnique` | crates/rustorch-core/src/tensor/shape.rs:113-117 | At most one shape is least among those both operands broadcast to, so `BroadcastWith` determines it |
| `Broadcasting.ExpandedReadsOrigin` | crates/rustorch-core/src/tensor/shape.rs:166-220 | Stride zero on broadcast axes addresses exactly the broadcast element |
| `Broadcasting.OriginComposes` | crates/rustorch-core/src/tensor/shape.rs:166-175 | Broadcasting through an intermediate shape shows the same element |
| `Broadcasting.UnbroadcastIsAdjoint` | crates/rustorch-cpu/src/backend.rs:561-569 | Pairing a gradient with a broadcast tensor equals pairing the summed-back gradient with the tensor |
| `Broadcasting.UnbroadcastConserves` | crates/rustorch-cpu/src/backend.rs:561-569 | The total is conserved |
| `Broadcasting.UnbroadcastComposes` | crates/rustorch-cpu/src/backend.rs:561-569 | Summing back through any intermediate shape equals summing back at once |
| `Unbroadcasting.UnbroadcastTo` | crates/rustorch-cpu/src/cpu_backend.rs:2305-2358 | Pad, validate, reduce, reshape computes the adjoint of broadcasting; it succeeds if and only if the shapes are equal, or compatible and either the gradient has no zero-size axis, or the target is empty too and nothing is reduced or the two-dimensional sum reduces it |
| `Unbroadcasting.SumDimKeep` | crates/rustorch-cpu/src/kernels/reduction.rs:21-50 | Every output element is the sum of the source elements whose coordinates map to it; an empty output shape is refused, except by the two-dimensional path |
| `Unbroadcasting.SumLoop` | crates/rustorch-cpu/src/kernels/reduction.rs:359-414 | The generic accumulation loop |
| `Unbroadcasting.SumTwoDimensional` | crates/rustorch-cpu/src/kernels/reduction.rs:54-96 | The row and column loops of the two-dimensional path compute the same sums |
| `Unbroadcasting.KeepIsOrigin` | crates/rustorch-cpu/src/cpu_backend.rs:2305-2358 | The reduction sends each position where broadcasting would have read it |
| `Elementwise.ExpandStrides` | crates/rustorch-core/src/tensor/shape.rs:183-220 | Strides of the expanded shape, or failure exactly on incompatible shapes |
| `Elementwise.MapBinary` | crates/rustorch-cpu/src/iterator.rs:187-241 | Fails exactly without a common shape, and panics exactly when the output is not empty and an operand's storage is shorter than its shape; otherwise, on the chunked and on the strided path alike, each output combines the two elements the plan reads |
| `Elementwise.MapContiguous` | crates/rustorch-cpu/src/iterator.rs:249-306 | Direct indexing, sequential or in chunks run in any order, writes the same elements as the strided path |
| `Elementwise.MapUnary` | crates/rustorch-cpu/src/iterator.rs:105-184 | Every layout: each output is the function of the view's logical element |
| `Elementwise.ReadBroadcast` | crates/rustorch-cpu/src/iterator.rs:226-229 | `linear_to_offset` with expanded strides reads the broadcast element, and panics exactly outside the storage |
| `Elementwise.StoredExactly` | crates/rustorch-cpu/src/iterator.rs:223-229 | Every output finds its element if and only if the storage covers the operand's shape: the last output needs the last element |
| `Elementwise.PlanRightExactly` | crates/rustorch-cpu/src/iterator.rs:43-81 | The plan addresses every element of an operand correctly if and only if its strides are row-major on all axes longer than one |
| `Elementwise.MappedIsElementwise` | crates/rustorch-cpu/src/iterator.rs:186-241 | For such operands each output combines the two broadcast elements |
| `Elementwise.TransposedIsMisread` | crates/rustorch-cpu/src/iterator.rs:43-81 | A transposed operand is read in storage order |
| `IndexMaps.PushAdjoint` | crates/rustorch-cpu/src/backend.rs:274-300 | Adding back through an index map is the adjoint of reading through it |
| `IndexMaps.PushConserves` | crates/rustorch-cpu/src/backend.rs:289-300 | Whatever positions coincide, the total is conserved |
| `IndexMaps.PushComposes` | crates/rustorch-cpu/src/backend.rs:561-569 | Adding back in two steps is adding back through the composed map |
| `GatherScatter.Gather` | crates/rustorch-cpu/src/cpu_backend.rs:1378-1415 | For every index shape: each output is the element at the flat offset of its coordinates; otherwise the first index out of range is the error, or the first offset outside the buffer panics, whichever comes first |
| `GatherScatter.Scatter` | crates/rustorch-cpu/src/cpu_backend.rs:1417-1515 | The checks in order, the first fault as in `gather`. An element that no index addresses keeps its value; accumulating onto any destination adds the adjoint of reading and the total of the source; a plain scatter leaves the last write |
| `GatherScatter.ScatterTyped` | crates/rustorch-cpu/src/cpu_backend.rs:1473-1515 | The loop, for every index shape; `ScatterMeans` says what its result holds |
| `GatherScatter.ScatterMeans` | crates/rustorch-cpu/src/cpu_backend.rs:1473-1515 | What the writes leave over any destination: untouched elements, the total and the adjoint of what was added, the last write |
| `GatherScatter.CellCoords` | crates/rustorch-cpu/src/backend.rs:271-273 | The addressed element has the coordinates of the position with the index in place of the axis |
| `GatherScatter.IntendedExactly` | crates/rustorch-cpu/src/backend.rs:271-288 | Every addressed coordinate exists in the tensor if and only if the index tensor is no longer than it on the other axes |
| `GatherScatter.InsideFaults` | crates/rustorch-cpu/src/cpu_backend.rs:1378-1415 | Then only the indices decide: nothing panics, and the error is the first index out of range |
| `GatherScatter.TooLongExample` | crates/rustorch-cpu/src/cpu_backend.rs:1395-1406 | Three columns of indices into two: the third wraps into the next row, and panics after the last row |
| `GatherScatter.ScatterAddIsAdjoint` | crates/rustorch-cpu/src/backend.rs:289-300 | `scatter_add` into zeros is the adjoint of `gather` and conserves the total under duplicate indices |
| `GatherScatter.LastWriteWins` | crates/rustorch-cpu/src/backend.rs:277-288 | A plain scatter keeps the last write to each element |
| `GatherScatter.UnwrittenKept` | crates/rustorch-cpu/src/backend.rs:277-288 | An element that no index addresses keeps its value |
| `GatherScatter.GatherAfterScatter` | crates/rustorch-cpu/src/backend.rs:271-288 | Gathering what was scattered gives the value of the last position that addresses the same element |
| `GatherScatter.IndexSelect` | crates/rustorch-cpu/src/cpu_backend.rs:1519-1557 | A gather whose index tensor repeats the indices along the other axes, with the first bad index as error |
| `GatherScatter.SelectedCoords` | crates/rustorch-cpu/src/backend.rs:300-308 | In coordinates: the output at `c` is the source at `c` with the selected index in place of the axis |
| `GatherScatter.RowScatter` | crates/rustorch-autograd/src/ops.rs:1433-1455 | The row loops add each gradient element to the element that `index_select` read |
| `GatherScatter.RowScatterIsAdjoint` | crates/rustorch-autograd/src/ops.rs:1433-1455 | What the row scatter returns is adjoint to selecting the rows and loses nothing |
| `Parallel.EffectiveChunkSize` | crates/rustorch-cpu/src/parallel.rs:80-85 | At least one, at most the total, at least eight when possible, and the hint when it is in range |
| `Parallel.ChunksPerThread` | crates/rustorch-cpu/src/parallel.rs:77-85 | Without a hint there is at most one chunk per worker thread, and chunks are no larger than a balanced split needs unless the floor of eight applies |
| `Parallel.ChunkNonEmpty` | crates/rustorch-cpu/src/parallel.rs:39-43 | No chunk is empty and none leaves the range |
| `Parallel.ChunksPartition` | crates/rustorch-cpu/src/parallel.rs:39-43 | Every position of the range lies in exactly one chunk |
| `Parallel.AnyInterleaving` | crates/rustorch-cpu/src/parallel.rs:18-24 | Updates of distinct positions, in any interleaving that covers the range, give the serial result |
| `Parallel.ParallelFor` | crates/rustorch-cpu/src/parallel.rs:28-45 | For every range, hint, thread count and chunk order, the array ends as the serial loop leaves it |
| `Parallel.RunChunks` | crates/rustorch-cpu/src/parallel.rs:39-43 | The same for given chunks |
| `Quant.RoundTies` | crates/rustorch-cpu/src/quant.rs:68-71 | Rounding sends ties away from zero and is odd |
| `Quant.CodesRoundTrip` | crates/rustorch-cpu/src/quant.rs:68-77 | Quantising a dequantised code gives the code, for all 256 codes |
| `Quant.ZeroExact` | crates/rustorch-cpu/src/quant.rs:68-77 | Zero is represented exactly |
| `Quant.SymmetricError` | crates/rustorch-cpu/src/quant.rs:44-50 | Symmetric parameters represent every value of the range within half a step |
| `Quant.AsymmetricError` | crates/rustorch-cpu/src/quant.rs:54-64 | Asymmetric parameters do so too, zero point rounding included |
| `Quant.AsymmetricEnds` | crates/rustorch-cpu/src/quant.rs:52-64 | The ends of the range, extended to contain zero, map to -128 and 127 unless the scale is at its floor |
| `Quant.AsymmetricEndsExactly` | crates/rustorch-cpu/src/quant.rs:52-64 | The documented ends, for every range: `min` maps to -128 if and only if it is below half a step, `max` to 127 if and only if it is above minus half a step; at the scale floor, if and only if `max` reaches the last half step above the zero point |
| `Quant.OneSidedRange` | crates/rustorch-cpu/src/quant.rs:52-64 | For the range 1 to 2, `min` gets code 0 instead of the documented -128 |
| `Quant.SymmetricEnds` | crates/rustorch-cpu/src/quant.rs:42-50 | The bound maps to 127 and its negation to -127 if and only if the bound is at least 126.5 times the scale floor |
| `Quant.ClampRepairsTies` | crates/rustorch-cpu/src/quant.rs:60-71 | When both roundings err by a half in the same direction the clamp brings the error back to one half |
| `Quant.QuantizeAsDocumented` | crates/rustorch-cpu/src/quant.rs:5-10 | `quantize` follows the documented formula if and only if the 32-bit sum with the zero point does not overflow |
| `Quant.OverflowExample` | crates/rustorch-cpu/src/quant.rs:68-71 | A hugely negative input with zero point -128 gets the largest code |
| `Quant.Observer.Record` | crates/rustorch-cpu/src/quant.rs:112-122 | Minimum and maximum stay the extremes of everything recorded |
| `Quant.Observer.SymmetricParams` | crates/rustorch-cpu/src/quant.rs:138-147 | 127 steps are exactly the largest recorded absolute value, and that element gets code 127 or -127, above the scale floor; every recorded element is represented within half a step; identity parameters without data |
| `Quant.Observer.AsymmetricParams` | crates/rustorch-cpu/src/quant.rs:151-159 | 255 steps are exactly the recorded range extended to contain zero, from code -128 to 127, above the scale floor; every recorded element is represented within half a step |
| `Quant.Int8Matmul` | crates/rustorch-cpu/src/quant.rs:193-217 | The result is the product of the dequantised operands |
| `Quant.MatmulError` | crates/rustorch-cpu/src/quant.rs:186-217 | Calibrate, quantise, multiply: every entry is within `k (sa/2 maxB + sb/2 maxA + sa sb/4)` of the exact one, on both sides (`BoundWrittenOut`) |

## Left out

- Rounding, overflow and NaN inputs of IEEE-754 arithmetic: values are reals, and the only NaN is the undefined `-inf - -inf`; `1 / sqrt(dim)` is the parameter `scale`.
- Foreign matrix kernels (BLAS, `gemm`, GPU backends, device dispatch): products have their mathematical contract; `sgemm` tiles are loops with that contract.
- Flat addressing of the forward kernel's scratch buffers: score, probability and output tiles are two-dimensional arrays of the same size; the input and output slabs are flat. The backward kernel's `n * n` scratch matrices are two-dimensional too.
- Parallel slabs and chunks run one after the other in the kernels; that their order does not matter is proved for chunks (`AnyInterleaving`) and follows for slabs from each writing only its own range.
- Engines.Engine.Apply: fresh leaves of a recompute are slots reserved in the tape and emptied before each re-run, and the recomputed graph is part of the tape; node identity is the index in creation order instead of an address. Functions that behave differently when re-run are not modelled.
- Process-wide `grad` mode, anomaly detection, hooks and the device checks around `backward`: they do not change the walk.
- Ops.OpAdjoint: covers the operations named in the table; elementwise ops with a scalar derivative, convolution, pooling and normalisation would repeat the same argument, and loss nodes without reduction ignore their gradient, so they are not additive.
- OpGraphs.BackwardIsTranspose: gradients are buffers that read as zero past their end, so a shape mismatch between accumulated gradients, which the source reports, does not occur in the model.
- GroupSoftmax.SoftmaxDualIs: the softmax kernel along an axis is not part of this model; its formula with an arbitrary reference point per group is.
- Parallel.ParallelFor: the closure updates each position of its chunk from that position's own value; closures with other effects are outside.
- Hubs.Hub.Publish: ids and counters are unbounded, where the source has 64 bits; receivers are never dropped; the payload is a value instead of JSON.
- HubRuns.StreamSafety: the lag marker carries the number of skipped events, which the source leaves out of the event it sends; keep-alive comments are left out.
- Dtype dispatch and the f64, integer and 16-bit paths: the same code at another element type.
- Serialisation, HTTP routing, storage, CLI, profiler, data loading, optimisers and the other backends: not exact algorithmics or plumbing.
