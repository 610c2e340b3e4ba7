# EOGConv edge-update kernel in Dafny

This project models the forward computation of `EOGConv`, an edge-only graph convolution layer. The layer gives each edge a new feature vector. Every edge `e = (u, v)` carries two endpoint feature vectors: `x_src[e]`, attached to `u = src[e]`, and `x_dst[e]`, attached to `v = dst[e]`. The forward call works in five steps:

1. It scatter-adds every endpoint feature into a per-node buffer `node_sum`. In mean mode it also counts each node's endpoint occurrences in `deg`.
2. It reads back the sum at each of an edge's endpoints and subtracts the edge's own feature there. This gives the neighbour sums `left_sum` and `right_sum`.
3. In mean mode it divides those sums by `max(deg - 1, 1)`.
4. It applies three linear maps and adds the results: `left_sum·W_leftᵀ + [x_src‖x_dst]·W_selfᵀ + right_sum·W_rightᵀ`.
5. Depending on how the layer was built, `W_left` and `W_right` are one shared side matrix or two separate ones.

Floats become exact `real`s. Tensors become sequences: a vector is `seq<real>`, a matrix is `seq<seq<real>>`. `edge_x` is a `Tensor` (a shape together with row-major data), so the rank and shape checks are real checks. The two node buffers are arrays that the `index_add_` loops (`Scatter.IndexAdd`, `Scatter.IndexCount`) update in place, inside `Forward.ScatterNodeSums` and `Forward.CountDegrees`. The method `Forward.Forward` is proved equal to the pure function `Forward.ForwardSpec`, and the properties are proved about that function.

Modules:

- `Wrappers` (wrappers.dfy): `Option` and `Result`.
- `Linear` (linear.dfy): vectors, matrices, `Add`, `Sub`, `DivBy`, `Dot`. `Apply(w, v)` is `v @ w.t()`.
- `Reorder` (reorder.dfy): generic sums over sequences, and the fact that they depend only on the multiset of elements.
- `Scatter` (scatter.dfy): `index_add_` as in-place array loops, its specification `Scattered` (a filtered sum), and conservation lemmas.
- `EOGConvLayer` (layer.dfy): the aggregation mode, the weight layout `Shared(side) | Split(left, right)`, the constructor `New` and weight selection.
- `Forward` (forward.dfy): shape checks, the inference of `num_nodes`, node sums, degrees, neighbour sums, the mean clamp, the combination step, `ForwardSpec` and the `Forward` method.
- `Properties` (properties.dfy): order independence, conservation, self-exclusion, leaf and self-loop behaviour, mean/sum agreement, the shared-weight swap, and a worked example.

In shared-weight mode, swapping an edge's two endpoints does not leave its output unchanged: the self term `[x_src‖x_dst]·W_selfᵀ` depends on the order of concatenation. `Properties.SharedSwapChangesOnlySelfTerm` proves that only the self term can change.

## Model

| member | source | states |
|---|---|---|
| `EOGConvLayer.ParseAggr` | EOGConv.py:54 | Succeeds exactly when `aggr` is `"sum"` or `"mean"`, and picks the matching mode. Any other string is the `InvalidAggr` error. |
| `EOGConvLayer.New` | EOGConv.py:46-75 | Construction fails exactly on a bad `aggr`. On success the layer is valid and keeps its configuration. It stores the shared side matrix exactly when `not directed and symmetric`, and the separate left and right matrices otherwise. |
| `EOGConvLayer.SelectWeights` | EOGConv.py:155-160 | The weights forward uses: the shared matrix for both sides, or the left and right matrices. They are selected by the flags and agree with the stored layout. Both are `out_channels × in_channels_per_end`. |
| `EOGConvLayer.NewThenSelect` | EOGConv.py:66-75 | For a layer built by `New`, forward applies `(W_side, W_side)` when undirected and symmetric, and `(W_left, W_right)` otherwise. |
| `Forward.CheckShape` | EOGConv.py:96-101 | The shape of `edge_x` passes exactly when it has 3 dimensions, the middle one is 2 and the last one is `in_channels_per_end`, and then it yields the edge count `shape[0]`. The failures come in the source's order: `BadRank`, then `MiddleDimNot2`, then `ChannelMismatch`. |
| `Forward.Max` | EOGConv.py:107 | The result is an element of the sequence and is at least every element. |
| `Forward.ResolveNumNodes` | EOGConv.py:106-107 | A given `num_nodes` is used unchanged. An omitted one is the largest node id of `edge_index` plus 1, so it is above every `src[e]` and every `dst[e]`. If all ids are non-negative, every id is a valid buffer row. An empty `edge_index` raises an error. |
| `Forward.EndpointFeatures` | EOGConv.py:110-111 | `edge_x[:, slot, :]` is an `E × C` matrix. Its contract states only this shape; `Forward.EndpointFeaturesAt` states which entry of `edge_x` each element is. |
| `Forward.EndpointFeaturesAt` | EOGConv.py:110-111 | Channel `k` of `x_src[e]` (slot 0) or `x_dst[e]` (slot 1) is element `(e, slot, k)` of `edge_x` in row-major order. |
| `Forward.ForwardSpec` | EOGConv.py:96-101 | A rank other than 3 gives `BadRank(shape)`. Otherwise a middle dimension other than 2 gives `MiddleDimNot2`. Otherwise a wrong channel count gives `ChannelMismatch`. These hold whatever `edge_index` and `num_nodes` are. The call succeeds exactly when shapes, `num_nodes`, edge count and node ids are all valid, and then it returns `E` rows of `out_channels` entries. |
| `Forward.Forward` | EOGConv.py:88-172 | The forward method, with `node_sum` and `deg` built by in-place index-add loops over zero arrays, returns exactly `ForwardSpec`. `edge_batch` is ignored. |
| `Forward.NodeSums` | EOGConv.py:116-121 | `node_sum` is a `num_nodes × C` matrix. Its contract states only this shape; its meaning comes from `Forward.ScatterNodeSums` (the index-add loops produce it), `Properties.NodeSumsOverEdges` and `Properties.NodeSumsTotal`. |
| `Forward.Degrees` | EOGConv.py:124-131 | `deg` has one entry per node. Its contract states only this length; its meaning comes from `Forward.CountDegrees`, `Properties.DegreesOverEdges` and `Properties.DegreesTotal`. |
| `Forward.Neighbour` | EOGConv.py:136-150 | A neighbour sum keeps the channel count. Its contract states only this length; its meaning comes from `Properties.LeftSumExcludesSelf`, `Properties.DivisorCountsOthers` and `Properties.MeanMatchesSumAtDegreeTwo`. |
| `Forward.EndpointNeighbour` | EOGConv.py:136-150 | The left (via `src`) or right (via `dst`) neighbour sum of edge `e` has `C` entries. Its contract states only this length; its meaning comes from `Properties.LeftSumExcludesSelf`, `Properties.RightSumExcludesSelf`, `Properties.LeftNeighbourAtLeaf` and `Properties.LoneSelfLoop`. |
| `Forward.EdgeRow` | EOGConv.py:155-171 | The new feature of edge `e` has `out_channels` entries. Its contract states only this length; its meaning comes from `Properties.LeafEdgeRow`, `Properties.MeanMatchesSumAtDegreeTwo`, `Properties.SharedSwapChangesOnlySelfTerm` and `Properties.ForwardExample`. |
| `Forward.ScatterNodeSums` | EOGConv.py:116-121 | Starting from a zero `num_nodes × C` buffer, the two in-place index-adds of `x_src` at `src` and `x_dst` at `dst` leave exactly `NodeSums`. Entry `(n, k)` is the total of channel `k` over all endpoint features attached to `n`. |
| `Forward.CountDegrees` | EOGConv.py:124-131 | Starting from a zero buffer, the two in-place index-adds of ones at `src` and `dst` leave each node's number of endpoint occurrences. |
| `Properties.LoopLeftSum` | EOGConv.py:136-139 | When edge `e` is a self-loop and its node appears nowhere else, `node_sum[src[e]] - x_src[e]` is its own `x_dst`. |
| `Properties.LoopRightSum` | EOGConv.py:137-140 | When edge `e` is a self-loop and its node appears nowhere else, `node_sum[dst[e]] - x_dst[e]` is its own `x_src`. |
| `Forward.Divisor` | EOGConv.py:146-147 | The mean divisor `(deg - 1).clamp(min=1)` is at least 1 and at least `deg - 1`, and it is one of those two values. |
| `Forward.Combine` | EOGConv.py:165-171 | The output has one row per edge, each with `out_channels` entries. |
| `Scatter.IndexAdd` | EOGConv.py:120-121 | After `index_add_`, entry `(n, k)` has grown by the sum of `feats[e][k]` over the rows `e` with `idx[e] == n`. Row lengths are unchanged. |
| `Scatter.IndexCount` | EOGConv.py:130-131 | After `index_add_` of ones, entry `n` has grown by the number of occurrences of `n` in `idx`. |
| `Scatter.ScatterConserves` | EOGConv.py:116-121 | When every index is in range, a scatter loses nothing: its entries sum, over all nodes, to the column total of the rows. |
| `Scatter.CountConserves` | EOGConv.py:124-131 | When every index is in range, the occurrence counts over all nodes add up to the number of indices. |
| `Properties.NodeSumsAreEndpointSums` | EOGConv.py:116-121 | `node_sum[n][k]` is one filtered sum over all endpoint occurrences in `src ++ dst`. The two passes together are a single sum. |
| `Properties.NodeSumsOverEdges` | EOGConv.py:116-121 | `node_sum[n]` is the sum, over edges, of each endpoint feature attached to `n`. A self-loop at `n` contributes both of its features. |
| `Properties.DegreesOverEdges` | EOGConv.py:124-131 | `deg[n]` is the sum, over edges, of how many of the edge's endpoints are `n`. A self-loop contributes 2. |
| `Properties.AggregationOrderIndependent` | EOGConv.py:116-131 | Two edge lists with the same multiset of edges give the same `node_sum` and the same `deg`. |
| `Properties.NumNodesOrderIndependent` | EOGConv.py:106-107 | Reordering the edges does not change the inferred (or given) `num_nodes`. |
| `Properties.ForwardOrderIndependent` | EOGConv.py:103-171 | If a forward call succeeds, the same edges given in any other order, in an `edge_x` of the matching shape, also succeed, and every edge gets the same new feature in both calls. |
| `Properties.InRangeOrderIndependent` | EOGConv.py:120-131 | Reordering the edges keeps every node id a valid row of the same buffer, so reordering never causes an index error. |
| `Properties.NodeSumsTotal` | EOGConv.py:116-121 | Each channel of `node_sum`, summed over all nodes, equals that channel summed over all `x_src` and `x_dst` rows. |
| `Properties.DegreesTotal` | EOGConv.py:124-131 | With every id in range, the degrees sum to `2E`. |
| `Properties.NodeSumsSymmetric` | EOGConv.py:120-121 | Scattering the `dst` row before the `src` row gives the same node sums and degrees. |
| `Properties.LeftSumExcludesSelf` | EOGConv.py:136-139 | `left_sum[e][k] = node_sum[src[e]][k] - x_src[e][k]`. This is the sum over every endpoint occurrence at `src[e]` except edge `e`'s own first endpoint. |
| `Properties.RightSumExcludesSelf` | EOGConv.py:137-140 | The same for `right_sum` at `dst[e]`, leaving out edge `e`'s own second endpoint. |
| `Properties.DegreeCountsSelf` | EOGConv.py:124-131 | Every endpoint's node has degree at least 1, so `deg - 1` counts the other occurrences. |
| `Properties.DivisorCountsOthers` | EOGConv.py:142-147 | The mean divisor at `src[e]` is the number of other endpoint occurrences there, clamped to at least 1. |
| `Properties.LeftNeighbourAtLeaf` | EOGConv.py:136-150 | If edge `e` is the only occurrence of `src[e]` (degree 1), its left neighbour sum is the zero vector, in sum mode and in mean mode. |
| `Properties.RightNeighbourAtLeaf` | EOGConv.py:136-150 | The same for the right neighbour sum at `dst[e]`. |
| `Properties.LeafEdgeRow` | EOGConv.py:136-171 | At an edge that is the only endpoint at its first node (degree 1), the left message is zero. Its new feature is exactly the self message plus the right message, whatever the left matrix, in both modes. |
| `Properties.LoneSelfLoop` | EOGConv.py:120-150 | A self-loop that is alone at its node has degree 2, and nothing is special-cased. Its left neighbour sum is its own `x_dst` and its right neighbour sum is its own `x_src`, in both modes. |
| `Properties.MeanMatchesSumAtDegreeTwo` | EOGConv.py:142-150 | At an edge whose two endpoint nodes both have degree 2, mean mode gives the same new feature as sum mode. |
| `Properties.SharedSwapChangesOnlySelfTerm` | EOGConv.py:155-171 | With the shared side matrix, passing an edge's endpoints the other way round swaps its left and right messages. Once the self term is taken away, the remainders are equal. |
| `Properties.ForwardExample` | EOGConv.py:88-172 | Three nodes, edges (0,1) and (1,2), features `[[1],[2]]` and `[[2],[3]]`, all weights 1, sum mode. The output is `[[5],[7]]`. |
| `Reorder.TotalPermutation` | EOGConv.py:120-121 | An exact sum over a sequence depends only on the multiset of its elements. |
| `Linear.ApplyZeros` | EOGConv.py:165-166 | A zero neighbour sum gives a zero message. `Properties.LeafEdgeRow` uses it. |

## Left out

- Weight initialisation (`reset_parameters`, Xavier-uniform) is left out because it is random and is a library call. `EOGConvLayer.New` takes the weights as arguments, in the shapes the layer allocates.
- The module, parameter and autograd machinery is left out, and so are `device` and `dtype`. They belong to the framework.
- `edge_batch` is accepted by `Forward.Forward` and never read, as in the source.
- Floating-point rounding is left out. All arithmetic is over exact `real`, so order independence holds for exact sums only. `deg` is a natural-number count, not a float.
- `edge_index` is modelled as its two rows `src` and `dst`, which must have equal length. An `edge_index` of another rank, or with a number of rows other than two, is not modelled. For example, a one-row `edge_index` fails at `edge_index[1]`, and the model does not represent it.
- The errors that the tensor library raises are modelled as `Err` values: an empty `edge_index.max()`, a negative `num_nodes` passed to `torch.zeros`, an edge count in `edge_index` that differs from the one in `edge_x`, and a node id that is negative or not below `num_nodes` in `index_add_`. Their exact messages, and their order inside one `index_add_`, are not modelled.
- The `assert` checks are modelled as always enabled. Running Python with `-O` would remove them, and that is not modelled.
- `Forward.EndpointFeatures`: its own contract states only the `E × C` shape. What each entry holds is stated by `Forward.EndpointFeaturesAt`.
- `Forward.NodeSums`: its own contract states only the `num_nodes × C` shape. What it holds is stated by `Forward.ScatterNodeSums`, `Properties.NodeSumsOverEdges` and `Properties.NodeSumsTotal`.
- `Forward.Degrees`: its own contract states only the length. What it holds is stated by `Forward.CountDegrees`, `Properties.DegreesOverEdges` and `Properties.DegreesTotal`.
- `Forward.Neighbour`: its own contract states only the length. What it holds is stated by `Properties.LeftSumExcludesSelf`, `Properties.DivisorCountsOthers` and `Properties.MeanMatchesSumAtDegreeTwo`.
- `Forward.EndpointNeighbour`: its own contract states only the length. What it holds is stated by `Properties.LeftSumExcludesSelf`, `Properties.RightSumExcludesSelf`, `Properties.LeftNeighbourAtLeaf` and `Properties.LoneSelfLoop`.
- `Forward.EdgeRow`: its own contract states only the length. What it holds is stated by `Properties.LeafEdgeRow`, `Properties.MeanMatchesSumAtDegreeTwo`, `Properties.SharedSwapChangesOnlySelfTerm` and `Properties.ForwardExample`.
- `Forward.Combine`: its own contract states only the output shape. What each row holds is stated by the lemmas about it (`LeftSumExcludesSelf`, `LeftNeighbourAtLeaf`, `LoneSelfLoop`, `MeanMatchesSumAtDegreeTwo`, `SharedSwapChangesOnlySelfTerm`, `ForwardExample`).
- The model does not claim the whole output is unchanged when an edge's endpoints are swapped in shared mode, because the self term changes with the order of concatenation.
