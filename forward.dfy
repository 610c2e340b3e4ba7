/**
 * The forward call of the edge-only graph convolution: shape checks,
 * the inference of `num_nodes`, the two scatter-adds into node buffers,
 * the gather-and-subtract that leaves out each edge's own endpoint, the
 * mean-mode division and the three linear maps.
 */
module Forward {
  import opened Wrappers
  import opened Linear
  import opened Reorder
  import opened Scatter
  import opened EOGConvLayer

  /** A real tensor: its shape and its entries in row-major order. */
  datatype Tensor = Tensor(shape: seq<nat>, data: seq<real>)

  /** The number of entries a tensor of this shape holds. */
  function Product(shape: seq<nat>): nat
  {
    if |shape| == 0 then 1 else shape[0] * Product(shape[1..])
  }

  /** The entries fill the shape exactly. */
  predicate WellFormed(t: Tensor)
  {
    |t.data| == Product(t.shape)
  }

  /**
   * The checks on `edge_x`, in the order they are made: three
   * dimensions, then a middle dimension of 2, then the configured
   * channel count. On success, the number of edges.
   */
  function CheckShape(shape: seq<nat>, channels: nat): (r: Result<nat, Error>)
    ensures r.Ok? <==> |shape| == 3 && shape[1] == 2 && shape[2] == channels
    ensures r.Ok? ==> r.value == shape[0]
    ensures |shape| != 3 ==> r == Err(BadRank(shape))
    ensures |shape| == 3 && shape[1] != 2 ==> r == Err(MiddleDimNot2)
    ensures |shape| == 3 && shape[1] == 2 && shape[2] != channels ==> r == Err(ChannelMismatch)
  {
    if |shape| != 3 then Err(BadRank(shape))
    else if shape[1] != 2 then Err(MiddleDimNot2)
    else if shape[2] != channels then Err(ChannelMismatch)
    else Ok(shape[0])
  }

  /** The largest element of a non-empty sequence. */
  function Max(s: seq<int>): (m: int)
    requires |s| > 0
    ensures m in s
    ensures forall i | 0 <= i < |s| :: s[i] <= m
  {
    if |s| == 1 then s[0]
    else
      var rest := Max(s[..|s| - 1]);
      if s[|s| - 1] > rest then s[|s| - 1] else rest
  }

  /**
   * The number of node rows: `num_nodes` when given, otherwise one more
   * than the largest node id in `edge_index`, which has none when empty.
   */
  function ResolveNumNodes(src: seq<int>, dst: seq<int>, numNodes: Option<int>): (r: Result<int, Error>)
    ensures numNodes.Some? ==> r == Ok(numNodes.value)
    ensures numNodes.None? && |src| + |dst| == 0 ==> r == Err(EmptyEdgeIndex)
    ensures numNodes.None? && |src| + |dst| > 0 ==>
              && r.Ok?
              && (forall e | 0 <= e < |src| :: src[e] < r.value)
              && (forall e | 0 <= e < |dst| :: dst[e] < r.value)
              && (r.value - 1 in src || r.value - 1 in dst)
    ensures numNodes.None? && r.Ok?
              && (forall e | 0 <= e < |src| :: 0 <= src[e]) && (forall e | 0 <= e < |dst| :: 0 <= dst[e]) ==>
              r.value > 0 && InRange(src, r.value) && InRange(dst, r.value)
  {
    match numNodes
    case Some(n) => Ok(n)
    case None =>
      if |src| + |dst| == 0 then Err(EmptyEdgeIndex)
      else
        var ids := src + dst;
        assert forall e | 0 <= e < |src| :: src[e] == ids[e];
        assert forall e | 0 <= e < |dst| :: dst[e] == ids[|src| + e];
        Ok(Max(ids) + 1)
  }

  /** The entries of a three-dimensional tensor number the product of its three dimensions. */
  lemma ProductOfThree(shape: seq<nat>)
    requires |shape| == 3
    ensures Product(shape) == shape[0] * (shape[1] * shape[2])
  {
    var tail := shape[1..];
    assert tail[0] == shape[1];
    var last := tail[1..];
    assert last[0] == shape[2] && last[1..] == [];
    assert Product(last) == shape[2] * Product(last[1..]);
    assert Product(tail) == shape[1] * Product(last);
  }

  /**
   * Where the `channels` entries of endpoint `slot` of edge `e` start in
   * a `[E, 2, channels]` tensor stored row-major: each edge before `e`
   * occupies `2 * channels` entries, and the second endpoint follows the first.
   */
  function Offset(e: nat, slot: nat, channels: nat): nat
  {
    if e == 0 then (if slot == 0 then 0 else channels) else 2 * channels + Offset(e - 1, slot, channels)
  }

  /** `Offset` is the row-major position `e * 2 * channels + slot * channels`. */
  lemma {:induction false} OffsetIsRowMajor(e: nat, slot: nat, channels: nat)
    requires slot < 2
    ensures Offset(e, slot, channels) == e * (2 * channels) + slot * channels
  {
    if e > 0 {
      OffsetIsRowMajor(e - 1, slot, channels);
      assert e * (2 * channels) == (e - 1) * (2 * channels) + 2 * channels;
    }
  }

  /** Taking the first edge off a `[edges, 2, channels]` tensor leaves `[edges - 1, 2, channels]`. */
  lemma Peel(edges: nat, channels: nat)
    requires edges > 0
    ensures edges * (2 * channels) == (edges - 1) * (2 * channels) + 2 * channels
  {
  }

  /**
   * `edge_x[:, slot, :]` of a tensor of shape `[edges, 2, channels]`,
   * read edge by edge: each edge occupies `2 * channels` consecutive
   * entries, `slot` selects the first or the second half of them.
   */
  function EndpointFeatures(data: seq<real>, edges: nat, channels: nat, slot: nat): (r: Mat)
    requires slot < 2 && |data| == edges * (2 * channels)
    ensures IsMatrix(r, edges, channels)
    decreases edges
  {
    if edges == 0 then []
    else
      Peel(edges, channels);
      [data[Offset(0, slot, channels) .. Offset(0, slot, channels) + channels]]
        + EndpointFeatures(data[2 * channels..], edges - 1, channels, slot)
  }

  /** Channel `k` of endpoint `slot` of edge `e` is the element at position `(e, slot, k)` of `edge_x`. */
  lemma {:induction false} EndpointFeaturesAt(data: seq<real>, edges: nat, channels: nat, slot: nat, e: nat, k: nat)
    requires slot < 2 && |data| == edges * (2 * channels)
    requires e < edges && k < channels
    ensures Offset(e, slot, channels) + k < |data|
    ensures EndpointFeatures(data, edges, channels, slot)[e][k] == data[Offset(e, slot, channels) + k]
    decreases e
  {
    Peel(edges, channels);
    var rest := data[2 * channels..];
    var r := EndpointFeatures(data, edges, channels, slot);
    if e > 0 {
      EndpointFeaturesAt(rest, edges - 1, channels, slot, e - 1, k);
      assert r[e] == EndpointFeatures(rest, edges - 1, channels, slot)[e - 1];
      assert rest[Offset(e - 1, slot, channels) + k] == data[Offset(e, slot, channels) + k];
    }
  }

  /** Channel `k` of node `n` after both scatter-adds of one forward call. */
  function NodeSums(size: nat, channels: nat, src: seq<int>, dst: seq<int>, xs: Mat, xd: Mat): (r: Mat)
    requires |src| == |xs| && |dst| == |xd|
    ensures IsMatrix(r, size, channels)
  {
    seq(size, n requires 0 <= n < size =>
      seq(channels, k requires 0 <= k < channels => Scattered(src, xs, n, k) + Scattered(dst, xd, n, k)))
  }

  /** The number of endpoint occurrences of each node, over both rows of `edge_index`. */
  function Degrees(size: nat, src: seq<int>, dst: seq<int>): (r: seq<nat>)
    ensures |r| == size
  {
    seq(size, n requires 0 <= n < size => multiset(src)[n] + multiset(dst)[n])
  }

  /** The mean-mode divisor `(deg - 1).clamp(min=1)`: the number of other endpoints, but never below 1. */
  function Divisor(deg: nat): (r: real)
    ensures r >= 1.0 && r >= deg as real - 1.0
    ensures r == 1.0 || r == deg as real - 1.0
  {
    if deg as real - 1.0 < 1.0 then 1.0 else deg as real - 1.0
  }

  /**
   * A neighbour sum: a node's sum with the edge's own endpoint feature
   * taken out, and in mean mode divided by the clamped count of the
   * other endpoints.
   */
  function Neighbour(aggr: Aggr, incl: Vec, own: Vec, deg: nat): (r: Vec)
    requires |incl| == |own|
    ensures |r| == |own|
  {
    var excl := Sub(incl, own);
    match aggr
    case Sum => excl
    case Mean => DivBy(excl, Divisor(deg))
  }

  /** The buffers and per-edge features one forward call combines, with consistent sizes. */
  predicate Gathered(layer: EOGConv, ns: Mat, deg: seq<nat>, src: seq<int>, dst: seq<int>, xs: Mat, xd: Mat)
  {
    && layer.Valid()
    && |src| == |dst|
    && IsMatrix(ns, |ns|, layer.inChannels)
    && IsMatrix(xs, |src|, layer.inChannels)
    && IsMatrix(xd, |src|, layer.inChannels)
    && InRange(src, |ns|)
    && InRange(dst, |ns|)
    && (layer.aggr == Mean ==> |deg| == |ns|)
  }

  /**
   * Edge `e`'s neighbour sum at the endpoint that `idx` names (`src` for
   * the left sum, `dst` for the right one), `feats` holding that endpoint's
   * features.
   */
  function EndpointNeighbour(aggr: Aggr, ns: Mat, deg: seq<nat>, idx: seq<int>, feats: Mat, e: nat): (r: Vec)
    requires e < |idx| == |feats| && InRange(idx, |ns|) && |ns[idx[e]]| == |feats[e]|
    requires aggr == Mean ==> |deg| == |ns|
    ensures |r| == |feats[e]|
  {
    Neighbour(aggr, ns[idx[e]], feats[e], if aggr == Mean then deg[idx[e]] else 0)
  }

  /**
   * The new feature of edge `e`: its left neighbour sum, its concatenated
   * endpoint pair and its right neighbour sum, each through its own linear
   * map, added up; `out_channels` entries.
   */
  function EdgeRow(layer: EOGConv, ns: Mat, deg: seq<nat>, src: seq<int>, dst: seq<int>, xs: Mat, xd: Mat, e: nat): (r: Vec)
    requires Gathered(layer, ns, deg, src, dst, xs, xd) && e < |src|
    ensures |r| == layer.outChannels
  {
    var w := SelectWeights(layer);
    var leftMsg := Apply(w.0, EndpointNeighbour(layer.aggr, ns, deg, src, xs, e));
    var selfMsg := Apply(layer.wSelf, xs[e] + xd[e]);
    var rightMsg := Apply(w.1, EndpointNeighbour(layer.aggr, ns, deg, dst, xd, e));
    Add(Add(leftMsg, selfMsg), rightMsg)
  }

  /** The new features of all edges, one row per edge. */
  function Combine(layer: EOGConv, ns: Mat, deg: seq<nat>, src: seq<int>, dst: seq<int>, xs: Mat, xd: Mat): (r: Mat)
    requires Gathered(layer, ns, deg, src, dst, xs, xd)
    ensures IsMatrix(r, |src|, layer.outChannels)
  {
    seq(|src|, e requires 0 <= e < |src| => EdgeRow(layer, ns, deg, src, dst, xs, xd, e))
  }

  /** Everything a forward call needs of its arguments before it looks at them. */
  predicate Callable(layer: EOGConv, edgeX: Tensor, src: seq<int>, dst: seq<int>)
  {
    layer.Valid() && WellFormed(edgeX) && |src| == |dst|
  }

  /**
   * The forward call as a value: the errors it raises, in the order it
   * raises them, or the new edge features.
   */
  function ForwardSpec(layer: EOGConv, edgeX: Tensor, src: seq<int>, dst: seq<int>, numNodes: Option<int>): (r: Result<Mat, Error>)
    requires Callable(layer, edgeX, src, dst)
    ensures |edgeX.shape| != 3 ==> r == Err(BadRank(edgeX.shape))
    ensures |edgeX.shape| == 3 && edgeX.shape[1] != 2 ==> r == Err(MiddleDimNot2)
    ensures |edgeX.shape| == 3 && edgeX.shape[1] == 2 && edgeX.shape[2] != layer.inChannels ==> r == Err(ChannelMismatch)
    ensures r.Ok? <==>
              && |edgeX.shape| == 3 && edgeX.shape[1] == 2 && edgeX.shape[2] == layer.inChannels
              && ResolveNumNodes(src, dst, numNodes).Ok?
              && ResolveNumNodes(src, dst, numNodes).value >= 0
              && |src| == edgeX.shape[0]
              && InRange(src, ResolveNumNodes(src, dst, numNodes).value)
              && InRange(dst, ResolveNumNodes(src, dst, numNodes).value)
    ensures r.Ok? ==> IsMatrix(r.value, edgeX.shape[0], layer.outChannels)
  {
    match CheckShape(edgeX.shape, layer.inChannels)
    case Err(e) => Err(e)
    case Ok(edges) =>
      ProductOfThree(edgeX.shape);
      match ResolveNumNodes(src, dst, numNodes)
      case Err(e) => Err(e)
      case Ok(size) =>
        if size < 0 then Err(NegativeNumNodes)
        else if |src| != edges then Err(EdgeCountMismatch)
        else if !InRange(src, size) || !InRange(dst, size) then Err(NodeIndexOutOfRange)
        else
          var c := layer.inChannels;
          var xs := EndpointFeatures(edgeX.data, edges, c, 0);
          var xd := EndpointFeatures(edgeX.data, edges, c, 1);
          var deg := if layer.aggr == Mean then Degrees(size, src, dst) else [];
          Ok(Combine(layer, NodeSums(size, c, src, dst, xs, xd), deg, src, dst, xs, xd))
  }

  /** `node_sum`: a zero buffer into which both endpoint rows are index-added. */
  method ScatterNodeSums(size: nat, c: nat, src: seq<int>, dst: seq<int>, xs: Mat, xd: Mat) returns (r: Mat)
    requires InRange(src, size) && InRange(dst, size)
    requires IsMatrix(xs, |src|, c) && IsMatrix(xd, |dst|, c)
    ensures r == NodeSums(size, c, src, dst, xs, xd)
  {
    var buf := new Vec[size](_ => Zeros(c));
    IndexAdd(buf, src, xs, c);
    IndexAdd(buf, dst, xd, c);
    forall n | 0 <= n < size
      ensures buf[n] == NodeSums(size, c, src, dst, xs, xd)[n]
    {
      assert |buf[n]| == c;
    }
    r := buf[..];
  }

  /** `deg`: a zero buffer into which a one is index-added per endpoint occurrence. */
  method CountDegrees(size: nat, src: seq<int>, dst: seq<int>) returns (r: seq<nat>)
    requires InRange(src, size) && InRange(dst, size)
    ensures r == Degrees(size, src, dst)
  {
    var buf := new nat[size](_ => 0);
    IndexCount(buf, src);
    IndexCount(buf, dst);
    r := buf[..];
  }

  /**
   * `EOGConv.forward`. The node sums and the degrees are accumulated in
   * place into zero-initialised arrays, one index-add pass per row of
   * `edge_index`. `edgeBatch` is accepted and never read.
   */
  method Forward(layer: EOGConv, edgeX: Tensor, src: seq<int>, dst: seq<int>,
                 edgeBatch: Option<seq<int>>, numNodes: Option<int>) returns (r: Result<Mat, Error>)
    requires Callable(layer, edgeX, src, dst)
    ensures r == ForwardSpec(layer, edgeX, src, dst, numNodes)
  {
    var checked := CheckShape(edgeX.shape, layer.inChannels);
    if checked.Err? {
      return Err(checked.error);
    }
    var edges := checked.value;
    var c := layer.inChannels;
    var resolved := ResolveNumNodes(src, dst, numNodes);
    if resolved.Err? {
      return Err(resolved.error);
    }
    var size := resolved.value;
    if size < 0 {
      return Err(NegativeNumNodes);
    }
    if |src| != edges {
      return Err(EdgeCountMismatch);
    }
    if !InRange(src, size) || !InRange(dst, size) {
      return Err(NodeIndexOutOfRange);
    }
    ProductOfThree(edgeX.shape);
    var xs := EndpointFeatures(edgeX.data, edges, c, 0);
    var xd := EndpointFeatures(edgeX.data, edges, c, 1);

    var nodeSum := ScatterNodeSums(size, c, src, dst, xs, xd);
    var deg: seq<nat> := [];
    if layer.aggr == Mean {
      deg := CountDegrees(size, src, dst);
    }
    r := Ok(Combine(layer, nodeSum, deg, src, dst, xs, xd));
  }
}
