/**
 * What the forward call guarantees about its node sums, degrees,
 * neighbour sums and outputs.
 */
module Properties {
  import opened Wrappers
  import opened Linear
  import opened Reorder
  import opened Scatter
  import opened EOGConvLayer
  import opened Forward

  /** One edge as the forward call sees it: its two node ids and its two endpoint features. */
  datatype Edge = Edge(src: int, dst: int, xSrc: Vec, xDst: Vec)

  /** The edge list, edge `e` taken from position `e` of each row. */
  function Edges(src: seq<int>, dst: seq<int>, xs: Mat, xd: Mat): (r: seq<Edge>)
    requires |src| == |dst| == |xs| == |xd|
    ensures |r| == |src|
  {
    seq(|src|, e requires 0 <= e < |src| => Edge(src[e], dst[e], xs[e], xd[e]))
  }

  /** What an edge adds to channel `k` of node `n`: each endpoint attached to `n` adds its own feature. */
  function IncidentFeature(n: int, k: nat): Edge -> real
  {
    (x: Edge) => Landing(x.src, x.xSrc, n, k) + Landing(x.dst, x.xDst, n, k)
  }

  /** How many of an edge's two endpoints are attached to node `n`. */
  function Incidence(n: int): Edge -> real
  {
    (x: Edge) => (if x.src == n then 1.0 else 0.0) + (if x.dst == n then 1.0 else 0.0)
  }

  /** The two index-add passes together are one filtered sum over every endpoint occurrence. */
  lemma NodeSumsAreEndpointSums(size: nat, channels: nat, src: seq<int>, dst: seq<int>, xs: Mat, xd: Mat, n: nat, k: nat)
    requires |src| == |xs| && |dst| == |xd| && n < size && k < channels
    ensures NodeSums(size, channels, src, dst, xs, xd)[n][k] == Scattered(src + dst, xs + xd, n, k)
  {
    ScatteredConcat(src, xs, dst, xd, n, k);
  }

  /** A node's sum, written as a sum over edges of what each edge brings to that node. */
  lemma {:induction false} NodeSumsOverEdges(src: seq<int>, dst: seq<int>, xs: Mat, xd: Mat, n: int, k: nat)
    requires |src| == |dst| == |xs| == |xd|
    ensures Scattered(src, xs, n, k) + Scattered(dst, xd, n, k) == Total(Edges(src, dst, xs, xd), IncidentFeature(n, k))
    decreases |src|
  {
    if |src| > 0 {
      var m := |src| - 1;
      assert Edges(src, dst, xs, xd)[..m] == Edges(src[..m], dst[..m], xs[..m], xd[..m]);
      NodeSumsOverEdges(src[..m], dst[..m], xs[..m], xd[..m], n, k);
    }
  }

  /** A node's degree, written as a sum over edges of how many endpoints each attaches to that node. */
  lemma {:induction false} DegreesOverEdges(src: seq<int>, dst: seq<int>, xs: Mat, xd: Mat, n: int)
    requires |src| == |dst| == |xs| == |xd|
    ensures (multiset(src)[n] + multiset(dst)[n]) as real == Total(Edges(src, dst, xs, xd), Incidence(n))
    decreases |src|
  {
    if |src| > 0 {
      var m := |src| - 1;
      assert Edges(src, dst, xs, xd)[..m] == Edges(src[..m], dst[..m], xs[..m], xd[..m]);
      assert src == src[..m] + [src[m]];
      assert dst == dst[..m] + [dst[m]];
      DegreesOverEdges(src[..m], dst[..m], xs[..m], xd[..m], n);
    }
  }

  /** Reordering the edges (any sequence with the same edges) leaves every node sum and every degree unchanged. */
  lemma AggregationOrderIndependent(size: nat, channels: nat,
                                    src: seq<int>, dst: seq<int>, xs: Mat, xd: Mat,
                                    src': seq<int>, dst': seq<int>, xs': Mat, xd': Mat)
    requires |src| == |dst| == |xs| == |xd|
    requires |src'| == |dst'| == |xs'| == |xd'|
    requires multiset(Edges(src, dst, xs, xd)) == multiset(Edges(src', dst', xs', xd'))
    ensures NodeSums(size, channels, src, dst, xs, xd) == NodeSums(size, channels, src', dst', xs', xd')
    ensures Degrees(size, src, dst) == Degrees(size, src', dst')
  {
    var a, b := Edges(src, dst, xs, xd), Edges(src', dst', xs', xd');
    var ns, ns' := NodeSums(size, channels, src, dst, xs, xd), NodeSums(size, channels, src', dst', xs', xd');
    forall n | 0 <= n < size
      ensures ns[n] == ns'[n]
    {
      forall k | 0 <= k < channels
        ensures ns[n][k] == ns'[n][k]
      {
        NodeSumsOverEdges(src, dst, xs, xd, n, k);
        NodeSumsOverEdges(src', dst', xs', xd', n, k);
        TotalPermutation(a, b, IncidentFeature(n, k));
      }
    }
    forall n | 0 <= n < size
      ensures Degrees(size, src, dst)[n] == Degrees(size, src', dst')[n]
    {
      DegreesOverEdges(src, dst, xs, xd, n);
      DegreesOverEdges(src', dst', xs', xd', n);
      TotalPermutation(a, b, Incidence(n));
    }
  }

  /** Reordering the edges changes neither the node ids that occur nor, hence, the inferred `num_nodes`. */
  lemma NumNodesOrderIndependent(src: seq<int>, dst: seq<int>, xs: Mat, xd: Mat,
                                 src': seq<int>, dst': seq<int>, xs': Mat, xd': Mat, numNodes: Option<int>)
    requires |src| == |dst| == |xs| == |xd|
    requires |src'| == |dst'| == |xs'| == |xd'|
    requires multiset(Edges(src, dst, xs, xd)) == multiset(Edges(src', dst', xs', xd'))
    ensures ResolveNumNodes(src, dst, numNodes) == ResolveNumNodes(src', dst', numNodes)
  {
    var a, b := Edges(src, dst, xs, xd), Edges(src', dst', xs', xd');
    assert |src| == |a| == |multiset(a)| == |multiset(b)| == |b| == |src'|;
    forall x | x in src + dst
      ensures x in src' + dst'
    {
      var e :| 0 <= e < |src + dst| && (src + dst)[e] == x;
      var i := if e < |src| then e else e - |src|;
      assert a[i] in multiset(b);
      var j :| 0 <= j < |b| && b[j] == a[i];
      assert x == src'[j] || x == dst'[j];
    }
    forall x | x in src' + dst'
      ensures x in src + dst
    {
      var e :| 0 <= e < |src' + dst'| && (src' + dst')[e] == x;
      var i := if e < |src'| then e else e - |src'|;
      assert b[i] in multiset(a);
      var j :| 0 <= j < |a| && a[j] == b[i];
      assert x == src[j] || x == dst[j];
    }
    var r, r' := ResolveNumNodes(src, dst, numNodes), ResolveNumNodes(src', dst', numNodes);
    if numNodes.None? && |src| > 0 {
      assert r.value - 1 in src + dst;
      assert r'.value - 1 in src' + dst';
    }
  }

  /** The edge list of a forward call whose shape checks pass. */
  function EdgeList(edgeX: Tensor, src: seq<int>, dst: seq<int>, channels: nat): (r: seq<Edge>)
    requires WellFormed(edgeX) && |edgeX.shape| == 3 && edgeX.shape[1] == 2 && edgeX.shape[2] == channels
    requires |src| == |dst| == edgeX.shape[0]
    ensures |r| == |src|
  {
    ProductOfThree(edgeX.shape);
    var edges := edgeX.shape[0];
    Edges(src, dst, EndpointFeatures(edgeX.data, edges, channels, 0), EndpointFeatures(edgeX.data, edges, channels, 1))
  }

  /** Reordering the edges keeps every node id inside the same buffer. */
  lemma InRangeOrderIndependent(src: seq<int>, dst: seq<int>, xs: Mat, xd: Mat,
                                src': seq<int>, dst': seq<int>, xs': Mat, xd': Mat, size: int)
    requires |src| == |dst| == |xs| == |xd|
    requires |src'| == |dst'| == |xs'| == |xd'|
    requires multiset(Edges(src, dst, xs, xd)) == multiset(Edges(src', dst', xs', xd'))
    requires InRange(src, size) && InRange(dst, size)
    ensures InRange(src', size) && InRange(dst', size)
  {
    var a, b := Edges(src, dst, xs, xd), Edges(src', dst', xs', xd');
    forall e | 0 <= e < |src'|
      ensures 0 <= src'[e] < size && 0 <= dst'[e] < size
    {
      assert b[e] in multiset(a);
      var i :| 0 <= i < |a| && a[i] == b[e];
      assert src'[e] == src[i] && dst'[e] == dst[i];
    }
  }

  /**
   * Permutation invariance: when a forward call succeeds, the same edges
   * given in any other order also succeed, and each edge gets the same
   * new feature in both calls.
   */
  lemma ForwardOrderIndependent(layer: EOGConv, edgeX: Tensor, src: seq<int>, dst: seq<int>,
                                edgeX': Tensor, src': seq<int>, dst': seq<int>,
                                numNodes: Option<int>, i: nat, j: nat)
    requires Callable(layer, edgeX, src, dst) && Callable(layer, edgeX', src', dst')
    requires ForwardSpec(layer, edgeX, src, dst, numNodes).Ok?
    requires edgeX'.shape == [|src'|, 2, layer.inChannels]
    requires multiset(EdgeList(edgeX, src, dst, layer.inChannels)) == multiset(EdgeList(edgeX', src', dst', layer.inChannels))
    requires i < |src| && j < |src'| && EdgeList(edgeX, src, dst, layer.inChannels)[i] == EdgeList(edgeX', src', dst', layer.inChannels)[j]
    ensures ForwardSpec(layer, edgeX', src', dst', numNodes).Ok?
    ensures ForwardSpec(layer, edgeX, src, dst, numNodes).value[i] == ForwardSpec(layer, edgeX', src', dst', numNodes).value[j]
  {
    var c := layer.inChannels;
    ProductOfThree(edgeX.shape);
    ProductOfThree(edgeX'.shape);
    var xs := EndpointFeatures(edgeX.data, edgeX.shape[0], c, 0);
    var xd := EndpointFeatures(edgeX.data, edgeX.shape[0], c, 1);
    var xs' := EndpointFeatures(edgeX'.data, edgeX'.shape[0], c, 0);
    var xd' := EndpointFeatures(edgeX'.data, edgeX'.shape[0], c, 1);
    NumNodesOrderIndependent(src, dst, xs, xd, src', dst', xs', xd', numNodes);
    var size := ResolveNumNodes(src, dst, numNodes).value;
    InRangeOrderIndependent(src, dst, xs, xd, src', dst', xs', xd', size);
    assert ForwardSpec(layer, edgeX', src', dst', numNodes).Ok?;
    AggregationOrderIndependent(size, c, src, dst, xs, xd, src', dst', xs', xd');
    assert Edges(src, dst, xs, xd)[i] == Edges(src', dst', xs', xd')[j];
  }

  /** Summing one channel of the node sums over all nodes gives that channel summed over every endpoint feature. */
  lemma {:induction false} NodeSumsColumn(size: nat, channels: nat, src: seq<int>, dst: seq<int>, xs: Mat, xd: Mat, k: nat)
    requires |src| == |xs| && |dst| == |xd| && k < channels
    ensures ColumnSum(NodeSums(size, channels, src, dst, xs, xd), k)
         == ScatteredOverNodes(src, xs, size, k) + ScatteredOverNodes(dst, xd, size, k)
  {
    if size > 0 {
      var ns := NodeSums(size, channels, src, dst, xs, xd);
      assert ns[..size - 1] == NodeSums(size - 1, channels, src, dst, xs, xd);
      NodeSumsColumn(size - 1, channels, src, dst, xs, xd, k);
    }
  }

  /** With every node id in range, the node sums of a channel add up to the sum of that channel over all endpoint features. */
  lemma NodeSumsTotal(size: nat, channels: nat, src: seq<int>, dst: seq<int>, xs: Mat, xd: Mat, k: nat)
    requires |src| == |dst| && IsMatrix(xs, |src|, channels) && IsMatrix(xd, |dst|, channels)
    requires InRange(src, size) && InRange(dst, size) && k < channels
    ensures ColumnSum(NodeSums(size, channels, src, dst, xs, xd), k) == ColumnSum(xs, k) + ColumnSum(xd, k)
  {
    NodeSumsColumn(size, channels, src, dst, xs, xd, k);
    ScatterConserves(src, xs, size, k);
    ScatterConserves(dst, xd, size, k);
  }

  /** The degrees summed over the nodes `0 .. size - 1` count each row's occurrences there. */
  lemma {:induction false} DegreesColumn(size: nat, src: seq<int>, dst: seq<int>)
    ensures SumNat(Degrees(size, src, dst)) == CountOverNodes(src, size) + CountOverNodes(dst, size)
  {
    if size > 0 {
      assert Degrees(size, src, dst)[..size - 1] == Degrees(size - 1, src, dst);
      DegreesColumn(size - 1, src, dst);
    }
  }

  /** With every node id in range, the degrees add up to twice the number of edges (a self-loop counts 2). */
  lemma DegreesTotal(size: nat, src: seq<int>, dst: seq<int>)
    requires |src| == |dst| && InRange(src, size) && InRange(dst, size)
    ensures SumNat(Degrees(size, src, dst)) == 2 * |src|
  {
    DegreesColumn(size, src, dst);
    CountConserves(src, size);
    CountConserves(dst, size);
  }

  /** The node sums do not depend on which row of `edge_index` is scattered first. */
  lemma NodeSumsSymmetric(size: nat, channels: nat, src: seq<int>, dst: seq<int>, xs: Mat, xd: Mat)
    requires |src| == |xs| && |dst| == |xd|
    ensures NodeSums(size, channels, src, dst, xs, xd) == NodeSums(size, channels, dst, src, xd, xs)
    ensures Degrees(size, src, dst) == Degrees(size, dst, src)
  {
    assert forall n | 0 <= n < size ::
      NodeSums(size, channels, src, dst, xs, xd)[n] == NodeSums(size, channels, dst, src, xd, xs)[n];
  }

  /**
   * Self-exclusion: the gathered sum at an edge's first endpoint, less its
   * own first-endpoint feature, is the sum over every other endpoint
   * occurrence at that node.
   */
  lemma LeftSumExcludesSelf(size: nat, channels: nat, src: seq<int>, dst: seq<int>, xs: Mat, xd: Mat, e: nat, k: nat)
    requires |src| == |dst| && IsMatrix(xs, |src|, channels) && IsMatrix(xd, |dst|, channels)
    requires InRange(src, size) && e < |src| && k < channels
    ensures Sub(NodeSums(size, channels, src, dst, xs, xd)[src[e]], xs[e])[k]
         == Scattered(Remove(src, e), Remove(xs, e), src[e], k) + Scattered(dst, xd, src[e], k)
  {
    ScatteredRemove(src, xs, e, src[e], k);
  }

  /** Self-exclusion at the second endpoint, as for the first. */
  lemma RightSumExcludesSelf(size: nat, channels: nat, src: seq<int>, dst: seq<int>, xs: Mat, xd: Mat, e: nat, k: nat)
    requires |src| == |dst| && IsMatrix(xs, |src|, channels) && IsMatrix(xd, |dst|, channels)
    requires InRange(dst, size) && e < |dst| && k < channels
    ensures Sub(NodeSums(size, channels, src, dst, xs, xd)[dst[e]], xd[e])[k]
         == Scattered(src, xs, dst[e], k) + Scattered(Remove(dst, e), Remove(xd, e), dst[e], k)
  {
    ScatteredRemove(dst, xd, e, dst[e], k);
  }

  /** Degree counts the edge itself: every endpoint's node has degree at least 1. */
  lemma DegreeCountsSelf(size: nat, src: seq<int>, dst: seq<int>, e: nat)
    requires |src| == |dst| && InRange(src, size) && InRange(dst, size) && e < |src|
    ensures Degrees(size, src, dst)[src[e]] >= 1 && Degrees(size, src, dst)[dst[e]] >= 1
  {
    assert src[e] in multiset(src) && dst[e] in multiset(dst);
  }

  /**
   * The mean-mode divisor at an edge's first endpoint is the number of
   * the other endpoint occurrences at that node, clamped to at least 1.
   */
  lemma DivisorCountsOthers(size: nat, src: seq<int>, dst: seq<int>, e: nat)
    requires |src| == |dst| && InRange(src, size) && e < |src|
    ensures var others := multiset(Remove(src, e))[src[e]] + multiset(dst)[src[e]];
            Divisor(Degrees(size, src, dst)[src[e]]) == if others >= 1 then others as real else 1.0
  {
    assert src[e] in multiset(src);
  }

  /** Where the edge is the only endpoint at its first node, its left neighbour sum is zero, in both modes. */
  lemma LeftNeighbourAtLeaf(aggr: Aggr, size: nat, channels: nat, src: seq<int>, dst: seq<int>, xs: Mat, xd: Mat, e: nat)
    requires |src| == |dst| && IsMatrix(xs, |src|, channels) && IsMatrix(xd, |dst|, channels)
    requires InRange(src, size) && InRange(dst, size) && e < |src|
    requires Degrees(size, src, dst)[src[e]] == 1
    ensures EndpointNeighbour(aggr, NodeSums(size, channels, src, dst, xs, xd), Degrees(size, src, dst), src, xs, e) == Zeros(channels)
  {
    var n := src[e];
    assert n in multiset(src);
    assert n !in multiset(dst);
    assert n !in multiset(Remove(src, e));
    var excl := Sub(NodeSums(size, channels, src, dst, xs, xd)[n], xs[e]);
    forall k | 0 <= k < channels
      ensures excl[k] == 0.0
    {
      LeftSumExcludesSelf(size, channels, src, dst, xs, xd, e, k);
      ScatteredAbsent(Remove(src, e), Remove(xs, e), n, k);
      ScatteredAbsent(dst, xd, n, k);
    }
    assert excl == Zeros(channels);
  }

  /** Where the edge is the only endpoint at its second node, its right neighbour sum is zero, in both modes. */
  lemma RightNeighbourAtLeaf(aggr: Aggr, size: nat, channels: nat, src: seq<int>, dst: seq<int>, xs: Mat, xd: Mat, e: nat)
    requires |src| == |dst| && IsMatrix(xs, |src|, channels) && IsMatrix(xd, |dst|, channels)
    requires InRange(src, size) && InRange(dst, size) && e < |src|
    requires Degrees(size, src, dst)[dst[e]] == 1
    ensures EndpointNeighbour(aggr, NodeSums(size, channels, src, dst, xs, xd), Degrees(size, src, dst), dst, xd, e) == Zeros(channels)
  {
    NodeSumsSymmetric(size, channels, src, dst, xs, xd);
    LeftNeighbourAtLeaf(aggr, size, channels, dst, src, xd, xs, e);
  }

  /**
   * At an edge that is the only endpoint at its first node, the left
   * message vanishes: the new feature is the self message plus the right
   * message, whatever the left weight matrix, in both modes.
   */
  lemma LeafEdgeRow(layer: EOGConv, size: nat, deg: seq<nat>, src: seq<int>, dst: seq<int>, xs: Mat, xd: Mat, e: nat)
    requires layer.Valid() && |src| == |dst|
    requires IsMatrix(xs, |src|, layer.inChannels) && IsMatrix(xd, |dst|, layer.inChannels)
    requires InRange(src, size) && InRange(dst, size) && e < |src|
    requires layer.aggr == Mean ==> deg == Degrees(size, src, dst)
    requires Degrees(size, src, dst)[src[e]] == 1
    ensures Gathered(layer, NodeSums(size, layer.inChannels, src, dst, xs, xd), deg, src, dst, xs, xd)
    ensures var ns := NodeSums(size, layer.inChannels, src, dst, xs, xd);
            (EdgeRow(layer, ns, deg, src, dst, xs, xd, e)
             == Add(Apply(layer.wSelf, xs[e] + xd[e]), Apply(SelectWeights(layer).1, EndpointNeighbour(layer.aggr, ns, deg, dst, xd, e))))
  {
    var c := layer.inChannels;
    var ns := NodeSums(size, c, src, dst, xs, xd);
    var w := SelectWeights(layer);
    LeftNeighbourAtLeaf(layer.aggr, size, c, src, dst, xs, xd, e);
    assert EndpointNeighbour(layer.aggr, ns, deg, src, xs, e) == EndpointNeighbour(layer.aggr, ns, Degrees(size, src, dst), src, xs, e);
    ApplyZeros(w.0, c);
    var selfMsg := Apply(layer.wSelf, xs[e] + xd[e]);
    var rightMsg := Apply(w.1, EndpointNeighbour(layer.aggr, ns, deg, dst, xd, e));
    assert Add(Add(Zeros(layer.outChannels), selfMsg), rightMsg) == Add(selfMsg, rightMsg);
  }

  /**
   * A self-loop that is the only edge at its node is added twice and
   * counted twice: each side's neighbour sum is the loop's own other
   * endpoint feature, in both modes.
   */
  lemma LoneSelfLoop(aggr: Aggr, size: nat, channels: nat, src: seq<int>, dst: seq<int>, xs: Mat, xd: Mat, e: nat)
    requires |src| == |dst| && IsMatrix(xs, |src|, channels) && IsMatrix(xd, |dst|, channels)
    requires InRange(src, size) && InRange(dst, size) && e < |src|
    requires src[e] == dst[e] && Degrees(size, src, dst)[src[e]] == 2
    ensures EndpointNeighbour(aggr, NodeSums(size, channels, src, dst, xs, xd), Degrees(size, src, dst), src, xs, e) == xd[e]
    ensures EndpointNeighbour(aggr, NodeSums(size, channels, src, dst, xs, xd), Degrees(size, src, dst), dst, xd, e) == xs[e]
  {
    var n := src[e];
    assert n in multiset(src) && n in multiset(dst);
    assert n !in multiset(Remove(src, e));
    assert n !in multiset(Remove(dst, e));
    LoopLeftSum(size, channels, src, dst, xs, xd, e);
    LoopRightSum(size, channels, src, dst, xs, xd, e);
  }

  /** A self-loop alone at its node: its left neighbour sum is its own `x_dst`. */
  lemma LoopLeftSum(size: nat, channels: nat, src: seq<int>, dst: seq<int>, xs: Mat, xd: Mat, e: nat)
    requires |src| == |dst| && IsMatrix(xs, |src|, channels) && IsMatrix(xd, |dst|, channels)
    requires InRange(src, size) && InRange(dst, size) && e < |src|
    requires src[e] == dst[e] && src[e] !in Remove(src, e) && src[e] !in Remove(dst, e)
    ensures Sub(NodeSums(size, channels, src, dst, xs, xd)[src[e]], xs[e]) == xd[e]
  {
    var n := src[e];
    var ns := NodeSums(size, channels, src, dst, xs, xd);
    forall k | 0 <= k < channels
      ensures Sub(ns[n], xs[e])[k] == xd[e][k]
    {
      LeftSumExcludesSelf(size, channels, src, dst, xs, xd, e, k);
      ScatteredAbsent(Remove(src, e), Remove(xs, e), n, k);
      ScatteredAbsent(Remove(dst, e), Remove(xd, e), n, k);
      ScatteredRemove(dst, xd, e, n, k);
    }
  }

  /** A self-loop alone at its node: its right neighbour sum is its own `x_src`. */
  lemma LoopRightSum(size: nat, channels: nat, src: seq<int>, dst: seq<int>, xs: Mat, xd: Mat, e: nat)
    requires |src| == |dst| && IsMatrix(xs, |src|, channels) && IsMatrix(xd, |dst|, channels)
    requires InRange(src, size) && InRange(dst, size) && e < |src|
    requires src[e] == dst[e] && src[e] !in Remove(src, e) && src[e] !in Remove(dst, e)
    ensures Sub(NodeSums(size, channels, src, dst, xs, xd)[dst[e]], xd[e]) == xs[e]
  {
    var n := dst[e];
    var ns := NodeSums(size, channels, src, dst, xs, xd);
    forall k | 0 <= k < channels
      ensures Sub(ns[n], xd[e])[k] == xs[e][k]
    {
      RightSumExcludesSelf(size, channels, src, dst, xs, xd, e, k);
      ScatteredAbsent(Remove(src, e), Remove(xs, e), n, k);
      ScatteredAbsent(Remove(dst, e), Remove(xd, e), n, k);
      ScatteredRemove(src, xs, e, n, k);
    }
  }

  /** An edge whose two endpoint nodes have degree 2 gets the same new feature in mean mode as in sum mode. */
  lemma MeanMatchesSumAtDegreeTwo(layer: EOGConv, ns: Mat, deg: seq<nat>, src: seq<int>, dst: seq<int>, xs: Mat, xd: Mat, e: nat)
    requires Gathered(layer, ns, deg, src, dst, xs, xd) && layer.aggr == Mean && e < |src|
    requires deg[src[e]] == 2 && deg[dst[e]] == 2
    ensures EdgeRow(layer, ns, deg, src, dst, xs, xd, e) == EdgeRow(layer.(aggr := Sum), ns, deg, src, dst, xs, xd, e)
  {
    var sumLayer := layer.(aggr := Sum);
    assert Gathered(sumLayer, ns, deg, src, dst, xs, xd);
    assert EndpointNeighbour(Mean, ns, deg, src, xs, e) == EndpointNeighbour(Sum, ns, deg, src, xs, e);
    assert EndpointNeighbour(Mean, ns, deg, dst, xd, e) == EndpointNeighbour(Sum, ns, deg, dst, xd, e);
  }

  /**
   * With the shared side matrix, handing an edge's endpoints to the
   * layer the other way round exchanges its left and right messages, so
   * only the self term of its new feature can change.
   */
  lemma SharedSwapChangesOnlySelfTerm(layer: EOGConv, ns: Mat, deg: seq<nat>, src: seq<int>, dst: seq<int>, xs: Mat, xd: Mat, e: nat)
    requires Gathered(layer, ns, deg, src, dst, xs, xd) && layer.sides.Shared? && e < |src|
    ensures Gathered(layer, ns, deg, dst, src, xd, xs)
    ensures Sub(EdgeRow(layer, ns, deg, src, dst, xs, xd, e), Apply(layer.wSelf, xs[e] + xd[e]))
         == Sub(EdgeRow(layer, ns, deg, dst, src, xd, xs, e), Apply(layer.wSelf, xd[e] + xs[e]))
  {
    var w := SelectWeights(layer);
    var l := Apply(w.0, EndpointNeighbour(layer.aggr, ns, deg, src, xs, e));
    var r := Apply(w.1, EndpointNeighbour(layer.aggr, ns, deg, dst, xd, e));
    assert Sub(EdgeRow(layer, ns, deg, src, dst, xs, xd, e), Apply(layer.wSelf, xs[e] + xd[e])) == Add(l, r);
    assert Sub(EdgeRow(layer, ns, deg, dst, src, xd, xs, e), Apply(layer.wSelf, xd[e] + xs[e])) == Add(l, r);
  }

  /** A scatter of two rows, spelled out. */
  lemma ScatteredTwo(a: int, b: int, u: Vec, v: Vec, n: int, k: nat)
    ensures Scattered([a, b], [u, v], n, k) == Landing(a, u, n, k) + Landing(b, v, n, k)
  {
    assert [a, b][..1] == [a] && [u, v][..1] == [u];
    assert [a][..0] == [] && [u][..0] == [];
    assert Scattered([a], [u], n, k) == Landing(a, u, n, k);
  }

  /** The node sums of the three-node, two-edge example: 1, 2 + 2 and 3. */
  lemma ExampleNodeSums(xs: Mat, xd: Mat)
    requires xs == [[1.0], [2.0]] && xd == [[2.0], [3.0]]
    ensures NodeSums(3, 1, [0, 1], [1, 2], xs, xd) == [[1.0], [4.0], [3.0]]
  {
    var ns := NodeSums(3, 1, [0, 1], [1, 2], xs, xd);
    forall n | 0 <= n < 3
      ensures ns[n] == [[1.0], [4.0], [3.0]][n]
    {
      ScatteredTwo(0, 1, [1.0], [2.0], n, 0);
      ScatteredTwo(1, 2, [2.0], [3.0], n, 0);
    }
  }

  /** The new features of the three-node, two-edge example, from its node sums. */
  lemma ExampleRows(layer: EOGConv, xs: Mat, xd: Mat)
    requires layer == EOGConv(1, 1, Sum, false, true, [[1.0, 1.0]], Shared([[1.0]]))
    requires xs == [[1.0], [2.0]] && xd == [[2.0], [3.0]]
    ensures Gathered(layer, [[1.0], [4.0], [3.0]], [], [0, 1], [1, 2], xs, xd)
    ensures Combine(layer, [[1.0], [4.0], [3.0]], [], [0, 1], [1, 2], xs, xd) == [[5.0], [7.0]]
  {
    var ns := [[1.0], [4.0], [3.0]];
    var src, dst := [0, 1], [1, 2];
    assert Gathered(layer, ns, [], src, dst, xs, xd);
    assert [1.0, 1.0][..1] == [1.0] && [1.0][..0] == [];
    assert [1.0, 2.0][..1] == [1.0] && [2.0, 3.0][..1] == [2.0] && [0.0][..0] == [] && [2.0][..0] == [];
    assert xs[0] + xd[0] == [1.0, 2.0] && xs[1] + xd[1] == [2.0, 3.0];
    assert Dot([1.0, 1.0], [1.0, 2.0]) == 3.0;
    assert Dot([1.0, 1.0], [2.0, 3.0]) == 5.0;
    assert Dot([1.0], [0.0]) == 0.0 && Dot([1.0], [2.0]) == 2.0;
    assert EndpointNeighbour(Sum, ns, [], src, xs, 0) == [0.0];
    assert EndpointNeighbour(Sum, ns, [], dst, xd, 0) == [2.0];
    assert EndpointNeighbour(Sum, ns, [], src, xs, 1) == [2.0];
    assert EndpointNeighbour(Sum, ns, [], dst, xd, 1) == [0.0];
    assert EdgeRow(layer, ns, [], src, dst, xs, xd, 0) == [5.0];
    assert EdgeRow(layer, ns, [], src, dst, xs, xd, 1) == [7.0];
  }

  /** The endpoint features of the three-node, two-edge example, read out of `edge_x`. */
  lemma ExampleFeatures(data: seq<real>)
    requires data == [1.0, 2.0, 2.0, 3.0]
    ensures EndpointFeatures(data, 2, 1, 0) == [[1.0], [2.0]]
    ensures EndpointFeatures(data, 2, 1, 1) == [[2.0], [3.0]]
  {
    var rest := [2.0, 3.0];
    assert data[2..] == rest && rest[2..] == [];
    assert EndpointFeatures(rest[2..], 0, 1, 0) == [] && EndpointFeatures(rest[2..], 0, 1, 1) == [];
    assert Offset(0, 0, 1) == 0 && Offset(0, 1, 1) == 1;
    assert rest[0..1] == [2.0] && rest[1..2] == [3.0] && data[0..1] == [1.0] && data[1..2] == [2.0];
    assert EndpointFeatures(rest, 1, 1, 0) == [[2.0]] + [];
    assert EndpointFeatures(rest, 1, 1, 1) == [[3.0]] + [];
    assert EndpointFeatures(data, 2, 1, 0) == [[1.0]] + [[2.0]];
    assert EndpointFeatures(data, 2, 1, 1) == [[2.0]] + [[3.0]];
  }

  /** The three-node, two-edge example: new features 5 and 7. */
  lemma ForwardExample()
    ensures ForwardSpec(
              EOGConv(1, 1, Sum, false, true, [[1.0, 1.0]], Shared([[1.0]])),
              Tensor([2, 2, 1], [1.0, 2.0, 2.0, 3.0]),
              [0, 1], [1, 2], None)
         == Ok([[5.0], [7.0]])
  {
    var layer := EOGConv(1, 1, Sum, false, true, [[1.0, 1.0]], Shared([[1.0]]));
    var edgeX := Tensor([2, 2, 1], [1.0, 2.0, 2.0, 3.0]);
    var src, dst := [0, 1], [1, 2];
    ProductOfThree(edgeX.shape);
    var size := ResolveNumNodes(src, dst, None);
    assert size.Ok? && size.value > 2 && (size.value - 1 in src || size.value - 1 in dst);
    assert size == Ok(3);
    var xs := EndpointFeatures(edgeX.data, 2, 1, 0);
    var xd := EndpointFeatures(edgeX.data, 2, 1, 1);
    ExampleFeatures(edgeX.data);
    ExampleNodeSums(xs, xd);
    ExampleRows(layer, xs, xd);
    assert InRange(src, 3) && InRange(dst, 3);
    assert ForwardSpec(layer, edgeX, src, dst, None)
        == Ok(Combine(layer, NodeSums(3, 1, src, dst, xs, xd), [], src, dst, xs, xd));
  }
}
