/**
 * Construction of the edge-only graph convolution layer: the aggregation
 * mode and the weight layout, both fixed for the lifetime of the layer.
 */
module EOGConvLayer {
  import opened Wrappers
  import opened Linear

  /** How the neighbouring endpoint features at a node are reduced. */
  datatype Aggr = Sum | Mean

  /**
   * The side weights: one matrix shared by the left and the right
   * messages, or a separate matrix for each side.
   */
  datatype SideWeights = Shared(side: Mat) | Split(left: Mat, right: Mat)

  /** Everything the layer can raise, at construction or in a forward call. */
  datatype Error =
    | InvalidAggr                 // aggr is neither "sum" nor "mean"
    | BadRank(shape: seq<nat>)    // edge_x is not three-dimensional
    | MiddleDimNot2               // edge_x is not [E, 2, C]
    | ChannelMismatch             // the last dimension of edge_x is not in_channels_per_end
    | EmptyEdgeIndex              // num_nodes omitted and edge_index empty, so it has no maximum
    | NegativeNumNodes            // the node buffers would have a negative length
    | EdgeCountMismatch           // edge_index and edge_x disagree on the number of edges
    | NodeIndexOutOfRange         // a node id is negative or not below num_nodes

  /** The layer's configuration and its learned weights. */
  datatype EOGConv = EOGConv(
    inChannels: nat,
    outChannels: nat,
    aggr: Aggr,
    directed: bool,
    symmetric: bool,
    wSelf: Mat,
    sides: SideWeights)
  {
    /**
     * The self weight maps the concatenated endpoint pair, each side
     * weight maps one endpoint, and the layout is the one the flags select.
     */
    predicate Valid()
    {
      && IsMatrix(wSelf, outChannels, 2 * inChannels)
      && (sides.Shared? <==> SharesSide(directed, symmetric))
      && match sides
         case Shared(side) => IsMatrix(side, outChannels, inChannels)
         case Split(left, right) => IsMatrix(left, outChannels, inChannels) && IsMatrix(right, outChannels, inChannels)
    }
  }

  /** The flags that select one shared side matrix: undirected and symmetric. */
  predicate SharesSide(directed: bool, symmetric: bool)
  {
    !directed && symmetric
  }

  /** The aggregation mode named by `s`; any name other than "sum" and "mean" is refused. */
  function ParseAggr(s: string): (r: Result<Aggr, Error>)
    ensures r.Ok? <==> s == "sum" || s == "mean"
    ensures r == Ok(Sum) <==> s == "sum"
    ensures r == Ok(Mean) <==> s == "mean"
    ensures r.Err? ==> r.error == InvalidAggr
  {
    if s == "sum" then Ok(Sum)
    else if s == "mean" then Ok(Mean)
    else Err(InvalidAggr)
  }

  /**
   * A new layer. The weights are supplied by the caller in the shapes the
   * layer allocates; only the ones its layout keeps are stored.
   */
  function New(inChannels: nat, outChannels: nat, aggr: string, directed: bool, symmetric: bool,
               wSelf: Mat, wSide: Mat, wLeft: Mat, wRight: Mat): (r: Result<EOGConv, Error>)
    requires IsMatrix(wSelf, outChannels, 2 * inChannels)
    requires SharesSide(directed, symmetric) ==> IsMatrix(wSide, outChannels, inChannels)
    requires !SharesSide(directed, symmetric) ==> IsMatrix(wLeft, outChannels, inChannels) && IsMatrix(wRight, outChannels, inChannels)
    ensures r.Ok? <==> aggr == "sum" || aggr == "mean"
    ensures r.Err? ==> r.error == InvalidAggr
    ensures r.Ok? ==> r.value.Valid()
    ensures r.Ok? ==> r.value.inChannels == inChannels && r.value.outChannels == outChannels
                      && r.value.directed == directed && r.value.symmetric == symmetric
                      && r.value.wSelf == wSelf
                      && (r.value.aggr == Sum <==> aggr == "sum")
    ensures r.Ok? ==> (r.value.sides.Shared? <==> SharesSide(directed, symmetric))
    ensures r.Ok? && SharesSide(directed, symmetric) ==> r.value.sides == Shared(wSide)
    ensures r.Ok? && !SharesSide(directed, symmetric) ==> r.value.sides == Split(wLeft, wRight)
  {
    match ParseAggr(aggr)
    case Err(e) => Err(e)
    case Ok(mode) =>
      var sides := if SharesSide(directed, symmetric) then Shared(wSide) else Split(wLeft, wRight);
      Ok(EOGConv(inChannels, outChannels, mode, directed, symmetric, wSelf, sides))
  }

  /**
   * The matrices a forward call applies to the left and to the right
   * neighbour sums, chosen from the flags: the shared matrix for both
   * sides, or else the left and the right matrix.
   */
  function SelectWeights(layer: EOGConv): (w: (Mat, Mat))
    requires layer.Valid()
    ensures layer.sides.Shared? ==> w.0 == layer.sides.side && w.1 == layer.sides.side
    ensures layer.sides.Split? ==> w.0 == layer.sides.left && w.1 == layer.sides.right
    ensures IsMatrix(w.0, layer.outChannels, layer.inChannels) && IsMatrix(w.1, layer.outChannels, layer.inChannels)
  {
    if SharesSide(layer.directed, layer.symmetric) then (layer.sides.side, layer.sides.side)
    else (layer.sides.left, layer.sides.right)
  }

  /**
   * A layer built by `New` applies, in every forward call, the shared
   * matrix to both sides exactly when it was built undirected and
   * symmetric, and otherwise the left and the right matrix it was given.
   */
  lemma NewThenSelect(inChannels: nat, outChannels: nat, aggr: string, directed: bool, symmetric: bool,
                      wSelf: Mat, wSide: Mat, wLeft: Mat, wRight: Mat)
    requires IsMatrix(wSelf, outChannels, 2 * inChannels)
    requires SharesSide(directed, symmetric) ==> IsMatrix(wSide, outChannels, inChannels)
    requires !SharesSide(directed, symmetric) ==> IsMatrix(wLeft, outChannels, inChannels) && IsMatrix(wRight, outChannels, inChannels)
    requires New(inChannels, outChannels, aggr, directed, symmetric, wSelf, wSide, wLeft, wRight).Ok?
    ensures var layer := New(inChannels, outChannels, aggr, directed, symmetric, wSelf, wSide, wLeft, wRight).value;
            SelectWeights(layer) == if SharesSide(directed, symmetric) then (wSide, wSide) else (wLeft, wRight)
  {
  }
}
