/** `Net`: the chain of layers of the network.

    The structure lists the layer sizes: the input size
    `estimateLength · numberChartValues`, the hidden layer sizes, and a single
    output neuron.  Layer `k` maps the output of layer `k - 1` (or the net
    input, for `k = 0`) extended by the bias input 1 to its own output. */
module Nets {
  import opened Wrappers
  import opened LinAlg
  import opened Layers
  import MathHelper

  /** The layer sizes built by the constructor. */
  function Structure(estimateLength: nat, hidden: seq<nat>, numberChartValues: nat): (st: seq<nat>)
    ensures |st| == |hidden| + 2
    ensures st[0] == estimateLength * numberChartValues && st[|st| - 1] == 1
    ensures forall i :: 0 <= i < |hidden| ==> st[i + 1] == hidden[i]
  {
    [estimateLength * numberChartValues] + hidden + [1]
  }

  /** Every layer has at least one neuron.  A layer without neurons has a weight
      matrix without rows, whose column count `getCols()` cannot read, so feeding
      or updating such a layer fails. */
  predicate NoEmptyLayer(st: seq<nat>) {
    forall k {:trigger st[k]} :: 0 < k < |st| ==> st[k] > 0
  }

  /** The index of the first layer without neurons (layer `k` has `st[k + 1]`
      neurons), or the number of layers if there is none. */
  function FirstEmptyLayer(st: seq<nat>): (f: nat)
    requires |st| > 0
    ensures f < |st|
    ensures forall k :: 0 < k <= f ==> st[k] > 0
    ensures f < |st| - 1 ==> st[f + 1] == 0
    ensures f == |st| - 1 <==> NoEmptyLayer(st)
  {
    if |st| == 1 || st[1] == 0 then 0
    else
      var f := FirstEmptyLayer(st[1..]);
      assert forall k :: 1 < k < |st| ==> st[k] == st[1..][k - 1];
      1 + f
  }

  /** `ws` are weight matrices that fit the structure `st`: matrix `k` maps
      `st[k]` inputs plus the bias to `st[k + 1]` outputs. */
  predicate Shaped(ws: seq<Mat>, st: seq<nat>) {
    |ws| + 1 == |st| && |ws| > 0 &&
    forall k {:trigger ws[k]} :: 0 <= k < |ws| ==> Shape(ws[k], st[k + 1], st[k] + 1)
  }

  /** The output of layer `k` when the net is fed `x`. */
  function Forward(ws: seq<Mat>, st: seq<nat>, x: Vec, sigmoid: real -> real, k: nat): (out: Vec)
    requires Shaped(ws, st) && |x| == st[0] && k < |ws|
    ensures |out| == st[k + 1]
    decreases k, 1
  {
    assert Shape(ws[k], st[k + 1], st[k] + 1);
    MapVec(sigmoid, MatVec(ws[k], LayerInput(ws, st, x, sigmoid, k)))
  }

  /** The (bias-extended) input of layer `k` when the net is fed `x`. */
  function LayerInput(ws: seq<Mat>, st: seq<nat>, x: Vec, sigmoid: real -> real, k: nat): (input: Vec)
    requires Shaped(ws, st) && |x| == st[0] && k < |ws|
    ensures |input| == st[k] + 1
    decreases k, 0
  {
    if k == 0 then x + [1.0] else Forward(ws, st, x, sigmoid, k - 1) + [1.0]
  }

  /** Random matrices from which the constructor can build layers for `st`: one
      per layer, of that layer's shape, and orthogonalisable. */
  predicate Drawable(randoms: seq<Mat>, st: seq<nat>) {
    Shaped(randoms, st) &&
    forall k {:trigger randoms[k]} :: 0 <= k < |randoms| ==>
      Shape(randoms[k], |randoms[k]|, st[k] + 1) && MathHelper.NonDegenerate(randoms[k], st[k] + 1)
  }

  /** The loop of the constructor: layer `k` gets `st[k + 1]` neurons fed by
      `st[k]` inputs, for `k` in ascending order. */
  method BuildLayers(st: seq<nat>, randoms: seq<Mat>) returns (ls: seq<Layer>)
    requires Drawable(randoms, st)
    ensures |ls| == |randoms|
    ensures forall k :: 0 <= k < |ls| ==> fresh(ls[k])
    ensures forall p, q :: 0 <= p < q < |ls| ==> ls[p] != ls[q]
    ensures forall k {:trigger ls[k]} :: 0 <= k < |ls| ==>
      ls[k].Valid() && ls[k].rows == st[k + 1] && ls[k].cols == st[k] + 1
    ensures forall k :: 0 <= k < |ls| ==> ls[k].Initial(randoms[k])
  {
    ls := [];
    var i := 1;
    while i < |st|
      invariant 1 <= i <= |st| && |ls| == i - 1
      invariant forall p, q :: 0 <= p < q < |ls| ==> ls[p] != ls[q]
      invariant forall k {:trigger ls[k]} :: 0 <= k < |ls| ==>
        fresh(ls[k]) && ls[k].Valid() && ls[k].rows == st[k + 1] && ls[k].cols == st[k] + 1 && ls[k].Initial(randoms[k])
    {
      var layer := new Layer(st[i], st[i - 1], randoms[i - 1]);
      ls := ls + [layer];
      i := i + 1;
    }
  }

  class Net {
    const structure: seq<nat>
    const estimateLength: nat
    const layers: seq<Layer>
    /** The position of every layer in `layers`, which makes the layers distinct. */
    ghost const index: map<Layer, nat>

    /** Distinct layers whose shapes follow the structure. */
    ghost predicate Valid()
      reads this, layers
    {
      |layers| + 1 == |structure| && |layers| > 0 && structure[|layers|] == 1 &&
      forall k {:trigger layers[k]} :: 0 <= k < |layers| ==>
        layers[k] in index && index[layers[k]] == k &&
        layers[k].Valid() && layers[k].rows == structure[k + 1] && layers[k].cols == structure[k] + 1
    }

    /** The current weight matrices, layer by layer. */
    function Weights(): (ws: seq<Mat>)
      requires Valid()
      reads this, layers
      ensures Shaped(ws, structure)
    {
      seq(|layers|, k requires 0 <= k < |layers| reads layers => layers[k].weights)
    }

    /** `Net(estimateLength, hiddenLayers, numberChartValues)`: `randoms[k]` stands for
        the random matrix drawn for layer `k`, which the layer orthogonalises. */
    constructor (estimateLength: nat, hidden: seq<nat>, numberChartValues: nat, randoms: seq<Mat>)
      requires Drawable(randoms, Structure(estimateLength, hidden, numberChartValues))
      ensures Valid()
      ensures structure == Structure(estimateLength, hidden, numberChartValues)
      ensures this.estimateLength == estimateLength
      ensures |layers| == |hidden| + 1
      ensures forall k :: 0 <= k < |layers| ==> fresh(layers[k])
      ensures forall k :: 0 <= k < |layers| ==> layers[k].Initial(randoms[k])
    {
      var st := Structure(estimateLength, hidden, numberChartValues);
      var ls := BuildLayers(st, randoms);
      structure := st;
      this.estimateLength := estimateLength;
      layers := ls;
      index := map k | 0 <= k < |ls| :: ls[k] := k;
    }

    /** Layers `0 .. n-1` hold the inputs and outputs of feeding the net `x`
        under the weights `ws`. */
    ghost predicate FedUpTo(n: nat, ws: seq<Mat>, x: Vec, sigmoid: real -> real)
      reads this, layers
    {
      Shaped(ws, structure) && |x| == structure[0] && n <= |layers| <= |ws| &&
      forall k {:trigger layers[k]} :: 0 <= k < n ==>
        layers[k].output == Forward(ws, structure, x, sigmoid, k) &&
        layers[k].input == LayerInput(ws, structure, x, sigmoid, k)
    }

    /** Every layer holds the input and output of feeding the net `x`. */
    ghost predicate Fed(x: Vec, sigmoid: real -> real)
      requires Valid()
      reads this, layers
    {
      FedUpTo(|layers|, Weights(), x, sigmoid)
    }

    /** `feed(input)`: feeds layer 0 with `input` and every later layer with the
        output of the one before, in ascending order, and returns the output of
        the last layer.  The first layer without neurons fails, and so does a
        first layer whose input does not fit; the later layers always fit the
        output of the layer before. */
    method Feed(input: Vec, sigmoid: real -> real) returns (r: Result<Vec>)
      requires Valid()
      modifies layers
      ensures Valid() && Weights() == old(Weights())
      ensures forall k :: 0 <= k < |layers| ==> layers[k].Unchanged(old(layers[k].weights),
        old(layers[k].weightsDiff), old(layers[k].gradients), old(layers[k].delta))
      ensures r.Failure? <==> |input| != structure[0] || !NoEmptyLayer(structure)
      ensures r.Failure? ==> r.error == (if structure[1] != 0 && |input| != structure[0] then DimensionError else IndexOutOfBounds)
      ensures r.Success? ==> Fed(input, sigmoid)
      ensures r.Success? ==> |r.value| == 1 && r.value == layers[|layers| - 1].output
    {
      ghost var ws := Weights();
      var o := layers[0].Feed(input, sigmoid);
      if o.Fail? {
        return Failure(o.error);
      }
      o := FeedHidden(ws, input, sigmoid);
      if o.Fail? {
        return Failure(o.error);
      }
      assert Weights() == ws;
      return Success(layers[|layers| - 1].output);
    }

    /** The loop of `feed`: layers `1, 2, ...` are fed in ascending order, up to
        the first one without neurons. */
    method FeedHidden(ghost ws: seq<Mat>, input: Vec, sigmoid: real -> real) returns (o: Outcome)
      requires Valid() && FedUpTo(1, ws, input, sigmoid)
      requires forall k :: 0 <= k < |layers| ==> layers[k].weights == ws[k]
      modifies layers
      ensures Valid()
      ensures o.Pass? <==> forall k :: 1 < k < |structure| ==> structure[k] > 0
      ensures o.Fail? ==> o.error == IndexOutOfBounds
      ensures o.Pass? ==> FedUpTo(|layers|, ws, input, sigmoid)
      ensures forall k :: 0 <= k < |layers| ==> layers[k].Unchanged(old(layers[k].weights),
        old(layers[k].weightsDiff), old(layers[k].gradients), old(layers[k].delta))
    {
      var i := 1;
      while i < |layers|
        invariant 1 <= i <= |layers| && Valid()
        invariant forall k :: 0 <= k < |layers| ==> layers[k].Unchanged(old(layers[k].weights),
          old(layers[k].weightsDiff), old(layers[k].gradients), old(layers[k].delta))
        invariant FedUpTo(i, ws, input, sigmoid)
        invariant forall k :: 1 < k <= i ==> structure[k] > 0
      {
        o := FeedLayer(i, ws, input, sigmoid);
        if o.Fail? {
          return;
        }
        i := i + 1;
      }
      return Pass;
    }

    /** One step of `feed`: layer `i` is fed the output of layer `i - 1`; only a
        layer without neurons fails. */
    method FeedLayer(i: nat, ghost ws: seq<Mat>, input: Vec, sigmoid: real -> real) returns (o: Outcome)
      requires Valid() && 1 <= i < |layers| && FedUpTo(i, ws, input, sigmoid)
      requires forall k :: 0 <= k < |layers| ==> layers[k].weights == ws[k]
      modifies layers[i]
      ensures Valid() && FedUpTo(i, ws, input, sigmoid)
      ensures o.Fail? <==> structure[i + 1] == 0
      ensures o.Fail? ==> o.error == IndexOutOfBounds
      ensures o.Pass? ==> FedUpTo(i + 1, ws, input, sigmoid)
      ensures forall k :: 0 <= k < |layers| ==> layers[k].Unchanged(old(layers[k].weights),
        old(layers[k].weightsDiff), old(layers[k].gradients), old(layers[k].delta))
    {
      o := layers[i].Feed(layers[i - 1].output, sigmoid);
      forall k | 0 <= k < |layers| && k != i
        ensures layers[k].Valid() && layers[k].output == old(layers[k].output) && layers[k].input == old(layers[k].input)
      {
        assert layers[k] != layers[i];
      }
    }

    /** `first()`: the layer fed with the net input, of `structure[0] + 1` weight columns. */
    function First(): (l: Layer)
      requires Valid()
      reads this, layers
      ensures l == layers[0] && l.cols == structure[0] + 1
    {
      layers[0]
    }

    /** `last()`: the single-neuron output layer. */
    function Last(): (l: Layer)
      requires Valid()
      reads this, layers
      ensures l == layers[|layers| - 1] && l.rows == 1
    {
      layers[|layers| - 1]
    }

    /** `get(i)`: layer `i`, of `structure[i + 1]` neurons. */
    function Get(i: nat): (l: Layer)
      requires Valid() && i < |layers|
      reads this, layers
      ensures l == layers[i] && l.rows == structure[i + 1] && l.cols == structure[i] + 1
    {
      layers[i]
    }
  }
}
