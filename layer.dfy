/** `Layer`: one sigmoid layer of the net.

    The layer owns a weight matrix of shape `outputLength × (inputLength + 1)`
    (the last column holds the bias, fed by a constant 1 appended to every
    input), the last input and output, the delta vector of the last
    `calcDelta`, the matrix of RPROP step sizes (`weightsDiff`) and the
    three-slot gradient history (newest first).  Matrices and vectors are
    held as values here; the `Math` classes are proved to compute the same
    values as the functions of `LinAlg` used below.  The activation function
    is a parameter. */
module Layers {
  import opened Wrappers
  import opened LinAlg
  import opened BoundedQueues
  import MathHelper

  /** The derivative of the sigmoid at each output, written through the output
      itself: `out ⊙ (1 - out)`, as `getLambda` builds it. */
  function LambdaOf(out: Vec): (l: Vec)
    ensures |l| == |out|
    ensures forall u :: 0 <= u < |out| ==> l[u] == out[u] * (1.0 - out[u])
  {
    Hadamard(out, Sub(Fill(|out|, 1.0), out))
  }

  /** A gradient history after `g` has been added into slot 0. */
  function AddedToSlot0(gs: seq<Option<Mat>>, g: Mat): (r: seq<Option<Mat>>)
    requires |gs| > 0 && gs[0].Some? && SameShape(gs[0].value, g)
    ensures |r| == |gs| && r[0].Some? && SameShape(r[0].value, g)
    ensures forall i :: 0 < i < |gs| ==> r[i] == gs[i]
  {
    gs[0 := Some(MatAdd(gs[0].value, g))]
  }

  /** The part of a layer that feeding leaves alone and training changes once
      per epoch: the weights, the step sizes (`weightsDiff`), the two older
      gradient slots and the delta.  Slot 0, the gradient accumulator, is not
      part of it. */
  datatype LayerState = LayerState(weights: Mat, steps: Mat, previous: Option<Mat>, older: Option<Mat>, delta: Option<Vec>)

  /** What `backpropagation` leaves alone in a layer: everything but the gradients. */
  datatype Kept = Kept(output: Vec, input: Vec, weights: Mat, steps: Mat, delta: Option<Vec>)

  /** A gradient history of a layer whose weights are `rows × cols`: three slots,
      slot 0 always present, every present slot of the weight shape. */
  predicate GradientsShaped(g: seq<Option<Mat>>, rows: nat, cols: nat) {
    |g| == 3 && g[0].Some? && (g[2].Some? ==> g[1].Some?) &&
    forall k :: 0 <= k < 3 && g[k].Some? ==> Shape(g[k].value, rows, cols)
  }

  class Layer {
    /** The number of neurons (`outputLength`) and the weight columns (`inputLength + 1`). */
    const rows: nat
    const cols: nat

    var output: Vec
    var input: Vec
    var weights: Mat
    var weightsDiff: Mat
    var gradients: seq<Option<Mat>>
    /** `null` until the first `calcDelta`. */
    var delta: Option<Vec>

    /** The shapes every operation keeps. */
    ghost predicate Valid()
      reads this
    {
      cols > 0 &&
      |output| == rows &&
      Shape(weights, rows, cols) &&
      Shape(weightsDiff, rows, cols) &&
      GradientsShaped(gradients, rows, cols)
    }

    /** The state the constructor leaves behind for the drawn matrix `random`:
        orthogonalised weights, zero step sizes, one zero gradient and no delta. */
    ghost predicate Initial(random: Mat)
      reads this
    {
      Shape(random, rows, cols) &&
      weights == MathHelper.Orthogonalized(random, cols) &&
      weightsDiff == Zero(rows, cols) &&
      gradients == [Some(Zero(rows, cols)), None, None] &&
      delta == None
    }

    /** `Layer(outputLength, inputLength)`: `random` stands for the matrix drawn by
        `MathHelper.random`, which is then orthogonalised; the step sizes start at
        zero and the history holds one zero gradient. */
    constructor (outputLength: nat, inputLength: nat, random: Mat)
      requires Shape(random, outputLength, inputLength + 1)
      requires MathHelper.NonDegenerate(random, inputLength + 1)
      ensures Valid()
      ensures rows == outputLength && cols == inputLength + 1
      ensures output == Fill(outputLength, 0.0) && input == Fill(inputLength + 1, 0.0)
      ensures Initial(random)
    {
      rows, cols := outputLength, inputLength + 1;
      output := Fill(outputLength, 0.0);
      input := Fill(inputLength + 1, 0.0);
      weights := MathHelper.Orthogonalized(random, inputLength + 1);
      weightsDiff := FillMat(outputLength, inputLength + 1, 0.0);
      gradients := Pushed([None, None, None], Some(Zero(outputLength, inputLength + 1)));
      delta := None;
    }

    /** `extendInput(in)`: the stored input becomes `in` followed by the bias input 1. */
    method ExtendInput(v: Vec)
      modifies this
      ensures input == v + [1.0]
      ensures output == old(output) && weights == old(weights) && weightsDiff == old(weightsDiff)
      ensures gradients == old(gradients) && delta == old(delta)
    {
      var x := Fill(|v| + 1, 0.0);
      var i := 0;
      while i < |v|
        invariant 0 <= i <= |v| && |x| == |v| + 1
        invariant forall k :: 0 <= k < i ==> x[k] == v[k]
      {
        x := x[i := v[i]];
        i := i + 1;
      }
      x := x[|v| := 1.0];
      input := x;
    }

    /** `feed(in)`: extends the input, then sets the output to the activation of
        `weights · input`.  The weight product reads the column count from row 0,
        so it fails on a layer without neurons, and otherwise unless
        `|in| + 1 == cols`; the extended input is stored even then, and the
        output is left alone. */
    method Feed(v: Vec, sigmoid: real -> real) returns (o: Outcome)
      requires Valid()
      modifies this
      ensures Valid()
      ensures input == v + [1.0]
      ensures o.Fail? <==> rows == 0 || |v| + 1 != cols
      ensures o.Fail? ==> o.error == (if rows == 0 then IndexOutOfBounds else DimensionError)
      ensures o.Fail? ==> output == old(output)
      ensures o.Pass? ==> output == MapVec(sigmoid, MatVec(weights, input))
      ensures weights == old(weights) && weightsDiff == old(weightsDiff)
      ensures gradients == old(gradients) && delta == old(delta)
    {
      ExtendInput(v);
      if rows == 0 {
        return Fail(IndexOutOfBounds);
      } else if |input| != cols {
        return Fail(DimensionError);
      }
      output := MapVec(sigmoid, MatVec(weights, input));
      return Pass;
    }

    /** `getSize()`: the number of neurons, i.e. the output length. */
    function Size(): nat
      reads this
    {
      |output|
    }

    /** `getLambda()`: `output ⊙ (1 - output)`. */
    function Lambda(): (l: Vec)
      reads this
      ensures |l| == Size()
    {
      LambdaOf(output)
    }

    ghost function State(): LayerState
      requires Valid()
      reads this
    {
      LayerState(weights, weightsDiff, gradients[1], gradients[2], delta)
    }

    /** The fields that feeding does not touch still hold the given values. */
    ghost predicate Unchanged(w: Mat, wd: Mat, g: seq<Option<Mat>>, d: Option<Vec>)
      reads this
    {
      weights == w && weightsDiff == wd && gradients == g && delta == d
    }

    /** The fields that adding a gradient does not touch. */
    ghost function KeptPart(): Kept
      reads this
    {
      Kept(output, input, weights, weightsDiff, delta)
    }

    /** The last input and output still hold the given values. */
    ghost predicate Signals(out: Vec, inp: Vec)
      reads this
    {
      output == out && input == inp
    }

    /** Slot 0 holds slot 0 of `gs` plus the outer product of `d` with the last
        input; the other slots are those of `gs`. */
    ghost predicate Received(gs: seq<Option<Mat>>, d: Vec)
      reads this
    {
      GradientsShaped(gs, rows, cols) && |d| == rows && |input| == cols &&
      gradients == AddedToSlot0(gs, Dyadic(d, input))
    }

    /** `getGradient(i)`: slot `i` of the history, newest first (`None` is `null`). */
    function Gradient(i: nat): Option<Mat>
      requires i < |gradients|
      reads this
    {
      gradients[i]
    }

    /** `calcDelta(next)`: the delta of a hidden layer, from the weights and delta of
        the following layer: `delta[u] = (Σ_succ next.weights[succ][u] · next.delta[succ])
        · out[u] · (1 - out[u])`, summed in ascending `succ`. */
    method CalcDeltaFromNext(next: Layer) returns (d: Vec)
      requires Valid() && next.Valid() && next != this
      requires rows < next.cols
      requires next.delta.Some? && |next.delta.value| == next.rows
      modifies this
      ensures Valid() && delta == Some(d) && |d| == rows
      ensures forall u :: 0 <= u < rows ==>
        d[u] == ColumnDotN(next.weights, u, next.delta.value, next.rows) * output[u] * (1.0 - output[u])
      ensures output == old(output) && input == old(input) && weights == old(weights)
      ensures weightsDiff == old(weightsDiff) && gradients == old(gradients)
    {
      var nd := next.delta.value;
      d := Fill(rows, 0.0);
      var u := 0;
      while u < rows
        invariant 0 <= u <= rows && |d| == rows
        invariant forall k :: 0 <= k < u ==>
          d[k] == ColumnDotN(next.weights, k, nd, next.rows) * output[k] * (1.0 - output[k])
      {
        var sum := 0.0;
        var succ := 0;
        while succ < next.rows
          invariant 0 <= succ <= next.rows
          invariant sum == ColumnDotN(next.weights, u, nd, succ)
        {
          sum := sum + next.weights[succ][u] * nd[succ];
          succ := succ + 1;
        }
        d := d[u := sum * output[u] * (1.0 - output[u])];
        u := u + 1;
      }
      delta := Some(d);
    }

    /** `calcDelta(target)`: the delta of the output layer,
        `delta[u] = (target[u] - out[u]) · out[u] · (1 - out[u])`. */
    method CalcDeltaFromTarget(target: Vec) returns (d: Vec)
      requires Valid() && rows <= |target|
      modifies this
      ensures Valid() && delta == Some(d) && |d| == rows
      ensures forall u :: 0 <= u < rows ==> d[u] == (target[u] - output[u]) * output[u] * (1.0 - output[u])
      ensures output == old(output) && input == old(input) && weights == old(weights)
      ensures weightsDiff == old(weightsDiff) && gradients == old(gradients)
    {
      d := Fill(rows, 0.0);
      var u := 0;
      while u < rows
        invariant 0 <= u <= rows && |d| == rows
        invariant forall k :: 0 <= k < u ==> d[k] == (target[k] - output[k]) * output[k] * (1.0 - output[k])
      {
        d := d[u := (target[u] - output[u]) * output[u] * (1.0 - output[u])];
        u := u + 1;
      }
      delta := Some(d);
    }

    /** `addGradient(g)`: adds `g` into gradient slot 0 (a shape-checked `Matrix.add`,
        which fails on two matrices without rows); the other slots, the weights
        and the step sizes are untouched. */
    method AddGradient(g: Mat) returns (o: Outcome)
      requires Valid()
      modifies this
      ensures Valid()
      ensures o.Fail? <==> rows == 0 || !Shape(g, rows, cols)
      ensures o.Fail? ==> o.error == (if rows == |g| == 0 then IndexOutOfBounds else DimensionError)
      ensures o.Fail? ==> gradients == old(gradients)
      ensures o.Pass? ==> gradients == AddedToSlot0(old(gradients), g)
      ensures output == old(output) && input == old(input) && weights == old(weights)
      ensures weightsDiff == old(weightsDiff) && delta == old(delta)
    {
      var g0 := gradients[0].value;
      if rows != |g| {
        return Fail(DimensionError);
      } else if rows == 0 {
        return Fail(IndexOutOfBounds);
      } else if !Shape(g, rows, cols) {
        return Fail(DimensionError);
      }
      gradients := gradients[0 := Some(MatAdd(g0, g))];
      return Pass;
    }

    /** `applyWeightChanges()`: `weights += weightsDiff ⊙ sgn(g0)` entry by entry, then a
        zero matrix is pushed into the history, so old slot 0 moves to slot 1 and
        old slot 1 to slot 2.  `apply(sgn)` copies slot 0 through the copy
        constructor, so a layer without neurons fails before anything changes. */
    method ApplyWeightChanges() returns (o: Outcome)
      requires Valid()
      modifies this
      ensures Valid()
      ensures o.Fail? <==> rows == 0
      ensures o.Fail? ==> o.error == IndexOutOfBounds && weights == old(weights) && gradients == old(gradients)
      ensures o.Pass? ==> weights == MatAdd(old(weights), MatHadamard(old(weightsDiff), MatMap(MathHelper.Sgn, old(gradients)[0].value)))
      ensures o.Pass? ==> gradients == [Some(Zero(rows, cols)), old(gradients)[0], old(gradients)[1]]
      ensures output == old(output) && input == old(input)
      ensures weightsDiff == old(weightsDiff) && delta == old(delta)
    {
      if rows == 0 {
        return Fail(IndexOutOfBounds);
      }
      var signs := MatMap(MathHelper.Sgn, gradients[0].value);
      weights := MatAdd(weights, MatHadamard(weightsDiff, signs));
      gradients := Pushed(gradients, Some(Zero(rows, cols)));
      return Pass;
    }
  }

  // ------------------------------------------------------------------ lemmas

  /** Each weight moves by exactly its step size in the direction of the sign of
      its accumulated gradient, and stays put where that gradient is 0. */
  lemma WeightUpdateEntry(w: Mat, s: Mat, g: Mat, rows: nat, cols: nat, i: nat, j: nat)
    requires Shape(w, rows, cols) && Shape(s, rows, cols) && Shape(g, rows, cols)
    requires i < rows && j < cols
    ensures var n := MatAdd(w, MatHadamard(s, MatMap(MathHelper.Sgn, g)));
      (g[i][j] > 0.0 ==> n[i][j] == w[i][j] + s[i][j]) &&
      (g[i][j] < 0.0 ==> n[i][j] == w[i][j] - s[i][j]) &&
      (g[i][j] == 0.0 ==> n[i][j] == w[i][j])
  {
    var n := MatAdd(w, MatHadamard(s, MatMap(MathHelper.Sgn, g)));
    assert MatMap(MathHelper.Sgn, g)[i][j] == MathHelper.Sgn(g[i][j]);
    assert n[i][j] == w[i][j] + s[i][j] * MathHelper.Sgn(g[i][j]);
  }

  /** The delta `calcDelta(next)` computes is the one backpropagation computes:
      the row vector `next.delta · next.weights` without its bias entry, times
      the sigmoid derivative. */
  lemma CalcDeltaMatchesBackpropagation(nextWeights: Mat, nextDelta: Vec, out: Vec, d: Vec)
    requires Shape(nextWeights, |nextDelta|, |out| + 1)
    requires |d| == |out|
    requires forall u :: 0 <= u < |out| ==>
      d[u] == ColumnDotN(nextWeights, u, nextDelta, |nextDelta|) * out[u] * (1.0 - out[u])
    ensures d == Hadamard(DropLast(VecMat(nextDelta, nextWeights, |out| + 1)), LambdaOf(out))
  {
    var back := VecMat(nextDelta, nextWeights, |out| + 1);
    var e := Hadamard(DropLast(back), LambdaOf(out));
    forall u | 0 <= u < |out|
      ensures d[u] == e[u]
    {
      var c := ColumnDotN(nextWeights, u, nextDelta, |nextDelta|);
      assert DropLast(back)[u] == c;
      assert e[u] == c * (out[u] * (1.0 - out[u]));
    }
  }
}
