/** The gradients `Training.backpropagation` accumulates, as functions of the
    weights and the training pattern.

    The output layer's delta is `(target - out) ⊙ λ(out)`; every earlier delta
    is the row vector `delta · W_next` without its last (bias) entry, times
    `λ(out)`, where `λ(o) = o ⊙ (1 - o)` is the sigmoid derivative written
    through the output.  Each layer receives the outer product of its delta
    with its (bias-extended) input.  One epoch replays every pattern
    `priority` times, in order, and the weights do not change meanwhile. */
module Backprop {
  import opened Wrappers
  import opened LinAlg
  import opened Layers
  import opened Nets
  import opened DataPatterns

  /** A pattern the net can be fed and trained with: every layer has a neuron,
      the input fits the first layer and the target has one entry per output
      neuron. */
  predicate Trainable(p: DataPattern, st: seq<nat>) {
    |st| >= 2 && NoEmptyLayer(st) && |p.input| == st[0] && |p.output| == st[|st| - 1]
  }

  /** The error a replay of a pattern that cannot be trained with fails with:
      feeding a first layer without neurons fails on its row 0 before the input
      length is compared; otherwise a wrong input length or a wrong target
      length is a dimension error, and a later layer without neurons fails on
      its row 0. */
  function ReplayError(p: DataPattern, st: seq<nat>): Error
    requires |st| >= 2
  {
    if st[1] == 0 || (|p.input| == st[0] && !NoEmptyLayer(st)) then IndexOutOfBounds else DimensionError
  }

  /** The delta of the output layer. */
  function OutputDelta(target: Vec, out: Vec): (d: Vec)
    requires |target| == |out|
    ensures |d| == |out|
  {
    Hadamard(Sub(target, out), LambdaOf(out))
  }

  /** The delta of a hidden layer with output `out`, from the delta and the
      weights of the layer after it. */
  function HiddenDelta(next: Vec, w: Mat, out: Vec): (d: Vec)
    requires Shape(w, |next|, |out| + 1)
    ensures |d| == |out|
  {
    Hadamard(DropLast(VecMat(next, w, |out| + 1)), LambdaOf(out))
  }

  /** The delta of layer `k` for pattern `p` under the weights `ws`. */
  function Delta(ws: seq<Mat>, st: seq<nat>, p: DataPattern, sigmoid: real -> real, k: nat): (d: Vec)
    requires Shaped(ws, st) && Trainable(p, st) && k < |ws|
    ensures |d| == st[k + 1]
    decreases |ws| - k
  {
    var out := Forward(ws, st, p.input, sigmoid, k);
    if k == |ws| - 1 then OutputDelta(p.output, out)
    else
      assert Shape(ws[k + 1], st[k + 2], st[k + 1] + 1);
      HiddenDelta(Delta(ws, st, p, sigmoid, k + 1), ws[k + 1], out)
  }

  /** The gradient backpropagation adds to slot 0 of layer `k` for pattern `p`. */
  function Gradient(ws: seq<Mat>, st: seq<nat>, p: DataPattern, sigmoid: real -> real, k: nat): (g: Mat)
    requires Shaped(ws, st) && Trainable(p, st) && k < |ws|
    ensures Shape(g, st[k + 1], st[k] + 1)
  {
    Dyadic(Delta(ws, st, p, sigmoid, k), LayerInput(ws, st, p.input, sigmoid, k))
  }

  /** `acc` after `n` replays of a pattern whose gradient is `g`. */
  function Replayed(acc: Mat, g: Mat, n: nat): (r: Mat)
    requires SameShape(acc, g)
    ensures SameShape(r, acc)
  {
    if n == 0 then acc else MatAdd(Replayed(acc, g, n - 1), g)
  }

  /** Every pattern that is replayed at all can be trained with. */
  predicate AllTrainable(ps: seq<DataPattern>, st: seq<nat>) {
    forall i :: 0 <= i < |ps| && Replays(ps[i]) > 0 ==> Trainable(ps[i], st)
  }

  /** Slot 0 of layer `k`, starting from `acc`, after the patterns `ps` have been
      replayed in order. */
  function Accumulated(acc: Mat, ws: seq<Mat>, st: seq<nat>, ps: seq<DataPattern>, sigmoid: real -> real, k: nat): (r: Mat)
    requires Shaped(ws, st) && k < |ws| && Shape(acc, st[k + 1], st[k] + 1) && AllTrainable(ps, st)
    ensures Shape(r, st[k + 1], st[k] + 1)
  {
    if |ps| == 0 then acc
    else
      var before := Accumulated(acc, ws, st, ps[..|ps| - 1], sigmoid, k);
      var p := ps[|ps| - 1];
      if Replays(p) == 0 then before else Replayed(before, Gradient(ws, st, p, sigmoid, k), Replays(p))
  }

  /** The index of the first pattern that is replayed but cannot be trained with,
      or `|ps|` if there is none. */
  function FirstFailure(ps: seq<DataPattern>, st: seq<nat>): (f: nat)
    ensures f <= |ps|
    ensures AllTrainable(ps[..f], st)
    ensures f < |ps| ==> Replays(ps[f]) > 0 && !Trainable(ps[f], st)
  {
    if |ps| == 0 then 0
    else
      var f := FirstFailure(ps[..|ps| - 1], st);
      assert ps[..|ps| - 1][..f] == ps[..f];
      if f < |ps| - 1 then f
      else if Replays(ps[|ps| - 1]) > 0 && !Trainable(ps[|ps| - 1], st) then |ps| - 1
      else |ps|
  }

  /** The sum `Σ priority(p) · gradient(p)` over the replayed patterns, as a
      reference for what one epoch accumulates. */
  function WeightedSum(ws: seq<Mat>, st: seq<nat>, ps: seq<DataPattern>, sigmoid: real -> real, k: nat): (r: Mat)
    requires Shaped(ws, st) && k < |ws| && AllTrainable(ps, st)
    ensures Shape(r, st[k + 1], st[k] + 1)
  {
    if |ps| == 0 then Zero(st[k + 1], st[k] + 1)
    else
      var p := ps[|ps| - 1];
      var rest := WeightedSum(ws, st, ps[..|ps| - 1], sigmoid, k);
      if Replays(p) == 0 then rest
      else MatAdd(rest, MatScale(Gradient(ws, st, p, sigmoid, k), Replays(p) as real))
  }

  // ------------------------------------------------------------------ lemmas

  /** The first failure is where the training loop stops: every pattern before
      it can be trained with and the pattern there cannot. */
  lemma {:induction false} FirstFailureIs(ps: seq<DataPattern>, st: seq<nat>, f: nat)
    requires f <= |ps| && AllTrainable(ps[..f], st)
    requires f < |ps| ==> Replays(ps[f]) > 0 && !Trainable(ps[f], st)
    ensures FirstFailure(ps, st) == f
  {
    if |ps| > 0 {
      var init := ps[..|ps| - 1];
      if f < |ps| {
        assert init[..f] == ps[..f];
        if f < |ps| - 1 {
          FirstFailureIs(init, st, f);
        } else {
          assert AllTrainable(init, st);
          FirstFailureIs(init, st, |init|);
        }
      } else {
        assert ps[..f] == ps;
        assert init[..|init|] == init;
        assert AllTrainable(init, st);
        FirstFailureIs(init, st, |init|);
      }
    }
  }

  /** Deltas computed layer by layer, from the output delta backwards through
      the weights of each following layer, are the deltas of the recursive
      definition. */
  lemma {:induction false} ChainedDeltas(ws: seq<Mat>, st: seq<nat>, p: DataPattern, sigmoid: real -> real, D: seq<Vec>, j: nat)
    requires Shaped(ws, st) && Trainable(p, st) && |D| == |ws| && j < |ws|
    requires D[|ws| - 1] == OutputDelta(p.output, Forward(ws, st, p.input, sigmoid, |ws| - 1))
    requires forall i :: 0 < i < |ws| ==>
      |D[i]| == st[i + 1] && D[i - 1] == HiddenDelta(D[i], ws[i], Forward(ws, st, p.input, sigmoid, i - 1))
    ensures D[j] == Delta(ws, st, p, sigmoid, j)
    decreases |ws| - j
  {
    if j < |ws| - 1 {
      ChainedDeltas(ws, st, p, sigmoid, D, j + 1);
    }
  }

  /** The output delta is the one `Layer.calcDelta(target)` computes. */
  lemma OutputDeltaIsCalcDelta(target: Vec, out: Vec, u: nat)
    requires |target| == |out| && u < |out|
    ensures OutputDelta(target, out)[u] == (target[u] - out[u]) * out[u] * (1.0 - out[u])
  {
    assert Sub(target, out)[u] == target[u] - out[u];
    assert LambdaOf(out)[u] == out[u] * (1.0 - out[u]);
  }

  /** A hidden delta is the one `Layer.calcDelta(next)` computes from the next
      layer's weights and delta. */
  lemma HiddenDeltaIsCalcDelta(next: Vec, w: Mat, out: Vec, u: nat)
    requires Shape(w, |next|, |out| + 1) && u < |out|
    ensures HiddenDelta(next, w, out)[u] == ColumnDotN(w, u, next, |next|) * out[u] * (1.0 - out[u])
  {
    var back := VecMat(next, w, |out| + 1);
    assert DropLast(back)[u] == back[u] == ColumnDotN(w, u, next, |next|);
    assert LambdaOf(out)[u] == out[u] * (1.0 - out[u]);
  }

  /** Entry `(i, j)` of a layer's gradient is its `i`-th delta times its `j`-th
      input; the last column, fed by the bias input 1, is the delta itself. */
  lemma GradientEntries(ws: seq<Mat>, st: seq<nat>, p: DataPattern, sigmoid: real -> real, k: nat, i: nat, j: nat)
    requires Shaped(ws, st) && Trainable(p, st) && k < |ws| && i < st[k + 1] && j <= st[k]
    ensures Gradient(ws, st, p, sigmoid, k)[i][j] ==
      Delta(ws, st, p, sigmoid, k)[i] * LayerInput(ws, st, p.input, sigmoid, k)[j]
    ensures Gradient(ws, st, p, sigmoid, k)[i][st[k]] == Delta(ws, st, p, sigmoid, k)[i]
  {
    var x := LayerInput(ws, st, p.input, sigmoid, k);
    assert x[st[k]] == 1.0;
  }

  /** Replaying a pattern `n` times adds `n` times its gradient. */
  lemma {:induction false} ReplayedIsScaled(acc: Mat, g: Mat, n: nat)
    requires SameShape(acc, g)
    ensures Replayed(acc, g, n) == MatAdd(acc, MatScale(g, n as real))
  {
    var r := Replayed(acc, g, n);
    var e := MatAdd(acc, MatScale(g, n as real));
    if n == 0 {
      forall i, j | 0 <= i < |acc| && 0 <= j < |acc[i]|
        ensures r[i][j] == e[i][j]
      {
        assert MatScale(g, 0.0)[i][j] == g[i][j] * 0.0;
      }
    } else {
      ReplayedIsScaled(acc, g, n - 1);
      var before := MatAdd(acc, MatScale(g, (n - 1) as real));
      forall i, j | 0 <= i < |acc| && 0 <= j < |acc[i]|
        ensures r[i][j] == e[i][j]
      {
        assert before[i][j] == acc[i][j] + g[i][j] * (n - 1) as real;
        assert e[i][j] == acc[i][j] + g[i][j] * n as real;
      }
    }
    SameEntries(r, e);
  }

  /** One epoch adds the priority-weighted sum of the pattern gradients to the
      accumulator, whatever order the additions came in. */
  lemma {:induction false} AccumulatedIsWeightedSum(acc: Mat, ws: seq<Mat>, st: seq<nat>, ps: seq<DataPattern>, sigmoid: real -> real, k: nat)
    requires Shaped(ws, st) && k < |ws| && Shape(acc, st[k + 1], st[k] + 1) && AllTrainable(ps, st)
    ensures Accumulated(acc, ws, st, ps, sigmoid, k) == MatAdd(acc, WeightedSum(ws, st, ps, sigmoid, k))
  {
    var r := Accumulated(acc, ws, st, ps, sigmoid, k);
    var e := MatAdd(acc, WeightedSum(ws, st, ps, sigmoid, k));
    if |ps| == 0 {
      forall i, j | 0 <= i < |acc| && 0 <= j < |acc[i]|
        ensures r[i][j] == e[i][j]
      {
      }
    } else {
      var init := ps[..|ps| - 1];
      var p := ps[|ps| - 1];
      assert AllTrainable(init, st);
      AccumulatedIsWeightedSum(acc, ws, st, init, sigmoid, k);
      if Replays(p) > 0 {
        var g := Gradient(ws, st, p, sigmoid, k);
        var before := Accumulated(acc, ws, st, init, sigmoid, k);
        var rest := WeightedSum(ws, st, init, sigmoid, k);
        ReplayedIsScaled(before, g, Replays(p));
        forall i, j | 0 <= i < |acc| && 0 <= j < |acc[i]|
          ensures r[i][j] == e[i][j]
        {
          assert before[i][j] == acc[i][j] + rest[i][j];
        }
      }
    }
    SameEntries(r, e);
  }
}
