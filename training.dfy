/** `Training`: batch RPROP training of a `Net`.

    One epoch (`train()`) replays every pattern `priority` times, in order: the
    net is fed the pattern's input and backpropagation adds the gradient of
    every layer into its gradient slot 0.  Afterwards every layer, in order,
    gets its new step sizes (`calcWeightChanges`) and moves its weights
    (`applyWeightChanges`).  A dimension error anywhere aborts the epoch; the
    gradients accumulated until then stay in slot 0.  The activation function
    is a parameter, and the thread interruption checked before every epoch of
    `train(epochs)` is an input sequence of flags. */
module Trainings {
  import opened Wrappers
  import opened LinAlg
  import opened Layers
  import opened Nets
  import opened DataPatterns
  import opened Backprop
  import opened Rprop

  /** `d` is the delta backpropagation computes for a layer with output `out`
      from the delta `dNext` and the weights `nextWeights` of the layer after it. */
  predicate ChainStep(out: Vec, nextWeights: Mat, d: Vec, dNext: Vec) {
    Shape(nextWeights, |dNext|, |out| + 1) && d == HiddenDelta(dNext, nextWeights, out)
  }

  /** The prefix one longer is the prefix with the next element appended. */
  lemma PrefixGrows<T>(xs: seq<T>, i: nat)
    requires i < |xs|
    ensures xs[..i + 1] == xs[..i] + [xs[i]]
  {
  }

  class Training {
    const net: Net
    /** `null` until `setPatterns` is called. */
    var patterns: Option<seq<DataPattern>>
    /** The growth factor `c_p` and the shrink factor `c_m` of the step sizes. */
    const cPlus: real
    const cMinus: real
    var epoch: int
    var maxEpochs: int

    ghost predicate Valid()
      reads this, net, net.layers
    {
      net.Valid()
    }

    /** `Training(net, increaseFactor, decreaseFactor)`. */
    constructor (net: Net, increaseFactor: real, decreaseFactor: real)
      ensures this.net == net && cPlus == increaseFactor && cMinus == decreaseFactor
      ensures epoch == 0 && maxEpochs == 0 && patterns == None
    {
      this.net := net;
      cPlus := increaseFactor;
      cMinus := decreaseFactor;
      epoch := 0;
      maxEpochs := 0;
      patterns := None;
    }

    /** `setPatterns(patterns)`; `None` stands for `null`. */
    method SetPatterns(ps: Option<seq<DataPattern>>)
      modifies this
      ensures patterns == ps
      ensures epoch == old(epoch) && maxEpochs == old(maxEpochs)
    {
      patterns := ps;
    }

    // ------------------------------------------------------- backpropagation

    /** `backpropagation(netOutput, pattern)`, right after the net has been fed the
        pattern's input, which succeeds only when every layer has a neuron:
        every layer, from the last to the first, gets the gradient of the
        pattern added into slot 0.  The only possible failure is a target whose
        length differs from the net output's, which `subtract` rejects before
        anything changes. */
    method Backpropagation(netOutput: Vec, p: DataPattern, ghost sigmoid: real -> real) returns (o: Outcome)
      requires net.Valid() && net.Fed(p.input, sigmoid) && NoEmptyLayer(net.structure)
      requires netOutput == net.layers[|net.layers| - 1].output
      modifies net.layers
      ensures net.Valid()
      ensures o.Fail? <==> !Trainable(p, net.structure)
      ensures o.Fail? ==> o.error == DimensionError
      ensures forall k :: 0 <= k < |net.layers| ==>
        net.layers[k].Signals(old(net.layers[k].output), old(net.layers[k].input))
      ensures o.Fail? ==> forall k :: 0 <= k < |net.layers| ==>
        net.layers[k].Unchanged(old(net.layers[k].weights), old(net.layers[k].weightsDiff),
          old(net.layers[k].gradients), old(net.layers[k].delta))
      ensures o.Pass? ==> forall k :: 0 <= k < |net.layers| ==>
        net.layers[k].Unchanged(old(net.layers[k].weights), old(net.layers[k].weightsDiff),
          AddedToSlot0(old(net.layers[k].gradients), Gradient(old(net.Weights()), net.structure, p, sigmoid, k)),
          old(net.layers[k].delta))
    {
      ghost var ws := net.Weights();
      ghost var st := net.structure;
      var n := |net.layers|;
      var layer := net.layers[n - 1];
      if |p.output| != |netOutput| {
        return Fail(DimensionError);
      }
      assert Trainable(p, st);
      ghost var gs := seq(n, j requires 0 <= j < n reads net.layers => net.layers[j].gradients);
      var delta := Hadamard(Sub(p.output, netOutput), layer.Lambda());
      ghost var D := BackpropagateFrom(delta, gs);
      assert net.FedUpTo(n, ws, p.input, sigmoid);
      ReceivedGradients(ws, p, sigmoid, D, gs);
      return Pass;
    }

    /** After the loop of `backpropagation`: the deltas it chained from the output
        delta are the deltas of the recursive definition, so every layer has
        received its gradient for the pattern. */
    ghost method ReceivedGradients(ws: seq<Mat>, p: DataPattern, sigmoid: real -> real,
                                   D: seq<Vec>, gs: seq<seq<Option<Mat>>>)
      requires net.Valid() && Trainable(p, net.structure) && net.FedUpTo(|net.layers|, ws, p.input, sigmoid)
      requires forall j :: 0 <= j < |net.layers| ==> net.layers[j].weights == ws[j]
      requires |D| == |gs| == |net.layers|
      requires D[|net.layers| - 1] == OutputDelta(p.output, net.layers[|net.layers| - 1].output)
      requires forall j :: 0 < j < |net.layers| ==> ChainStep(net.layers[j - 1].output, net.layers[j].weights, D[j - 1], D[j])
      requires forall j :: 0 <= j < |net.layers| ==> net.layers[j].Received(gs[j], D[j])
      ensures forall j :: 0 <= j < |net.layers| ==>
        net.layers[j].Received(gs[j], D[j]) &&
        net.layers[j].gradients == AddedToSlot0(gs[j], Gradient(ws, net.structure, p, sigmoid, j))
    {
      var n := |net.layers|;
      var st := net.structure;
      forall i | 0 < i < n
        ensures |D[i]| == st[i + 1]
        ensures D[i - 1] == HiddenDelta(D[i], ws[i], Forward(ws, st, p.input, sigmoid, i - 1))
      {
        assert ChainStep(net.layers[i - 1].output, net.layers[i].weights, D[i - 1], D[i]);
      }
      forall j | 0 <= j < n
        ensures net.layers[j].gradients == AddedToSlot0(gs[j], Gradient(ws, st, p, sigmoid, j))
      {
        ChainedDeltas(ws, st, p, sigmoid, D, j);
        assert net.layers[j].Received(gs[j], D[j]);
      }
    }

    /** The loop of `backpropagation`, from the output layer, whose delta is
        given, down to the first: the delta of every layer is computed from the
        one after it, and the layer receives `dyadic(delta, input)`.  `D` holds
        the deltas used, layer by layer. */
    method BackpropagateFrom(delta0: Vec, ghost gs: seq<seq<Option<Mat>>>) returns (ghost D: seq<Vec>)
      requires net.Valid() && |gs| == |net.layers|
      requires forall j :: 0 <= j < |net.layers| ==>
        net.layers[j].gradients == gs[j] && |net.layers[j].input| == net.layers[j].cols
      requires |delta0| == net.layers[|net.layers| - 1].rows
      modifies net.layers
      ensures net.Valid() && |D| == |net.layers| && D[|net.layers| - 1] == delta0
      ensures forall j :: 0 <= j < |net.layers| ==> net.layers[j].KeptPart() == old(net.layers[j].KeptPart())
      ensures forall j :: 0 < j < |net.layers| ==> ChainStep(net.layers[j - 1].output, net.layers[j].weights, D[j - 1], D[j])
      ensures forall j :: 0 <= j < |net.layers| ==> net.layers[j].Received(gs[j], D[j])
    {
      ghost var kept;
      D, kept := BackpropagateTop(delta0, gs);
      D := BackpropagateDown(delta0, D, gs, kept);
      PropagatedAll(D, gs, kept, delta0);
    }

    /** The loop of `backpropagation`, from the layer below the output layer down to the first. */
    method BackpropagateDown(delta0: Vec, ghost D: seq<Vec>, ghost gs: seq<seq<Option<Mat>>>, ghost kept: seq<Kept>)
      returns (ghost D': seq<Vec>)
      requires net.Valid() && Propagated(|net.layers| - 1, D, gs, kept, delta0) && D[|net.layers| - 1] == delta0
      modifies net.layers
      ensures Propagated(0, D', gs, kept, delta0)
    {
      var delta := delta0;
      var k: nat := |net.layers| - 1;
      D' := D;
      while k > 0
        invariant Propagated(k, D', gs, kept, delta0) && delta == D'[k]
      {
        delta, D' := BackpropagateStep(k, delta, D', gs, kept, delta0);
        k := k - 1;
      }
    }

    /** Once every layer has had its turn, the deltas chain through the layers as they are. */
    lemma PropagatedAll(D: seq<Vec>, gs: seq<seq<Option<Mat>>>, kept: seq<Kept>, top: Vec)
      requires Propagated(0, D, gs, kept, top)
      ensures net.Valid() && |D| == |net.layers| && D[|net.layers| - 1] == top
      ensures forall j :: 0 <= j < |net.layers| ==> net.layers[j].KeptPart() == kept[j]
      ensures forall j :: 0 < j < |net.layers| ==> ChainStep(net.layers[j - 1].output, net.layers[j].weights, D[j - 1], D[j])
      ensures forall j :: 0 <= j < |net.layers| ==> net.layers[j].Received(gs[j], D[j])
    {
    }

    /** The output layer's turn of `backpropagation`, which starts its loop. */
    method BackpropagateTop(delta0: Vec, ghost gs: seq<seq<Option<Mat>>>) returns (ghost D: seq<Vec>, ghost kept: seq<Kept>)
      requires net.Valid() && |gs| == |net.layers|
      requires forall j :: 0 <= j < |net.layers| ==>
        net.layers[j].gradients == gs[j] && |net.layers[j].input| == net.layers[j].cols
      requires |delta0| == net.layers[|net.layers| - 1].rows
      modifies net.layers
      ensures Propagated(|net.layers| - 1, D, gs, kept, delta0) && D[|net.layers| - 1] == delta0
      ensures |kept| == |net.layers| && forall j :: 0 <= j < |net.layers| ==> kept[j] == old(net.layers[j].KeptPart())
    {
      var n := |net.layers|;
      kept := seq(n, j requires 0 <= j < n reads net.layers => net.layers[j].KeptPart());
      D := seq(n, j => []);
      D := D[n - 1 := delta0];
      AddLayerGradient(n - 1, delta0);
    }

    /** The state of the loop of `backpropagation` once layers `k` to the last
        have received their gradients: nothing else of any layer has changed
        from `kept`, the layers below `k` still hold `gs`, and `D` chains the
        deltas from layer `k` up to the output delta `top`. */
    ghost predicate Propagated(k: nat, D: seq<Vec>, gs: seq<seq<Option<Mat>>>, kept: seq<Kept>, top: Vec)
      reads this, net, net.layers
    {
      net.Valid() && k < |net.layers| && |D| == |gs| == |kept| == |net.layers| && D[|net.layers| - 1] == top &&
      (forall j :: 0 <= j < |net.layers| ==> net.layers[j].KeptPart() == kept[j]) &&
      (forall j :: 0 <= j < k ==> net.layers[j].gradients == gs[j] && |net.layers[j].input| == net.layers[j].cols) &&
      (forall j :: k <= j < |net.layers| ==> net.layers[j].Received(gs[j], D[j])) &&
      (forall j :: k < j < |net.layers| ==> ChainStep(kept[j - 1].output, kept[j].weights, D[j - 1], D[j]))
    }

    /** One turn of the loop of `backpropagation`: the delta of layer `k - 1`
        from that of layer `k`, and its gradient added into layer `k - 1`. */
    method BackpropagateStep(k: nat, delta: Vec, ghost D: seq<Vec>, ghost gs: seq<seq<Option<Mat>>>,
                              ghost kept: seq<Kept>, ghost top: Vec)
      returns (d: Vec, ghost D': seq<Vec>)
      requires 0 < k && Propagated(k, D, gs, kept, top) && delta == D[k]
      modifies net.layers
      ensures Propagated(k - 1, D', gs, kept, top) && d == D'[k - 1]
    {
      d := PropagatedDelta(k, delta);
      D' := D[k - 1 := d];
      AddLayerGradient(k - 1, d);
    }

    /** The step between two layers in `backpropagation`: the delta of layer `k`
        times its weights, without the bias entry, times `λ` of layer `k - 1`. */
    method PropagatedDelta(k: nat, delta: Vec) returns (d: Vec)
      requires net.Valid() && 0 < k < |net.layers| && |delta| == net.layers[k].rows
      ensures |d| == net.layers[k - 1].rows
      ensures ChainStep(net.layers[k - 1].output, net.layers[k].weights, d, delta)
    {
      var next := net.layers[k];
      d := DropLast(VecMat(delta, next.weights, next.cols));
      d := Hadamard(d, net.layers[k - 1].Lambda());
    }

    /** One step of `backpropagation`: layer `k` receives `dyadic(delta, input)`. */
    method AddLayerGradient(k: nat, delta: Vec)
      requires net.Valid() && k < |net.layers|
      requires |delta| == net.layers[k].rows && |net.layers[k].input| == net.layers[k].cols
      modifies net.layers[k]
      ensures net.Valid()
      ensures forall j :: 0 <= j < |net.layers| ==> net.layers[j].KeptPart() == old(net.layers[j].KeptPart())
      ensures net.layers[k].Received(old(net.layers[k].gradients), delta)
      ensures forall j :: 0 <= j < |net.layers| && j != k ==> net.layers[j].gradients == old(net.layers[j].gradients)
    {
      var layer := net.layers[k];
      var o := layer.AddGradient(Dyadic(delta, layer.input));
      forall j | 0 <= j < |net.layers| && j != k
        ensures net.layers[j].Valid() && net.layers[j].gradients == old(net.layers[j].gradients)
      {
        assert net.layers[j] != net.layers[k];
      }
    }

    // ------------------------------------------------------------- one epoch

    /** `train()`: the patterns are replayed, then every layer is updated.  Missing
        patterns (`null`) abort at once; a pattern that is replayed but cannot be
        trained with aborts the epoch, leaving the gradients of the patterns
        before it in slot 0 and the weights and step sizes as they were.  When
        every pattern could be replayed, the update stops at the first layer
        without neurons: the layers before it are updated, it and the layers
        after it keep their state and their accumulated gradients. */
    method TrainEpoch(sigmoid: real -> real) returns (o: Outcome)
      requires Valid()
      modifies net.layers
      ensures Valid()
      ensures patterns.None? ==> o == Fail(NullReference) && forall k :: 0 <= k < |net.layers| ==>
        net.layers[k].Signals(old(net.layers[k].output), old(net.layers[k].input)) &&
        net.layers[k].Unchanged(old(net.layers[k].weights), old(net.layers[k].weightsDiff),
          old(net.layers[k].gradients), old(net.layers[k].delta))
      ensures patterns.Some? ==>
        (o.Pass? <==> FirstFailure(patterns.value, net.structure) == |patterns.value| && NoEmptyLayer(net.structure))
      ensures patterns.Some? && FirstFailure(patterns.value, net.structure) < |patterns.value| ==>
        o == Fail(ReplayError(patterns.value[FirstFailure(patterns.value, net.structure)], net.structure)) &&
        forall k :: 0 <= k < |net.layers| ==>
          net.layers[k].State() == old(net.layers[k].State()) &&
          net.layers[k].gradients[0] == Some(Accumulated(old(net.layers[k].gradients[0].value), old(net.Weights()),
            net.structure, patterns.value[..FirstFailure(patterns.value, net.structure)], sigmoid, k))
      ensures patterns.Some? && FirstFailure(patterns.value, net.structure) == |patterns.value| ==>
        (o.Fail? ==> o.error == IndexOutOfBounds) &&
        forall k :: 0 <= k < |net.layers| ==>
          if k < FirstEmptyLayer(net.structure) then
            net.layers[k].gradients[0] == Some(Zero(net.layers[k].rows, net.layers[k].cols)) &&
            net.layers[k].State() == EpochState(old(net.layers[k].State()),
              Accumulated(old(net.layers[k].gradients[0].value), old(net.Weights()), net.structure, patterns.value, sigmoid, k),
              net.layers[k].rows, net.layers[k].cols, cPlus, cMinus)
          else
            net.layers[k].State() == old(net.layers[k].State()) &&
            net.layers[k].gradients[0] == Some(Accumulated(old(net.layers[k].gradients[0].value), old(net.Weights()),
              net.structure, patterns.value, sigmoid, k))
    {
      if patterns.None? {
        return Fail(NullReference);
      }
      var ps := patterns.value;
      ghost var ws := net.Weights();
      o := ReplayAll(ps, ws, sigmoid);
      if o.Fail? {
        return;
      }
      assert ps[..|ps|] == ps;
      o := UpdateAll();
    }

    /** The pattern loop of `train()`: each pattern is replayed in turn, up to
        the first one that cannot be trained with. */
    method ReplayAll(ps: seq<DataPattern>, ghost ws: seq<Mat>, sigmoid: real -> real) returns (o: Outcome)
      requires net.Valid() && ws == net.Weights()
      modifies net.layers
      ensures net.Valid() && ws == net.Weights()
      ensures o.Pass? <==> FirstFailure(ps, net.structure) == |ps|
      ensures o.Fail? ==> o.error == ReplayError(ps[FirstFailure(ps, net.structure)], net.structure)
      ensures forall k :: 0 <= k < |net.layers| ==>
        net.layers[k].State() == old(net.layers[k].State()) &&
        net.layers[k].gradients[0] == Some(Accumulated(old(net.layers[k].gradients[0].value), ws,
          net.structure, ps[..FirstFailure(ps, net.structure)], sigmoid, k))
    {
      var n := |net.layers|;
      ghost var st := net.structure;
      ghost var states := seq(n, k requires 0 <= k < n && net.layers[k].Valid() reads net, net.layers => net.layers[k].State());
      ghost var acc := seq(n, k requires 0 <= k < n && net.layers[k].Valid() reads net, net.layers => net.layers[k].gradients[0].value);
      assert forall k :: 0 <= k < n ==> states[k] == old(net.layers[k].State()) && acc[k] == old(net.layers[k].gradients[0].value);
      var i := 0;
      ghost var done: seq<DataPattern> := [];
      while i < |ps|
        invariant 0 <= i <= |ps| && done == ps[..i] && AllTrainable(done, st)
        invariant Accumulating(states, acc, ws, done, sigmoid) && ws == net.Weights() && net.structure == st
      {
        o := ReplayNext(done, ps[i], ws, sigmoid, states, acc);
        if o.Fail? {
          FirstFailureIs(ps, st, i);
          return;
        }
        PrefixGrows(ps, i);
        done := done + [ps[i]];
        i := i + 1;
      }
      assert ps[..i] == ps;
      FirstFailureIs(ps, st, i);
      return Pass;
    }

    /** The state of the pattern loop after the patterns `qs`: the weights are
        `ws`, every layer keeps its `LayerState` from `states`, and its slot 0
        holds `acc` plus the gradients of all replays of `qs`. */
    ghost predicate Accumulating(states: seq<LayerState>, acc: seq<Mat>, ws: seq<Mat>, qs: seq<DataPattern>,
                                 sigmoid: real -> real)
      reads this, net, net.layers
    {
      net.Valid() && |states| == |acc| == |net.layers| && Shaped(ws, net.structure) && |ws| == |net.layers| &&
      AllTrainable(qs, net.structure) &&
      forall k :: 0 <= k < |net.layers| ==>
        net.layers[k].State() == states[k] && Shape(acc[k], net.layers[k].rows, net.layers[k].cols) &&
        net.layers[k].gradients[0] == Some(Accumulated(acc[k], ws, net.structure, qs, sigmoid, k))
    }

    /** One turn of the pattern loop: pattern `p` is replayed after `qs`. */
    method ReplayNext(ghost qs: seq<DataPattern>, p: DataPattern, ghost ws: seq<Mat>, sigmoid: real -> real,
                      ghost states: seq<LayerState>, ghost acc: seq<Mat>) returns (o: Outcome)
      requires Accumulating(states, acc, ws, qs, sigmoid) && ws == net.Weights()
      modifies net.layers
      ensures net.Valid() && ws == net.Weights()
      ensures o.Pass? <==> Replays(p) == 0 || Trainable(p, net.structure)
      ensures o.Fail? ==> o.error == ReplayError(p, net.structure) && Accumulating(states, acc, ws, qs, sigmoid)
      ensures o.Pass? ==> Accumulating(states, acc, ws, qs + [p], sigmoid)
    {
      o := ReplayPattern(p, ws, sigmoid);
      assert (qs + [p])[..|qs|] == qs;
    }

    /** The replay loop of `train()` for one pattern: `priority` times, feed the
        net and backpropagate.  Either every replay succeeds or the first one
        fails, before any gradient changes. */
    method ReplayPattern(p: DataPattern, ghost ws: seq<Mat>, sigmoid: real -> real) returns (o: Outcome)
      requires net.Valid() && ws == net.Weights()
      modifies net.layers
      ensures net.Valid() && ws == net.Weights()
      ensures o.Pass? <==> Replays(p) == 0 || Trainable(p, net.structure)
      ensures o.Fail? ==> o.error == ReplayError(p, net.structure)
      ensures forall k :: 0 <= k < |net.layers| ==>
        net.layers[k].State() == old(net.layers[k].State()) &&
        net.layers[k].gradients[0] == Some(if o.Fail? || Replays(p) == 0 then old(net.layers[k].gradients[0].value)
          else Replayed(old(net.layers[k].gradients[0].value), Gradient(ws, net.structure, p, sigmoid, k), Replays(p)))
    {
      ghost var states, acc, G := ReplayStart(p, ws, sigmoid);
      o := ReplayLoop(p, ws, sigmoid, states, acc, G);
    }

    /** The replay state before the first replay of `p`: the layer states, the
        slot-0 gradients, and the pattern's gradient per layer when it can be
        trained with. */
    ghost method ReplayStart(p: DataPattern, ws: seq<Mat>, sigmoid: real -> real)
      returns (states: seq<LayerState>, acc: seq<Mat>, G: seq<Mat>)
      requires net.Valid() && ws == net.Weights()
      ensures Replaying(states, acc, G, 0) && Shaped(ws, net.structure)
      ensures Trainable(p, net.structure) ==> forall k :: 0 <= k < |G| ==> G[k] == Gradient(ws, net.structure, p, sigmoid, k)
      ensures forall k :: 0 <= k < |net.layers| ==>
        states[k] == net.layers[k].State() && acc[k] == net.layers[k].gradients[0].value
    {
      var n := |net.layers|;
      var st := net.structure;
      states := seq(n, k requires 0 <= k < n && net.layers[k].Valid() reads net, net.layers => net.layers[k].State());
      acc := seq(n, k requires 0 <= k < n && net.layers[k].Valid() reads net, net.layers => net.layers[k].gradients[0].value);
      assert Shaped(ws, st);
      G := if Trainable(p, st) then seq(n, k requires 0 <= k < n => Gradient(ws, st, p, sigmoid, k)) else acc;
    }

    /** The loop of `ReplayPattern` over the replay state: all replays, or a
        failure on the first. */
    method ReplayLoop(p: DataPattern, ghost ws: seq<Mat>, sigmoid: real -> real, ghost states: seq<LayerState>,
                      ghost acc: seq<Mat>, ghost G: seq<Mat>) returns (o: Outcome)
      requires Replaying(states, acc, G, 0) && ws == net.Weights() && Shaped(ws, net.structure)
      requires Trainable(p, net.structure) ==> forall k :: 0 <= k < |G| ==> G[k] == Gradient(ws, net.structure, p, sigmoid, k)
      modifies net.layers
      ensures net.Valid() && ws == net.Weights()
      ensures o.Pass? <==> Replays(p) == 0 || Trainable(p, net.structure)
      ensures o.Fail? ==> o.error == ReplayError(p, net.structure) && Replaying(states, acc, G, 0)
      ensures o.Pass? ==> Replaying(states, acc, G, Replays(p))
    {
      ghost var st := net.structure;
      for i := 0 to Replays(p)
        invariant Replaying(states, acc, G, i)
        invariant ws == net.Weights()
        invariant net.structure == st
        invariant i > 0 ==> Trainable(p, st)
      {
        o := ReplayOnce(p, ws, sigmoid, states, acc, G, i);
        if o.Fail? {
          return;
        }
      }
      return Pass;
    }

    /** The state of the replay loop of one pattern after `i` replays: every
        layer keeps its `LayerState` from `states`, and its slot 0 holds `acc`
        plus `i` times the pattern's gradient `G`. */
    ghost predicate Replaying(states: seq<LayerState>, acc: seq<Mat>, G: seq<Mat>, i: nat)
      reads this, net, net.layers
    {
      net.Valid() && |states| == |acc| == |G| == |net.layers| &&
      forall k :: 0 <= k < |net.layers| ==>
        net.layers[k].State() == states[k] && Shape(acc[k], net.layers[k].rows, net.layers[k].cols) &&
        Shape(G[k], net.layers[k].rows, net.layers[k].cols) &&
        net.layers[k].gradients[0] == Some(Replayed(acc[k], G[k], i))
    }

    /** One replay of a pattern: feed the net, then backpropagate.  It fails,
        changing no gradient, exactly when the pattern cannot be trained with. */
    method ReplayOnce(p: DataPattern, ghost ws: seq<Mat>, sigmoid: real -> real, ghost states: seq<LayerState>,
                      ghost acc: seq<Mat>, ghost G: seq<Mat>, ghost i: nat) returns (o: Outcome)
      requires Replaying(states, acc, G, i) && ws == net.Weights() && Shaped(ws, net.structure)
      requires Trainable(p, net.structure) ==> forall k :: 0 <= k < |G| ==> G[k] == Gradient(ws, net.structure, p, sigmoid, k)
      modifies net.layers
      ensures net.Valid() && ws == net.Weights()
      ensures o.Fail? <==> !Trainable(p, net.structure)
      ensures o.Fail? ==> o.error == ReplayError(p, net.structure) && Replaying(states, acc, G, i)
      ensures o.Pass? ==> Replaying(states, acc, G, i + 1)
    {
      var r := FeedReplaying(p, ws, sigmoid, states, acc, G, i);
      if r.Failure? {
        return Fail(r.error);
      }
      o := BackpropagateReplaying(r.value, p, ws, sigmoid, states, acc, G, i);
    }

    /** The feeding half of one replay, which leaves the replay state as it is. */
    method FeedReplaying(p: DataPattern, ghost ws: seq<Mat>, sigmoid: real -> real, ghost states: seq<LayerState>,
                         ghost acc: seq<Mat>, ghost G: seq<Mat>, ghost i: nat) returns (r: Result<Vec>)
      requires Replaying(states, acc, G, i) && ws == net.Weights()
      modifies net.layers
      ensures Replaying(states, acc, G, i) && ws == net.Weights()
      ensures r.Failure? <==> |p.input| != net.structure[0] || !NoEmptyLayer(net.structure)
      ensures r.Failure? ==> r.error == ReplayError(p, net.structure)
      ensures r.Success? ==> net.Fed(p.input, sigmoid) && r.value == net.layers[|net.layers| - 1].output
    {
      r := net.Feed(p.input, sigmoid);
    }

    /** The backpropagating half of one replay: slot 0 receives the pattern's
        gradient once more, unless the pattern cannot be trained with. */
    method BackpropagateReplaying(netOutput: Vec, p: DataPattern, ghost ws: seq<Mat>, sigmoid: real -> real,
                                  ghost states: seq<LayerState>, ghost acc: seq<Mat>, ghost G: seq<Mat>, ghost i: nat)
      returns (o: Outcome)
      requires Replaying(states, acc, G, i) && ws == net.Weights() && Shaped(ws, net.structure)
      requires net.Fed(p.input, sigmoid) && NoEmptyLayer(net.structure) && |p.input| == net.structure[0]
      requires netOutput == net.layers[|net.layers| - 1].output
      requires Trainable(p, net.structure) ==> forall k :: 0 <= k < |G| ==> G[k] == Gradient(ws, net.structure, p, sigmoid, k)
      modifies net.layers
      ensures net.Valid() && ws == net.Weights()
      ensures o.Fail? <==> !Trainable(p, net.structure)
      ensures o.Fail? ==> o.error == ReplayError(p, net.structure) && Replaying(states, acc, G, i)
      ensures o.Pass? ==> Replaying(states, acc, G, i + 1)
    {
      o := Backpropagation(netOutput, p, sigmoid);
    }

    // -------------------------------------------------------------- RPROP

    /** `calcWeightChanges(layer)`: with gradient slot 2 empty every step size
        becomes 0.1; otherwise every step is adapted by the sign rule, row by
        row. */
    method CalcWeightChanges(layer: Layer)
      requires layer.Valid()
      modifies layer
      ensures layer.Valid()
      ensures layer.weightsDiff == NextSteps(old(layer.weightsDiff), old(layer.gradients[0].value),
        old(layer.gradients[1]), old(layer.gradients[2]), layer.rows, layer.cols, cPlus, cMinus)
      ensures layer.Signals(old(layer.output), old(layer.input))
      ensures layer.weights == old(layer.weights) && layer.gradients == old(layer.gradients)
      ensures layer.delta == old(layer.delta)
    {
      if layer.gradients[2].None? {
        layer.weightsDiff := FillMat(layer.rows, layer.cols, InitialStep);
        return;
      }
      var g0, g1, g2 := layer.gradients[0].value, layer.gradients[1].value, layer.gradients[2].value;
      ghost var S := layer.weightsDiff;
      ghost var T := AdaptedSteps(S, g0, g1, g2, cPlus, cMinus);
      var i := 0;
      while i < layer.rows
        invariant 0 <= i <= layer.rows && layer.Valid()
        invariant layer.Signals(old(layer.output), old(layer.input))
        invariant layer.weights == old(layer.weights) && layer.gradients == old(layer.gradients)
        invariant layer.delta == old(layer.delta)
        invariant forall p, q :: 0 <= p < layer.rows && 0 <= q < layer.cols ==>
          layer.weightsDiff[p][q] == if p < i then T[p][q] else S[p][q]
      {
        var j := 0;
        while j < layer.cols
          invariant 0 <= j <= layer.cols && layer.Valid()
          invariant layer.Signals(old(layer.output), old(layer.input))
          invariant layer.weights == old(layer.weights) && layer.gradients == old(layer.gradients)
          invariant layer.delta == old(layer.delta)
          invariant forall p, q :: 0 <= p < layer.rows && 0 <= q < layer.cols ==>
            layer.weightsDiff[p][q] == if p < i || (p == i && q < j) then T[p][q] else S[p][q]
        {
          var cond1 := g0[i][j] * g1[i][j];
          var cond2 := g1[i][j] * g2[i][j];
          if cond1 > 0.0 && cond2 >= 0.0 {
            IncreaseWeightsDiff(layer, i, j);
          } else if cond1 < 0.0 {
            DecreaseWeightsDiff(layer, i, j);
          }
          j := j + 1;
        }
        i := i + 1;
      }
      SameEntries(layer.weightsDiff, T);
    }

    /** `increaseWeightsDiff(layer, i, j)`: step `(i, j)` becomes `min(step · c_p, 1)`. */
    method IncreaseWeightsDiff(layer: Layer, i: nat, j: nat)
      requires layer.Valid() && i < layer.rows && j < layer.cols
      modifies layer
      ensures layer.Valid()
      ensures layer.weightsDiff == old(layer.weightsDiff)[i := old(layer.weightsDiff)[i][j := Increased(old(layer.weightsDiff)[i][j], cPlus)]]
      ensures layer.Signals(old(layer.output), old(layer.input))
      ensures layer.weights == old(layer.weights) && layer.gradients == old(layer.gradients)
      ensures layer.delta == old(layer.delta)
    {
      var step := layer.weightsDiff[i][j] * cPlus;
      var capped := if step <= MaxStep then step else MaxStep;
      layer.weightsDiff := layer.weightsDiff[i := layer.weightsDiff[i][j := capped]];
    }

    /** `decreaseWeightsDiff(layer, i, j)`: step `(i, j)` becomes `max(step · c_m, 10^-6)`. */
    method DecreaseWeightsDiff(layer: Layer, i: nat, j: nat)
      requires layer.Valid() && i < layer.rows && j < layer.cols
      modifies layer
      ensures layer.Valid()
      ensures layer.weightsDiff == old(layer.weightsDiff)[i := old(layer.weightsDiff)[i][j := Decreased(old(layer.weightsDiff)[i][j], cMinus)]]
      ensures layer.Signals(old(layer.output), old(layer.input))
      ensures layer.weights == old(layer.weights) && layer.gradients == old(layer.gradients)
      ensures layer.delta == old(layer.delta)
    {
      var step := layer.weightsDiff[i][j] * cMinus;
      var floored := if step >= MinStep then step else MinStep;
      layer.weightsDiff := layer.weightsDiff[i := layer.weightsDiff[i][j := floored]];
    }

    /** The batch loop of `train()`: every layer, in order, gets its new step sizes
        and then its weight update, up to the first layer without neurons, which
        fails and stays as it is, as do the layers after it. */
    method UpdateAll() returns (o: Outcome)
      requires net.Valid()
      modifies net.layers
      ensures net.Valid()
      ensures o.Fail? <==> !NoEmptyLayer(net.structure)
      ensures o.Fail? ==> o.error == IndexOutOfBounds
      ensures forall k :: 0 <= k < |net.layers| ==>
        if k < FirstEmptyLayer(net.structure) then
          net.layers[k].gradients[0] == Some(Zero(net.layers[k].rows, net.layers[k].cols)) &&
          net.layers[k].State() == EpochState(old(net.layers[k].State()), old(net.layers[k].gradients[0].value),
            net.layers[k].rows, net.layers[k].cols, cPlus, cMinus)
        else
          net.layers[k].State() == old(net.layers[k].State()) &&
          net.layers[k].gradients == old(net.layers[k].gradients)
    {
      var k := 0;
      while k < |net.layers|
        invariant 0 <= k <= |net.layers| && net.Valid()
        invariant forall j :: 0 < j <= k ==> net.structure[j] > 0
        invariant forall j :: 0 <= j < |net.layers| ==>
          if j < k then
            net.layers[j].gradients[0] == Some(Zero(net.layers[j].rows, net.layers[j].cols)) &&
            net.layers[j].State() == EpochState(old(net.layers[j].State()), old(net.layers[j].gradients[0].value),
              net.layers[j].rows, net.layers[j].cols, cPlus, cMinus)
          else
            net.layers[j].State() == old(net.layers[j].State()) &&
            net.layers[j].gradients == old(net.layers[j].gradients)
      {
        o := UpdateLayer(k);
        if o.Fail? {
          assert FirstEmptyLayer(net.structure) == k;
          return;
        }
        k := k + 1;
      }
      assert FirstEmptyLayer(net.structure) == k;
      return Pass;
    }

    /** One step of the batch loop: `calcWeightChanges(layer)`, then
        `layer.applyWeightChanges()`, which fails on a layer without neurons;
        the step sizes of such a layer have no entries to change. */
    method UpdateLayer(k: nat) returns (o: Outcome)
      requires net.Valid() && k < |net.layers|
      modifies net.layers[k]
      ensures net.Valid()
      ensures o.Fail? <==> net.layers[k].rows == 0
      ensures o.Fail? ==> o.error == IndexOutOfBounds
      ensures o.Fail? ==> net.layers[k].State() == old(net.layers[k].State()) && net.layers[k].gradients == old(net.layers[k].gradients)
      ensures o.Pass? ==> net.layers[k].gradients[0] == Some(Zero(net.layers[k].rows, net.layers[k].cols))
      ensures o.Pass? ==> net.layers[k].State() == EpochState(old(net.layers[k].State()), old(net.layers[k].gradients[0].value),
        net.layers[k].rows, net.layers[k].cols, cPlus, cMinus)
      ensures forall j :: 0 <= j < |net.layers| && j != k ==>
        net.layers[j].State() == old(net.layers[j].State()) && net.layers[j].gradients == old(net.layers[j].gradients)
    {
      var layer := net.layers[k];
      CalcWeightChanges(layer);
      o := layer.ApplyWeightChanges();
      if o.Fail? {
        assert |layer.weightsDiff| == 0 == |old(layer.weightsDiff)|;
      }
      forall j | 0 <= j < |net.layers| && j != k
        ensures net.layers[j].Valid() && net.layers[j].State() == old(net.layers[j].State())
      {
        assert net.layers[j] != net.layers[k];
      }
    }

    // ------------------------------------------------------------- epochs

    /** `train(epochs)`: records `epochs` as the maximum and runs epochs until
        `epochs` have run or the interruption flag checked before an epoch is
        set; `interrupted(e)` is that flag before epoch `e`.  The outcome of each
        epoch is only reported, never acted on. */
    method TrainEpochs(epochs: int, interrupted: nat -> bool, sigmoid: real -> real)
      requires Valid()
      modifies this, net.layers
      ensures Valid() && patterns == old(patterns)
      ensures maxEpochs == epochs
      ensures 0 <= epoch && (epoch == 0 || epoch <= epochs)
      ensures epoch < epochs ==> interrupted(epoch)
      ensures forall e :: 0 <= e < epoch ==> !interrupted(e)
    {
      maxEpochs := epochs;
      epoch := 0;
      while epoch < epochs && !interrupted(epoch)
        invariant Valid() && patterns == old(patterns) && maxEpochs == epochs
        invariant 0 <= epoch && (epoch == 0 || epoch <= epochs)
        invariant forall e :: 0 <= e < epoch ==> !interrupted(e)
        decreases epochs - epoch
      {
        var o := TrainEpoch(sigmoid);
        epoch := epoch + 1;
      }
    }
  }
}
