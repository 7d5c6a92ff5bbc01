/** The RPROP step-size rule of `Training.calcWeightChanges` and the update one
    epoch of training applies to a layer.

    Every weight has its own step size.  Once three gradients are on record,
    a step grows by the factor `c_p` (capped at 1) while the gradient keeps its
    sign, shrinks by the factor `c_m` (floored at 10^-6) when the sign flips,
    and otherwise stays.  While fewer than three gradients are on record,
    every step is reset to 0.1.  The weight then moves by its step against
    nothing but the sign of its accumulated gradient. */
module Rprop {
  import opened Wrappers
  import opened LinAlg
  import opened Layers
  import MathHelper

  /** The clamps of `increaseWeightsDiff` and `decreaseWeightsDiff`, and the
      step every weight gets while the history is short. */
  const MinStep: real := 0.000001
  const MaxStep: real := 1.0
  const InitialStep: real := 0.1

  /** `increaseWeightsDiff`: `min(step · c_p, 1)`. */
  function Increased(step: real, cPlus: real): (s: real)
    ensures s <= MaxStep
    ensures s == step * cPlus || s == MaxStep
  {
    if step * cPlus <= MaxStep then step * cPlus else MaxStep
  }

  /** `decreaseWeightsDiff`: `max(step · c_m, 10^-6)`. */
  function Decreased(step: real, cMinus: real): (s: real)
    ensures s >= MinStep
    ensures s == step * cMinus || s == MinStep
  {
    if step * cMinus >= MinStep then step * cMinus else MinStep
  }

  /** The rule for one weight, given its three most recent gradients `g0` (this
      epoch), `g1` and `g2`. */
  function AdaptedStep(step: real, g0: real, g1: real, g2: real, cPlus: real, cMinus: real): real {
    var cond1 := g0 * g1;
    var cond2 := g1 * g2;
    if cond1 > 0.0 && cond2 >= 0.0 then Increased(step, cPlus)
    else if cond1 < 0.0 then Decreased(step, cMinus)
    else step
  }

  /** The rule applied to every entry of the step-size matrix. */
  function AdaptedSteps(steps: Mat, g0: Mat, g1: Mat, g2: Mat, cPlus: real, cMinus: real): (r: Mat)
    requires SameShape(steps, g0) && SameShape(steps, g1) && SameShape(steps, g2)
    ensures SameShape(r, steps)
    ensures forall i, j :: 0 <= i < |steps| && 0 <= j < |steps[i]| ==>
      r[i][j] == AdaptedStep(steps[i][j], g0[i][j], g1[i][j], g2[i][j], cPlus, cMinus)
  {
    seq(|steps|, i requires 0 <= i < |steps| =>
      seq(|steps[i]|, j requires 0 <= j < |steps[i]| =>
        AdaptedStep(steps[i][j], g0[i][j], g1[i][j], g2[i][j], cPlus, cMinus)))
  }

  /** The step sizes `calcWeightChanges` leaves: all 0.1 while gradient slot 2 is
      empty, the adapted steps otherwise. */
  function NextSteps(steps: Mat, acc: Mat, previous: Option<Mat>, older: Option<Mat>,
                     rows: nat, cols: nat, cPlus: real, cMinus: real): (r: Mat)
    requires Shape(steps, rows, cols) && Shape(acc, rows, cols)
    requires previous.Some? ==> Shape(previous.value, rows, cols)
    requires older.Some? ==> Shape(older.value, rows, cols) && previous.Some?
    ensures Shape(r, rows, cols)
  {
    if older.None? then FillMat(rows, cols, InitialStep)
    else AdaptedSteps(steps, acc, previous.value, older.value, cPlus, cMinus)
  }

  /** A layer state of the given weight shape whose history has no gap. */
  predicate StateShaped(s: LayerState, rows: nat, cols: nat) {
    Shape(s.weights, rows, cols) && Shape(s.steps, rows, cols) &&
    (s.previous.Some? ==> Shape(s.previous.value, rows, cols)) &&
    (s.older.Some? ==> Shape(s.older.value, rows, cols) && s.previous.Some?)
  }

  /** The end of an epoch for one layer whose accumulated gradient is `acc`:
      `calcWeightChanges`, then `applyWeightChanges` (the weights move by the
      new steps in the direction of the sign of `acc`, and the history shifts). */
  function EpochState(s: LayerState, acc: Mat, rows: nat, cols: nat, cPlus: real, cMinus: real): (r: LayerState)
    requires StateShaped(s, rows, cols) && Shape(acc, rows, cols)
    ensures StateShaped(r, rows, cols)
    ensures r.previous == Some(acc) && r.older == s.previous && r.delta == s.delta
  {
    var steps := NextSteps(s.steps, acc, s.previous, s.older, rows, cols, cPlus, cMinus);
    LayerState(MatAdd(s.weights, MatHadamard(steps, MatMap(MathHelper.Sgn, acc))), steps, Some(acc), s.previous, s.delta)
  }

  /** A run of epochs with the accumulated gradients `accs`, oldest first. */
  function Epochs(s: LayerState, accs: seq<Mat>, rows: nat, cols: nat, cPlus: real, cMinus: real): (r: LayerState)
    requires StateShaped(s, rows, cols)
    requires forall e :: 0 <= e < |accs| ==> Shape(accs[e], rows, cols)
    ensures StateShaped(r, rows, cols)
  {
    if |accs| == 0 then s
    else EpochState(Epochs(s, accs[..|accs| - 1], rows, cols, cPlus, cMinus), accs[|accs| - 1], rows, cols, cPlus, cMinus)
  }

  /** Every entry lies within the clamps. */
  predicate InBounds(steps: Mat) {
    forall i, j :: 0 <= i < |steps| && 0 <= j < |steps[i]| ==> MinStep <= steps[i][j] <= MaxStep
  }

  /** Factors for which the clamps are kept: growth does not shrink, shrinking
      does not grow. */
  predicate Factors(cPlus: real, cMinus: real) {
    cPlus >= 1.0 && 0.0 <= cMinus <= 1.0
  }

  // ------------------------------------------------------------------ lemmas

  /** A step within the clamps stays within them. */
  lemma StepStaysInBounds(step: real, g0: real, g1: real, g2: real, cPlus: real, cMinus: real)
    requires Factors(cPlus, cMinus) && MinStep <= step <= MaxStep
    ensures MinStep <= AdaptedStep(step, g0, g1, g2, cPlus, cMinus) <= MaxStep
  {
    ScaledStep(step, cPlus, cMinus);
  }

  /** Multiplying a positive step by `c_p` does not shrink it, by `c_m` does not
      grow it. */
  lemma ScaledStep(step: real, cPlus: real, cMinus: real)
    requires Factors(cPlus, cMinus) && step >= 0.0
    ensures step * cPlus >= step && step * cMinus <= step
  {
    assert step * cPlus - step == step * (cPlus - 1.0);
    assert step * (cPlus - 1.0) >= 0.0;
    assert step - step * cMinus == step * (1.0 - cMinus);
    assert step * (1.0 - cMinus) >= 0.0;
  }

  /** The direction of the rule: a step grows (or stays at the cap) only while the
      gradient keeps its sign, shrinks only when the sign flips, and stays put
      when the newest gradient product is 0. */
  lemma StepDirection(step: real, g0: real, g1: real, g2: real, cPlus: real, cMinus: real)
    requires Factors(cPlus, cMinus) && MinStep <= step <= MaxStep
    ensures g0 * g1 > 0.0 && g1 * g2 >= 0.0 ==> AdaptedStep(step, g0, g1, g2, cPlus, cMinus) >= step
    ensures g0 * g1 < 0.0 ==> AdaptedStep(step, g0, g1, g2, cPlus, cMinus) <= step
    ensures g0 * g1 == 0.0 ==> AdaptedStep(step, g0, g1, g2, cPlus, cMinus) == step
    ensures g0 * g1 > 0.0 && g1 * g2 < 0.0 ==> AdaptedStep(step, g0, g1, g2, cPlus, cMinus) == step
  {
    ScaledStep(step, cPlus, cMinus);
    var cond1, cond2 := g0 * g1, g1 * g2;
    if cond1 > 0.0 && cond2 >= 0.0 {
      assert AdaptedStep(step, g0, g1, g2, cPlus, cMinus) == Increased(step, cPlus);
    } else if cond1 < 0.0 {
      assert AdaptedStep(step, g0, g1, g2, cPlus, cMinus) == Decreased(step, cMinus);
    } else {
      assert AdaptedStep(step, g0, g1, g2, cPlus, cMinus) == step;
    }
  }

  /** After `calcWeightChanges` every step lies within the clamps, provided it did
      before or the history was still short. */
  lemma NextStepsInBounds(steps: Mat, acc: Mat, previous: Option<Mat>, older: Option<Mat>,
                          rows: nat, cols: nat, cPlus: real, cMinus: real)
    requires Shape(steps, rows, cols) && Shape(acc, rows, cols)
    requires previous.Some? ==> Shape(previous.value, rows, cols)
    requires older.Some? ==> Shape(older.value, rows, cols) && previous.Some?
    requires Factors(cPlus, cMinus) && (older.None? || InBounds(steps))
    ensures InBounds(NextSteps(steps, acc, previous, older, rows, cols, cPlus, cMinus))
  {
    var r := NextSteps(steps, acc, previous, older, rows, cols, cPlus, cMinus);
    if older.Some? {
      forall i, j | 0 <= i < |r| && 0 <= j < |r[i]|
        ensures MinStep <= r[i][j] <= MaxStep
      {
        StepStaysInBounds(steps[i][j], acc[i][j], previous.value[i][j], older.value[i][j], cPlus, cMinus);
      }
    }
  }

  /** The clamps hold after every epoch, however many epochs have run and whatever
      the gradients were, as long as they held whenever a full history was on
      record (in particular for a new layer, whose slot 2 is empty). */
  lemma {:induction false} EpochsStayInBounds(s: LayerState, accs: seq<Mat>, rows: nat, cols: nat, cPlus: real, cMinus: real)
    requires StateShaped(s, rows, cols) && Factors(cPlus, cMinus)
    requires forall e :: 0 <= e < |accs| ==> Shape(accs[e], rows, cols)
    requires s.older.None? || InBounds(s.steps)
    requires |accs| > 0
    ensures InBounds(Epochs(s, accs, rows, cols, cPlus, cMinus).steps)
  {
    var before := Epochs(s, accs[..|accs| - 1], rows, cols, cPlus, cMinus);
    if |accs| > 1 {
      EpochsStayInBounds(s, accs[..|accs| - 1], rows, cols, cPlus, cMinus);
    }
    NextStepsInBounds(before.steps, accs[|accs| - 1], before.previous, before.older, rows, cols, cPlus, cMinus);
  }

  /** A new layer holds one (zero) gradient.  The first two epochs therefore reset
      every step to 0.1, and the third epoch is the first to adapt the steps,
      starting from 0.1 and using the gradients of all three epochs. */
  lemma FirstAdaptationInThirdEpoch(s: LayerState, a1: Mat, a2: Mat, a3: Mat, rows: nat, cols: nat, cPlus: real, cMinus: real)
    requires StateShaped(s, rows, cols) && s.previous.None? && s.older.None?
    requires Shape(a1, rows, cols) && Shape(a2, rows, cols) && Shape(a3, rows, cols)
    ensures Epochs(s, [a1], rows, cols, cPlus, cMinus).steps == FillMat(rows, cols, InitialStep)
    ensures Epochs(s, [a1, a2], rows, cols, cPlus, cMinus).steps == FillMat(rows, cols, InitialStep)
    ensures Epochs(s, [a1, a2, a3], rows, cols, cPlus, cMinus).steps ==
      AdaptedSteps(FillMat(rows, cols, InitialStep), a3, a2, a1, cPlus, cMinus)
  {
    assert [a1, a2, a3][..2] == [a1, a2];
    assert [a1, a2][..1] == [a1];
    assert [a1][..0] == [];
    assert Epochs(s, [], rows, cols, cPlus, cMinus) == s;
    var e1 := Epochs(s, [a1], rows, cols, cPlus, cMinus);
    assert e1 == EpochState(s, a1, rows, cols, cPlus, cMinus);
    assert e1.previous == Some(a1) && e1.older.None?;
    var e2 := Epochs(s, [a1, a2], rows, cols, cPlus, cMinus);
    assert e2 == EpochState(e1, a2, rows, cols, cPlus, cMinus);
    assert e2.previous == Some(a2) && e2.older == Some(a1);
  }

  /** The weight update of an epoch: each weight moves by exactly its new step in
      the direction of the sign of its accumulated gradient, and stays where that
      gradient is 0. */
  lemma EpochMovesWeights(s: LayerState, acc: Mat, rows: nat, cols: nat, cPlus: real, cMinus: real, i: nat, j: nat)
    requires StateShaped(s, rows, cols) && Shape(acc, rows, cols) && i < rows && j < cols
    ensures var r := EpochState(s, acc, rows, cols, cPlus, cMinus);
      (acc[i][j] > 0.0 ==> r.weights[i][j] == s.weights[i][j] + r.steps[i][j]) &&
      (acc[i][j] < 0.0 ==> r.weights[i][j] == s.weights[i][j] - r.steps[i][j]) &&
      (acc[i][j] == 0.0 ==> r.weights[i][j] == s.weights[i][j])
  {
    var r := EpochState(s, acc, rows, cols, cPlus, cMinus);
    WeightUpdateEntry(s.weights, r.steps, acc, rows, cols, i, j);
  }
}
