# NeuralFinance: RPROP net trainer and data pipeline, modelled in Dafny

This project models the computational core of NeuralFinance, a web application
that estimates the next value of a financial time series with a small
feed-forward sigmoid network trained by batch RPROP.  The model covers:

- **Linear algebra** (`math.dfy`, `linalg.dfy`, `math_helper.dfy`): the classes
  `Vektor` and `Matrix` as Dafny classes over `array<real>` / `array2<real>`,
  with the in-place instance operations, the copying static operations and the
  explicit "Dimension Error" checks (a `Failure(DimensionError)` result).  Every
  method is proved against a pure specification function in module `LinAlg`.
  `MathHelper` gives the identity matrix, `sgn` and the Gram-Schmidt
  orthogonalisation of the rows of a matrix, with its orthogonality proved.
- **Gradient history** (`bounded_queue.dfy`): the fixed-capacity shift buffer
  `BoundedQueue`, newest element first.
- **Layer, Net, Training** (`layer.dfy`, `net.dfy`, `backprop.dfy`, `rprop.dfy`,
  `training.dfy`): the sigmoid layer with its bias column, stored input and
  output, delta, step-size matrix and three-slot gradient history; the net as a
  chain of layers shaped by the configured structure; the trainer, which
  replays each pattern `priority` times, accumulates the backpropagated
  gradients in gradient slot 0 and, once per epoch, adapts the step sizes by the
  RPROP sign rule (clamped to `[10^-6, 1]`) and moves the weights.  The
  gradients are tied to an independent recursive definition of the
  backpropagation deltas (`Backprop.Delta`, `Backprop.Gradient`), and one epoch
  is proved to add the priority-weighted sum of the pattern gradients.
- **Chart data** (`chart_point.dfy`, `chart.dfy`, `data_pattern.dfy`,
  `data_handler.dfy`): a `ChartPoint` is a key-sorted sequence of entries (the
  shape of a `TreeMap<String, Double>`), a `Chart` a sequence of points; sub
  charts, flattening, the combination of two points over their common keys, and
  the sliding-window pattern generator with its integer priority arithmetic.
- **Reversible transforms** (`normalizer.dfy`, `logalizer.dfy`,
  `converting_sequence.dfy`): standardisation with its round trip, the log-return
  transform and its compounding inverse, and a converter chain applied in order
  and undone in reverse.

Doubles are modelled as Dafny `real`.  The transcendental functions (`sigmoid`,
`sigmoidInv`, `Math.log`, `Math.exp`, `Math.sqrt`) are parameters of type
`real -> real`; a property that needs one to invert another states it as a
`requires`.  The random matrices drawn by `MathHelper.random` and the thread
interruption flag are inputs.  Java exceptions become `Failure` values of the
`Result` / `Outcome` types in `wrappers.dfy`.

## Model

| member | source | states |
|---|---|---|
| Math.Vektor.Of | src/math/Vektor.java:18-20 | the vector takes the given array as its storage |
| Math.Vektor.FromList | src/math/Vektor.java:23-27 | fresh storage holding the list's entries in order |
| Math.Vektor.Filled | src/math/Vektor.java:36-40 | fresh storage of length `n` whose every entry is `fill` |
| Math.Vektor.Zeros | src/math/Vektor.java:48-50 | fresh storage of `n` zeros |
| Math.Vektor.Copy | src/math/Vektor.java:53-57 | fresh storage with the same entries as the original |
| Math.Vektor.Get | src/math/Vektor.java:60-62 | returns entry `i` |
| Math.Vektor.Set | src/math/Vektor.java:65-67 | entry `i` becomes `d`, every other entry unchanged |
| Math.Vektor.DropLast | src/math/Vektor.java:80-88 | fails with a negative array size exactly on an empty vector; otherwise the storage is replaced by the entries without the last one and `this` is returned |
| Math.Vektor.Apply | src/math/Vektor.java:91-99 | a fresh vector of `f` of every entry, same length, the original unchanged |
| Math.Vektor.Norm2 | src/math/Vektor.java:114-122 | the sum of squares of the entries, never negative |
| Math.Vektor.Add | src/math/Vektor.java:125-133 | dimension error exactly on a length mismatch (vector unchanged); otherwise `v` is added entry by entry in place and `this` returned |
| Math.Vektor.Subtract | src/math/Vektor.java:136-144 | as `Add`, with the entry-wise difference |
| Math.Vektor.Scale | src/math/Vektor.java:147-152 | every entry multiplied by `lambda` in place; returns `this` |
| Math.Vektor.Scp | src/math/Vektor.java:158-168 | dimension error exactly on a length mismatch; otherwise the scalar product |
| LinAlg.DotSymmetric | src/math/Vektor.java:158-168 | the scalar product of `scp` is symmetric in its operands |
| Math.Vektor.Multiply | src/math/Vektor.java:174-182 | dimension error exactly on a length mismatch; otherwise the entry-wise product in place, returning `this` |
| Math.Vektor.DyadicProduct | src/math/Vektor.java:185-193 | a fresh `|this| × |v|` matrix with entry `(i, j)` equal to `this[i] · v[j]` |
| Math.Vektor.Sum | src/math/Vektor.java:196-206 | dimension error exactly on a length mismatch; otherwise a fresh vector `a + b`, operands unchanged |
| Math.Vektor.Difference | src/math/Vektor.java:209-219 | dimension error exactly on a length mismatch; otherwise a fresh vector `a - b` |
| Math.Vektor.Scaled | src/math/Vektor.java:222-229 | a fresh copy scaled by `lambda` |
| Math.Vektor.ScalarProduct | src/math/Vektor.java:235-245 | the static `scp` as written: never a dimension error; sums over `a`'s length, so a longer `b` is truncated and only a shorter `b` fails (index out of bounds) |
| Math.Vektor.Product | src/math/Vektor.java:251-261 | dimension error exactly on a length mismatch; otherwise a fresh entry-wise product |
| Math.Vektor.Dyadic | src/math/Vektor.java:264-272 | a fresh `|a| × |b|` matrix with entry `(i, j)` equal to `a[i] · b[j]` |
| Math.Vektor.Concat | src/math/Vektor.java:275-287 | fresh storage holding this vector's entries followed by `w`'s |
| Math.Matrix.Of | src/math/Matrix.java:25-27 | the matrix takes the given array as its storage |
| Math.Matrix.Filled | src/math/Matrix.java:37-40 | a fresh `n × m` matrix whose every entry is `fill` |
| Math.Matrix.Zeros | src/math/Matrix.java:49-51 | a fresh `n × m` matrix of zeros |
| Math.Matrix.Copy | src/math/Matrix.java:59-69 | fails with an index error exactly on a matrix of no rows (`getCols` reads row 0); otherwise same shape and entries in fresh storage, so neither matrix sees later changes to the other |
| Math.Matrix.Cloned | src/math/Matrix.java:62-68 | the copying loops: a fresh matrix with the same entries |
| Math.Matrix.Get | src/math/Matrix.java:93-95 | returns entry `(i, j)` |
| Math.Matrix.Set | src/math/Matrix.java:104-106 | entry `(i, j)` becomes `d`, every other entry unchanged |
| Math.Matrix.Fill | src/math/Matrix.java:114-119 | every entry becomes `d` |
| Math.Matrix.Add | src/math/Matrix.java:135-145 | fails exactly when rows or columns differ: an index error when both have no rows (`getCols` reads row 0), a dimension error otherwise, the matrix unchanged; otherwise `mat` is added entry by entry in place and `this` returned |
| Math.Matrix.AddInPlace | src/math/Matrix.java:139-142 | the loop of `add`: every entry becomes the sum of the two old entries |
| Math.Matrix.Subtract | src/math/Matrix.java:156-166 | `subtract` as written: the same failures as `add`, otherwise it ADDS `mat` in place |
| Math.Matrix.SubtractCorrected | src/math/Matrix.java:156-166 | `subtract` as documented: the same failures, otherwise the entry-wise difference in place |
| Math.Matrix.MultVektor | src/math/Matrix.java:203-219 | an index error on a matrix of no rows, a dimension error when the column count differs from the vector length; otherwise a fresh vector whose entry `i` is the scalar product of row `i` with `v`; the matrix is unchanged |
| Math.Matrix.MatVecLoop | src/math/Matrix.java:208-216 | the loop of the matrix-vector product: `res[i]` is the sum of `mat[i][k] · v[k]` |
| Math.Matrix.Scale | src/math/Matrix.java:228-235 | every entry multiplied by `lambda` in place; returns `this` |
| Math.Matrix.ExtractRow | src/math/Matrix.java:244-251 | a fresh copy of row `r` |
| Math.Matrix.SetRow | src/math/Matrix.java:262-268 | dimension error exactly when the column count differs from the vector length; otherwise row `r` becomes `v` and every other row is unchanged |
| Math.Matrix.Apply | src/math/Matrix.java:279-287 | an index error exactly on a matrix of no rows; otherwise a fresh matrix of `f` of every entry; this matrix unchanged |
| Math.Matrix.MapRow | src/math/Matrix.java:282-284 | the inner loop of `apply`: row `i` mapped by `f`, other rows unchanged |
| Math.Matrix.Sum | src/math/Matrix.java:325-337 | fails exactly on a shape mismatch or two matrices of no rows (index error then, dimension error otherwise); otherwise a fresh `a + b`, operands unchanged |
| Math.Matrix.Difference | src/math/Matrix.java:349-361 | the static `subtract` as written: the failures of `sum`, otherwise a fresh copy of `a` into which `b` is ADDED |
| Math.Matrix.DifferenceCorrected | src/math/Matrix.java:349-361 | the static `subtract` as documented: the failures of `sum`, otherwise a fresh `a - b` |
| Math.Matrix.MatVec | src/math/Matrix.java:399-415 | an index error when `mat` has no rows, a dimension error when its column count differs from `|v|`; otherwise a fresh `mat · v` |
| Math.Matrix.VecMat | src/math/Matrix.java:427-443 | a dimension error when `mat`'s row count differs from `|v|`, an index error when both are 0; otherwise a fresh vector of `cols` entries, entry `i` the sum of `mat[j][i] · v[j]` |
| Math.Matrix.CoordinateMult | src/math/Matrix.java:455-467 | the failures of `sum`; otherwise a fresh entry-wise product, operands unchanged |
| Math.Matrix.MultiplyInPlace | src/math/Matrix.java:461-464 | the loop of `coordinateMult`: every entry becomes the product of the two old entries |
| Math.Matrix.Scaled | src/math/Matrix.java:477-486 | an index error exactly on a matrix of no rows; otherwise a fresh copy scaled by `lambda` |
| LinAlg.Dyadic | src/math/Vektor.java:264-272 | the outer product has shape `|a| × |b|` |
| LinAlg.Norm2NonNegative | src/math/Vektor.java:114-122 | `norm2` is never negative |
| LinAlg.DyadicActsAsRankOne | src/math/Vektor.java:185-193 | the outer product maps `v` to `a · ⟨b, v⟩`, an independent description of its entries |
| LinAlg.VecMatIsTransposedMatVec | src/math/Matrix.java:427-443 | the row-vector product `v · m` equals the transpose of `m` times `v`, so the two product loops agree |
| LinAlg.IdentityNeutral | src/math/MathHelper.java:17-24 | the identity matrix leaves every vector unchanged |
| LinAlg.MatSubUndoesMatAdd | src/math/Matrix.java:156-166 | the documented subtraction undoes addition |
| LinAlg.AddIsNotSub | src/math/Matrix.java:156-166 | the subtraction as written differs from a subtraction whenever the subtrahend has a non-zero entry |
| MathHelper.Id | src/math/MathHelper.java:17-24 | a fresh `n × n` matrix with 1 on the diagonal and 0 elsewhere |
| MathHelper.Sgn | src/math/MathHelper.java:105-110 | 0 exactly for 0, 1 for positive and -1 for negative arguments |
| MathHelper.SgnScalesToAbsolute | src/math/MathHelper.java:105-110 | `sgn(x) · x` is the absolute value of `x`, and `sgn` is odd |
| MathHelper.Reduce | src/math/MathHelper.java:61-66 | the reduced row keeps the length of the row |
| MathHelper.Ortho | src/math/MathHelper.java:58-69 | the matrix after some outer turns keeps its shape |
| MathHelper.Orthogonalized | src/math/MathHelper.java:55-70 | the orthogonalised matrix keeps its shape |
| MathHelper.OrthoKeepsRows | src/math/MathHelper.java:58-69 | row 0 and every row not yet reached are unchanged |
| MathHelper.OrthoStable | src/math/MathHelper.java:58-69 | a row, once processed, is never changed by later turns |
| MathHelper.OrthogonalizedKeepsRows | src/math/MathHelper.java:56-58 | the shape, row 0, and every row at index at least `min(rows, cols)` are unchanged |
| MathHelper.ReduceOrthogonal | src/math/MathHelper.java:61-66 | a row reduced against pairwise orthogonal rows of non-zero norm is orthogonal to each of them |
| MathHelper.OrthoOrthogonal | src/math/MathHelper.java:58-69 | after `r` turns, rows `0 .. r-1` are pairwise orthogonal |
| MathHelper.OrthogonalizedIsOrthogonal | src/math/MathHelper.java:55-70 | the processed rows of the result are pairwise orthogonal when every direction used has a non-zero norm |
| MathHelper.ReduceRow | src/math/MathHelper.java:59-66 | a fresh copy of row `r` reduced against rows `0 .. r-1` in ascending order; the matrix is unchanged |
| MathHelper.ReduceAgainst | src/math/MathHelper.java:62-65 | one reduction: `nextCol` loses its projection `(⟨nextCol, passed⟩ / norm2(passed)) · passed` |
| MathHelper.Orthogonalize | src/math/MathHelper.java:55-70 | an index error exactly on a matrix of no rows; the matrix becomes the Gram-Schmidt reduction of its rows `1 .. min(rows, cols)-1` |
| MathHelper.OrthogonalizeRow | src/math/MathHelper.java:58-69 | one outer turn: row `r` replaced by its reduction, shape kept |
| BoundedQueues.Pushed | src/util/BoundedQueue.java:13-18 | a push keeps the capacity |
| BoundedQueues.PushedShifts | src/util/BoundedQueue.java:13-18 | after a push, slot 0 holds the new element and slot `i` the old slot `i - 1` |
| BoundedQueues.PushedLosesOnlyLast | src/util/BoundedQueue.java:13-18 | a push loses the old last element and nothing else, and gains only the new one |
| BoundedQueues.PushedAll | src/util/BoundedQueue.java:13-18 | a run of pushes keeps the capacity |
| BoundedQueues.PushedAllShifts | src/util/BoundedQueue.java:13-18 | after `k` pushes, slot `i ≥ k` holds the old slot `i - k` |
| BoundedQueues.BoundedQueue.constructor | src/util/BoundedQueue.java:8-10 | `length` empty slots |
| BoundedQueues.BoundedQueue.Get | src/util/BoundedQueue.java:22-24 | returns slot `i` |
| BoundedQueues.BoundedQueue.Push | src/util/BoundedQueue.java:13-18 | with capacity 0 the write to slot 0 fails and nothing changes; otherwise the contents become the shifted contents with the new element in front |
| DataPatterns.WithDefaultPriority | src/data/DataPattern.java:58-60 | the pattern stores input and output as given, with priority 1 |
| DataPatterns.Replays | src/net/Training.java:114 | the replay loop runs `priority` times when the priority is positive and not at all otherwise |
| Layers.LambdaOf | src/net/Layer.java:150-152 | `λ[u] = out[u] · (1 - out[u])`, same length as the output |
| Layers.AddedToSlot0 | src/net/Layer.java:251-253 | adding into slot 0 keeps the history's length and shape and every other slot |
| Layers.Layer.constructor | src/net/Layer.java:64-78 | weights of shape `outputLength × (inputLength + 1)` made from the drawn matrix by orthogonalisation, zero step sizes, zero input and output of those lengths, a history of one zero gradient and two empty slots |
| Layers.Layer.ExtendInput | src/net/Layer.java:87-94 | the stored input becomes the argument followed by the bias input 1; nothing else changes |
| Layers.Layer.Feed | src/net/Layer.java:103-107 | the extended input is stored; an index error on a layer of no neurons, a dimension error when `|in| + 1` differs from the column count (output unchanged either way); otherwise the output is the sigmoid of `weights · input` |
| Layers.Layer.Lambda | src/net/Layer.java:150-152 | `getLambda` has one entry per neuron |
| Layers.Layer.CalcDeltaFromNext | src/net/Layer.java:163-178 | `delta[u] = (Σ_succ next.weights[succ][u] · next.delta[succ]) · out[u] · (1 - out[u])`, stored as the delta; nothing else changes |
| Layers.Layer.CalcDeltaFromTarget | src/net/Layer.java:187-195 | `delta[u] = (target[u] - out[u]) · out[u] · (1 - out[u])`, stored as the delta |
| Layers.Layer.AddGradient | src/net/Layer.java:251-253 | fails exactly on a shape mismatch or a layer of no neurons (index error when `g` has no rows either, dimension error otherwise), nothing changing; otherwise `g` is added into slot 0 only |
| Layers.Layer.ApplyWeightChanges | src/net/Layer.java:263-268 | an index error on a layer of no neurons, weights and gradients unchanged; otherwise `weights += weightsDiff ⊙ sgn(g0)`, then a zero matrix is pushed, so old slot 0 moves to slot 1 and old slot 1 to slot 2 |
| Layers.WeightUpdateEntry | src/net/Layer.java:263-265 | each weight moves by exactly its step size in the direction of the sign of its gradient, and stays put where the gradient is 0 |
| Layers.CalcDeltaMatchesBackpropagation | src/net/Layer.java:163-178 | the delta of `calcDelta(next)` equals the one backpropagation computes: `next.delta · next.weights` without the bias entry, times `λ` |
| Nets.Structure | src/net/Net.java:48-54 | `[estimateLength · numberChartValues] ++ hiddenLayers ++ [1]` |
| Nets.Forward | src/net/Net.java:71-77 | the output of layer `k` has `structure[k + 1]` entries |
| Nets.LayerInput | src/net/Net.java:71-75 | the extended input of layer `k` has `structure[k] + 1` entries |
| Nets.BuildLayers | src/net/Net.java:57-59 | one fresh, distinct layer per drawn matrix, layer `k` of shape `structure[k + 1] × (structure[k] + 1)`, in its initial state |
| Nets.Net.constructor | src/net/Net.java:46-60 | the structure as above, `estimateLength` stored, `|hidden| + 1` fresh layers in their initial state |
| Nets.FirstEmptyLayer | src/net/Net.java:74-75 | the index of the first layer without neurons, every layer before it non-empty; the last layer exactly when none is empty |
| Nets.Net.Feed | src/net/Net.java:71-78 | fails exactly when the input does not fit the first layer or some layer has no neurons (an index error when that layer comes first or the input fits, a dimension error otherwise); on success every layer holds the input and output of the forward pass, and the result is the last layer's one-entry output; weights unchanged |
| Nets.Net.FeedHidden | src/net/Net.java:74-75 | layers `1, 2, ...` fed in ascending order, each with the output of the one before; an index error exactly when one of them has no neurons |
| Nets.Net.FeedLayer | src/net/Net.java:75 | layer `i` fed with the output of layer `i - 1`; an index error exactly when it has no neurons |
| Nets.Net.First | src/net/Net.java:109-111 | the first layer, with `structure[0] + 1` weight columns |
| Nets.Net.Last | src/net/Net.java:119-121 | the last layer, a single neuron |
| Nets.Net.Get | src/net/Net.java:87-89 | layer `i`, of shape `structure[i + 1] × (structure[i] + 1)` |
| Backprop.OutputDelta | src/net/Training.java:87-88 | the output delta has one entry per output |
| Backprop.HiddenDelta | src/net/Training.java:92-94 | a hidden delta has one entry per neuron of its layer |
| Backprop.Delta | src/net/Training.java:87-94 | the delta of layer `k` has `structure[k + 1]` entries |
| Backprop.Gradient | src/net/Training.java:89-96 | the gradient of layer `k` has the layer's weight shape |
| Backprop.Replayed | src/net/Training.java:114-117 | replays keep the accumulator's shape |
| Backprop.Accumulated | src/net/Training.java:112-118 | the accumulated slot 0 keeps the weight shape |
| Backprop.FirstFailure | src/net/Training.java:112-118 | the index of the first replayed pattern that cannot be trained with: all before it can, the one there is replayed and cannot |
| Backprop.WeightedSum | src/net/Training.java:112-118 | the priority-weighted gradient sum has the weight shape |
| Backprop.FirstFailureIs | src/net/Training.java:112-118 | any index with the first-failure property is the first failure |
| Backprop.ChainedDeltas | src/net/Training.java:91-97 | deltas chained backwards from the output delta through the following layers' weights are the recursive deltas |
| Backprop.OutputDeltaIsCalcDelta | src/net/Layer.java:187-195 | the output delta of backpropagation is the one `calcDelta(target)` computes |
| Backprop.HiddenDeltaIsCalcDelta | src/net/Layer.java:163-178 | a hidden delta of backpropagation is the one `calcDelta(next)` computes |
| Backprop.GradientEntries | src/net/Training.java:89-96 | gradient entry `(i, j)` is delta `i` times input `j`; the bias column is the delta itself |
| Backprop.ReplayedIsScaled | src/net/Training.java:114-117 | `n` replays add `n` times the pattern's gradient |
| Backprop.AccumulatedIsWeightedSum | src/net/Training.java:112-118 | an epoch adds `Σ priority(p) · gradient(p)` to slot 0 |
| Rprop.Increased | src/net/Training.java:195-198 | `min(step · c_p, 1)`: never above 1 |
| Rprop.Decreased | src/net/Training.java:209-212 | `max(step · c_m, 10^-6)`: never below `10^-6` |
| Rprop.AdaptedSteps | src/net/Training.java:171-183 | every entry follows the sign rule on its three gradients; the shape is kept |
| Rprop.NextSteps | src/net/Training.java:165-184 | the step sizes after `calcWeightChanges` keep the weight shape |
| Rprop.EpochState | src/net/Training.java:121-124 | one epoch of a layer keeps its shapes, records the accumulated gradient as slot 1 and the old slot 1 as slot 2 |
| Rprop.Epochs | src/net/Training.java:139-145 | any run of epochs keeps the layer's shapes |
| Rprop.StepStaysInBounds | src/net/Training.java:195-212 | with `c_p ≥ 1` and `0 < c_m ≤ 1`, a step within `[10^-6, 1]` stays within it |
| Rprop.StepDirection | src/net/Training.java:178-181 | a step grows only while the gradient keeps its sign, shrinks only when it flips, and stays when the newest product is 0 or the older one is negative |
| Rprop.NextStepsInBounds | src/net/Training.java:165-184 | after `calcWeightChanges` every step lies within `[10^-6, 1]` |
| Rprop.EpochsStayInBounds | src/net/Training.java:165-212 | the clamps hold after any number of epochs whatever the gradients |
| Rprop.FirstAdaptationInThirdEpoch | src/net/Training.java:165-169 | a new layer's first two epochs reset every step to 0.1; the third is the first to adapt, from 0.1 |
| Rprop.EpochMovesWeights | src/net/Layer.java:263-265 | in an epoch every weight moves by its new step in the direction of the sign of its accumulated gradient |
| Trainings.Training.constructor | src/net/Training.java:57-64 | stores the net and the factors `c_p`, `c_m`; epoch 0, no patterns |
| Trainings.Training.SetPatterns | src/net/Training.java:237-239 | the patterns are replaced, nothing else changes |
| Trainings.Training.Backpropagation | src/net/Training.java:82-98 | run right after a successful feed: fails (dimension error, nothing changed) exactly when the target does not fit the output; otherwise every layer has its recursive gradient added to slot 0 and nothing else changes |
| Trainings.Training.ReceivedGradients | src/net/Training.java:91-97 | the deltas of the loop are the recursive deltas, so every layer received its gradient |
| Trainings.Training.BackpropagateFrom | src/net/Training.java:91-97 | the loop from the output layer down: deltas chained layer by layer, each layer receiving `dyadic(delta, input)` |
| Trainings.Training.BackpropagateTop | src/net/Training.java:91-96 | the output layer receives `dyadic(delta, input)` first, starting the loop state |
| Trainings.Training.BackpropagateDown | src/net/Training.java:92-97 | the loop runs down to layer 0, keeping the loop state |
| Trainings.Training.BackpropagateStep | src/net/Training.java:92-96 | one turn of the loop keeps the loop state, one layer further |
| Trainings.Training.PropagatedDelta | src/net/Training.java:92-94 | the delta of layer `k - 1` is `(delta · W_k)` without the bias entry, times `λ` |
| Trainings.Training.AddLayerGradient | src/net/Training.java:96 | layer `k` receives `dyadic(delta, input)` in slot 0; nothing else changes |
| Trainings.Training.TrainEpoch | src/net/Training.java:110-130 | missing patterns fail at once; otherwise each pattern is replayed `priority` times before any weight changes; the epoch fails at the first pattern that cannot be trained with (its feed's error), keeping weights and steps; otherwise the layers before the first one without neurons get their RPROP epoch update on the weighted gradient sum, and the update stops there with an index error |
| Trainings.Training.ReplayAll | src/net/Training.java:112-118 | succeeds exactly when no replayed pattern is untrainable, failing with the first such pattern's error; slot 0 then holds the gradients of all replays |
| Trainings.Training.ReplayNext | src/net/Training.java:112-118 | one pattern more is replayed, or the state is kept on failure |
| Trainings.Training.ReplayStart | src/net/Training.java:114 | the loop state before the first replay: no replay done, each layer's gradient the recursive one of the pattern |
| Trainings.Training.ReplayPattern | src/net/Training.java:114-117 | either all `priority` replays succeed or the first fails before any gradient changes |
| Trainings.Training.ReplayLoop | src/net/Training.java:114-117 | the replay loop reaches `priority` replays or fails on the first |
| Trainings.Training.ReplayOnce | src/net/Training.java:115-116 | one feed and backpropagation: fails, changing nothing, exactly when the pattern cannot be trained with |
| Trainings.Training.FeedReplaying | src/net/Training.java:115 | feeding fails exactly when the input does not fit or a layer has no neurons, with the feed's error; it leaves the gradients alone |
| Trainings.Training.BackpropagateReplaying | src/net/Training.java:116 | backpropagating adds one more copy of the pattern's gradient |
| Trainings.Training.CalcWeightChanges | src/net/Training.java:165-184 | the step sizes become `NextSteps`: all 0.1 while slot 2 is empty, otherwise the sign rule entry by entry; nothing else changes |
| Trainings.Training.IncreaseWeightsDiff | src/net/Training.java:195-198 | step `(i, j)` becomes `min(step · c_p, 1)`, every other step unchanged |
| Trainings.Training.DecreaseWeightsDiff | src/net/Training.java:209-212 | step `(i, j)` becomes `max(step · c_m, 10^-6)`, every other step unchanged |
| Trainings.Training.UpdateAll | src/net/Training.java:121-124 | the layers get their epoch update in order up to the first one without neurons, where it stops with an index error, later layers unchanged |
| Trainings.Training.UpdateLayer | src/net/Training.java:122-123 | `calcWeightChanges` then `applyWeightChanges` on layer `k` only; the latter fails with an index error on a layer of no neurons, leaving weights and gradients |
| Trainings.Training.TrainEpochs | src/net/Training.java:139-145 | `maxEpochs` set to `epochs`; epochs run until `epochs` have run or the interruption flag is set before one; `epoch ≤ epochs` afterwards |
| ChartPoints.GetFindsEntries | src/data/ChartPoint.java:16 | a key is found exactly when the point holds it, with its stored value |
| ChartPoints.PutGet | src/data/ChartPoint.java:16 | after `put(key, value)` the key maps to `value` and every other key keeps its value |
| ChartPoints.PutOrdered | src/data/ChartPoint.java:16 | `put` adds exactly its key and keeps the keys in sorted order |
| ChartPoints.PutExisting | src/data/ChartPoint.java:63-66 | `put` on a present key rewrites that entry in place |
| ChartPoints.BelowTotal | src/data/ChartPoint.java:16 | the key order (lexicographic by code point) is total |
| ChartPoints.BelowTransitive | src/data/ChartPoint.java:16 | the key order is transitive |
| ChartPoints.OrderedByKeySet | src/data/ChartPoint.java:16 | two sorted points with the same keys list them in the same order |
| ChartPoints.FromKeysValues | src/data/ChartPoint.java:49-55 | fails exactly when the array is shorter than the key set; otherwise a sorted point holding exactly the keys, key `k` mapped to `values[k]`, and for a sorted key set the value array is `values` |
| ChartPoints.RebuiltFromValues | src/data/ChartPoint.java:49-60 | a point rebuilt from its own key set and value array is the point |
| ChartPoints.Apply | src/data/ChartPoint.java:63-66 | the instance `apply` equals the static one: same keys, values mapped by `op` |
| ChartPoints.Map1 | src/data/ChartPoint.java:84-89 | the copy has the point's keys in the same order and stays key-sorted (values characterised by `ChartPoints.Map1KeepsKeys`) |
| ChartPoints.Map1KeepsKeys | src/data/ChartPoint.java:84-89 | the static `apply` keeps the keys and their order and maps each value by `op` |
| ChartPoints.Map1Inverse | src/data/ChartPoint.java:84-89 | mapping by `f` then by an inverse `g` gives back the point |
| ChartPoints.Map2 | src/data/ChartPoint.java:69-81 | at most as many entries as `a`, only keys of `a`, and nothing when `b` is empty (exact contents characterised by `ChartPoints.Map2Get`) |
| ChartPoints.Map2Get | src/data/ChartPoint.java:69-81 | the combined point holds exactly the common keys, each with `op` of the two values |
| ChartPoints.Map2Ordered | src/data/ChartPoint.java:69-81 | the combined point is sorted and its key set is the intersection |
| ChartPoints.Map2SameKeys | src/data/ChartPoint.java:69-81 | points with the same keys combine entry by entry |
| Charts.Last | src/data/Chart.java:33-35 | fails exactly on an empty chart; otherwise the point at `size - 1` |
| Charts.KeySetOf | src/data/Chart.java:38-43 | `null` exactly for an empty chart; otherwise the first point's keys in order |
| Charts.SubChart | src/data/Chart.java:46-48 | fails exactly outside `0 ≤ from ≤ to ≤ size` (with the `subList` exceptions); otherwise `to - from` points equal to the chart's `[from, to)` |
| Charts.SubChartFrom | src/data/Chart.java:51-53 | the same as `subChart(from, size)` |
| Charts.SubChartSplits | src/data/Chart.java:46-53 | head and tail make the chart; a window of a window is a window; the last point of a window is the chart's point before `to` |
| Charts.Series | src/data/Chart.java:28-30 | one entry per point; a present entry is a value that point stores under the key (absent keys give `None`, Java's `null`) |
| Charts.SeriesOfWindow | src/data/Chart.java:28-30 | the series of a window is the window of the series |
| Charts.Apply | src/data/Chart.java:56-60 | same length, every point keeping its keys in their order (values characterised by `Charts.ApplyKeepsShape`) |
| Charts.ApplyKeepsShape | src/data/Chart.java:56-60 | `apply` keeps the length, every point's keys and order, and maps every series entry by `op` |
| Charts.ApplyInverse | src/data/Chart.java:56-60 | applying `f` and then an inverse `g` gives back the chart |
| Charts.Flatten | src/data/Chart.java:63-72 | the values of every point, point by point, in key order |
| Charts.FlattenedLength | src/data/Chart.java:63-72 | the flattened length is the total number of values; `n` points of `k` values give `n · k` |
| Normalizers.MeanFoldIsAverage | src/data/Normalizer.java:34-35 | the mean reduction `a + b / n` is the average |
| Normalizers.VarianceFoldIsSample | src/data/Normalizer.java:37-38 | the variance reduction is the squared deviation over `n - 1`, never negative |
| Normalizers.FromChart | src/data/Normalizer.java:32-40 | fails on an empty chart, a first point without keys, or a point lacking the first key; otherwise mean is the average and sd the square root of the sample variance of the first key's series |
| Normalizers.DeviationSquares | src/data/Normalizer.java:37-39 | with a true square root, sd is non-negative and squares to the sample variance |
| Normalizers.Convert | src/data/Normalizer.java:59-61 | `reconvert` undoes it, and exactly the mean converts to 0 |
| Normalizers.Reconvert | src/data/Normalizer.java:68-70 | with a non-zero deviation `convert` undoes it; exactly 0 reconverts to the mean |
| Normalizers.ConvertRoundTrip | src/data/Normalizer.java:59-70 | `reconvert(convert(d)) == d`, `convert(reconvert(d)) == d`, and the mean converts to 0 |
| Normalizers.ConvertScale | src/data/Normalizer.java:59-61 | one standard deviation above (below) the mean converts to 2 (-2) |
| Normalizers.ConvertChart | src/data/Normalizer.java:44-46 | same length and keys per point (`Normalizers.ChartRoundTrip` shows `reconvertChart` undoes it) |
| Normalizers.ReconvertChart | src/data/Normalizer.java:50-52 | same length and keys per point |
| Normalizers.ChartRoundTrip | src/data/Normalizer.java:44-52 | `reconvertChart` and `convertChart` undo each other |
| Normalizers.ConvertVektor | src/data/Normalizer.java:74-76 | a fresh vector of the converted entries |
| Normalizers.ReconvertVektor | src/data/Normalizer.java:80-82 | a fresh vector of the reconverted entries; the key plays no part |
| Normalizers.VektorRoundTrip | src/data/Normalizer.java:74-82 | the vector conversions undo each other entry by entry |
| Logalizers.FromChart | src/data/Logalizer.java:22-24 | fails exactly on an empty chart; otherwise the start point is the first point |
| Logalizers.LogReturn | src/data/Logalizer.java:31-33 | an unchanged value has log return 0 (given `ln 1 = 0`); a zero `first` gives 0 here (see Left out) |
| Logalizers.Grow | src/data/Logalizer.java:40-42 | a zero return keeps the value (given `exp 0 = 1`), and 0 stays 0; `Logalizers.GrowUndoesLogReturn` shows it inverts `LogReturn` |
| Logalizers.GrowUndoesLogReturn | src/data/Logalizer.java:31-42 | with `exp` inverting `ln`, `reconvert(a, convert(a, b)) == b` for positive `a`, `b` |
| Logalizers.LogReturns | src/data/Logalizer.java:46-59 | `n` points give `max(0, n - 1)` log-return points |
| Logalizers.ConvertChart | src/data/Logalizer.java:46-59 | point `k` combines points `k` and `k + 1` over their common keys |
| Logalizers.Regrown | src/data/Logalizer.java:63-77 | the reconverted chart has the length of the converted one |
| Logalizers.ReconvertChart | src/data/Logalizer.java:63-77 | point 0 grows the start point, point `k` grows the reconverted point `k - 1` |
| Logalizers.PointRoundTrip | src/data/Logalizer.java:53-71 | one point grown by the log returns towards the next is the next point |
| Logalizers.ChartRoundTrip | src/data/Logalizer.java:46-77 | for positive prices with the same keys everywhere, reconverting the converted chart from its first point gives the chart without that point |
| Logalizers.ConvertFromFirst | src/data/Logalizer.java:83-86 | entries from index 1 on replaced in place by their log return from entry 0 |
| Logalizers.ConvertVektorAsWritten | src/data/Logalizer.java:81-89 | fails on an empty vector; otherwise the ARGUMENT is converted and an unconverted fresh copy is returned |
| Logalizers.ConvertVektor | src/data/Logalizer.java:81-89 | the intended conversion: a fresh vector of entry 0 and the log returns from it, argument untouched |
| Logalizers.ReturnsFromFirstRoundTrip | src/data/Logalizer.java:81-89 | growing entry 0 by a converted entry gives back the original entry |
| Logalizers.ConvertVektorLosesConversion | src/data/Logalizer.java:81-89 | `[1, 1]` converts to `[1, 0]`, which the code as written does not return |
| Logalizers.Compounded | src/data/Logalizer.java:93-103 | the compounded vector keeps the length |
| Logalizers.ReconvertVektor | src/data/Logalizer.java:93-103 | fails exactly when the start point lacks the key; otherwise a fresh vector whose entry `i` compounds entries `0 .. i` from the key's start value |
| Logalizers.CompoundedStep | src/data/Logalizer.java:97-100 | one turn of the loop: the next entry is replaced by the next level |
| Logalizers.CompoundedRoundTrip | src/data/Logalizer.java:93-103 | compounding a positive series' log returns from its first value gives back the rest |
| Logalizers.LevelReaches | src/data/Logalizer.java:97-100 | compounding the first `n` log returns reaches value `n` |
| ConvertingSequences.ConvertWith | src/util/Converter.java:9 | `convertChart` of the converter's kind |
| ConvertingSequences.ReconvertWith | src/util/Converter.java:12 | `reconvertChart` of the converter's kind |
| ConvertingSequences.Convert | src/util/ConvertingSequence.java:51-53 | fails exactly on an index outside the list; otherwise converter `index` alone is applied |
| ConvertingSequences.Reconvert | src/util/ConvertingSequence.java:56-58 | fails exactly on an index outside the list; otherwise converter `index` alone is undone |
| ConvertingSequences.ApplyInOrder | src/util/ConvertingSequence.java:31-38 | the converters applied first to last; an empty list gives the chart back |
| ConvertingSequences.ApplyInReverse | src/util/ConvertingSequence.java:41-48 | the converters undone last to first; an empty list gives the chart back |
| ConvertingSequences.SubSequence | src/util/ConvertingSequence.java:61-63 | fails exactly outside `0 ≤ from ≤ size`; otherwise the converters from `from` on, in order |
| ConvertingSequences.SubSequenceContinues | src/util/ConvertingSequence.java:61-63 | the first `from` converters followed by the sub-sequence are the whole sequence |
| ConvertingSequences.RoundTrip | src/util/ConvertingSequence.java:31-48 | when each converter undoes itself on the chart it meets, `applyInReverse(applyInOrder(c)) == c` |
| ConvertingSequences.NormalizingUndoes | src/data/Normalizer.java:44-52 | a normalizer converter undoes itself on every chart |
| ConvertingSequences.LogalizingRegrows | src/data/Logalizer.java:46-77 | a logalizer converter made for the chart gives back the chart without its first point |
| DataHandlers.MakeInputNetReadable | src/data/DataHandler.java:151-156 | fails exactly on an empty window (no logalizer) or an empty handler (no normalizer) |
| DataHandlers.InputLength | src/data/DataHandler.java:151-156 | `m + 1` points of `k` keys give an input of `m · k` values |
| DataHandlers.MakeOutputNetReadable | src/data/DataHandler.java:139-148 | fails exactly on an empty chart or a missing value; otherwise a one-entry vector |
| DataHandlers.OutputRecoverable | src/data/DataHandler.java:139-148 | undoing sigmoid, normalization and log return recovers the estimated value of the last output point |
| DataHandlers.PrioritiesRise | src/data/DataHandler.java:119-120 | priorities are at least 1 and never fall from one pattern to the next |
| DataHandlers.Windows | src/data/DataHandler.java:109-121 | one window per pattern, `size - 2e` of them |
| DataHandlers.Collect | src/data/DataHandler.java:109-121 | a successful fill has one pattern per window |
| DataHandlers.CollectAll | src/data/DataHandler.java:109-121 | a successful fill holds every window's pattern, in order |
| DataHandlers.CollectSticks | src/data/DataHandler.java:109-121 | the first exception ends the fill |
| DataHandlers.GetTrainingPatterns | src/data/DataHandler.java:104-124 | the loop yields `TrainingPatterns`: failures for an empty handler, a negative count or length, or the first failing window, otherwise every window's pattern |
| DataHandlers.MakePattern | src/data/DataHandler.java:111-120 | the body of the loop computes the pattern of window `i` |
| DataHandlers.PatternShapes | src/data/DataHandler.java:104-124 | a successful run gives `size - 2e` patterns with the position's priority, a one-entry target, and for uniform keys an input of exactly the net's input size |
| DataHandlers.PatternsPrioritised | src/data/DataHandler.java:116-120 | every pattern of a successful run has the priority of its position and a one-entry target |
| DataHandlers.PatternsInputShaped | src/data/DataHandler.java:113-114 | with uniform keys every pattern of a successful run has the net's input size |
| DataHandlers.PatternOfWindowShape | src/data/DataHandler.java:116-120 | pattern `i` of a successful run has the priority of position `i` |
| DataHandlers.PatternIsWindow | src/data/DataHandler.java:109-120 | pattern `i` of a successful run is the pattern of window `i` |
| DataHandlers.PatternShape | src/data/DataHandler.java:116-120 | a window's pattern has priority at least 1 and a one-entry target |
| DataHandlers.PatternInputShape | src/data/DataHandler.java:113-114 | with uniform keys an input has `e` values per key |
| DataHandlers.PatternInput | src/data/DataHandler.java:111-114 | the input of window `i`'s pattern is made from the window's first `e + 1` points |
| DataHandlers.WindowInputLength | src/data/DataHandler.java:111-114 | with uniform keys, those `e + 1` points give an input of `e` values per key |
| DataHandlers.SixPointsTwoPatterns | src/data/DataHandler.java:119-120 | six points and `e = 2` give two patterns with priorities 2 and 4 |
| DataHandlers.ZeroEstimateFails | src/data/DataHandler.java:113-117 | `e = 0` fails on the first window, which has no output point |

## Left out

- Input and output: `DataHandler.readData` (JSON ingestion) and `makeOutputHumanReadable`, the servlet (`src/controller/ControllerServlet.java`, `src/controller/RequestDescription.java`) and the browser code under `WebContent/js` are not part of this model.
- Floating point: doubles are reals, so rounding, NaN and infinity are not modelled; `MathHelper.round` and the `toString` methods are left out.
- Transcendental functions: `sigmoid`, `sigmoidInv`, `Math.log`, `Math.exp` and `Math.sqrt` are function parameters; the lemmas that need one to invert another say so in their requires.
- `MathHelper.random`: the matrices it draws are inputs (`randoms` of `Nets.Net.constructor`, `random` of `Layers.Layer.constructor`).
- src/net/Sigmoider.java is not part of this model; it only wraps `sigmoid` and `sigmoidInv`.
- `src/util/Converter.java` and `src/util/BinaryConverter.java` become the tagged datatype `ConvertingSequences.Converter` (normalizer or logalizer) instead of interfaces.
- Matrix × Matrix (`Matrix.mult(Matrix)` and the static `mult(Matrix, Matrix)`): their inner loop increments `i` instead of `j`, and training never calls them.
- Concurrency: `Net.feed` is `synchronized` and `train(epochs)` checks `Thread.interrupted()`; the model has no locks and takes the interruption as an input function of the epoch number.
- Aliasing: `Math.Vektor.Of` and `Math.Matrix.Of` take the caller's array, but no model member relies on sharing storage with the caller.
- Integer width: Java `int` arithmetic (`2 * estimateLength`, the pattern count) is unbounded here; 32-bit overflow is not modelled.
- Layers.Layer.constructor: requires the drawn matrix to have non-zero row norms where orthogonalisation divides by them (Java would produce NaN); the same holds for MathHelper.Orthogonalize.
- Normalizers.FromChart: requires that a chart of one point has no keys, because one value makes Java divide `0` by `n - 1 = 0` (NaN).
- Normalizers.ConvertChart, Normalizers.Convert, Normalizers.ConvertVektor, ConvertingSequences.Convert, ConvertingSequences.ConvertWith, ConvertingSequences.ApplyInOrder, DataHandlers.MakeInputNetReadable, DataHandlers.MakeOutputNetReadable and DataHandlers.GetTrainingPatterns (the last two through `DataHandlers.Usable`): require a non-zero standard deviation, where Java would divide by zero.
- Logalizers.LogReturn: a zero `first` divides by zero in Java; the model gives it the value 0 and every lemma about it requires positive values.
- Layers.Layer.CalcDeltaFromTarget: requires the target to be at least as long as the layer; Java would throw an index error for a shorter target (training itself computes its deltas without this method).
- Layers.Layer.CalcDeltaFromNext: requires the following layer to have a delta of its size and this layer's size below its column count, where Java would throw on a null delta or an index error.
- DataHandlers.MakePattern: computes the priority divisor as `size - 2e - i`, which is the pattern count minus `i` as in the code.
- Nets.Net.constructor, Math.Vektor.Filled, Math.Vektor.Zeros, Math.Matrix.Filled, Math.Matrix.Zeros and BoundedQueues.BoundedQueue.constructor: the sizes `estimateLength`, `numberChartValues` and the hidden layer sizes (and the lengths and shapes of the other constructors) are `nat`, so a negative size, for which Java throws `NegativeArraySizeException` while allocating (or, for an input size of -1, builds a layer of no columns), is not modelled: a Dafny constructor cannot fail.
- ChartPoints.Below: keys are compared by code point, while `String.compareTo` compares UTF-16 code units; the two orders differ only between a character above U+FFFF and one in U+E000 .. U+FFFF.
- Trainings.Training.Backpropagation: requires every layer to have neurons, as it runs only after a successful `feed`, which fails otherwise.
- Math.Matrix.ExtractRow and Math.Matrix.SetRow: require a row index in range; Java throws on an index out of range except on a matrix of no columns, where its loops do nothing.
- `Vektor.getLength`, `Layer.getSize`, `Layer.getGradient`, `BoundedQueue.getLength` and `Net.getEstimateLength` are plain accessors (`Length`, `Size`, `Gradient`, `GetLength`, the field `estimateLength`) with no contract of their own; the getters of `DataPattern` are the fields of the datatype.
- The gradient history of a layer is kept as a value sequence updated through `BoundedQueues.Pushed`, the same function the `BoundedQueue` class is proved against, rather than as a `BoundedQueue` object inside the layer; the weight and step-size matrices of a layer are likewise value fields, not `Matrix` objects.

## Findings

| source | as written | input that shows it | evidently intended | confidence | as-written member | corrected member |
|---|---|---|---|---|---|---|
| src/math/Matrix.java:156-166 | instance and static `subtract` add `mat` (`+=`, `+`) after the shape check | `[[1]] - [[1]]` gives `[[2]]` | the entry-wise difference, `[[0]]`, as the documentation says | high, not executed | Math.Matrix.Subtract, Math.Matrix.Difference, LinAlg.AddIsNotSub | Math.Matrix.SubtractCorrected, Math.Matrix.DifferenceCorrected, LinAlg.MatSubUndoesMatAdd |
| src/data/Logalizer.java:81-89 | `convertVektor` copies the vector, converts the argument in place and returns the unconverted copy | `[1, 1]` (with `ln(1) = 0`) comes back as `[1, 1]` | a fresh vector `[1, 0]` of entry 0 and the log returns from it | high, not executed | Logalizers.ConvertVektorAsWritten, Logalizers.ConvertVektorLosesConversion | Logalizers.ConvertVektor, Logalizers.ReturnsFromFirstRoundTrip |
