/** `DataHandler`: cuts the data set into sliding windows and turns each window
    into a training pattern for the net.

    A window of `2e + 1` points, for an estimate length `e`, splits into the
    first `e + 1` points, whose log returns (normalized) make the net input, and
    the last `e` points, of which the last one, taken relative to point `e`,
    makes the desired output. */
module DataHandlers {
  import opened Wrappers
  import opened ChartPoints
  import opened Charts
  import opened DataPatterns
  import Normalizers
  import Logalizers
  import LinAlg
  import Nets

  /** The handler as the constructor leaves it (every field `null`) or as
      `readData` leaves it (the data set, the logalizer made from it, the
      normalizer of its log returns and the name of the estimated value). */
  datatype DataHandler =
    | Empty
    | Loaded(data: Chart, logalizer: Logalizers.Logalizer, normalizer: Normalizers.Normalizer, outputValue: string)

  /** The normalizer divides by its standard deviation. */
  predicate Usable(h: DataHandler) {
    h.Loaded? ==> h.normalizer.sd != 0.0
  }

  // ------------------------------------------------------ single windows

  /** `makeInputNetReadable(input)`: the log returns of the points, normalized and
      flattened.  A logalizer cannot be made for an empty chart; the normalizer
      of an empty handler is `null`. */
  function MakeInputNetReadable(h: DataHandler, input: Chart, ln: real -> real): (r: Result<LinAlg.Vec>)
    requires Usable(h)
    ensures r.Failure? <==> |input| == 0 || h.Empty?
    ensures r.Failure? ==> r.error == if |input| == 0 then IndexOutOfBounds else NullReference
  {
    match Logalizers.FromChart(input)
    case Failure(err) => Failure(err)
    case Success(_) =>
      if h.Empty? then Failure(NullReference)
      else Success(Flattened(Normalizers.ConvertChart(h.normalizer, Logalizers.LogReturns(ln, input))))
  }

  /** `makeOutputNetReadable(output, lastInput)`: the estimated value of the last
      output point as a log return from `lastInput`, normalized and squashed by
      the sigmoid, as a one-entry vector.  An empty chart has no last point; a
      missing value is `null` and cannot be unboxed. */
  function MakeOutputNetReadable(h: DataHandler, output: Chart, lastInput: Point, ln: real -> real,
                                 sigmoid: real -> real): (r: Result<LinAlg.Vec>)
    requires Usable(h)
    ensures r.Failure? <==>
      |output| == 0 || h.Empty? ||
      ChartPoints.Get(output[|output| - 1], h.outputValue).None? || ChartPoints.Get(lastInput, h.outputValue).None?
    ensures r.Failure? ==> r.error == if |output| == 0 then IndexOutOfBounds else NullReference
    ensures r.Success? ==> |r.value| == 1
  {
    match Last(output)
    case Failure(err) => Failure(err)
    case Success(last) =>
      if h.Empty? then Failure(NullReference)
      else
        match ChartPoints.Get(last, h.outputValue)
        case None => Failure(NullReference)
        case Some(estimateValue) =>
          match ChartPoints.Get(lastInput, h.outputValue)
          case None => Failure(NullReference)
          case Some(reference) =>
            var converted := Logalizers.LogReturn(ln, reference, estimateValue);
            Success([sigmoid(Normalizers.Convert(h.normalizer, converted))])
  }

  /** The target can be read back: undoing the sigmoid, the normalization and the
      log return recovers the estimated value of the last output point. */
  lemma OutputRecoverable(h: DataHandler, output: Chart, lastInput: Point, ln: real -> real,
                          exp: real -> real, sigmoid: real -> real, sigmoidInv: real -> real)
    requires Usable(h) && Logalizers.ExpUndoesLn(ln, exp)
    requires forall x :: sigmoidInv(sigmoid(x)) == x
    requires MakeOutputNetReadable(h, output, lastInput, ln, sigmoid).Success?
    requires ChartPoints.Get(lastInput, h.outputValue).value > 0.0
    requires ChartPoints.Get(output[|output| - 1], h.outputValue).value > 0.0
    ensures var y := MakeOutputNetReadable(h, output, lastInput, ln, sigmoid).value[0];
      Logalizers.Grow(exp, ChartPoints.Get(lastInput, h.outputValue).value,
                      Normalizers.Reconvert(h.normalizer, sigmoidInv(y)))
      == ChartPoints.Get(output[|output| - 1], h.outputValue).value
  {
    var a := ChartPoints.Get(lastInput, h.outputValue).value;
    var b := ChartPoints.Get(output[|output| - 1], h.outputValue).value;
    Normalizers.ConvertRoundTrip(h.normalizer, Logalizers.LogReturn(ln, a, b));
    Logalizers.GrowUndoesLogReturn(ln, exp, a, b);
  }

  /** Every point has the keys of the first one, in key order. */
  predicate Uniform(c: Chart) {
    forall i :: 0 <= i < |c| ==> Ordered(c[i]) && Keys(c[i]) == Keys(c[0])
  }

  /** A window of `m + 1` points with `k` keys each gives an input of `m * k`
      values: one per key for each of the `m` log returns. */
  lemma InputLength(h: DataHandler, input: Chart, ln: real -> real)
    requires Usable(h) && h.Loaded? && |input| > 0 && Uniform(input)
    ensures MakeInputNetReadable(h, input, ln).Success?
    ensures |MakeInputNetReadable(h, input, ln).value| == (|input| - 1) * |input[0]|
  {
    var k := |input[0]|;
    var lr := (a, b) => Logalizers.LogReturn(ln, a, b);
    var logReturns := Logalizers.LogReturns(ln, input);
    forall j | 0 <= j < |logReturns|
      ensures |logReturns[j]| == k
    {
      assert |input[j]| == |Keys(input[j])| == |Keys(input[0])|;
      assert |input[j + 1]| == |Keys(input[j + 1])| == |Keys(input[0])|;
      Map2SameKeys(lr, input[j], input[j + 1]);
    }
    var converted := Normalizers.ConvertChart(h.normalizer, logReturns);
    Charts.ApplyKeepsShape(logReturns, d => Normalizers.Convert(h.normalizer, d), "");
    forall j | 0 <= j < |converted|
      ensures |converted[j]| == k
    {
      assert |converted[j]| == |Keys(converted[j])| == |Keys(logReturns[j])| == |logReturns[j]|;
    }
    FlattenedLength(converted, k);
  }

  // ----------------------------------------------------- the pattern list

  /** The replay count of pattern `i` of `count`: `2e` divided by the number of
      patterns from `i` on, at least `1`.  Later patterns, closer to the present,
      are replayed more often. */
  function Priority(e: nat, count: int, i: int): (p: int)
    requires i < count
  {
    var q := 2 * e / (count - i);
    if q < 1 then 1 else q
  }

  /** Dividing by more gives less. */
  lemma DivShrinks(n: nat, a: int, b: int)
    requires 1 <= b <= a
    ensures n / a <= n / b
  {
    var q, r := n / a, n / b;
    assert q * a <= n;
    assert q * b <= q * a by {
      assert q >= 0;
    }
    assert n < (r + 1) * b;
    FactorOrder(q, r + 1, b);
  }

  /** A positive factor keeps the order of the other factors. */
  lemma FactorOrder(x: int, y: int, b: int)
    requires b >= 1 && x * b < y * b
    ensures x < y
  {
    assert (y - x) * b > 0;
  }

  /** Priorities are at least `1` and never fall from one pattern to the next. */
  lemma PrioritiesRise(e: nat, count: int, i: int, j: int)
    requires 0 <= i <= j < count
    ensures 1 <= Priority(e, count, i) <= Priority(e, count, j)
  {
    DivShrinks(2 * e, count - i, count - j);
  }

  /** Pattern `i`: window `i .. i + 2e` of the data. */
  function PatternAt(h: DataHandler, e: nat, i: nat, ln: real -> real, sigmoid: real -> real): (r: Result<DataPattern>)
    requires Usable(h) && h.Loaded? && i + 2 * e < |h.data|
  {
    var segment := h.data[i..i + 2 * e + 1];
    var input := MakeInputNetReadable(h, segment[..e + 1], ln);
    match MakeOutputNetReadable(h, segment[e + 1..], segment[e], ln, sigmoid)
    case Failure(err) => Failure(err)
    case Success(output) => Success(DataPattern(input.value, output, Priority(e, |h.data| - 2 * e, i)))
  }

  /** Every window's pattern, in order. */
  function Windows(h: DataHandler, e: nat, ln: real -> real, sigmoid: real -> real): (ws: seq<Result<DataPattern>>)
    requires Usable(h) && h.Loaded? && 2 * e <= |h.data|
    ensures |ws| == |h.data| - 2 * e
  {
    seq(|h.data| - 2 * e, i requires 0 <= i < |h.data| - 2 * e => PatternAt(h, e, i, ln, sigmoid))
  }

  /** The values of `rs` when every one succeeds, otherwise the first failure:
      an exception thrown while the array fills ends the call. */
  function Collect<T>(rs: seq<Result<T>>): (r: Result<seq<T>>)
    ensures r.Success? ==> |r.value| == |rs|
  {
    if |rs| == 0 then Success([])
    else
      match Collect(rs[..|rs| - 1])
      case Failure(err) => Failure(err)
      case Success(front) =>
        match rs[|rs| - 1]
        case Failure(err) => Failure(err)
        case Success(p) => Success(front + [p])
  }

  /** A successful collection holds every value, in order. */
  lemma {:induction false} CollectAll<T>(rs: seq<Result<T>>)
    requires Collect(rs).Success?
    ensures forall i :: 0 <= i < |rs| ==> rs[i] == Success(Collect(rs).value[i])
  {
    if |rs| > 0 {
      CollectAll(rs[..|rs| - 1]);
    }
  }

  /** A failure ends the collection: later results do not change it. */
  lemma {:induction false} CollectSticks<T>(rs: seq<Result<T>>, i: nat)
    requires i <= |rs| && Collect(rs[..i]).Failure?
    ensures Collect(rs) == Collect(rs[..i])
  {
    if |rs| > i {
      assert rs[..|rs| - 1][..i] == rs[..i];
      CollectSticks(rs[..|rs| - 1], i);
    } else {
      assert rs[..i] == rs;
    }
  }

  /** Collecting one more result: its failure, or its value appended. */
  lemma CollectStep<T>(rs: seq<Result<T>>, i: nat, values: seq<T>)
    requires i < |rs| && Collect(rs[..i]) == Success(values)
    ensures Collect(rs[..i + 1]) == if rs[i].Failure? then Failure(rs[i].error) else Success(values + [rs[i].value])
  {
    assert rs[..i + 1][..i] == rs[..i];
  }

  /** The prefix of full length is the whole sequence. */
  lemma CollectWhole<T>(rs: seq<Result<T>>)
    ensures Collect(rs[..|rs|]) == Collect(rs)
  {
    assert rs[..|rs|] == rs;
  }

  /** What `getTrainingPatterns(e)` yields: `size - 2e` patterns; a null data set,
      a negative pattern count, or a negative window length fail. */
  function TrainingPatterns(h: DataHandler, e: int, ln: real -> real, sigmoid: real -> real): Result<seq<DataPattern>>
    requires Usable(h)
  {
    if h.Empty? then Failure(NullReference)
    else if |h.data| - 2 * e < 0 then Failure(NegativeArraySize)
    else if e < 0 then Failure(IllegalArgument)
    else Collect(Windows(h, e, ln, sigmoid))
  }

  /** `getTrainingPatterns(e)`: fills the pattern array window by window. */
  method GetTrainingPatterns(h: DataHandler, estimateLength: int, ln: real -> real, sigmoid: real -> real)
    returns (r: Result<seq<DataPattern>>)
    requires Usable(h)
    ensures r == TrainingPatterns(h, estimateLength, ln, sigmoid)
  {
    if h.Empty? {
      return Failure(NullReference);
    }
    var data := h.data;
    var patternLength := 2 * estimateLength;
    var numberPatterns := |data| - patternLength;
    if numberPatterns < 0 {
      return Failure(NegativeArraySize);
    }
    ghost var ws := if estimateLength >= 0 then Windows(h, estimateLength, ln, sigmoid) else [];
    var patterns: seq<DataPattern> := [];
    for i := 0 to numberPatterns
      invariant i > 0 ==> estimateLength >= 0
      invariant estimateLength >= 0 ==> Collect(ws[..i]) == Success(patterns)
    {
      var segment := SubChart(data, i, i + patternLength + 1);
      if segment.Failure? {
        assert estimateLength < 0 && segment.error == IllegalArgument;
        return Failure(segment.error);
      }
      var pattern := MakePattern(h, estimateLength, i, segment.value, ln, sigmoid);
      assert ws[i] == pattern;
      CollectStep(ws, i, patterns);
      if pattern.Failure? {
        CollectSticks(ws, i + 1);
        return Failure(pattern.error);
      }
      patterns := patterns + [pattern.value];
    }
    if estimateLength >= 0 {
      CollectWhole(ws);
    }
    return Success(patterns);
  }

  /** The body of the loop of `getTrainingPatterns`: the pattern of window `i`,
      cut into the input and the output part. */
  method MakePattern(h: DataHandler, e: nat, i: nat, window: Chart, ln: real -> real, sigmoid: real -> real)
    returns (r: Result<DataPattern>)
    requires Usable(h) && h.Loaded? && i + 2 * e < |h.data|
    requires window == SubChart(h.data, i, i + 2 * e + 1).value
    ensures r == PatternAt(h, e, i, ln, sigmoid)
  {
    var inputChart := SubChart(window, 0, e + 1).value;
    var outputChart := SubChartFrom(window, e + 1).value;
    var input := MakeInputNetReadable(h, inputChart, ln);
    var output := MakeOutputNetReadable(h, outputChart, window[e], ln, sigmoid);
    var priority := 2 * e / (|h.data| - 2 * e - i);
    if priority < 1 {
      priority := 1;
    }
    WindowCharts(h.data, e, i, window, inputChart, outputChart);
    WindowIs(h, e, i, ln, sigmoid, inputChart, outputChart, window[e], input, output, priority);
    if output.Failure? {
      return Failure(output.error);
    }
    return Success(DataPattern(input.value, output.value, priority));
  }

  /** The step of `GetTrainingPatterns`: the pattern computed through `subChart`
      is the pattern of the window. */
  lemma WindowIs(h: DataHandler, e: nat, i: nat, ln: real -> real, sigmoid: real -> real,
                 inputChart: Chart, outputChart: Chart, lastInput: Point,
                 input: Result<LinAlg.Vec>, output: Result<LinAlg.Vec>, priority: int)
    requires Usable(h) && h.Loaded? && i + 2 * e < |h.data|
    requires inputChart == h.data[i..i + e + 1] && outputChart == h.data[i + e + 1..i + 2 * e + 1]
    requires lastInput == h.data[i + e]
    requires input == MakeInputNetReadable(h, inputChart, ln)
    requires output == MakeOutputNetReadable(h, outputChart, lastInput, ln, sigmoid)
    requires priority == Priority(e, |h.data| - 2 * e, i)
    ensures input.Success?
    ensures PatternAt(h, e, i, ln, sigmoid) ==
      if output.Failure? then Failure(output.error) else Success(DataPattern(input.value, output.value, priority))
  {
    WindowSlices(h.data, e, i);
  }

  /** The charts `getTrainingPatterns` cuts out of window `i` are slices of the
      data. */
  lemma WindowCharts(data: Chart, e: nat, i: nat, window: Chart, inputChart: Chart, outputChart: Chart)
    requires i + 2 * e < |data|
    requires window == SubChart(data, i, i + 2 * e + 1).value
    requires inputChart == SubChart(window, 0, e + 1).value
    requires outputChart == SubChartFrom(window, e + 1).value
    ensures inputChart == data[i..i + e + 1] && outputChart == data[i + e + 1..i + 2 * e + 1]
    ensures window[e] == data[i + e]
  {
    WindowSlices(data, e, i);
  }

  /** The parts of window `i` are slices of the data. */
  lemma WindowSlices(data: Chart, e: nat, i: nat)
    requires i + 2 * e < |data|
    ensures data[i..i + 2 * e + 1][..e + 1] == data[i..i + e + 1]
    ensures data[i..i + 2 * e + 1][e + 1..] == data[i + e + 1..i + 2 * e + 1]
    ensures data[i..i + 2 * e + 1][e] == data[i + e]
  {
  }

  // ------------------------------------------------------------ the facts

  /** The count and the shape of every pattern of a successful run: `size - 2e`
      patterns, each with the priority of its position, a one-entry target, and,
      when every point has the keys of the first, an input of `e * k` values,
      exactly the input size of a net built for `e` and `k`. */
  lemma PatternShapes(h: DataHandler, e: int, ln: real -> real, sigmoid: real -> real, hidden: seq<nat>)
    requires Usable(h) && TrainingPatterns(h, e, ln, sigmoid).Success?
    ensures h.Loaded? && e >= 0
    ensures |TrainingPatterns(h, e, ln, sigmoid).value| == |h.data| - 2 * e
    ensures forall i :: 0 <= i < |h.data| - 2 * e ==>
      var p := TrainingPatterns(h, e, ln, sigmoid).value[i];
      p.priority == Priority(e, |h.data| - 2 * e, i) && p.priority >= 1 && |p.output| == 1
    ensures Uniform(h.data) && |h.data| > 0 ==> forall i :: 0 <= i < |h.data| - 2 * e ==>
      |TrainingPatterns(h, e, ln, sigmoid).value[i].input| == Nets.Structure(e, hidden, |h.data[0]|)[0]
  {
    PatternsPrioritised(h, e, ln, sigmoid);
    if Uniform(h.data) && |h.data| > 0 {
      PatternsInputShaped(h, e, ln, sigmoid, hidden);
    }
  }

  /** Every pattern of a successful run has its priority and a one-value output. */
  lemma PatternsPrioritised(h: DataHandler, e: nat, ln: real -> real, sigmoid: real -> real)
    requires Usable(h) && h.Loaded? && TrainingPatterns(h, e, ln, sigmoid).Success?
    ensures |TrainingPatterns(h, e, ln, sigmoid).value| == |h.data| - 2 * e
    ensures forall i :: 0 <= i < |h.data| - 2 * e ==>
      var p := TrainingPatterns(h, e, ln, sigmoid).value[i];
      p.priority == Priority(e, |h.data| - 2 * e, i) && p.priority >= 1 && |p.output| == 1
  {
    var ps := TrainingPatterns(h, e, ln, sigmoid).value;
    forall i | 0 <= i < |h.data| - 2 * e
      ensures ps[i].priority == Priority(e, |h.data| - 2 * e, i) && ps[i].priority >= 1 && |ps[i].output| == 1
    {
      PatternOfWindowShape(h, e, i, ln, sigmoid, ps[i]);
    }
  }

  /** Every pattern of a successful run over uniform rows has the network's input width. */
  lemma PatternsInputShaped(h: DataHandler, e: nat, ln: real -> real, sigmoid: real -> real, hidden: seq<nat>)
    requires Usable(h) && h.Loaded? && TrainingPatterns(h, e, ln, sigmoid).Success?
    requires Uniform(h.data) && |h.data| > 0
    ensures |TrainingPatterns(h, e, ln, sigmoid).value| == |h.data| - 2 * e
    ensures forall i :: 0 <= i < |h.data| - 2 * e ==>
      |TrainingPatterns(h, e, ln, sigmoid).value[i].input| == Nets.Structure(e, hidden, |h.data[0]|)[0]
  {
    var ps := TrainingPatterns(h, e, ln, sigmoid).value;
    forall i | 0 <= i < |h.data| - 2 * e
      ensures |ps[i].input| == Nets.Structure(e, hidden, |h.data[0]|)[0]
    {
      PatternIsWindow(h, e, i, ln, sigmoid);
      PatternInputShape(h, e, i, ln, sigmoid);
    }
  }

  /** Pattern `i` of a successful run is the pattern of window `i`. */
  lemma PatternIsWindow(h: DataHandler, e: nat, i: nat, ln: real -> real, sigmoid: real -> real)
    requires Usable(h) && h.Loaded? && i + 2 * e < |h.data|
    requires TrainingPatterns(h, e, ln, sigmoid).Success?
    ensures PatternAt(h, e, i, ln, sigmoid) == Success(TrainingPatterns(h, e, ln, sigmoid).value[i])
  {
    var ws := Windows(h, e, ln, sigmoid);
    CollectAll(ws);
    assert ws[i] == PatternAt(h, e, i, ln, sigmoid);
  }

  /** The shape of pattern `i` of a successful run. */
  lemma PatternOfWindowShape(h: DataHandler, e: nat, i: nat, ln: real -> real, sigmoid: real -> real, p: DataPattern)
    requires Usable(h) && h.Loaded? && i + 2 * e < |h.data|
    requires TrainingPatterns(h, e, ln, sigmoid).Success? && i < |TrainingPatterns(h, e, ln, sigmoid).value|
    requires p == TrainingPatterns(h, e, ln, sigmoid).value[i]
    ensures p.priority == Priority(e, |h.data| - 2 * e, i) && p.priority >= 1 && |p.output| == 1
  {
    PatternIsWindow(h, e, i, ln, sigmoid);
    PatternShape(h, e, i, ln, sigmoid);
  }

  /** The shape of one window's pattern. */
  lemma PatternShape(h: DataHandler, e: nat, i: nat, ln: real -> real, sigmoid: real -> real)
    requires Usable(h) && h.Loaded? && i + 2 * e < |h.data|
    requires PatternAt(h, e, i, ln, sigmoid).Success?
    ensures var p := PatternAt(h, e, i, ln, sigmoid).value;
      p.priority == Priority(e, |h.data| - 2 * e, i) && p.priority >= 1 && |p.output| == 1
  {
    PrioritiesRise(e, |h.data| - 2 * e, i, i);
  }

  /** With the same keys in every point, every input has `e` values per key. */
  lemma PatternInputShape(h: DataHandler, e: nat, i: nat, ln: real -> real, sigmoid: real -> real)
    requires Usable(h) && h.Loaded? && i + 2 * e < |h.data| && Uniform(h.data)
    requires PatternAt(h, e, i, ln, sigmoid).Success?
    ensures |PatternAt(h, e, i, ln, sigmoid).value.input| == e * |h.data[0]|
  {
    PatternInput(h, e, i, ln, sigmoid);
    WindowInputLength(h, e, i, ln);
  }

  /** The input made from the first `e + 1` points of window `i` has `e` values
      per key when every point has the keys of the first. */
  lemma WindowInputLength(h: DataHandler, e: nat, i: nat, ln: real -> real)
    requires Usable(h) && h.Loaded? && i + 2 * e < |h.data| && Uniform(h.data)
    ensures MakeInputNetReadable(h, h.data[i..i + e + 1], ln).Success?
    ensures |MakeInputNetReadable(h, h.data[i..i + e + 1], ln).value| == e * |h.data[0]|
  {
    var window := h.data[i..i + e + 1];
    assert |window[0]| == |Keys(h.data[i])| == |Keys(h.data[0])| == |h.data[0]|;
    InputLength(h, window, ln);
  }

  /** The input of window `i`'s pattern is made from its first `e + 1` points. */
  lemma PatternInput(h: DataHandler, e: nat, i: nat, ln: real -> real, sigmoid: real -> real)
    requires Usable(h) && h.Loaded? && i + 2 * e < |h.data|
    requires PatternAt(h, e, i, ln, sigmoid).Success?
    ensures MakeInputNetReadable(h, h.data[i..i + e + 1], ln).Success?
    ensures PatternAt(h, e, i, ln, sigmoid).value.input == MakeInputNetReadable(h, h.data[i..i + e + 1], ln).value
  {
    WindowSlices(h.data, e, i);
  }

  /** Six points and an estimate length of `2` give two patterns, replayed twice
      and four times. */
  lemma SixPointsTwoPatterns(h: DataHandler, ln: real -> real, sigmoid: real -> real)
    requires Usable(h) && h.Loaded? && |h.data| == 6
    requires TrainingPatterns(h, 2, ln, sigmoid).Success?
    ensures |TrainingPatterns(h, 2, ln, sigmoid).value| == 2
    ensures TrainingPatterns(h, 2, ln, sigmoid).value[0].priority == 2
    ensures TrainingPatterns(h, 2, ln, sigmoid).value[1].priority == 4
  {
    PatternShapes(h, 2, ln, sigmoid, []);
  }

  /** An estimate length of `0` leaves no output points: a non-empty data set
      fails on the first window. */
  lemma ZeroEstimateFails(h: DataHandler, ln: real -> real, sigmoid: real -> real)
    requires Usable(h) && h.Loaded? && |h.data| > 0
    ensures TrainingPatterns(h, 0, ln, sigmoid) == Failure(IndexOutOfBounds)
  {
    var ws := Windows(h, 0, ln, sigmoid);
    assert ws[0] == Failure(IndexOutOfBounds);
    assert Collect(ws[..1]) == Failure(IndexOutOfBounds);
    CollectSticks(ws, 1);
  }
}
