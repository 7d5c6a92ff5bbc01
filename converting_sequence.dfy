/** `ConvertingSequence`: an ordered list of converters, applied front to back to
    prepare a chart and back to front to undo the preparation. */
module ConvertingSequences {
  import opened Wrappers
  import opened Charts
  import Normalizers
  import Logalizers

  /** The two converters of the code.  The logalizer carries the logarithm and
      the exponential it computes with. */
  datatype Converter =
    | Normalizing(normalizer: Normalizers.Normalizer)
    | Logalizing(logalizer: Logalizers.Logalizer, ln: real -> real, exp: real -> real)

  /** A normalizer divides by its standard deviation. */
  predicate Usable(cv: Converter) {
    cv.Normalizing? ==> cv.normalizer.sd != 0.0
  }

  predicate AllUsable(cs: seq<Converter>) {
    forall i :: 0 <= i < |cs| ==> Usable(cs[i])
  }

  /** `convertChart` of one converter. */
  function ConvertedBy(cv: Converter, c: Chart): Chart
    requires Usable(cv)
  {
    match cv
    case Normalizing(n) => Normalizers.ConvertChart(n, c)
    case Logalizing(_, ln, _) => Logalizers.LogReturns(ln, c)
  }

  /** `reconvertChart` of one converter. */
  function ReconvertedBy(cv: Converter, c: Chart): Chart {
    match cv
    case Normalizing(n) => Normalizers.ReconvertChart(n, c)
    case Logalizing(l, _, exp) => Logalizers.Regrown(exp, l.startValue, c)
  }

  /** The chart after every converter of `cs`, first to last. */
  function ConvertedAll(cs: seq<Converter>, c: Chart): Chart
    requires AllUsable(cs)
  {
    if |cs| == 0 then c else ConvertedBy(cs[|cs| - 1], ConvertedAll(cs[..|cs| - 1], c))
  }

  /** The chart after every reconversion of `cs`, last to first. */
  function ReconvertedAll(cs: seq<Converter>, c: Chart): Chart {
    if |cs| == 0 then c else ReconvertedAll(cs[..|cs| - 1], ReconvertedBy(cs[|cs| - 1], c))
  }

  /** The call of `convertChart` through the converter interface. */
  method ConvertWith(cv: Converter, c: Chart) returns (r: Chart)
    requires Usable(cv)
    ensures r == ConvertedBy(cv, c)
  {
    match cv
    case Normalizing(n) =>
      r := Normalizers.ConvertChart(n, c);
    case Logalizing(_, ln, _) =>
      r := Logalizers.ConvertChart(ln, c);
  }

  /** The call of `reconvertChart` through the converter interface. */
  method ReconvertWith(cv: Converter, c: Chart) returns (r: Chart)
    ensures r == ReconvertedBy(cv, c)
  {
    match cv
    case Normalizing(n) =>
      r := Normalizers.ReconvertChart(n, c);
    case Logalizing(l, _, exp) =>
      r := Logalizers.ReconvertChart(l, exp, c);
  }

  /** `convert(c, index)`: the converter at `index` applied; an index outside the
      list fails. */
  method Convert(cs: seq<Converter>, c: Chart, index: int) returns (r: Result<Chart>)
    requires AllUsable(cs)
    ensures r.Failure? <==> !(0 <= index < |cs|)
    ensures r.Failure? ==> r.error == IndexOutOfBounds
    ensures r.Success? ==> r.value == ConvertedBy(cs[index], c)
  {
    if index < 0 || index >= |cs| {
      return Failure(IndexOutOfBounds);
    }
    var converted := ConvertWith(cs[index], c);
    return Success(converted);
  }

  /** `reconvert(c, index)`: the converter at `index` undone; an index outside the
      list fails. */
  method Reconvert(cs: seq<Converter>, c: Chart, index: int) returns (r: Result<Chart>)
    ensures r.Failure? <==> !(0 <= index < |cs|)
    ensures r.Failure? ==> r.error == IndexOutOfBounds
    ensures r.Success? ==> r.value == ReconvertedBy(cs[index], c)
  {
    if index < 0 || index >= |cs| {
      return Failure(IndexOutOfBounds);
    }
    var reconverted := ReconvertWith(cs[index], c);
    return Success(reconverted);
  }

  /** `applyInOrder(c)`: every converter in turn, first to last; an empty list
      leaves the chart as it is. */
  method ApplyInOrder(cs: seq<Converter>, c: Chart) returns (result: Chart)
    requires AllUsable(cs)
    ensures result == ConvertedAll(cs, c)
    ensures |cs| == 0 ==> result == c
  {
    result := c;
    for i := 0 to |cs|
      invariant result == ConvertedAll(cs[..i], c)
    {
      assert cs[..i + 1][..i] == cs[..i];
      result := ConvertWith(cs[i], result);
    }
    assert cs[..|cs|] == cs;
  }

  /** `applyInReverse(c)`: every converter undone in turn, last to first. */
  method ApplyInReverse(cs: seq<Converter>, c: Chart) returns (result: Chart)
    ensures result == ReconvertedAll(cs, c)
    ensures |cs| == 0 ==> result == c
  {
    result := c;
    var i := |cs|;
    assert cs[..i] == cs;
    while i > 0
      invariant 0 <= i <= |cs|
      invariant ReconvertedAll(cs[..i], result) == ReconvertedAll(cs, c)
    {
      i := i - 1;
      assert cs[..i + 1][..i] == cs[..i];
      result := ReconvertWith(cs[i], result);
    }
  }

  /** `subSequence(from)`: the converters from `from` on, with the range checks of
      `ArrayList.subList`. */
  function SubSequence(cs: seq<Converter>, from: int): (r: Result<seq<Converter>>)
    ensures r.Failure? <==> !(0 <= from <= |cs|)
    ensures r.Failure? ==> r.error == if from < 0 then IndexOutOfBounds else IllegalArgument
    ensures r.Success? ==> |r.value| == |cs| - from && forall i :: 0 <= i < |r.value| ==> r.value[i] == cs[from + i]
  {
    if from < 0 then Failure(IndexOutOfBounds)
    else if from > |cs| then Failure(IllegalArgument)
    else Success(cs[from..])
  }

  /** Applying the first `from` converters and then the sub-sequence from `from`
      is applying the whole sequence. */
  lemma {:induction false} SubSequenceContinues(cs: seq<Converter>, from: nat, c: Chart)
    requires AllUsable(cs) && from <= |cs|
    ensures ConvertedAll(SubSequence(cs, from).value, ConvertedAll(cs[..from], c)) == ConvertedAll(cs, c)
  {
    if |cs| > from {
      var front := cs[..|cs| - 1];
      SubSequenceContinues(front, from, c);
      assert front[..from] == cs[..from];
      assert cs[from..][..|cs| - from - 1] == front[from..];
    } else {
      assert cs[..from] == cs;
    }
  }

  /** When every converter, met with the chart it converts, undoes its own
      conversion, the whole sequence in reverse undoes the sequence. */
  lemma {:induction false} RoundTrip(cs: seq<Converter>, c: Chart)
    requires AllUsable(cs)
    requires forall i :: 0 <= i < |cs| ==>
      ReconvertedBy(cs[i], ConvertedBy(cs[i], ConvertedAll(cs[..i], c))) == ConvertedAll(cs[..i], c)
    ensures ReconvertedAll(cs, ConvertedAll(cs, c)) == c
  {
    if |cs| > 0 {
      var front := cs[..|cs| - 1];
      forall i | 0 <= i < |front|
        ensures ReconvertedBy(front[i], ConvertedBy(front[i], ConvertedAll(front[..i], c))) == ConvertedAll(front[..i], c)
      {
        assert front[..i] == cs[..i];
      }
      RoundTrip(front, c);
      assert cs[..|cs| - 1] == front;
    }
  }

  /** A usable normalizer undoes itself on every chart. */
  lemma NormalizingUndoes(n: Normalizers.Normalizer, c: Chart)
    requires n.sd != 0.0
    ensures ReconvertedBy(Normalizing(n), ConvertedBy(Normalizing(n), c)) == c
  {
    Normalizers.ChartRoundTrip(n, c);
  }

  /** A logalizer made for a chart of positive prices with the same keys
      everywhere gives back the chart without its first point: that point is
      the one it remembers. */
  lemma LogalizingRegrows(ln: real -> real, exp: real -> real, c: Chart)
    requires Logalizers.ExpUndoesLn(ln, exp) && |c| > 0
    requires forall i :: 0 <= i < |c| ==>
      ChartPoints.Ordered(c[i]) && Logalizers.Positive(c[i]) && ChartPoints.Keys(c[i]) == ChartPoints.Keys(c[0])
    ensures var cv := Logalizing(Logalizers.FromChart(c).value, ln, exp);
      ReconvertedBy(cv, ConvertedBy(cv, c)) == c[1..]
  {
    Logalizers.ChartRoundTrip(ln, exp, c);
  }
}
