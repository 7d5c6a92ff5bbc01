/** `Normalizer`: brings a series to mean 0 and standard deviation 2, so that the
    sigmoid of the net sees values spread over its sensitive range.

    The mean and the sample standard deviation are estimated from the first
    value name of a chart.  The square root is a parameter of the model. */
module Normalizers {
  import opened Wrappers
  import opened ChartPoints
  import opened Charts
  import LinAlg
  import Math

  datatype Normalizer = Normalizer(mean: real, sd: real)

  // ------------------------------------------------ reference statistics

  function Sum(xs: seq<real>): real {
    if |xs| == 0 then 0.0 else Sum(xs[..|xs| - 1]) + xs[|xs| - 1]
  }

  /** The sum of the squared deviations of `xs` from `m`. */
  function SquaredDeviation(xs: seq<real>, m: real): (r: real)
    ensures r >= 0.0
  {
    if |xs| == 0 then 0.0
    else
      var e := xs[|xs| - 1] - m;
      assert e * e >= 0.0 by {
        if e < 0.0 {
          assert e * e == (-e) * (-e);
        }
      }
      SquaredDeviation(xs[..|xs| - 1], m) + e * e
  }

  function Average(xs: seq<real>): real
    requires |xs| > 0
  {
    Sum(xs) / |xs| as real
  }

  /** The sample variance: squared deviations from the average over `n - 1`. */
  function SampleVariance(xs: seq<real>): real
    requires |xs| > 1
  {
    SquaredDeviation(xs, Average(xs)) / (|xs| - 1) as real
  }

  // ------------------------------------------------ the folds of the code

  /** The mean as the stream reduces it: `a + b / n`, from `0`, left to right. */
  function MeanFold(xs: seq<real>, n: real): real
    requires n != 0.0
  {
    if |xs| == 0 then 0.0 else MeanFold(xs[..|xs| - 1], n) + xs[|xs| - 1] / n
  }

  /** The variance as the stream reduces it: `a + (b - mean)^2 / d`, from `0`. */
  function VarianceFold(xs: seq<real>, mean: real, d: real): real
    requires d != 0.0
  {
    if |xs| == 0 then 0.0
    else VarianceFold(xs[..|xs| - 1], mean, d) + (xs[|xs| - 1] - mean) * (xs[|xs| - 1] - mean) / d
  }

  /** Dividing every term by `n` is dividing the sum by `n`. */
  lemma {:induction false} MeanFoldIsAverage(xs: seq<real>, n: real)
    requires n != 0.0
    ensures MeanFold(xs, n) == Sum(xs) / n
  {
    if |xs| > 0 {
      MeanFoldIsAverage(xs[..|xs| - 1], n);
    }
  }

  /** The variance fold is the sample variance, and it is never negative. */
  lemma {:induction false} VarianceFoldIsSample(xs: seq<real>, mean: real, d: real)
    requires d != 0.0
    ensures VarianceFold(xs, mean, d) == SquaredDeviation(xs, mean) / d
    ensures d > 0.0 ==> VarianceFold(xs, mean, d) >= 0.0
  {
    if |xs| > 0 {
      VarianceFoldIsSample(xs[..|xs| - 1], mean, d);
    }
  }

  /** The values of a series in which every point has the value name. */
  function Present(s: seq<Option<real>>): seq<real>
    requires None !in s
  {
    seq(|s|, i requires 0 <= i < |s| => s[i].value)
  }

  /** The normalizer's constructor: reads the series of the first key of the
      chart.  An empty chart has no key set (`null`), a first point without keys
      has no first key, and a point without that key holds `null`, which the
      reduction cannot unbox.  A chart of a single point divides `0` by `0`. */
  function FromChart(c: Chart, sqrt: real -> real): (r: Result<Normalizer>)
    requires |c| == 1 ==> |c[0]| == 0
    ensures r.Failure? <==> |c| == 0 || |c[0]| == 0 || None in Series(c, c[0][0].key)
    ensures r.Failure? ==> r.error == if |c| > 0 && |c[0]| == 0 then NoSuchElement else NullReference
    ensures r.Success? ==> |c| > 1 && |c[0]| > 0 && None !in Series(c, c[0][0].key)
    ensures r.Success? ==>
      var xs := Present(Series(c, c[0][0].key));
      r.value.mean == Average(xs) && r.value.sd == sqrt(SampleVariance(xs))
  {
    match KeySetOf(c)
    case None => Failure(NullReference)
    case Some(keys) =>
      if |keys| == 0 then Failure(NoSuchElement)
      else
        var firstList := Series(c, keys[0]);
        if None in firstList then Failure(NullReference)
        else
          var xs := Present(firstList);
          var n := |xs| as real;
          var mean := MeanFold(xs, n);
          var variance := VarianceFold(xs, mean, n - 1.0);
          MeanFoldIsAverage(xs, n);
          VarianceFoldIsSample(xs, mean, n - 1.0);
          Success(Normalizer(mean, sqrt(variance)))
  }

  /** With a true square root, the standard deviation squares to the sample
      variance. */
  lemma DeviationSquares(c: Chart, sqrt: real -> real)
    requires |c| == 1 ==> |c[0]| == 0
    requires forall x :: x >= 0.0 ==> sqrt(x) >= 0.0 && sqrt(x) * sqrt(x) == x
    requires FromChart(c, sqrt).Success?
    ensures var xs := Present(Series(c, c[0][0].key));
      FromChart(c, sqrt).value.sd >= 0.0 &&
      FromChart(c, sqrt).value.sd * FromChart(c, sqrt).value.sd == SampleVariance(xs)
  {
    var xs := Present(Series(c, c[0][0].key));
    assert SampleVariance(xs) >= 0.0;
  }

  // ------------------------------------------------------ the conversion

  /** `convert(d)`: `(d - mean) / sd * 2`. */
  function Convert(n: Normalizer, d: real): (r: real)
    requires n.sd != 0.0
    ensures Reconvert(n, r) == d
    ensures r == 0.0 <==> d == n.mean
  {
    assert (d - n.mean) / n.sd * n.sd == d - n.mean;
    (d - n.mean) / n.sd * 2.0
  }

  /** `reconvert(d)`: `d * sd / 2 + mean`; with a non-zero deviation,
      converting the result gives `d` back. */
  function Reconvert(n: Normalizer, d: real): (r: real)
    ensures n.sd != 0.0 ==> (r - n.mean) / n.sd * 2.0 == d
    ensures r == n.mean <==> d == 0.0 || n.sd == 0.0
  {
    assert n.sd != 0.0 ==> d * n.sd / 2.0 / n.sd == d / 2.0;
    d * n.sd / 2.0 + n.mean
  }

  /** The two conversions undo each other, and the mean goes to `0`. */
  lemma ConvertRoundTrip(n: Normalizer, d: real)
    requires n.sd != 0.0
    ensures Reconvert(n, Convert(n, d)) == d
    ensures Convert(n, Reconvert(n, d)) == d
    ensures Convert(n, n.mean) == 0.0
  {
    calc {
      Reconvert(n, Convert(n, d));
      (d - n.mean) / n.sd * 2.0 * n.sd / 2.0 + n.mean;
      { assert (d - n.mean) / n.sd * n.sd == d - n.mean; }
      d;
    }
    calc {
      Convert(n, Reconvert(n, d));
      (d * n.sd / 2.0) / n.sd * 2.0;
      { assert d * n.sd / 2.0 / n.sd == d / 2.0; }
      d;
    }
  }

  /** Converting the chart's own mean, and a standard deviation of the
      converted series twice the unit: a value one standard deviation above the
      mean converts to `2`. */
  lemma ConvertScale(n: Normalizer)
    requires n.sd != 0.0
    ensures Convert(n, n.mean + n.sd) == 2.0
    ensures Convert(n, n.mean - n.sd) == -2.0
  {
    assert (n.mean + n.sd - n.mean) / n.sd == n.sd / n.sd == 1.0;
    assert (n.mean - n.sd - n.mean) / n.sd == -(n.sd / n.sd);
  }

  /** `convertChart`: every value of every point converted. */
  function ConvertChart(n: Normalizer, c: Chart): (r: Chart)
    requires n.sd != 0.0
    ensures |r| == |c| && forall i :: 0 <= i < |c| ==> Keys(r[i]) == Keys(c[i])
  {
    Charts.Apply(c, d => Convert(n, d))
  }

  /** `reconvertChart`: every value of every point reconverted. */
  function ReconvertChart(n: Normalizer, c: Chart): (r: Chart)
    ensures |r| == |c| && forall i :: 0 <= i < |c| ==> Keys(r[i]) == Keys(c[i])
  {
    Charts.Apply(c, d => Reconvert(n, d))
  }

  /** Reconverting a converted chart gives back the chart, and the other way
      round. */
  lemma ChartRoundTrip(n: Normalizer, c: Chart)
    requires n.sd != 0.0
    ensures ReconvertChart(n, ConvertChart(n, c)) == c
    ensures ConvertChart(n, ReconvertChart(n, c)) == c
  {
    forall d: real
      ensures Reconvert(n, Convert(n, d)) == d && Convert(n, Reconvert(n, d)) == d
    {
      ConvertRoundTrip(n, d);
    }
    ApplyInverse(c, d => Convert(n, d), d => Reconvert(n, d));
    ApplyInverse(c, d => Reconvert(n, d), d => Convert(n, d));
  }

  /** `convertVektor`: a fresh vector of the converted entries. */
  method ConvertVektor(n: Normalizer, v: Math.Vektor) returns (res: Math.Vektor)
    requires n.sd != 0.0
    ensures fresh(res) && fresh(res.data)
    ensures res.Elements() == LinAlg.MapVec(d => Convert(n, d), v.Elements())
  {
    res := v.Apply(d => Convert(n, d));
  }

  /** `reconvertVektor`: a fresh vector of the reconverted entries; the key plays
      no part. */
  method ReconvertVektor(n: Normalizer, v: Math.Vektor, key: string) returns (res: Math.Vektor)
    ensures fresh(res) && fresh(res.data)
    ensures res.Elements() == LinAlg.MapVec(d => Reconvert(n, d), v.Elements())
  {
    res := v.Apply(d => Reconvert(n, d));
  }

  /** The vector conversions undo each other entry by entry. */
  lemma VektorRoundTrip(n: Normalizer, xs: LinAlg.Vec)
    requires n.sd != 0.0
    ensures LinAlg.MapVec(d => Reconvert(n, d), LinAlg.MapVec(d => Convert(n, d), xs)) == xs
  {
    forall i | 0 <= i < |xs|
      ensures Reconvert(n, Convert(n, xs[i])) == xs[i]
    {
      ConvertRoundTrip(n, xs[i]);
    }
  }
}
