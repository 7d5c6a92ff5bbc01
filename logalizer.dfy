/** `Logalizer`: turns a chart of prices into the logarithms of its successive
    growth factors, `ln(b / a)` from each point to the next, and back again by
    compounding `a * exp(g)` from a remembered start point.

    The natural logarithm and the exponential are parameters of the model; the
    round trips assume only that `exp` undoes `ln` on positive numbers. */
module Logalizers {
  import opened Wrappers
  import opened ChartPoints
  import opened Charts
  import LinAlg
  import Math

  /** The logalizer remembers the first point of the chart it was made for. */
  datatype Logalizer = Logalizer(startValue: Point)

  /** `exp` undoes `ln` on the positive numbers. */
  ghost predicate ExpUndoesLn(ln: real -> real, exp: real -> real) {
    forall r :: r > 0.0 ==> exp(ln(r)) == r
  }

  /** Every value of the point is positive, as prices are. */
  predicate Positive(p: Point) {
    forall i :: 0 <= i < |p| ==> p[i].value > 0.0
  }

  /** The constructor: the start point is the chart's first point; an empty chart
      has none. */
  function FromChart(c: Chart): (r: Result<Logalizer>)
    ensures r.Failure? <==> |c| == 0
    ensures r.Failure? ==> r.error == IndexOutOfBounds
    ensures r.Success? ==> r.value.startValue == c[0]
  {
    if |c| == 0 then Failure(IndexOutOfBounds) else Success(Logalizer(c[0]))
  }

  /** `convert(first, second)`: `ln(second / first)`.  A zero `first` is a division
      by zero in the code; it is given the value `0` here and excluded by every
      lemma. */
  function LogReturn(ln: real -> real, first: real, second: real): (r: real)
    ensures first == 0.0 ==> r == 0.0
    ensures first != 0.0 && second == first && ln(1.0) == 0.0 ==> r == 0.0
  {
    if first == 0.0 then 0.0
    else
      assert second == first ==> second / first == 1.0;
      ln(second / first)
  }

  /** `reconvert(original, converted)`: `original * exp(converted)`. */
  function Grow(exp: real -> real, original: real, converted: real): (r: real)
    ensures converted == 0.0 && exp(0.0) == 1.0 ==> r == original
    ensures original == 0.0 ==> r == 0.0
  {
    original * exp(converted)
  }

  /** Growing a positive value by its log return towards a positive value reaches
      that value. */
  lemma GrowUndoesLogReturn(ln: real -> real, exp: real -> real, a: real, b: real)
    requires ExpUndoesLn(ln, exp) && a > 0.0 && b > 0.0
    ensures Grow(exp, a, LogReturn(ln, a, b)) == b
  {
    assert b / a > 0.0;
    assert exp(ln(b / a)) == b / a;
    assert a * (b / a) == b;
  }

  // -------------------------------------------------------------- charts

  /** The chart of log returns: point `k` combines point `k` with point `k + 1`,
      over their common keys; a chart of `n` points gives `n - 1`. */
  function LogReturns(ln: real -> real, c: Chart): (r: Chart)
    ensures |r| == if |c| == 0 then 0 else |c| - 1
  {
    if |c| == 0 then []
    else seq(|c| - 1, k requires 0 <= k < |c| - 1 => Map2((a, b) => LogReturn(ln, a, b), c[k], c[k + 1]))
  }

  /** `convertChart`: walks the chart remembering the previous point. */
  method ConvertChart(ln: real -> real, c: Chart) returns (r: Chart)
    ensures r == LogReturns(ln, c)
  {
    r := [];
    var previousValue: Option<Point> := None;
    for i := 0 to |c|
      invariant previousValue == if i == 0 then None else Some(c[i - 1])
      invariant |r| == if i == 0 then 0 else i - 1
      invariant forall k :: 0 <= k < |r| ==> r[k] == Map2((a, b) => LogReturn(ln, a, b), c[k], c[k + 1])
    {
      if previousValue.Some? {
        r := r + [Map2((a, b) => LogReturn(ln, a, b), previousValue.value, c[i])];
      }
      previousValue := Some(c[i]);
    }
  }

  /** The chart compounded from `start`: each point grows the previous result (at
      first `start`) by the growth point, over their common keys. */
  function Regrown(exp: real -> real, start: Point, c: Chart): (r: Chart)
    ensures |r| == |c|
    decreases |c|
  {
    if |c| == 0 then []
    else
      var first := Map2((a, b) => Grow(exp, a, b), start, c[0]);
      [first] + Regrown(exp, first, c[1..])
  }

  /** `reconvertChart`: walks the chart remembering the last result, starting
      from the start point. */
  method ReconvertChart(l: Logalizer, exp: real -> real, c: Chart) returns (r: Chart)
    ensures r == Regrown(exp, l.startValue, c)
  {
    r := [];
    var lastValue: Option<Point> := None;
    for i := 0 to |c|
      invariant |r| == i && (lastValue.None? <==> i == 0)
      invariant lastValue.Some? ==> lastValue.value == r[i - 1]
      invariant r + Regrown(exp, if lastValue.Some? then lastValue.value else l.startValue, c[i..]) ==
        Regrown(exp, l.startValue, c)
    {
      var anchor := if lastValue.Some? then lastValue.value else l.startValue;
      assert c[i..][1..] == c[i + 1..];
      lastValue := Some(Map2((a, b) => Grow(exp, a, b), anchor, c[i]));
      r := r + [lastValue.value];
    }
  }

  /** One point grown by the log returns towards the next is the next point. */
  lemma PointRoundTrip(ln: real -> real, exp: real -> real, a: Point, b: Point)
    requires ExpUndoesLn(ln, exp) && Ordered(a) && Keys(a) == Keys(b)
    requires Positive(a) && Positive(b)
    ensures Map2((x, y) => Grow(exp, x, y), a, Map2((x, y) => LogReturn(ln, x, y), a, b)) == b
  {
    var lr := (x, y) => LogReturn(ln, x, y);
    var gr := (x, y) => Grow(exp, x, y);
    assert |b| == |Keys(b)| == |Keys(a)| == |a|;
    assert forall i :: 0 <= i < |a| ==> b[i].key == Keys(b)[i] == a[i].key;
    Map2SameKeys(lr, a, b);
    var m := Map2(lr, a, b);
    assert Keys(m) == Keys(a);
    Map2SameKeys(gr, a, m);
    forall i | 0 <= i < |a|
      ensures Grow(exp, a[i].value, m[i].value) == b[i].value
    {
      GrowUndoesLogReturn(ln, exp, a[i].value, b[i].value);
    }
  }

  /** A chart of positive prices with the same keys at every point: compounding
      its log returns from its first point gives back every later point. */
  lemma {:induction false} ChartRoundTrip(ln: real -> real, exp: real -> real, c: Chart)
    requires ExpUndoesLn(ln, exp) && |c| > 0
    requires forall i :: 0 <= i < |c| ==> Ordered(c[i]) && Positive(c[i]) && Keys(c[i]) == Keys(c[0])
    ensures Regrown(exp, c[0], LogReturns(ln, c)) == c[1..]
  {
    if |c| > 1 {
      var lr := (x, y) => LogReturn(ln, x, y);
      PointRoundTrip(ln, exp, c[0], c[1]);
      ChartRoundTrip(ln, exp, c[1..]);
      assert LogReturns(ln, c)[1..] == LogReturns(ln, c[1..]);
    }
  }

  // ------------------------------------------------------------- vectors

  /** Entry `0` kept, every later entry replaced by its log return from entry `0`. */
  function ReturnsFromFirst(ln: real -> real, xs: LinAlg.Vec): LinAlg.Vec
    requires |xs| > 0
  {
    seq(|xs|, i requires 0 <= i < |xs| => if i == 0 then xs[0] else LogReturn(ln, xs[0], xs[i]))
  }

  /** The loop of `convertVektor`: every entry from index `1` on replaced, in
      place, by its log return from entry `0`. */
  method ConvertFromFirst(ln: real -> real, v: Math.Vektor)
    requires v.Length() > 0
    modifies v.data
    ensures v.Elements() == ReturnsFromFirst(ln, old(v.Elements()))
  {
    var value := v.Get(0);
    ghost var xs := v.Elements();
    var i := 1;
    while i < v.Length()
      invariant 1 <= i <= v.Length() == |xs| && value == xs[0]
      invariant v.Elements() == ReturnsFromFirst(ln, xs)[..i] + xs[i..]
    {
      var d := v.Get(i);
      v.Set(i, LogReturn(ln, value, d));
      i := i + 1;
    }
  }

  /** `convertVektor` as the code stands: it copies the vector, then converts the
      ARGUMENT's entries and returns the unconverted copy.  An empty vector has
      no entry `0`. */
  method ConvertVektorAsWritten(ln: real -> real, v: Math.Vektor) returns (r: Result<Math.Vektor>)
    modifies v.data
    ensures r.Failure? <==> old(v.Length()) == 0
    ensures r.Failure? ==> r.error == IndexOutOfBounds && v.Elements() == old(v.Elements())
    ensures r.Success? ==> fresh(r.value) && fresh(r.value.data)
    ensures r.Success? ==> r.value.Elements() == old(v.Elements())
    ensures r.Success? ==> v.Elements() == ReturnsFromFirst(ln, old(v.Elements()))
  {
    var convertedVektor := new Math.Vektor.Copy(v);
    if v.Length() == 0 {
      return Failure(IndexOutOfBounds);
    }
    ConvertFromFirst(ln, v);
    return Success(convertedVektor);
  }

  /** What `convertVektor` evidently means to return: a fresh vector of entry `0`
      followed by the log returns of the later entries from entry `0`, leaving the
      argument alone. */
  method ConvertVektor(ln: real -> real, v: Math.Vektor) returns (r: Result<Math.Vektor>)
    ensures r.Failure? <==> v.Length() == 0
    ensures r.Failure? ==> r.error == IndexOutOfBounds
    ensures r.Success? ==> fresh(r.value) && fresh(r.value.data)
    ensures r.Success? ==> r.value.Elements() == ReturnsFromFirst(ln, v.Elements())
  {
    if v.Length() == 0 {
      return Failure(IndexOutOfBounds);
    }
    var convertedVektor := new Math.Vektor.Copy(v);
    ConvertFromFirst(ln, convertedVektor);
    return Success(convertedVektor);
  }

  /** The intended conversion is undone entry by entry by growing entry `0`. */
  lemma ReturnsFromFirstRoundTrip(ln: real -> real, exp: real -> real, xs: LinAlg.Vec, i: nat)
    requires ExpUndoesLn(ln, exp) && 0 < i < |xs|
    requires forall k :: 0 <= k < |xs| ==> xs[k] > 0.0
    ensures Grow(exp, ReturnsFromFirst(ln, xs)[0], ReturnsFromFirst(ln, xs)[i]) == xs[i]
  {
    GrowUndoesLogReturn(ln, exp, xs[0], xs[i]);
  }

  /** The code's `convertVektor` returns its input unchanged, where the intended
      conversion does not: with `ln(1) = 0`, the vector `[1, 1]` comes back as
      `[1, 1]` instead of `[1, 0]`. */
  lemma ConvertVektorLosesConversion(ln: real -> real)
    requires ln(1.0) == 0.0
    ensures ReturnsFromFirst(ln, [1.0, 1.0]) == [1.0, 0.0] != [1.0, 1.0]
  {
    assert ReturnsFromFirst(ln, [1.0, 1.0])[1] == ln(1.0 / 1.0);
  }

  /** The level reached by compounding all of `xs` from `start`. */
  function Level(exp: real -> real, start: real, xs: seq<real>): real {
    if |xs| == 0 then start else Grow(exp, Level(exp, start, xs[..|xs| - 1]), xs[|xs| - 1])
  }

  /** Every prefix of `xs` compounded from `start`. */
  function Compounded(exp: real -> real, start: real, xs: seq<real>): (r: seq<real>)
    ensures |r| == |xs|
  {
    seq(|xs|, i requires 0 <= i < |xs| => Level(exp, start, xs[..i + 1]))
  }

  /** `reconvertVektor(vektor, key)`: compounds the entries from the start value of
      `key`; a start point without the key holds `null`, which cannot be unboxed. */
  method ReconvertVektor(l: Logalizer, exp: real -> real, v: Math.Vektor, key: string)
    returns (r: Result<Math.Vektor>)
    ensures r.Failure? <==> ChartPoints.Get(l.startValue, key).None?
    ensures r.Failure? ==> r.error == NullReference
    ensures r.Success? ==> fresh(r.value) && fresh(r.value.data)
    ensures r.Success? ==> r.value.Elements() == Compounded(exp, ChartPoints.Get(l.startValue, key).value, v.Elements())
  {
    var reconvertedVektor := new Math.Vektor.Copy(v);
    var start := ChartPoints.Get(l.startValue, key);
    if start.None? {
      return Failure(NullReference);
    }
    var value := start.value;
    ghost var xs := v.Elements();
    var i := 0;
    while i < v.Length()
      invariant 0 <= i <= v.Length() == reconvertedVektor.Length() == |xs|
      invariant fresh(reconvertedVektor.data) && v.Elements() == xs
      invariant value == Level(exp, start.value, xs[..i])
      invariant reconvertedVektor.Elements() == Compounded(exp, start.value, xs)[..i] + xs[i..]
    {
      var d := v.Get(i);
      value := Grow(exp, value, d);
      CompoundedStep(exp, start.value, xs, i);
      reconvertedVektor.Set(i, value);
      i := i + 1;
    }
    assert xs[i..] == [];
    assert Compounded(exp, start.value, xs)[..i] == Compounded(exp, start.value, xs);
    return Success(reconvertedVektor);
  }

  /** One more entry of `xs` compounded: its level replaces it. */
  lemma CompoundedStep(exp: real -> real, start: real, xs: seq<real>, i: nat)
    requires i < |xs|
    ensures Grow(exp, Level(exp, start, xs[..i]), xs[i]) == Level(exp, start, xs[..i + 1])
    ensures (Compounded(exp, start, xs)[..i] + xs[i..])[i := Level(exp, start, xs[..i + 1])]
      == Compounded(exp, start, xs)[..i + 1] + xs[i + 1..]
  {
    assert xs[..i + 1][..i] == xs[..i];
  }

  /** Compounding the successive log returns of a positive series from its first
      value gives back the rest of the series. */
  lemma {:induction false} CompoundedRoundTrip(ln: real -> real, exp: real -> real, ps: seq<real>)
    requires ExpUndoesLn(ln, exp) && |ps| > 0
    requires forall k :: 0 <= k < |ps| ==> ps[k] > 0.0
    ensures Compounded(exp, ps[0], seq(|ps| - 1, k requires 0 <= k < |ps| - 1 => LogReturn(ln, ps[k], ps[k + 1]))) == ps[1..]
  {
    var xs := seq(|ps| - 1, k requires 0 <= k < |ps| - 1 => LogReturn(ln, ps[k], ps[k + 1]));
    forall n | 1 <= n <= |xs|
      ensures Level(exp, ps[0], xs[..n]) == ps[n]
    {
      LevelReaches(ln, exp, ps, xs, n);
    }
  }

  lemma {:induction false} LevelReaches(ln: real -> real, exp: real -> real, ps: seq<real>, xs: seq<real>, n: nat)
    requires ExpUndoesLn(ln, exp) && n < |ps| && |xs| == |ps| - 1
    requires forall k :: 0 <= k < |ps| ==> ps[k] > 0.0
    requires forall k :: 0 <= k < |xs| ==> xs[k] == LogReturn(ln, ps[k], ps[k + 1])
    ensures Level(exp, ps[0], xs[..n]) == ps[n]
  {
    if n > 0 {
      LevelReaches(ln, exp, ps, xs, n - 1);
      assert xs[..n][..n - 1] == xs[..n - 1];
      GrowUndoesLogReturn(ln, exp, ps[n - 1], ps[n]);
    }
  }
}
