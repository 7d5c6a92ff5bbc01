/** `Chart`: a time series, the list of its points in time order. */
module Charts {
  import opened Wrappers
  import opened ChartPoints

  type Chart = seq<Point>

  /** `get(key)`: the series of one value name, `None` where a point lacks it. */
  function Series(c: Chart, key: string): (s: seq<Option<real>>)
    ensures |s| == |c|
    ensures forall i :: 0 <= i < |c| && s[i].Some? ==> Entry(key, s[i].value) in c[i]
  {
    assert forall i :: 0 <= i < |c| ==> Get(c[i], key).Some? ==> Entry(key, Get(c[i], key).value) in c[i] by {
      forall i | 0 <= i < |c| {
        GetStored(c[i], key);
      }
    }
    seq(|c|, i requires 0 <= i < |c| => ChartPoints.Get(c[i], key))
  }

  /** `last()`: the newest point; an empty chart fails on index `-1`. */
  function Last(c: Chart): (r: Result<Point>)
    ensures r.Failure? <==> |c| == 0
    ensures r.Failure? ==> r.error == IndexOutOfBounds
    ensures r.Success? ==> r.value in c && r.value == c[|c| - 1]
  {
    if |c| == 0 then Failure(IndexOutOfBounds) else Success(c[|c| - 1])
  }

  /** `keySet()`: the keys of the first point, `null` for an empty chart. */
  function KeySetOf(c: Chart): (r: Option<seq<string>>)
    ensures r.Some? <==> |c| > 0
    ensures r.Some? ==> |r.value| == |c[0]| && forall i :: 0 <= i < |c[0]| ==> r.value[i] == c[0][i].key
  {
    if |c| > 0 then Some(Keys(c[0])) else None
  }

  /** `subChart(from, to)`: the points `from` up to, not including, `to`, with the
      range checks of `ArrayList.subList`. */
  function SubChart(c: Chart, from: int, to: int): (r: Result<Chart>)
    ensures r.Success? <==> 0 <= from <= to <= |c|
    ensures r.Failure? ==> r.error == if from < 0 || to > |c| then IndexOutOfBounds else IllegalArgument
    ensures r.Success? ==> |r.value| == to - from && forall i :: 0 <= i < to - from ==> r.value[i] == c[from + i]
  {
    if from < 0 || to > |c| then Failure(IndexOutOfBounds)
    else if from > to then Failure(IllegalArgument)
    else Success(c[from..to])
  }

  /** `subChart(from)`: the points from `from` on. */
  function SubChartFrom(c: Chart, from: int): (r: Result<Chart>)
    ensures r == SubChart(c, from, |c|)
  {
    if from < 0 then Failure(IndexOutOfBounds)
    else if from > |c| then Failure(IllegalArgument)
    else assert c[from..] == c[from..|c|]; Success(c[from..])
  }

  /** A chart is its head up to `k` followed by its tail from `k`, and a window of
      a window is a window of the chart. */
  lemma SubChartSplits(c: Chart, k: int, from: int, to: int, from': int, to': int)
    requires 0 <= k <= |c| && 0 <= from <= to <= |c|
    requires 0 <= from' <= to' <= to - from
    ensures SubChart(c, 0, k).value + SubChartFrom(c, k).value == c
    ensures SubChart(SubChart(c, from, to).value, from', to') == SubChart(c, from + from', from + to')
    ensures SubChartFrom(SubChart(c, from, to).value, from') == SubChart(c, from + from', to)
    ensures to > from ==> Last(SubChart(c, from, to).value) == Success(c[to - 1])
  {
    assert c[..k] + c[k..] == c;
    assert c[from..to][from'..to'] == c[from + from'..from + to'];
    assert c[from..to][from'..] == c[from + from'..to];
  }

  /** The series of a window is the window of the series. */
  lemma SeriesOfWindow(c: Chart, from: int, to: int, key: string)
    requires 0 <= from <= to <= |c|
    ensures Series(SubChart(c, from, to).value, key) == Series(c, key)[from..to]
  {
  }

  /** `apply(op)`: every point mapped by the static `ChartPoint.apply`. */
  function Apply(c: Chart, op: real -> real): (r: Chart)
    ensures |r| == |c|
    ensures forall i :: 0 <= i < |c| ==> Keys(r[i]) == Keys(c[i])
    ensures forall i :: 0 <= i < |c| && Ordered(c[i]) ==> Ordered(r[i])
  {
    seq(|c|, i requires 0 <= i < |c| => Map1(op, c[i]))
  }

  /** Applying keeps the length, the key set and the order of every point, and
      maps every series entry by `op`. */
  lemma ApplyKeepsShape(c: Chart, op: real -> real, key: string)
    ensures |Apply(c, op)| == |c|
    ensures forall i :: 0 <= i < |c| ==> Keys(Apply(c, op)[i]) == Keys(c[i])
    ensures forall i :: 0 <= i < |c| && Ordered(c[i]) ==> Ordered(Apply(c, op)[i])
    ensures forall i :: 0 <= i < |c| ==>
      Series(Apply(c, op), key)[i] == if Series(c, key)[i].Some? then Some(op(Series(c, key)[i].value)) else None
  {
    forall i | 0 <= i < |c|
      ensures Keys(Apply(c, op)[i]) == Keys(c[i])
      ensures Ordered(c[i]) ==> Ordered(Apply(c, op)[i])
      ensures Series(Apply(c, op), key)[i] == if Series(c, key)[i].Some? then Some(op(Series(c, key)[i].value)) else None
    {
      Map1KeepsKeys(op, c[i], key);
    }
  }

  /** Applying an operation and then its inverse gives back the chart. */
  lemma ApplyInverse(c: Chart, f: real -> real, g: real -> real)
    requires forall x :: g(f(x)) == x
    ensures Apply(Apply(c, f), g) == c
  {
    forall i | 0 <= i < |c|
      ensures Apply(Apply(c, f), g)[i] == c[i]
    {
      Map1Inverse(f, g, c[i]);
    }
  }

  /** The values of every point in turn, each point's in key order. */
  function Flattened(c: Chart): seq<real> {
    if |c| == 0 then [] else Flattened(c[..|c| - 1]) + Values(c[|c| - 1])
  }

  /** The number of values in all points together. */
  function ValueCount(c: Chart): nat {
    if |c| == 0 then 0 else ValueCount(c[..|c| - 1]) + |c[|c| - 1]|
  }

  /** `flatten()`: the values of every point, point by point, key by key. */
  method Flatten(c: Chart) returns (res: seq<real>)
    ensures res == Flattened(c)
  {
    res := [];
    for i := 0 to |c|
      invariant res == Flattened(c[..i])
    {
      var point := c[i];
      var start := res;
      for j := 0 to |point|
        invariant res == start + Values(point)[..j]
      {
        res := res + [point[j].value];
      }
      assert c[..i + 1][..i] == c[..i];
    }
    assert c[..|c|] == c;
  }

  /** The flattened chart holds every value of every point, and a chart of `n`
      points of `k` values each flattens to `n * k` values. */
  lemma {:induction false} FlattenedLength(c: Chart, k: nat)
    ensures |Flattened(c)| == ValueCount(c)
    ensures (forall i :: 0 <= i < |c| ==> |c[i]| == k) ==> |Flattened(c)| == |c| * k
  {
    if |c| > 0 {
      FlattenedLength(c[..|c| - 1], k);
    }
  }
}
