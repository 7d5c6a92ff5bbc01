/** `ChartPoint`: one point of a chart, a `TreeMap<String, Double>` from value
    names to values.  A tree map iterates its keys in ascending order of
    `String.compareTo`, so a point is held here as its entries in that order;
    `keySet()`, `values()` and every loop over the point see this order.

    Points are values: no operation of the charts and converters changes a
    point that another object still holds (the static `apply` copies first). */
module ChartPoints {
  import opened Wrappers

  // ------------------------------------------------------------ key order

  /** `a.compareTo(b) < 0`: the first differing character decides, and a proper
      prefix comes first.  Characters compare by their code points; Java
      compares UTF-16 code units, which orders the same except between a
      character above U+FFFF and one in U+E000 .. U+FFFF. */
  predicate Below(a: string, b: string) {
    if |a| == 0 then |b| > 0
    else if |b| == 0 then false
    else if a[0] != b[0] then a[0] < b[0]
    else Below(a[1..], b[1..])
  }

  lemma {:induction false} BelowIrreflexive(a: string)
    ensures !Below(a, a)
  {
    if |a| > 0 {
      BelowIrreflexive(a[1..]);
    }
  }

  lemma {:induction false} BelowTransitive(a: string, b: string, c: string)
    requires Below(a, b) && Below(b, c)
    ensures Below(a, c)
  {
    if |a| > 0 && |b| > 0 && |c| > 0 && a[0] == b[0] && b[0] == c[0] {
      BelowTransitive(a[1..], b[1..], c[1..]);
    }
  }

  /** The order is total: any two different names are ordered one way. */
  lemma {:induction false} BelowTotal(a: string, b: string)
    ensures a == b || Below(a, b) || Below(b, a)
  {
    if |a| > 0 && |b| > 0 && a[0] == b[0] {
      BelowTotal(a[1..], b[1..]);
      if a[1..] == b[1..] {
        assert a == [a[0]] + a[1..] && b == [b[0]] + b[1..];
      }
    }
  }

  lemma {:induction false} BelowAsymmetric(a: string, b: string)
    requires Below(a, b)
    ensures !Below(b, a)
  {
    if Below(b, a) {
      BelowTransitive(a, b, a);
      BelowIrreflexive(a);
    }
  }

  // ------------------------------------------------------------ the point

  datatype Entry = Entry(key: string, value: real)

  /** The entries of a point, in iteration order. */
  type Point = seq<Entry>

  /** The keys ascend strictly: the shape of every `TreeMap`. */
  predicate Ordered(p: Point) {
    forall i, j :: 0 <= i < j < |p| ==> Below(p[i].key, p[j].key)
  }

  /** `keySet()`, in iteration order. */
  function Keys(p: Point): seq<string> {
    seq(|p|, i requires 0 <= i < |p| => p[i].key)
  }

  function KeySet(p: Point): set<string> {
    set i | 0 <= i < |p| :: p[i].key
  }

  /** `valueArray()`: the values in key order. */
  function Values(p: Point): seq<real> {
    seq(|p|, i requires 0 <= i < |p| => p[i].value)
  }

  /** `get(key)`; `None` is Java's `null` for a missing key. */
  function Get(p: Point, key: string): Option<real> {
    if |p| == 0 then None
    else if p[0].key == key then Some(p[0].value)
    else Get(p[1..], key)
  }

  /** A value found is one the point stores under the key. */
  lemma {:induction false} GetStored(p: Point, key: string)
    ensures Get(p, key).Some? ==> Entry(key, Get(p, key).value) in p
  {
    if |p| > 0 && p[0].key != key {
      GetStored(p[1..], key);
    }
  }

  /** `put(key, value)`: replaces the value of an existing key, otherwise inserts
      the entry at its place in the key order. */
  function Put(p: Point, key: string, value: real): Point {
    if |p| == 0 then [Entry(key, value)]
    else if p[0].key == key then [Entry(key, value)] + p[1..]
    else if Below(key, p[0].key) then [Entry(key, value)] + p
    else [p[0]] + Put(p[1..], key, value)
  }

  /** A key is found exactly when the point holds it, with the value stored for it. */
  lemma {:induction false} GetFindsEntries(p: Point, key: string)
    requires Ordered(p)
    ensures Get(p, key).Some? <==> key in KeySet(p)
    ensures forall i :: 0 <= i < |p| && p[i].key == key ==> Get(p, key) == Some(p[i].value)
  {
    if |p| > 0 {
      assert Ordered(p[1..]);
      GetFindsEntries(p[1..], key);
      assert KeySet(p) == {p[0].key} + KeySet(p[1..]);
      forall i | 0 < i < |p| && p[i].key == key
        ensures p[0].key != key
      {
        BelowIrreflexive(key);
      }
    }
  }

  /** After `put(key, value)` the key maps to `value` and every other key keeps
      its value. */
  lemma {:induction false} PutGet(p: Point, key: string, value: real, k: string)
    ensures Get(Put(p, key, value), k) == if k == key then Some(value) else Get(p, k)
  {
    if |p| > 0 && p[0].key != key && !Below(key, p[0].key) {
      PutGet(p[1..], key, value, k);
    }
  }

  lemma KeySetCons(e: Entry, p: Point)
    ensures KeySet([e] + p) == {e.key} + KeySet(p)
    ensures Keys([e] + p) == [e.key] + Keys(p) && Values([e] + p) == [e.value] + Values(p)
  {
    var q := [e] + p;
    forall k | k in KeySet(q)
      ensures k in {e.key} + KeySet(p)
    {
      var i :| 0 <= i < |q| && q[i].key == k;
      if i > 0 {
        assert p[i - 1].key == k;
      }
    }
    forall k | k in KeySet(p)
      ensures k in KeySet(q)
    {
      var i :| 0 <= i < |p| && p[i].key == k;
      assert q[i + 1].key == k;
    }
    assert q[0].key in KeySet(q);
  }

  /** `put` adds its key and no other, and keeps the keys in order. */
  lemma {:induction false} PutOrdered(p: Point, key: string, value: real)
    requires Ordered(p)
    ensures KeySet(Put(p, key, value)) == KeySet(p) + {key}
    ensures Ordered(Put(p, key, value))
  {
    var r := Put(p, key, value);
    if |p| == 0 {
      KeySetCons(Entry(key, value), p);
      assert r == [Entry(key, value)] + p;
    } else {
      assert p == [p[0]] + p[1..];
      KeySetCons(p[0], p[1..]);
      if p[0].key == key {
        KeySetCons(Entry(key, value), p[1..]);
      } else if Below(key, p[0].key) {
        KeySetCons(Entry(key, value), p);
        forall j | 0 < j < |r|
          ensures Below(key, r[j].key)
        {
          assert r[j] == p[j - 1];
          if j > 1 {
            BelowTransitive(key, p[0].key, r[j].key);
          }
        }
      } else {
        assert Ordered(p[1..]);
        PutOrdered(p[1..], key, value);
        PutAfterFirst(p, key, value);
      }
    }
  }

  /** The step of `PutOrdered` where the new key goes after the first entry. */
  lemma PutAfterFirst(p: Point, key: string, value: real)
    requires Ordered(p) && |p| > 0 && p[0].key != key && !Below(key, p[0].key)
    requires KeySet(Put(p[1..], key, value)) == KeySet(p[1..]) + {key}
    requires Ordered(Put(p[1..], key, value))
    ensures KeySet(Put(p, key, value)) == KeySet(p) + {key}
    ensures Ordered(Put(p, key, value))
  {
    var r := Put(p, key, value);
    var rest := Put(p[1..], key, value);
    assert p == [p[0]] + p[1..];
    KeySetCons(p[0], p[1..]);
    assert r == [p[0]] + rest;
    KeySetCons(p[0], rest);
    BelowTotal(key, p[0].key);
    forall j | 0 < j < |r|
      ensures Below(p[0].key, r[j].key)
    {
      assert r[j] == rest[j - 1];
      assert rest[j - 1].key in KeySet(rest);
      if rest[j - 1].key != key {
        var m :| 0 <= m < |p[1..]| && p[1..][m].key == rest[j - 1].key;
        assert p[m + 1].key == rest[j - 1].key;
      }
    }
    forall i, j | 0 <= i < j < |r|
      ensures Below(r[i].key, r[j].key)
    {
      if i > 0 {
        assert r[i] == rest[i - 1] && r[j] == rest[j - 1];
      }
    }
  }

  /** `put` on a key the point already holds rewrites that entry in place. */
  lemma {:induction false} PutExisting(p: Point, i: nat, value: real)
    requires Ordered(p) && i < |p|
    ensures Put(p, p[i].key, value) == p[i := Entry(p[i].key, value)]
  {
    if i > 0 {
      assert Below(p[0].key, p[i].key);
      BelowAsymmetric(p[0].key, p[i].key);
      BelowIrreflexive(p[0].key);
      assert Ordered(p[1..]);
      PutExisting(p[1..], i - 1, value);
      assert p[1..][i - 1 := Entry(p[i].key, value)] == p[i := Entry(p[i].key, value)][1..];
    }
  }

  // -------------------------------------------------------- the operations

  /** Static `apply(op, a)`: a copy of `a` with every value mapped by `op`. */
  function Map1(op: real -> real, a: Point): (r: Point)
    ensures Keys(r) == Keys(a)
    ensures Ordered(a) ==> Ordered(r)
  {
    var r := seq(|a|, i requires 0 <= i < |a| => Entry(a[i].key, op(a[i].value)));
    assert forall i :: 0 <= i < |a| ==> r[i].key == a[i].key;
    assert Keys(r) == Keys(a);
    r
  }

  /** The copy has the keys of `a`, in the same order, and each value is `op` of
      the value `a` holds for that key. */
  lemma Map1KeepsKeys(op: real -> real, a: Point, k: string)
    ensures Keys(Map1(op, a)) == Keys(a) && KeySet(Map1(op, a)) == KeySet(a)
    ensures Ordered(a) ==> Ordered(Map1(op, a))
    ensures Get(Map1(op, a), k) == if Get(a, k).Some? then Some(op(Get(a, k).value)) else None
  {
    var r := Map1(op, a);
    assert forall i :: 0 <= i < |a| ==> r[i].key == a[i].key;
    assert Keys(r) == Keys(a);
    Map1Get(op, a, k);
  }

  lemma {:induction false} Map1Get(op: real -> real, a: Point, k: string)
    ensures Get(Map1(op, a), k) == if Get(a, k).Some? then Some(op(Get(a, k).value)) else None
  {
    if |a| > 0 {
      assert Map1(op, a)[1..] == Map1(op, a[1..]);
      Map1Get(op, a[1..], k);
    }
  }

  /** Two mapped copies compose: mapping by `f` and then by `g` is mapping by
      `g ∘ f`; in particular an inverse `g` gives back the point. */
  lemma Map1Inverse(f: real -> real, g: real -> real, a: Point)
    requires forall x :: g(f(x)) == x
    ensures Map1(g, Map1(f, a)) == a
  {
  }

  /** Static `apply(op, a, b)`: the keys common to `a` and `b`, each mapped to
      `op(a[key], b[key])`.  Java collects them in a hash set, but the result is a
      tree map, so its order is the key order; it is built here by walking `a`. */
  function Map2(op: (real, real) -> real, a: Point, b: Point): (r: Point)
    ensures |r| <= |a| && KeySet(r) <= KeySet(a)
    ensures |b| == 0 ==> r == []
  {
    if |a| == 0 then []
    else
      assert KeySet(a) == {a[0].key} + KeySet(a[1..]);
      var rest := Map2(op, a[1..], b);
      match Get(b, a[0].key)
      case Some(y) => [Entry(a[0].key, op(a[0].value, y))] + rest
      case None => rest
  }

  /** The combined point holds exactly the common keys, each with `op` of the two
      values. */
  lemma {:induction false} Map2Get(op: (real, real) -> real, a: Point, b: Point, k: string)
    ensures Get(Map2(op, a, b), k) ==
      if Get(a, k).Some? && Get(b, k).Some? then Some(op(Get(a, k).value, Get(b, k).value)) else None
  {
    if |a| > 0 {
      Map2Get(op, a[1..], b, k);
    }
  }

  /** The combined point is in key order, and its keys are the intersection. */
  lemma {:induction false} Map2Ordered(op: (real, real) -> real, a: Point, b: Point)
    requires Ordered(a) && Ordered(b)
    ensures Ordered(Map2(op, a, b))
    ensures KeySet(Map2(op, a, b)) == KeySet(a) * KeySet(b)
  {
    if |a| > 0 {
      assert Ordered(a[1..]);
      Map2Ordered(op, a[1..], b);
      var rest := Map2(op, a[1..], b);
      assert a == [a[0]] + a[1..];
      KeySetCons(a[0], a[1..]);
      GetFindsEntries(b, a[0].key);
      forall j | 0 <= j < |rest|
        ensures Below(a[0].key, rest[j].key)
      {
        assert rest[j].key in KeySet(rest);
        var i :| 0 <= i < |a[1..]| && a[1..][i].key == rest[j].key;
        assert a[i + 1].key == rest[j].key;
      }
      var r := Map2(op, a, b);
      if Get(b, a[0].key).Some? {
        assert r == [r[0]] + rest;
        KeySetCons(r[0], rest);
      } else {
        assert r == rest;
      }
    }
  }

  /** Points with the same keys, in key order, combine entry by entry. */
  lemma {:induction false} Map2SameKeys(op: (real, real) -> real, a: Point, b: Point)
    requires Ordered(a) && Keys(a) == Keys(b)
    ensures Map2(op, a, b) == seq(|a|, i requires 0 <= i < |a| && i < |b| => Entry(a[i].key, op(a[i].value, b[i].value)))
    decreases |a|
  {
    if |a| > 0 {
      assert |b| == |Keys(b)|;
      assert forall i :: 0 <= i < |a| ==> b[i].key == Keys(b)[i] == a[i].key;
      assert Keys(a[1..]) == Keys(a)[1..] && Keys(b[1..]) == Keys(b)[1..];
      assert Ordered(a[1..]);
      Map2SameKeys(op, a[1..], b[1..]);
      forall i | 0 <= i < |a[1..]|
        ensures a[1..][i].key != b[0].key
      {
        BelowIrreflexive(a[0].key);
        assert Below(a[0].key, a[i + 1].key);
      }
      Map2SkipsFirst(op, a[1..], b);
      assert b[1..] == b[1..];
    }
  }

  /** While the keys of `a` all come after the first key of `b`, the first entry of
      `b` plays no part. */
  lemma {:induction false} Map2SkipsFirst(op: (real, real) -> real, a: Point, b: Point)
    requires |b| > 0 && forall i :: 0 <= i < |a| ==> a[i].key != b[0].key
    ensures Map2(op, a, b) == Map2(op, a, b[1..])
  {
    if |a| > 0 {
      Map2SkipsFirst(op, a[1..], b);
    }
  }

  /** The `(keySet, values)` constructor: the `k`-th key in iteration order is put
      with `values[k]`.  An array shorter than the key set fails on the first
      missing index; a key set is free of duplicates. */
  method FromKeysValues(keys: seq<string>, values: seq<real>) returns (r: Result<Point>)
    requires forall i, j :: 0 <= i < j < |keys| ==> keys[i] != keys[j]
    ensures r.Failure? <==> |values| < |keys|
    ensures r.Failure? ==> r.error == IndexOutOfBounds
    ensures r.Success? ==> Ordered(r.value) && KeySet(r.value) == set i | 0 <= i < |keys| :: keys[i]
    ensures r.Success? ==> forall i :: 0 <= i < |keys| ==> Get(r.value, keys[i]) == Some(values[i])
    ensures r.Success? && (forall i, j :: 0 <= i < j < |keys| ==> Below(keys[i], keys[j])) ==>
      Keys(r.value) == keys && Values(r.value) == values[..|keys|]
  {
    var p: Point := [];
    var index := 0;
    while index < |keys|
      invariant 0 <= index <= |keys| && index <= |values| + 1
      invariant index <= |values|
      invariant Ordered(p) && KeySet(p) == set i | 0 <= i < index :: keys[i]
      invariant forall i :: 0 <= i < index ==> Get(p, keys[i]) == Some(values[i])
    {
      if index >= |values| {
        return Failure(IndexOutOfBounds);
      }
      PutOrdered(p, keys[index], values[index]);
      forall i | 0 <= i <= index
        ensures Get(Put(p, keys[index], values[index]), keys[i]) == Some(values[i])
      {
        PutGet(p, keys[index], values[index], keys[i]);
      }
      p := Put(p, keys[index], values[index]);
      index := index + 1;
    }
    if forall i, j :: 0 <= i < j < |keys| ==> Below(keys[i], keys[j]) {
      var zipped := seq(|keys|, i requires 0 <= i < |keys| => Entry(keys[i], values[i]));
      assert forall i :: 0 <= i < |keys| ==> zipped[i].key == keys[i];
      assert KeySet(zipped) == set i | 0 <= i < |keys| :: keys[i];
      RebuiltFromValues(zipped, p);
      assert Keys(zipped) == keys;
    }
    return Success(p);
  }

  /** Instance `apply(op)`: every key, in order, is put again with `op` of its
      value. */
  method Apply(p: Point, op: real -> real) returns (q: Point)
    requires Ordered(p)
    ensures q == Map1(op, p)
  {
    q := p;
    var i := 0;
    while i < |q|
      invariant 0 <= i <= |q| == |p|
      invariant Keys(q) == Keys(p) && Ordered(q)
      invariant forall j :: 0 <= j < |p| ==> q[j] == if j < i then Entry(p[j].key, op(p[j].value)) else p[j]
    {
      PutExisting(q, i, op(q[i].value));
      q := Put(q, q[i].key, op(q[i].value));
      assert Keys(q) == Keys(p);
      i := i + 1;
    }
  }

  /** A point rebuilt from its own key set and value array is the point. */
  lemma RebuiltFromValues(p: Point, q: Point)
    requires Ordered(p) && Ordered(q) && KeySet(q) == KeySet(p)
    requires forall i :: 0 <= i < |p| ==> Get(q, p[i].key) == Some(p[i].value)
    ensures q == p
  {
    OrderedByKeySet(p, q);
    assert |q| == |Keys(q)| == |Keys(p)| == |p|;
    forall i | 0 <= i < |p|
      ensures q[i] == p[i]
    {
      assert q[i].key == Keys(q)[i] == Keys(p)[i] == p[i].key;
      GetFindsEntries(q, p[i].key);
    }
  }

  /** Two points in key order with the same keys list them in the same order. */
  lemma {:induction false} OrderedByKeySet(p: Point, q: Point)
    requires Ordered(p) && Ordered(q) && KeySet(q) == KeySet(p)
    ensures Keys(q) == Keys(p)
    decreases |p|
  {
    if |p| > 0 {
      assert p[0].key in KeySet(q);
      var i :| 0 <= i < |q| && q[i].key == p[0].key;
      assert q[0].key in KeySet(p);
      var j :| 0 <= j < |p| && p[j].key == q[0].key;
      if i > 0 {
        if j > 0 {
          assert Below(p[0].key, p[j].key);
          BelowAsymmetric(q[0].key, q[i].key);
        } else {
          BelowIrreflexive(q[0].key);
        }
      }
      assert q[0].key == p[0].key;
      assert p == [p[0]] + p[1..] && q == [q[0]] + q[1..];
      KeySetCons(p[0], p[1..]);
      KeySetCons(q[0], q[1..]);
      assert Ordered(p[1..]) && Ordered(q[1..]);
      forall m | 0 <= m < |q[1..]|
        ensures q[1..][m].key != q[0].key
      {
        assert Below(q[0].key, q[m + 1].key);
        BelowIrreflexive(q[0].key);
      }
      forall m | 0 <= m < |p[1..]|
        ensures p[1..][m].key != p[0].key
      {
        assert Below(p[0].key, p[m + 1].key);
        BelowIrreflexive(p[0].key);
      }
      assert KeySet(q[1..]) == KeySet(p[1..]);
      OrderedByKeySet(p[1..], q[1..]);
    }
  }
}
