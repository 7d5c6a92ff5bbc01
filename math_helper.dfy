/** `MathHelper`: the identity matrix, the extended signum function and the
    Gram-Schmidt orthogonalisation of the rows of a matrix.

    `sigmoid`, `sigmoidInv` and `round` are transcendental or rounding
    functions; the layers take the activation function as a parameter
    instead.  `random` draws from `Math.random` and is not modelled: the
    layers receive their initial weights from the caller. */
module MathHelper {
  import opened Wrappers
  import LinAlg
  import opened Math

  /** `id(n)`: the `n × n` identity matrix, filled in a loop over the diagonal. */
  method Id(n: nat) returns (res: Matrix)
    ensures fresh(res) && fresh(res.data)
    ensures res.Elements() == LinAlg.Identity(n)
  {
    res := new Matrix.Zeros(n, n);
    var d := res.data;
    var i := 0;
    while i < n
      invariant 0 <= i <= n && res.data == d
      invariant d.Length0 == n && d.Length1 == n
      invariant forall p, q :: 0 <= p < n && 0 <= q < n ==> d[p, q] == if p == q && p < i then 1.0 else 0.0
    {
      d[i, i] := 1.0;
      i := i + 1;
    }
    LinAlg.SameEntries(res.Elements(), LinAlg.Identity(n));
  }

  /** `sgn(x)`: 0 exactly for 0, otherwise 1 or -1 by the sign of `x`. */
  function Sgn(x: real): (s: real)
    ensures s == 0.0 <==> x == 0.0
    ensures x > 0.0 ==> s == 1.0
    ensures x < 0.0 ==> s == -1.0
  {
    if x == 0.0 then 0.0 else if x > 0.0 then 1.0 else -1.0
  }

  /** The signum recovers the absolute value and is odd. */
  lemma SgnScalesToAbsolute(x: real)
    ensures Sgn(x) * x >= 0.0
    ensures Sgn(x) * x == if x < 0.0 then -x else x
    ensures Sgn(-x) == -Sgn(x)
  {
  }

  // ------------------------------------------------ Gram-Schmidt, as functions

  /** The coefficient `⟨y, p⟩ / norm2(p)` of the projection of `y` onto `p`.  A row
      of norm 0 would make Java divide by zero; the orthogonalisation demands
      non-zero norms, so the value 0 chosen for that case is never used. */
  function Coefficient(y: LinAlg.Vec, p: LinAlg.Vec): real
    requires |y| == |p|
  {
    if LinAlg.Norm2(p) == 0.0 then 0.0 else LinAlg.Dot(y, p) / LinAlg.Norm2(p)
  }

  /** Row `x` after subtracting its projections onto `P[0]`, ..., `P[k-1]`, in that
      order, each taken from the already reduced row. */
  function Reduce(x: LinAlg.Vec, P: LinAlg.Mat, k: nat): (y: LinAlg.Vec)
    requires k <= |P| && forall i :: 0 <= i < k ==> |P[i]| == |x|
    ensures |y| == |x|
  {
    if k == 0 then x
    else
      var y := Reduce(x, P, k - 1);
      LinAlg.Sub(y, LinAlg.Scale(P[k - 1], Coefficient(y, P[k - 1])))
  }

  /** The matrix after the rows `1 .. r-1` have been processed: row `r-1` is
      reduced against the rows before it, which are already final. */
  function Ortho(M: LinAlg.Mat, cols: nat, r: nat): (R: LinAlg.Mat)
    requires LinAlg.Shape(M, |M|, cols) && r <= |M|
    ensures LinAlg.Shape(R, |M|, cols)
  {
    if r <= 1 then M
    else
      var P := Ortho(M, cols, r - 1);
      P[r - 1 := Reduce(P[r - 1], P, r - 1)]
  }

  function Min(a: nat, b: nat): nat {
    if a <= b then a else b
  }

  /** The result of `orthogonalize`: rows `1 .. min(rows, cols)-1` processed. */
  function Orthogonalized(M: LinAlg.Mat, cols: nat): (R: LinAlg.Mat)
    requires LinAlg.Shape(M, |M|, cols)
    ensures LinAlg.Shape(R, |M|, cols)
  {
    Ortho(M, cols, Min(|M|, cols))
  }

  /** Every row that serves as a projection direction has a non-zero norm
      (otherwise the Java code divides by zero). */
  predicate NonDegenerate(M: LinAlg.Mat, cols: nat)
    requires LinAlg.Shape(M, |M|, cols)
  {
    forall i :: 0 <= i < Min(|M|, cols) - 1 ==> LinAlg.Norm2(Orthogonalized(M, cols)[i]) != 0.0
  }

  // ------------------------------------------------------------------ lemmas

  /** Processing rows never touches row 0 or a row that has not been reached. */
  lemma {:induction false} OrthoKeepsRows(M: LinAlg.Mat, cols: nat, r: nat, i: nat)
    requires LinAlg.Shape(M, |M|, cols) && r <= |M| && i < |M|
    requires i == 0 || i >= r
    ensures Ortho(M, cols, r)[i] == M[i]
  {
    if r > 1 {
      OrthoKeepsRows(M, cols, r - 1, i);
    }
  }

  /** A processed row is final: later steps leave it alone. */
  lemma {:induction false} OrthoStable(M: LinAlg.Mat, cols: nat, k: nat, r: nat, i: nat)
    requires LinAlg.Shape(M, |M|, cols) && k <= r <= |M| && i < k
    ensures Ortho(M, cols, r)[i] == Ortho(M, cols, k)[i]
  {
    if r > k {
      OrthoStable(M, cols, k, r - 1, i);
    }
  }

  /** `orthogonalize` never changes the shape, row 0, or any row at an index of at
      least `min(rows, cols)`. */
  lemma OrthogonalizedKeepsRows(M: LinAlg.Mat, cols: nat, i: nat)
    requires LinAlg.Shape(M, |M|, cols) && i < |M|
    requires i == 0 || i >= Min(|M|, cols)
    ensures LinAlg.Shape(Orthogonalized(M, cols), |M|, cols)
    ensures Orthogonalized(M, cols)[i] == M[i]
  {
    OrthoKeepsRows(M, cols, Min(|M|, cols), i);
  }

  /** Reducing against pairwise orthogonal directions of non-zero norm leaves a
      row orthogonal to each of them. */
  lemma {:induction false} ReduceOrthogonal(x: LinAlg.Vec, P: LinAlg.Mat, k: nat, i: nat)
    requires k <= |P| && forall j :: 0 <= j < k ==> |P[j]| == |x|
    requires forall j :: 0 <= j < k ==> LinAlg.Norm2(P[j]) != 0.0
    requires forall j, l :: 0 <= l < j < k ==> LinAlg.Dot(P[j], P[l]) == 0.0
    requires i < k
    ensures LinAlg.Dot(Reduce(x, P, k), P[i]) == 0.0
  {
    var y := Reduce(x, P, k - 1);
    var p := P[k - 1];
    var c := Coefficient(y, p);
    LinAlg.DotNOfReduction(y, p, P[i], c, |x|);
    if i < k - 1 {
      ReduceOrthogonal(x, P, k - 1, i);
      assert LinAlg.Dot(p, P[i]) == 0.0;
    } else {
      assert LinAlg.Dot(p, p) == LinAlg.Norm2(p);
      assert c * LinAlg.Norm2(p) == LinAlg.Dot(y, p);
    }
  }

  /** After `r` steps the rows `0 .. r-1` are pairwise orthogonal, provided every
      row used as a direction has a non-zero norm. */
  lemma {:induction false} OrthoOrthogonal(M: LinAlg.Mat, cols: nat, r: nat)
    requires LinAlg.Shape(M, |M|, cols) && r <= |M|
    requires forall i :: 0 <= i < r - 1 ==> LinAlg.Norm2(Ortho(M, cols, r)[i]) != 0.0
    ensures forall j, l :: 0 <= l < j < r ==> LinAlg.Dot(Ortho(M, cols, r)[j], Ortho(M, cols, r)[l]) == 0.0
  {
    if r > 1 {
      var P := Ortho(M, cols, r - 1);
      var R := Ortho(M, cols, r);
      forall i | 0 <= i < r - 2
        ensures LinAlg.Norm2(P[i]) != 0.0
      {
        assert R[i] == P[i];
      }
      OrthoOrthogonal(M, cols, r - 1);
      assert forall j :: 0 <= j < r - 1 ==> R[j] == P[j];
      forall j, l | 0 <= l < j < r
        ensures LinAlg.Dot(R[j], R[l]) == 0.0
      {
        if j < r - 1 {
          assert R[j] == P[j] && R[l] == P[l];
        } else {
          assert R[l] == P[l];
          ReduceOrthogonal(P[r - 1], P, r - 1, l);
        }
      }
    }
  }

  /** The rows of an orthogonalised non-degenerate matrix are pairwise orthogonal
      up to index `min(rows, cols)`. */
  lemma OrthogonalizedIsOrthogonal(M: LinAlg.Mat, cols: nat)
    requires LinAlg.Shape(M, |M|, cols) && NonDegenerate(M, cols)
    ensures forall j, l :: 0 <= l < j < Min(|M|, cols) ==>
      LinAlg.Dot(Orthogonalized(M, cols)[j], Orthogonalized(M, cols)[l]) == 0.0
  {
    assert Orthogonalized(M, cols) == Ortho(M, cols, Min(|M|, cols));
    OrthoOrthogonal(M, cols, Min(|M|, cols));
  }

  // ------------------------------------------------------------------ method

  /** The inner loop of `orthogonalize`: a copy of row `r` reduced against rows
      `0 .. r-1` of `mat`, in ascending order; `mat` itself is not changed. */
  method ReduceRow(mat: Matrix, r: nat) returns (nextCol: Vektor)
    requires r < mat.Rows()
    requires forall i :: 0 <= i < r ==> LinAlg.Norm2(mat.Elements()[i]) != 0.0
    ensures fresh(nextCol) && fresh(nextCol.data)
    ensures nextCol.Elements() == Reduce(mat.Elements()[r], mat.Elements(), r)
  {
    ghost var P := mat.Elements();
    nextCol := mat.ExtractRow(r);
    var i := 0;
    while i < r
      invariant 0 <= i <= r
      invariant fresh(nextCol) && fresh(nextCol.data)
      invariant nextCol.Elements() == Reduce(P[r], P, i)
    {
      var passed := mat.ExtractRow(i);
      ReduceAgainst(nextCol, passed);
      i := i + 1;
    }
  }

  /** One turn of the inner loop of `orthogonalize`: `nextCol` loses its
      projection onto `passed`, which is scaled in place on the way. */
  method ReduceAgainst(nextCol: Vektor, passed: Vektor)
    requires nextCol.data != passed.data && nextCol.Length() == passed.Length()
    requires LinAlg.Norm2(passed.Elements()) != 0.0
    modifies nextCol.data, passed.data
    ensures nextCol.Elements() == LinAlg.Sub(old(nextCol.Elements()),
      LinAlg.Scale(old(passed.Elements()), Coefficient(old(nextCol.Elements()), old(passed.Elements()))))
  {
    var scp := Vektor.ScalarProduct(nextCol, passed);
    var norm := passed.Norm2();
    var lambda := scp.value / norm;
    var scaled := passed.Scale(lambda);
    var diff := nextCol.Subtract(scaled);
  }

  /** `orthogonalize(mat)`: for `r = 1 .. n-1`, with `n = min(rows, cols)`, row `r`
      is replaced by its reduction against the already processed rows `0 .. r-1`
      (coefficient `scp(row, passed) / passed.norm2()`).  Reading `cols` looks at
      row 0, so a matrix without rows fails and stays as it is. */
  method Orthogonalize(mat: Matrix) returns (o: Outcome)
    requires NonDegenerate(mat.Elements(), mat.Cols())
    modifies mat.data
    ensures o.Fail? <==> mat.Rows() == 0
    ensures o.Fail? ==> o.error == IndexOutOfBounds
    ensures mat.Elements() == Orthogonalized(old(mat.Elements()), mat.Cols())
  {
    ghost var M := mat.Elements();
    if mat.data.Length0 == 0 {
      return Fail(IndexOutOfBounds);
    }
    var cols := mat.data.Length1;
    var n := if mat.data.Length0 <= cols then mat.data.Length0 else cols;
    assert Orthogonalized(M, cols) == Ortho(M, cols, n);
    if n == 0 {
      return Pass;
    }
    var r := 1;
    while r < n
      invariant 1 <= r <= n
      invariant mat.data.Length0 == |M| && mat.data.Length1 == cols
      invariant mat.Elements() == Ortho(M, cols, r)
    {
      OrthogonalizeRow(mat, M, r);
      r := r + 1;
    }
    return Pass;
  }

  /** One turn of the outer loop of `orthogonalize`: row `r` is replaced by its
      reduction against rows `0 .. r-1`. */
  method OrthogonalizeRow(mat: Matrix, ghost M: LinAlg.Mat, r: nat)
    requires LinAlg.Shape(M, |M|, mat.Cols()) && NonDegenerate(M, mat.Cols())
    requires 1 <= r < Min(|M|, mat.Cols()) && mat.Rows() == |M|
    requires mat.Elements() == Ortho(M, mat.Cols(), r)
    modifies mat.data
    ensures mat.Rows() == |M|
    ensures mat.Elements() == Ortho(M, mat.Cols(), r + 1)
  {
    var cols := mat.Cols();
    assert Orthogonalized(M, cols) == Ortho(M, cols, Min(|M|, cols));
    forall i | 0 <= i < r
      ensures LinAlg.Norm2(mat.Elements()[i]) != 0.0
    {
      OrthoStable(M, cols, r, Min(|M|, cols), i);
    }
    var nextCol := ReduceRow(mat, r);
    var written := mat.SetRow(r, nextCol);
  }
}
