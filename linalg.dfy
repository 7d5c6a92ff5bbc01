/** The mathematical meaning of the dense vectors and matrices of package `math`.

    Every method of the classes `Math.Vektor` and `Math.Matrix` is proved against
    the functions of this module; the lemmas here state what those functions
    mean (sums in loop order, bilinearity of the scalar product, neutrality of
    the identity, transposition, the outer product).  A vector is a sequence of
    reals, a matrix a sequence of rows. */
module LinAlg {

  type Vec = seq<real>
  type Mat = seq<seq<real>>

  /** `m` has `rows` rows of `cols` entries each. */
  predicate Shape(m: Mat, rows: nat, cols: nat) {
    |m| == rows && forall i :: 0 <= i < rows ==> |m[i]| == cols
  }

  /** `a` and `b` have the same number of rows and equally long rows. */
  predicate SameShape(a: Mat, b: Mat) {
    |a| == |b| && forall i :: 0 <= i < |a| ==> |a[i]| == |b[i]|
  }

  // ---------------------------------------------------------------- vectors

  /** `n` copies of `x` (the constructor `Vektor(n, fill)`). */
  function Fill(n: nat, x: real): Vec {
    seq(n, _ => x)
  }

  function Add(a: Vec, b: Vec): Vec
    requires |a| == |b|
  {
    seq(|a|, i requires 0 <= i < |a| => a[i] + b[i])
  }

  function Sub(a: Vec, b: Vec): Vec
    requires |a| == |b|
  {
    seq(|a|, i requires 0 <= i < |a| => a[i] - b[i])
  }

  /** The component-wise product. */
  function Hadamard(a: Vec, b: Vec): Vec
    requires |a| == |b|
  {
    seq(|a|, i requires 0 <= i < |a| => a[i] * b[i])
  }

  function Scale(a: Vec, k: real): Vec {
    seq(|a|, i requires 0 <= i < |a| => a[i] * k)
  }

  function MapVec(f: real -> real, a: Vec): Vec {
    seq(|a|, i requires 0 <= i < |a| => f(a[i]))
  }

  /** The sum of `a[k] * b[k]` for `k < n`, accumulated in ascending `k` as the loops do. */
  function DotN(a: Vec, b: Vec, n: nat): real
    requires n <= |a| && n <= |b|
  {
    if n == 0 then 0.0 else DotN(a, b, n - 1) + a[n - 1] * b[n - 1]
  }

  /** The scalar product. */
  function Dot(a: Vec, b: Vec): real
    requires |a| == |b|
  {
    DotN(a, b, |a|)
  }

  /** The squared Euclidean norm (`Vektor.norm2` takes no square root). */
  function Norm2(a: Vec): real {
    DotN(a, a, |a|)
  }

  function DropLast(a: Vec): Vec
    requires |a| > 0
  {
    a[..|a| - 1]
  }

  // --------------------------------------------------------------- matrices

  function FillMat(rows: nat, cols: nat, x: real): Mat {
    seq(rows, _ => Fill(cols, x))
  }

  function Zero(rows: nat, cols: nat): Mat {
    FillMat(rows, cols, 0.0)
  }

  function MatAdd(a: Mat, b: Mat): Mat
    requires SameShape(a, b)
  {
    seq(|a|, i requires 0 <= i < |a| => Add(a[i], b[i]))
  }

  function MatSub(a: Mat, b: Mat): Mat
    requires SameShape(a, b)
  {
    seq(|a|, i requires 0 <= i < |a| => Sub(a[i], b[i]))
  }

  function MatHadamard(a: Mat, b: Mat): Mat
    requires SameShape(a, b)
  {
    seq(|a|, i requires 0 <= i < |a| => Hadamard(a[i], b[i]))
  }

  function MatScale(a: Mat, k: real): Mat {
    seq(|a|, i requires 0 <= i < |a| => Scale(a[i], k))
  }

  function MatMap(f: real -> real, a: Mat): Mat {
    seq(|a|, i requires 0 <= i < |a| => MapVec(f, a[i]))
  }

  /** The matrix-vector product: entry `i` is the scalar product of row `i` with `v`. */
  function MatVec(m: Mat, v: Vec): Vec
    requires forall i :: 0 <= i < |m| ==> |m[i]| == |v|
  {
    seq(|m|, i requires 0 <= i < |m| => Dot(m[i], v))
  }

  /** The sum of `m[j][c] * v[j]` for `j < n`, in ascending `j`. */
  function ColumnDotN(m: Mat, c: nat, v: Vec, n: nat): real
    requires n <= |m| && n <= |v|
    requires forall j :: 0 <= j < n ==> c < |m[j]|
  {
    if n == 0 then 0.0 else ColumnDotN(m, c, v, n - 1) + m[n - 1][c] * v[n - 1]
  }

  /** The vector-matrix product `v · m` of a row vector with an `|v| × cols` matrix. */
  function VecMat(v: Vec, m: Mat, cols: nat): Vec
    requires Shape(m, |v|, cols)
  {
    seq(cols, c requires 0 <= c < cols => ColumnDotN(m, c, v, |v|))
  }

  /** The dyadic (outer) product: entry `(i, j)` is `a[i] * b[j]`. */
  function Dyadic(a: Vec, b: Vec): (d: Mat)
    ensures Shape(d, |a|, |b|)
  {
    seq(|a|, i requires 0 <= i < |a| => seq(|b|, j requires 0 <= j < |b| => a[i] * b[j]))
  }

  function Identity(n: nat): Mat {
    seq(n, i => seq(n, j => if i == j then 1.0 else 0.0))
  }

  /** The transpose of an `|m| × cols` matrix. */
  function Transpose(m: Mat, cols: nat): Mat
    requires forall i :: 0 <= i < |m| ==> |m[i]| == cols
  {
    seq(cols, c requires 0 <= c < cols => seq(|m|, j requires 0 <= j < |m| => m[j][c]))
  }

  // ----------------------------------------------------------------- lemmas

  /** Two matrices of the same shape with the same entries are equal. */
  lemma SameEntries(m: Mat, n: Mat)
    requires SameShape(m, n)
    requires forall i, j :: 0 <= i < |m| && 0 <= j < |m[i]| ==> m[i][j] == n[i][j]
    ensures m == n
  {
    forall i | 0 <= i < |m|
      ensures m[i] == n[i]
    {
      assert |m[i]| == |n[i]|;
    }
  }

  /** A partial sum of squares is never negative. */
  lemma {:induction false} DotNSquaresNonNegative(a: Vec, n: nat)
    requires n <= |a|
    ensures DotN(a, a, n) >= 0.0
  {
    if n > 0 {
      DotNSquaresNonNegative(a, n - 1);
      assert a[n - 1] * a[n - 1] >= 0.0;
    }
  }

  /** `norm2` is a sum of squares and hence non-negative. */
  lemma Norm2NonNegative(a: Vec)
    ensures Norm2(a) >= 0.0
  {
    DotNSquaresNonNegative(a, |a|);
  }

  /** The scalar product is symmetric. */
  lemma {:induction false} DotNSymmetric(a: Vec, b: Vec, n: nat)
    requires n <= |a| && n <= |b|
    ensures DotN(a, b, n) == DotN(b, a, n)
  {
    if n > 0 {
      DotNSymmetric(a, b, n - 1);
    }
  }

  /** `scp` does not depend on the order of its operands. */
  lemma DotSymmetric(a: Vec, b: Vec)
    requires |a| == |b|
    ensures Dot(a, b) == Dot(b, a)
  {
    DotNSymmetric(a, b, |a|);
  }

  /** Subtracting a multiple of `p` from `x` changes every scalar product linearly:
      the step of Gram-Schmidt rests on this. */
  lemma {:induction false} DotNOfReduction(x: Vec, p: Vec, q: Vec, k: real, n: nat)
    requires |x| == |p| && n <= |x| && n <= |q|
    ensures DotN(Sub(x, Scale(p, k)), q, n) == DotN(x, q, n) - k * DotN(p, q, n)
  {
    if n > 0 {
      DotNOfReduction(x, p, q, k, n - 1);
      var y := Sub(x, Scale(p, k));
      assert y[n - 1] == x[n - 1] - p[n - 1] * k;
      calc {
        DotN(y, q, n);
        DotN(y, q, n - 1) + y[n - 1] * q[n - 1];
        DotN(x, q, n - 1) - k * DotN(p, q, n - 1) + (x[n - 1] - p[n - 1] * k) * q[n - 1];
        DotN(x, q, n - 1) + x[n - 1] * q[n - 1] - k * (DotN(p, q, n - 1) + p[n - 1] * q[n - 1]);
      }
    }
  }

  /** A partial scalar product with the `i`-th unit vector picks out `v[i]` once `i` is summed over. */
  lemma {:induction false} DotNUnit(n: nat, i: nat, v: Vec, k: nat)
    requires i < n && k <= n && n == |v|
    ensures DotN(Identity(n)[i], v, k) == if i < k then v[i] else 0.0
  {
    if k > 0 {
      DotNUnit(n, i, v, k - 1);
    }
  }

  /** The identity matrix is neutral for the matrix-vector product. */
  lemma IdentityNeutral(v: Vec)
    ensures MatVec(Identity(|v|), v) == v
  {
    var n := |v|;
    forall i | 0 <= i < n
      ensures MatVec(Identity(n), v)[i] == v[i]
    {
      DotNUnit(n, i, v, n);
    }
  }

  /** A partial column sum of `m` is the partial scalar product of the transposed row. */
  lemma {:induction false} ColumnDotNIsTransposedDot(m: Mat, cols: nat, c: nat, v: Vec, n: nat)
    requires forall i :: 0 <= i < |m| ==> |m[i]| == cols
    requires c < cols && n <= |m| && |v| == |m|
    ensures ColumnDotN(m, c, v, n) == DotN(Transpose(m, cols)[c], v, n)
  {
    if n > 0 {
      ColumnDotNIsTransposedDot(m, cols, c, v, n - 1);
    }
  }

  /** Multiplying a row vector from the left is multiplying the transpose from the right:
      the two product loops of `Matrix` agree. */
  lemma VecMatIsTransposedMatVec(v: Vec, m: Mat, cols: nat)
    requires Shape(m, |v|, cols)
    ensures VecMat(v, m, cols) == MatVec(Transpose(m, cols), v)
  {
    forall c | 0 <= c < cols
      ensures VecMat(v, m, cols)[c] == MatVec(Transpose(m, cols), v)[c]
    {
      ColumnDotNIsTransposedDot(m, cols, c, v, |v|);
    }
  }

  /** Row `i` of an outer product is `b` scaled by `a[i]`, so its partial scalar products scale too. */
  lemma {:induction false} DotNOfScaledRow(x: real, b: Vec, v: Vec, n: nat)
    requires n <= |b| && n <= |v|
    ensures DotN(Scale(b, x), v, n) == x * DotN(b, v, n)
  {
    if n > 0 {
      DotNOfScaledRow(x, b, v, n - 1);
    }
  }

  /** The outer product acts as `v ↦ a · ⟨b, v⟩`: an independent description of `Dyadic`. */
  lemma DyadicActsAsRankOne(a: Vec, b: Vec, v: Vec)
    requires |b| == |v|
    ensures MatVec(Dyadic(a, b), v) == Scale(a, Dot(b, v))
  {
    forall i | 0 <= i < |a|
      ensures MatVec(Dyadic(a, b), v)[i] == Scale(a, Dot(b, v))[i]
    {
      assert Dyadic(a, b)[i] == Scale(b, a[i]);
      DotNOfScaledRow(a[i], b, v, |b|);
    }
  }

  /** Element-wise subtraction undoes element-wise addition. */
  lemma MatSubUndoesMatAdd(a: Mat, b: Mat)
    requires SameShape(a, b)
    ensures SameShape(MatAdd(a, b), b) && MatSub(MatAdd(a, b), b) == a
  {
    SameEntries(MatSub(MatAdd(a, b), b), a);
  }

  /** Adding a matrix with a non-zero entry is never subtracting it: the
      subtraction of `Matrix` as written (which adds) gives the wrong result
      whenever `b` is not all zero, for example `[[1]] - [[1]]` comes out as
      `[[2]]` instead of `[[0]]`. */
  lemma AddIsNotSub(a: Mat, b: Mat, i: nat, j: nat)
    requires SameShape(a, b) && i < |a| && j < |a[i]| && b[i][j] != 0.0
    ensures MatAdd(a, b) != MatSub(a, b)
    ensures MatAdd([[1.0]], [[1.0]]) == [[2.0]] && MatSub([[1.0]], [[1.0]]) == [[0.0]]
  {
    assert MatAdd(a, b)[i][j] != MatSub(a, b)[i][j];
    assert Add([1.0], [1.0]) == [2.0];
    assert Sub([1.0], [1.0]) == [0.0];
  }
}
