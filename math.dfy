/** Package `math`: the classes `Vektor` and `Matrix` over Java `double[]` / `double[][]`.

    Reals stand in for doubles.  Instance operations whose Java version updates
    `data` in place and returns `this` modify `data` and return `Success(this)`;
    the static operations fill a fresh result in loops and leave their operands
    unchanged.  A shape mismatch is `Failure(DimensionError)`, raised before
    anything is written.  Every method is proved against the functions of
    module `LinAlg`. */
module Math {
  import opened Wrappers
  import LinAlg

  class Vektor {
    var data: array<real>

    function Length(): nat
      reads this
    {
      data.Length
    }

    /** The entries of the vector. */
    function Elements(): LinAlg.Vec
      reads this, data
    {
      data[..]
    }

    /** `Vektor(double... data)`: the vector takes the caller's array as its storage. */
    constructor Of(d: array<real>)
      ensures data == d
    {
      data := d;
    }

    /** `Vektor(List<Double>)`: copies the list into fresh storage. */
    constructor FromList(list: seq<real>)
      ensures fresh(data) && Elements() == list
    {
      var d := new real[|list|];
      var i := 0;
      while i < |list|
        invariant 0 <= i <= |list|
        invariant forall k :: 0 <= k < i ==> d[k] == list[k]
      {
        d[i] := list[i];
        i := i + 1;
      }
      data := d;
    }

    /** `Vektor(n, fill)`: `n` entries, each equal to `fill`. */
    constructor Filled(n: nat, fill: real)
      ensures fresh(data) && Elements() == LinAlg.Fill(n, fill)
    {
      var d := new real[n];
      var i := 0;
      while i < n
        invariant 0 <= i <= n
        invariant forall k :: 0 <= k < i ==> d[k] == fill
      {
        d[i] := fill;
        i := i + 1;
      }
      data := d;
    }

    /** `Vektor(n)`: `n` zeros. */
    constructor Zeros(n: nat)
      ensures fresh(data) && Elements() == LinAlg.Fill(n, 0.0)
    {
      var d := new real[n];
      var i := 0;
      while i < n
        invariant 0 <= i <= n
        invariant forall k :: 0 <= k < i ==> d[k] == 0.0
      {
        d[i] := 0.0;
        i := i + 1;
      }
      data := d;
    }

    /** The copy constructor: same entries, fresh storage. */
    constructor Copy(v: Vektor)
      ensures fresh(data) && Elements() == v.Elements()
    {
      var d := new real[v.data.Length];
      var i := 0;
      while i < d.Length
        invariant 0 <= i <= d.Length
        invariant forall k :: 0 <= k < i ==> d[k] == v.data[k]
      {
        d[i] := v.data[i];
        i := i + 1;
      }
      data := d;
    }

    method Get(i: nat) returns (d: real)
      requires i < Length()
      ensures d == Elements()[i]
    {
      d := data[i];
    }

    method Set(i: nat, d: real)
      requires i < Length()
      modifies data
      ensures Elements() == old(Elements())[i := d]
    {
      data[i] := d;
    }

    /** Replaces the storage by a copy without the last entry.  On an empty vector
        Java allocates an array of length -1 and fails. */
    method DropLast() returns (r: Result<Vektor>)
      modifies this
      ensures old(Length()) == 0 <==> r.Failure?
      ensures r.Failure? ==> r.error == NegativeArraySize && data == old(data)
      ensures r.Success? ==> r.value == this && fresh(data)
      ensures r.Success? ==> Elements() == LinAlg.DropLast(old(Elements()))
    {
      if data.Length == 0 {
        return Failure(NegativeArraySize);
      }
      var d := new real[data.Length - 1];
      var i := 0;
      while i < d.Length
        invariant 0 <= i <= d.Length && data == old(data)
        invariant forall k :: 0 <= k < i ==> d[k] == data[k]
      {
        d[i] := data[i];
        i := i + 1;
      }
      data := d;
      return Success(this);
    }

    /** A fresh vector of `f` applied to every entry; this vector is unchanged. */
    method Apply(f: real -> real) returns (res: Vektor)
      ensures fresh(res) && fresh(res.data)
      ensures res.Elements() == LinAlg.MapVec(f, Elements())
    {
      res := new Vektor.Copy(this);
      var i := 0;
      while i < data.Length
        invariant 0 <= i <= data.Length == res.data.Length && fresh(res.data)
        invariant forall k :: 0 <= k < i ==> res.data[k] == f(data[k])
      {
        res.data[i] := f(data[i]);
        i := i + 1;
      }
    }

    /** The sum of squares of the entries (no square root is taken). */
    method Norm2() returns (res: real)
      ensures res == LinAlg.Norm2(Elements())
      ensures res >= 0.0
    {
      res := 0.0;
      var i := 0;
      while i < data.Length
        invariant 0 <= i <= data.Length
        invariant res == LinAlg.DotN(data[..], data[..], i)
      {
        res := res + data[i] * data[i];
        i := i + 1;
      }
      LinAlg.Norm2NonNegative(data[..]);
    }

    /** `add`: adds `v` into this vector, entry by entry. */
    method Add(v: Vektor) returns (r: Result<Vektor>)
      modifies data
      ensures r.Failure? <==> v.Length() != Length()
      ensures r.Failure? ==> r.error == DimensionError && Elements() == old(Elements())
      ensures r.Success? ==> r.value == this
      ensures r.Success? ==> Elements() == LinAlg.Add(old(Elements()), old(v.Elements()))
    {
      if v.data.Length != data.Length {
        return Failure(DimensionError);
      }
      ghost var a, b := data[..], v.data[..];
      var i := 0;
      while i < data.Length
        invariant 0 <= i <= data.Length
        invariant forall k :: 0 <= k < i ==> data[k] == a[k] + b[k]
        invariant forall k :: i <= k < data.Length ==> data[k] == a[k] && v.data[k] == b[k]
      {
        data[i] := data[i] + v.data[i];
        i := i + 1;
      }
      return Success(this);
    }

    /** `subtract`: subtracts `v` from this vector, entry by entry. */
    method Subtract(v: Vektor) returns (r: Result<Vektor>)
      modifies data
      ensures r.Failure? <==> v.Length() != Length()
      ensures r.Failure? ==> r.error == DimensionError && Elements() == old(Elements())
      ensures r.Success? ==> r.value == this
      ensures r.Success? ==> Elements() == LinAlg.Sub(old(Elements()), old(v.Elements()))
    {
      if v.data.Length != data.Length {
        return Failure(DimensionError);
      }
      ghost var a, b := data[..], v.data[..];
      var i := 0;
      while i < data.Length
        invariant 0 <= i <= data.Length
        invariant forall k :: 0 <= k < i ==> data[k] == a[k] - b[k]
        invariant forall k :: i <= k < data.Length ==> data[k] == a[k] && v.data[k] == b[k]
      {
        data[i] := data[i] - v.data[i];
        i := i + 1;
      }
      return Success(this);
    }

    /** `mult(double)`: scales this vector in place. */
    method Scale(lambda: real) returns (r: Vektor)
      modifies data
      ensures r == this
      ensures Elements() == LinAlg.Scale(old(Elements()), lambda)
    {
      ghost var a := data[..];
      var i := 0;
      while i < data.Length
        invariant 0 <= i <= data.Length
        invariant forall k :: 0 <= k < i ==> data[k] == a[k] * lambda
        invariant forall k :: i <= k < data.Length ==> data[k] == a[k]
      {
        data[i] := data[i] * lambda;
        i := i + 1;
      }
      forall k | 0 <= k < data.Length
        ensures data[..][k] == LinAlg.Scale(a, lambda)[k]
      {
      }
      return this;
    }

    /** `scp`: the scalar product, after checking that the lengths agree. */
    method Scp(v: Vektor) returns (r: Result<real>)
      ensures r.Failure? <==> v.Length() != Length()
      ensures r.Failure? ==> r.error == DimensionError
      ensures r.Success? ==> r.value == LinAlg.Dot(Elements(), v.Elements())
    {
      if v.data.Length != data.Length {
        return Failure(DimensionError);
      }
      var sum := 0.0;
      var i := 0;
      while i < data.Length
        invariant 0 <= i <= data.Length
        invariant sum == LinAlg.DotN(data[..], v.data[..], i)
      {
        sum := sum + data[i] * v.data[i];
        i := i + 1;
      }
      return Success(sum);
    }

    /** `mult(Vektor)`: the component-wise product, in place. */
    method Multiply(v: Vektor) returns (r: Result<Vektor>)
      modifies data
      ensures r.Failure? <==> v.Length() != Length()
      ensures r.Failure? ==> r.error == DimensionError && Elements() == old(Elements())
      ensures r.Success? ==> r.value == this
      ensures r.Success? ==> Elements() == LinAlg.Hadamard(old(Elements()), old(v.Elements()))
    {
      if v.data.Length != data.Length {
        return Failure(DimensionError);
      }
      ghost var a, b := data[..], v.data[..];
      var i := 0;
      while i < data.Length
        invariant 0 <= i <= data.Length
        invariant forall k :: 0 <= k < i ==> data[k] == a[k] * b[k]
        invariant forall k :: i <= k < data.Length ==> data[k] == a[k] && v.data[k] == b[k]
      {
        data[i] := data[i] * v.data[i];
        i := i + 1;
      }
      forall k | 0 <= k < data.Length
        ensures data[..][k] == LinAlg.Hadamard(a, b)[k]
      {
      }
      return Success(this);
    }

    /** `dyadicProduct(v)`: the `|this| × |v|` outer product in a fresh matrix. */
    method DyadicProduct(v: Vektor) returns (res: Matrix)
      ensures fresh(res) && fresh(res.data)
      ensures res.Elements() == LinAlg.Dyadic(Elements(), v.Elements())
    {
      res := Dyadic(this, v);
    }

    /** `concat(output)`: replaces the storage by this vector's entries followed by `w`'s. */
    method Concat(w: Vektor)
      modifies this
      ensures fresh(data)
      ensures Elements() == old(Elements()) + old(w.Elements())
    {
      var d := new real[data.Length + w.data.Length];
      var i := 0;
      while i < data.Length
        invariant 0 <= i <= data.Length && data == old(data) && w.data == old(w.data)
        invariant forall k :: 0 <= k < i ==> d[k] == data[k]
      {
        d[i] := data[i];
        i := i + 1;
      }
      i := 0;
      while i < w.data.Length
        invariant 0 <= i <= w.data.Length && data == old(data) && w.data == old(w.data)
        invariant forall k :: 0 <= k < data.Length ==> d[k] == data[k]
        invariant forall k :: 0 <= k < i ==> d[data.Length + k] == w.data[k]
      {
        d[data.Length + i] := w.data[i];
        i := i + 1;
      }
      assert d[..] == data[..] + w.data[..];
      data := d;
    }

    /** Static `add(a, b)`: a fresh vector `a + b`; both operands unchanged. */
    static method Sum(a: Vektor, b: Vektor) returns (r: Result<Vektor>)
      ensures r.Failure? <==> a.Length() != b.Length()
      ensures r.Failure? ==> r.error == DimensionError
      ensures r.Success? ==> fresh(r.value) && fresh(r.value.data)
      ensures r.Success? ==> r.value.Elements() == LinAlg.Add(a.Elements(), b.Elements())
    {
      if a.data.Length != b.data.Length {
        return Failure(DimensionError);
      }
      var v := new Vektor.Copy(a);
      var i := 0;
      while i < a.data.Length
        invariant 0 <= i <= a.data.Length == v.data.Length && fresh(v.data)
        invariant forall k :: 0 <= k < i ==> v.data[k] == a.data[k] + b.data[k]
        invariant forall k :: i <= k < v.data.Length ==> v.data[k] == a.data[k]
      {
        v.data[i] := v.data[i] + b.data[i];
        i := i + 1;
      }
      return Success(v);
    }

    /** Static `subtract(a, b)`: a fresh vector `a - b`; both operands unchanged. */
    static method Difference(a: Vektor, b: Vektor) returns (r: Result<Vektor>)
      ensures r.Failure? <==> a.Length() != b.Length()
      ensures r.Failure? ==> r.error == DimensionError
      ensures r.Success? ==> fresh(r.value) && fresh(r.value.data)
      ensures r.Success? ==> r.value.Elements() == LinAlg.Sub(a.Elements(), b.Elements())
    {
      if a.data.Length != b.data.Length {
        return Failure(DimensionError);
      }
      var v := new Vektor.Copy(a);
      var i := 0;
      while i < a.data.Length
        invariant 0 <= i <= a.data.Length == v.data.Length && fresh(v.data)
        invariant forall k :: 0 <= k < i ==> v.data[k] == a.data[k] - b.data[k]
        invariant forall k :: i <= k < v.data.Length ==> v.data[k] == a.data[k]
      {
        v.data[i] := v.data[i] - b.data[i];
        i := i + 1;
      }
      return Success(v);
    }

    /** Static `mult(v, lambda)`: a fresh scaled copy. */
    static method Scaled(v: Vektor, lambda: real) returns (res: Vektor)
      ensures fresh(res) && fresh(res.data)
      ensures res.Elements() == LinAlg.Scale(v.Elements(), lambda)
    {
      res := new Vektor.Copy(v);
      var i := 0;
      while i < res.data.Length
        invariant 0 <= i <= res.data.Length == v.data.Length && fresh(res.data)
        invariant forall k :: 0 <= k < i ==> res.data[k] == v.data[k] * lambda
        invariant forall k :: i <= k < res.data.Length ==> res.data[k] == v.data[k]
      {
        res.data[i] := res.data[i] * lambda;
        i := i + 1;
      }
      forall k | 0 <= k < res.data.Length
        ensures res.data[..][k] == LinAlg.Scale(v.data[..], lambda)[k]
      {
      }
    }

    /** Static `scp(a, b)` AS WRITTEN: its guard compares `a`'s length with itself, so it
        never reports a dimension error.  It sums over `a`'s length: a longer `b` is
        silently truncated and a shorter `b` makes `b.get(i)` fail with an index error. */
    static method ScalarProduct(a: Vektor, b: Vektor) returns (r: Result<real>)
      ensures r.Failure? <==> b.Length() < a.Length()
      ensures r.Failure? ==> r.error == IndexOutOfBounds
      ensures r.Success? ==> r.value == LinAlg.DotN(a.Elements(), b.Elements(), a.Length())
    {
      var sum := 0.0;
      var i := 0;
      while i < a.data.Length
        invariant 0 <= i <= a.data.Length
        invariant i <= b.data.Length && sum == LinAlg.DotN(a.data[..], b.data[..], i)
      {
        if i >= b.data.Length {
          return Failure(IndexOutOfBounds);
        }
        sum := sum + a.data[i] * b.data[i];
        i := i + 1;
      }
      return Success(sum);
    }

    /** Static `mult(a, b)`: a fresh component-wise product. */
    static method Product(a: Vektor, b: Vektor) returns (r: Result<Vektor>)
      ensures r.Failure? <==> a.Length() != b.Length()
      ensures r.Failure? ==> r.error == DimensionError
      ensures r.Success? ==> fresh(r.value) && fresh(r.value.data)
      ensures r.Success? ==> r.value.Elements() == LinAlg.Hadamard(a.Elements(), b.Elements())
    {
      if a.data.Length != b.data.Length {
        return Failure(DimensionError);
      }
      var v := new Vektor.Copy(a);
      var i := 0;
      while i < a.data.Length
        invariant 0 <= i <= a.data.Length == v.data.Length && fresh(v.data)
        invariant forall k :: 0 <= k < i ==> v.data[k] == a.data[k] * b.data[k]
        invariant forall k :: i <= k < v.data.Length ==> v.data[k] == a.data[k]
      {
        v.data[i] := v.data[i] * b.data[i];
        i := i + 1;
      }
      forall k | 0 <= k < v.data.Length
        ensures v.data[..][k] == LinAlg.Hadamard(a.data[..], b.data[..])[k]
      {
      }
      return Success(v);
    }

    /** Static `dyadicProduct(a, b)`: the `|a| × |b|` outer product in a fresh matrix. */
    static method Dyadic(a: Vektor, b: Vektor) returns (res: Matrix)
      ensures fresh(res) && fresh(res.data)
      ensures res.Elements() == LinAlg.Dyadic(a.Elements(), b.Elements())
    {
      res := new Matrix.Zeros(a.data.Length, b.data.Length);
      var d := res.data;
      ghost var D := LinAlg.Dyadic(a.data[..], b.data[..]);
      var i := 0;
      while i < a.data.Length
        invariant 0 <= i <= a.data.Length
        invariant d.Length0 == a.data.Length && d.Length1 == b.data.Length && res.data == d
        invariant forall p, q :: 0 <= p < i && 0 <= q < b.data.Length ==> d[p, q] == D[p][q]
      {
        var j := 0;
        while j < b.data.Length
          invariant 0 <= j <= b.data.Length && res.data == d
          invariant d.Length0 == a.data.Length && d.Length1 == b.data.Length
          invariant forall p, q :: 0 <= p < i && 0 <= q < b.data.Length ==> d[p, q] == D[p][q]
          invariant forall q :: 0 <= q < j ==> d[i, q] == D[i][q]
        {
          d[i, j] := a.data[i] * b.data[j];
          j := j + 1;
        }
        i := i + 1;
      }
      LinAlg.SameEntries(res.Elements(), D);
    }
  }

  class Matrix {
    var data: array2<real>

    function Rows(): nat
      reads this
    {
      data.Length0
    }

    function Cols(): nat
      reads this
    {
      data.Length1
    }

    /** The entries of the matrix, row by row. */
    function Elements(): (m: LinAlg.Mat)
      reads this, data
      ensures LinAlg.Shape(m, data.Length0, data.Length1)
      ensures forall i, j :: 0 <= i < data.Length0 && 0 <= j < data.Length1 ==> m[i][j] == data[i, j]
    {
      seq(data.Length0, i requires 0 <= i < data.Length0 reads this, data =>
        seq(data.Length1, j requires 0 <= i < data.Length0 && 0 <= j < data.Length1 reads this, data =>
          data[i, j]))
    }

    /** `Matrix(double[][])`: the matrix takes the caller's array as its storage. */
    constructor Of(d: array2<real>)
      ensures data == d
    {
      data := d;
    }

    /** `Matrix(n, m, fill)`: an `n × m` matrix whose every entry is `fill`. */
    constructor Filled(n: nat, m: nat, fill: real)
      ensures fresh(data) && Rows() == n && Cols() == m
      ensures Elements() == LinAlg.FillMat(n, m, fill)
    {
      data := new real[n, m];
      new;
      Fill(fill);
    }

    /** `Matrix(n, m)`: an `n × m` matrix of zeros. */
    constructor Zeros(n: nat, m: nat)
      ensures fresh(data) && Rows() == n && Cols() == m
      ensures Elements() == LinAlg.Zero(n, m)
    {
      data := new real[n, m];
      new;
      Fill(0.0);
    }

    /** The copy constructor `Matrix(mat)`: same shape and entries in fresh
        storage, so later changes to either matrix do not reach the other.  It
        reads the shape through `getCols()`, which looks at row 0, so a matrix
        without rows cannot be copied. */
    static method Copy(mat: Matrix) returns (r: Result<Matrix>)
      ensures r.Failure? <==> mat.Rows() == 0
      ensures r.Failure? ==> r.error == IndexOutOfBounds
      ensures r.Success? ==> fresh(r.value) && fresh(r.value.data)
      ensures r.Success? ==> r.value.Elements() == mat.Elements()
    {
      if mat.data.Length0 == 0 {
        return Failure(IndexOutOfBounds);
      }
      var res := new Matrix.Cloned(mat);
      return Success(res);
    }

    /** The loops of the copy constructor, once the shape is known: same shape
        and entries in fresh storage. */
    constructor Cloned(mat: Matrix)
      ensures fresh(data) && Rows() == mat.Rows() && Cols() == mat.Cols()
      ensures Elements() == mat.Elements()
    {
      var n, m := mat.data.Length0, mat.data.Length1;
      var d := new real[n, m];
      var i := 0;
      while i < n
        invariant 0 <= i <= n
        invariant forall p, q :: 0 <= p < i && 0 <= q < m ==> d[p, q] == mat.data[p, q]
      {
        var j := 0;
        while j < m
          invariant 0 <= j <= m
          invariant forall p, q :: 0 <= p < i && 0 <= q < m ==> d[p, q] == mat.data[p, q]
          invariant forall q :: 0 <= q < j ==> d[i, q] == mat.data[i, q]
        {
          d[i, j] := mat.data[i, j];
          j := j + 1;
        }
        i := i + 1;
      }
      data := d;
      new;
      LinAlg.SameEntries(Elements(), mat.Elements());
    }

    method Get(i: nat, j: nat) returns (d: real)
      requires i < Rows() && j < Cols()
      ensures d == Elements()[i][j]
    {
      d := data[i, j];
    }

    method Set(i: nat, j: nat, d: real)
      requires i < Rows() && j < Cols()
      modifies data
      ensures Elements() == old(Elements())[i := old(Elements())[i][j := d]]
    {
      ghost var m := Elements();
      data[i, j] := d;
      LinAlg.SameEntries(Elements(), m[i := m[i][j := d]]);
    }

    /** `fill(d)`: every entry becomes `d`. */
    method Fill(d: real)
      modifies data
      ensures Elements() == LinAlg.FillMat(Rows(), Cols(), d)
    {
      var i := 0;
      while i < data.Length0
        invariant 0 <= i <= data.Length0
        invariant forall p, q :: 0 <= p < i && 0 <= q < data.Length1 ==> data[p, q] == d
      {
        var j := 0;
        while j < data.Length1
          invariant 0 <= j <= data.Length1
          invariant forall p, q :: 0 <= p < i && 0 <= q < data.Length1 ==> data[p, q] == d
          invariant forall q :: 0 <= q < j ==> data[i, q] == d
        {
          data[i, j] := d;
          j := j + 1;
        }
        i := i + 1;
      }
      LinAlg.SameEntries(Elements(), LinAlg.FillMat(Rows(), Cols(), d));
    }

    /** `add(mat)`: adds `mat` into this matrix, entry by entry. */
    method Add(mat: Matrix) returns (r: Result<Matrix>)
      modifies data
      ensures r.Failure? <==> (Rows() != mat.Rows() || Rows() == 0 || Cols() != mat.Cols())
      ensures r.Failure? ==> r.error == (if Rows() == mat.Rows() == 0 then IndexOutOfBounds else DimensionError)
      ensures r.Failure? ==> Elements() == old(Elements())
      ensures r.Success? ==> r.value == this
      ensures r.Success? ==> Elements() == LinAlg.MatAdd(old(Elements()), old(mat.Elements()))
    {
      if data.Length0 != mat.data.Length0 {
        return Failure(DimensionError);
      } else if data.Length0 == 0 {
        return Failure(IndexOutOfBounds);
      } else if data.Length1 != mat.data.Length1 {
        return Failure(DimensionError);
      }
      ghost var a, b := Elements(), mat.Elements();
      AddInPlace(mat);
      return Success(this);
    }

    /** `subtract(mat)` AS WRITTEN: after the shape check its loop ADDS `mat`
        into this matrix, exactly as `add` does. */
    method Subtract(mat: Matrix) returns (r: Result<Matrix>)
      modifies data
      ensures r.Failure? <==> (Rows() != mat.Rows() || Rows() == 0 || Cols() != mat.Cols())
      ensures r.Failure? ==> r.error == (if Rows() == mat.Rows() == 0 then IndexOutOfBounds else DimensionError)
      ensures r.Failure? ==> Elements() == old(Elements())
      ensures r.Success? ==> r.value == this
      ensures r.Success? ==> Elements() == LinAlg.MatAdd(old(Elements()), old(mat.Elements()))
    {
      if data.Length0 != mat.data.Length0 {
        return Failure(DimensionError);
      } else if data.Length0 == 0 {
        return Failure(IndexOutOfBounds);
      } else if data.Length1 != mat.data.Length1 {
        return Failure(DimensionError);
      }
      AddInPlace(mat);
      return Success(this);
    }

    /** `subtract(mat)` as its documentation describes it: entry-wise difference in place. */
    method SubtractCorrected(mat: Matrix) returns (r: Result<Matrix>)
      modifies data
      ensures r.Failure? <==> (Rows() != mat.Rows() || Rows() == 0 || Cols() != mat.Cols())
      ensures r.Failure? ==> r.error == (if Rows() == mat.Rows() == 0 then IndexOutOfBounds else DimensionError)
      ensures r.Failure? ==> Elements() == old(Elements())
      ensures r.Success? ==> r.value == this
      ensures r.Success? ==> Elements() == LinAlg.MatSub(old(Elements()), old(mat.Elements()))
    {
      if data.Length0 != mat.data.Length0 {
        return Failure(DimensionError);
      } else if data.Length0 == 0 {
        return Failure(IndexOutOfBounds);
      } else if data.Length1 != mat.data.Length1 {
        return Failure(DimensionError);
      }
      ghost var a, b := Elements(), mat.Elements();
      var i := 0;
      while i < data.Length0
        invariant 0 <= i <= data.Length0
        invariant forall p, q :: 0 <= p < i && 0 <= q < data.Length1 ==> data[p, q] == a[p][q] - b[p][q]
        invariant forall p, q :: i <= p < data.Length0 && 0 <= q < data.Length1 ==> data[p, q] == a[p][q] && mat.data[p, q] == b[p][q]
      {
        var j := 0;
        while j < data.Length1
          invariant 0 <= j <= data.Length1
          invariant forall p, q :: 0 <= p < i && 0 <= q < data.Length1 ==> data[p, q] == a[p][q] - b[p][q]
          invariant forall q :: 0 <= q < j ==> data[i, q] == a[i][q] - b[i][q]
          invariant forall q :: j <= q < data.Length1 ==> data[i, q] == a[i][q] && mat.data[i, q] == b[i][q]
          invariant forall p, q :: i < p < data.Length0 && 0 <= q < data.Length1 ==> data[p, q] == a[p][q] && mat.data[p, q] == b[p][q]
        {
          data[i, j] := data[i, j] - mat.data[i, j];
          j := j + 1;
        }
        i := i + 1;
      }
      LinAlg.SameEntries(Elements(), LinAlg.MatSub(a, b));
      return Success(this);
    }

    /** The loop shared by `add` and (as written) `subtract`: `data[i][j] += mat.get(i, j)`. */
    method AddInPlace(mat: Matrix)
      requires Rows() == mat.Rows() && Cols() == mat.Cols()
      modifies data
      ensures Elements() == LinAlg.MatAdd(old(Elements()), old(mat.Elements()))
    {
      ghost var a, b := Elements(), mat.Elements();
      var i := 0;
      while i < data.Length0
        invariant 0 <= i <= data.Length0
        invariant forall p, q :: 0 <= p < i && 0 <= q < data.Length1 ==> data[p, q] == a[p][q] + b[p][q]
        invariant forall p, q :: i <= p < data.Length0 && 0 <= q < data.Length1 ==> data[p, q] == a[p][q] && mat.data[p, q] == b[p][q]
      {
        var j := 0;
        while j < data.Length1
          invariant 0 <= j <= data.Length1
          invariant forall p, q :: 0 <= p < i && 0 <= q < data.Length1 ==> data[p, q] == a[p][q] + b[p][q]
          invariant forall q :: 0 <= q < j ==> data[i, q] == a[i][q] + b[i][q]
          invariant forall q :: j <= q < data.Length1 ==> data[i, q] == a[i][q] && mat.data[i, q] == b[i][q]
          invariant forall p, q :: i < p < data.Length0 && 0 <= q < data.Length1 ==> data[p, q] == a[p][q] && mat.data[p, q] == b[p][q]
        {
          data[i, j] := data[i, j] + mat.data[i, j];
          j := j + 1;
        }
        i := i + 1;
      }
      LinAlg.SameEntries(Elements(), LinAlg.MatAdd(a, b));
    }

    /** The loop of `coordinateMult`: `data[i][j] *= mat.get(i, j)`. */
    method MultiplyInPlace(mat: Matrix)
      requires Rows() == mat.Rows() && Cols() == mat.Cols()
      modifies data
      ensures Elements() == LinAlg.MatHadamard(old(Elements()), old(mat.Elements()))
    {
      ghost var a, b := Elements(), mat.Elements();
      ghost var h := LinAlg.MatHadamard(a, b);
      var i := 0;
      while i < data.Length0
        invariant 0 <= i <= data.Length0
        invariant forall p, q :: 0 <= p < i && 0 <= q < data.Length1 ==> data[p, q] == h[p][q]
        invariant forall p, q :: i <= p < data.Length0 && 0 <= q < data.Length1 ==> data[p, q] == a[p][q] && mat.data[p, q] == b[p][q]
      {
        var j := 0;
        while j < data.Length1
          invariant 0 <= j <= data.Length1
          invariant forall p, q :: 0 <= p < i && 0 <= q < data.Length1 ==> data[p, q] == h[p][q]
          invariant forall q :: 0 <= q < j ==> data[i, q] == h[i][q]
          invariant forall q :: j <= q < data.Length1 ==> data[i, q] == a[i][q] && mat.data[i, q] == b[i][q]
          invariant forall p, q :: i < p < data.Length0 && 0 <= q < data.Length1 ==> data[p, q] == a[p][q] && mat.data[p, q] == b[p][q]
        {
          assert h[i][j] == a[i][j] * b[i][j];
          data[i, j] := data[i, j] * mat.data[i, j];
          j := j + 1;
        }
        i := i + 1;
      }
      LinAlg.SameEntries(Elements(), h);
    }

    /** `mult(Vektor)`: the product `this · v` in a fresh vector; the matrix is unchanged. */
    method MultVektor(v: Vektor) returns (r: Result<Vektor>)
      ensures r.Failure? <==> Rows() == 0 || Cols() != v.Length()
      ensures r.Failure? ==> r.error == (if Rows() == 0 then IndexOutOfBounds else DimensionError)
      ensures r.Success? ==> fresh(r.value) && fresh(r.value.data)
      ensures r.Success? ==> r.value.Elements() == LinAlg.MatVec(Elements(), v.Elements())
    {
      if data.Length0 == 0 {
        return Failure(IndexOutOfBounds);
      } else if data.Length1 != v.data.Length {
        return Failure(DimensionError);
      }
      var res := MatVecLoop(this, v);
      return Success(res);
    }

    /** `mult(double)`: scales this matrix in place. */
    method Scale(lambda: real) returns (r: Matrix)
      modifies data
      ensures r == this
      ensures Elements() == LinAlg.MatScale(old(Elements()), lambda)
    {
      ghost var a := Elements();
      var i := 0;
      while i < data.Length0
        invariant 0 <= i <= data.Length0
        invariant forall p, q :: 0 <= p < i && 0 <= q < data.Length1 ==> data[p, q] == a[p][q] * lambda
        invariant forall p, q :: i <= p < data.Length0 && 0 <= q < data.Length1 ==> data[p, q] == a[p][q]
      {
        var j := 0;
        while j < data.Length1
          invariant 0 <= j <= data.Length1
          invariant forall p, q :: 0 <= p < i && 0 <= q < data.Length1 ==> data[p, q] == a[p][q] * lambda
          invariant forall q :: 0 <= q < j ==> data[i, q] == a[i][q] * lambda
          invariant forall p, q :: i <= p < data.Length0 && j <= q < data.Length1 ==> data[p, q] == a[p][q]
          invariant forall p, q :: i < p < data.Length0 && 0 <= q < data.Length1 ==> data[p, q] == a[p][q]
        {
          data[i, j] := data[i, j] * lambda;
          j := j + 1;
        }
        i := i + 1;
      }
      LinAlg.SameEntries(Elements(), LinAlg.MatScale(a, lambda));
      return this;
    }

    /** `extractRow(r)`: a fresh copy of row `r`. */
    method ExtractRow(r: nat) returns (row: Vektor)
      requires r < Rows()
      ensures fresh(row) && fresh(row.data)
      ensures row.Elements() == Elements()[r]
    {
      row := new Vektor.Zeros(data.Length1);
      var i := 0;
      while i < row.data.Length
        invariant 0 <= i <= row.data.Length == data.Length1 && fresh(row.data)
        invariant forall k :: 0 <= k < i ==> row.data[k] == data[r, k]
      {
        row.data[i] := data[r, i];
        i := i + 1;
      }
    }

    /** `setRow(r, v)`: overwrites row `r` with the entries of `v`; all other rows keep theirs. */
    method SetRow(r: nat, v: Vektor) returns (o: Outcome)
      requires r < Rows()
      modifies data
      ensures o.Fail? <==> Cols() != v.Length()
      ensures o.Fail? ==> o.error == DimensionError && Elements() == old(Elements())
      ensures o.Pass? ==> Elements() == old(Elements())[r := old(v.Elements())]
    {
      if data.Length1 != v.data.Length {
        return Fail(DimensionError);
      }
      ghost var m, w := Elements(), v.data[..];
      var i := 0;
      while i < data.Length1
        invariant 0 <= i <= data.Length1
        invariant forall p, q :: 0 <= p < data.Length0 && p != r && 0 <= q < data.Length1 ==> data[p, q] == m[p][q]
        invariant forall q :: 0 <= q < i ==> data[r, q] == w[q]
        invariant forall q :: i <= q < data.Length1 ==> data[r, q] == m[r][q]
        invariant forall k :: i <= k < v.data.Length ==> v.data[k] == w[k]
      {
        data[r, i] := v.data[i];
        i := i + 1;
      }
      LinAlg.SameEntries(Elements(), m[r := w]);
      return Pass;
    }

    /** `apply(f)`: a fresh matrix of `f` applied to every entry; this matrix is
        unchanged.  It starts from the copy constructor, which fails on a matrix
        without rows. */
    method Apply(f: real -> real) returns (r: Result<Matrix>)
      ensures r.Failure? <==> Rows() == 0
      ensures r.Failure? ==> r.error == IndexOutOfBounds
      ensures r.Success? ==> fresh(r.value) && fresh(r.value.data)
      ensures r.Success? ==> r.value.Elements() == LinAlg.MatMap(f, Elements())
    {
      if data.Length0 == 0 {
        return Failure(IndexOutOfBounds);
      }
      var res := new Matrix.Cloned(this);
      var d := res.data;
      var i := 0;
      while i < data.Length0
        invariant 0 <= i <= data.Length0 && res.data == d
        invariant d.Length0 == data.Length0 && d.Length1 == data.Length1
        invariant forall p, q :: 0 <= p < i && 0 <= q < data.Length1 ==> d[p, q] == f(data[p, q])
        invariant forall p, q :: i <= p < data.Length0 && 0 <= q < data.Length1 ==> d[p, q] == data[p, q]
      {
        MapRow(d, i, f);
        i := i + 1;
      }
      LinAlg.SameEntries(res.Elements(), LinAlg.MatMap(f, Elements()));
      return Success(res);
    }

    /** The inner loop of `apply`: `f` applied to every entry of row `i` of `d`. */
    static method MapRow(d: array2<real>, i: nat, f: real -> real)
      requires i < d.Length0
      modifies d
      ensures forall q :: 0 <= q < d.Length1 ==> d[i, q] == f(old(d[i, q]))
      ensures forall p, q :: 0 <= p < d.Length0 && p != i && 0 <= q < d.Length1 ==> d[p, q] == old(d[p, q])
    {
      var j := 0;
      while j < d.Length1
        invariant 0 <= j <= d.Length1
        invariant forall q :: 0 <= q < j ==> d[i, q] == f(old(d[i, q]))
        invariant forall p, q :: 0 <= p < d.Length0 && 0 <= q < d.Length1 && (p != i || j <= q) ==> d[p, q] == old(d[p, q])
      {
        d[i, j] := f(d[i, j]);
        j := j + 1;
      }
    }

    /** Static `add(a, b)`: a fresh matrix `a + b`; both operands unchanged. */
    static method Sum(a: Matrix, b: Matrix) returns (r: Result<Matrix>)
      ensures r.Failure? <==> (a.Rows() != b.Rows() || a.Rows() == 0 || a.Cols() != b.Cols())
      ensures r.Failure? ==> r.error == (if a.Rows() == b.Rows() == 0 then IndexOutOfBounds else DimensionError)
      ensures r.Success? ==> fresh(r.value) && fresh(r.value.data)
      ensures r.Success? ==> r.value.Elements() == LinAlg.MatAdd(a.Elements(), b.Elements())
    {
      if a.data.Length0 != b.data.Length0 {
        return Failure(DimensionError);
      } else if a.data.Length0 == 0 {
        return Failure(IndexOutOfBounds);
      } else if a.data.Length1 != b.data.Length1 {
        return Failure(DimensionError);
      }
      var res := new Matrix.Cloned(a);
      res.AddInPlace(b);
      return Success(res);
    }

    /** Static `subtract(a, b)` AS WRITTEN: a fresh copy of `a` into which `b` is ADDED. */
    static method Difference(a: Matrix, b: Matrix) returns (r: Result<Matrix>)
      ensures r.Failure? <==> (a.Rows() != b.Rows() || a.Rows() == 0 || a.Cols() != b.Cols())
      ensures r.Failure? ==> r.error == (if a.Rows() == b.Rows() == 0 then IndexOutOfBounds else DimensionError)
      ensures r.Success? ==> fresh(r.value) && fresh(r.value.data)
      ensures r.Success? ==> r.value.Elements() == LinAlg.MatAdd(a.Elements(), b.Elements())
    {
      if a.data.Length0 != b.data.Length0 {
        return Failure(DimensionError);
      } else if a.data.Length0 == 0 {
        return Failure(IndexOutOfBounds);
      } else if a.data.Length1 != b.data.Length1 {
        return Failure(DimensionError);
      }
      var res := new Matrix.Cloned(a);
      res.AddInPlace(b);
      return Success(res);
    }

    /** Static `subtract(a, b)` as documented: a fresh matrix `a - b`. */
    static method DifferenceCorrected(a: Matrix, b: Matrix) returns (r: Result<Matrix>)
      ensures r.Failure? <==> (a.Rows() != b.Rows() || a.Rows() == 0 || a.Cols() != b.Cols())
      ensures r.Failure? ==> r.error == (if a.Rows() == b.Rows() == 0 then IndexOutOfBounds else DimensionError)
      ensures r.Success? ==> fresh(r.value) && fresh(r.value.data)
      ensures r.Success? ==> r.value.Elements() == LinAlg.MatSub(a.Elements(), b.Elements())
    {
      if a.data.Length0 != b.data.Length0 {
        return Failure(DimensionError);
      } else if a.data.Length0 == 0 {
        return Failure(IndexOutOfBounds);
      } else if a.data.Length1 != b.data.Length1 {
        return Failure(DimensionError);
      }
      var res := new Matrix.Cloned(a);
      var s := res.SubtractCorrected(b);
      return Success(res);
    }

    /** Static `mult(mat, v)`: the product `mat · v` in a fresh vector. */
    static method MatVec(mat: Matrix, v: Vektor) returns (r: Result<Vektor>)
      ensures r.Failure? <==> mat.Rows() == 0 || mat.Cols() != v.Length()
      ensures r.Failure? ==> r.error == (if mat.Rows() == 0 then IndexOutOfBounds else DimensionError)
      ensures r.Success? ==> fresh(r.value) && fresh(r.value.data)
      ensures r.Success? ==> r.value.Elements() == LinAlg.MatVec(mat.Elements(), v.Elements())
    {
      if mat.data.Length0 == 0 {
        return Failure(IndexOutOfBounds);
      } else if mat.data.Length1 != v.data.Length {
        return Failure(DimensionError);
      }
      var res := MatVecLoop(mat, v);
      return Success(res);
    }

    /** The loop shared by both matrix-vector products: `res[i]` is the sum of
        `mat[i][k] * v[k]` in ascending `k`. */
    static method MatVecLoop(mat: Matrix, v: Vektor) returns (res: Vektor)
      requires mat.Cols() == v.Length()
      ensures fresh(res) && fresh(res.data)
      ensures res.Elements() == LinAlg.MatVec(mat.Elements(), v.Elements())
    {
      ghost var m, w := mat.Elements(), v.Elements();
      res := new Vektor.Zeros(mat.data.Length0);
      var i := 0;
      while i < mat.data.Length0
        invariant 0 <= i <= mat.data.Length0 == res.data.Length && fresh(res.data)
        invariant forall p :: 0 <= p < i ==> res.data[p] == LinAlg.Dot(m[p], w)
      {
        var sum := 0.0;
        var k := 0;
        while k < mat.data.Length1
          invariant 0 <= k <= mat.data.Length1
          invariant sum == LinAlg.DotN(m[i], w, k)
        {
          sum := sum + mat.data[i, k] * v.data[k];
          k := k + 1;
        }
        res.data[i] := sum;
        i := i + 1;
      }
    }

    /** Static `mult(v, mat)`: the product `v · mat` of a row vector with the matrix;
        entry `i` is the sum of `mat[j][i] * v[j]` in ascending `j`. */
    static method VecMat(v: Vektor, mat: Matrix) returns (r: Result<Vektor>)
      ensures r.Failure? <==> mat.Rows() != v.Length() || mat.Rows() == 0
      ensures r.Failure? ==> r.error == (if mat.Rows() == v.Length() then IndexOutOfBounds else DimensionError)
      ensures r.Success? ==> fresh(r.value) && fresh(r.value.data)
      ensures r.Success? ==> r.value.Elements() == LinAlg.VecMat(v.Elements(), mat.Elements(), mat.Cols())
    {
      if mat.data.Length0 != v.data.Length {
        return Failure(DimensionError);
      } else if mat.data.Length0 == 0 {
        return Failure(IndexOutOfBounds);
      }
      ghost var m, w := mat.Elements(), v.Elements();
      var res := new Vektor.Zeros(mat.data.Length1);
      var i := 0;
      while i < mat.data.Length1
        invariant 0 <= i <= mat.data.Length1 == res.data.Length && fresh(res.data)
        invariant forall c :: 0 <= c < i ==> res.data[c] == LinAlg.ColumnDotN(m, c, w, |w|)
      {
        var sum := 0.0;
        var j := 0;
        while j < mat.data.Length0
          invariant 0 <= j <= mat.data.Length0
          invariant sum == LinAlg.ColumnDotN(m, i, w, j)
        {
          sum := sum + mat.data[j, i] * v.data[j];
          j := j + 1;
        }
        res.data[i] := sum;
        i := i + 1;
      }
      return Success(res);
    }

    /** Static `coordinateMult(a, b)`: a fresh entry-wise product; both operands unchanged. */
    static method CoordinateMult(a: Matrix, b: Matrix) returns (r: Result<Matrix>)
      ensures r.Failure? <==> (a.Rows() != b.Rows() || a.Rows() == 0 || a.Cols() != b.Cols())
      ensures r.Failure? ==> r.error == (if a.Rows() == b.Rows() == 0 then IndexOutOfBounds else DimensionError)
      ensures r.Success? ==> fresh(r.value) && fresh(r.value.data)
      ensures r.Success? ==> r.value.Elements() == LinAlg.MatHadamard(a.Elements(), b.Elements())
    {
      if a.data.Length0 != b.data.Length0 {
        return Failure(DimensionError);
      } else if a.data.Length0 == 0 {
        return Failure(IndexOutOfBounds);
      } else if a.data.Length1 != b.data.Length1 {
        return Failure(DimensionError);
      }
      var res := new Matrix.Cloned(a);
      res.MultiplyInPlace(b);
      return Success(res);
    }

    /** Static `mult(mat, lambda)`: a fresh scaled copy, made by the copy
        constructor, which fails on a matrix without rows. */
    static method Scaled(mat: Matrix, lambda: real) returns (r: Result<Matrix>)
      ensures r.Failure? <==> mat.Rows() == 0
      ensures r.Failure? ==> r.error == IndexOutOfBounds
      ensures r.Success? ==> fresh(r.value) && fresh(r.value.data)
      ensures r.Success? ==> r.value.Elements() == LinAlg.MatScale(mat.Elements(), lambda)
    {
      if mat.data.Length0 == 0 {
        return Failure(IndexOutOfBounds);
      }
      var res := new Matrix.Cloned(mat);
      var s := res.Scale(lambda);
      return Success(res);
    }
  }
}
