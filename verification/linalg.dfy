/**
 * Exact-real vectors and dense matrices. A matrix is a sequence of rows; in
 * the signal matrices of this project a row is one time sample and a column
 * is one feature (voxel).
 */
module LinAlg {

  type Vector = seq<real>
  type Matrix = seq<seq<real>>

  /** m has exactly `rows` rows, each of length `cols`. */
  predicate IsMatrix(m: Matrix, rows: nat, cols: nat) {
    |m| == rows && forall i :: 0 <= i < rows ==> |m[i]| == cols
  }

  /** Number of columns, read off the first row (0 for an empty matrix). */
  function Width(m: Matrix): nat {
    if |m| == 0 then 0 else |m[0]|
  }

  /** All rows have the same length. */
  predicate IsRect(m: Matrix) {
    IsMatrix(m, |m|, Width(m))
  }

  /** Every row of m is long enough to have a column j. */
  predicate HasColumn(m: Matrix, j: nat) {
    forall i :: 0 <= i < |m| ==> j < |m[i]|
  }

  function Column(m: Matrix, j: nat): Vector
    requires HasColumn(m, j)
  {
    seq(|m|, i requires 0 <= i < |m| => m[i][j])
  }

  /** The cols-by-|m| transpose of a matrix whose rows have length cols. */
  function Transpose(m: Matrix, cols: nat): (t: Matrix)
    requires IsMatrix(m, |m|, cols)
    ensures IsMatrix(t, cols, |m|)
  {
    seq(cols, j requires 0 <= j < cols => Column(m, j))
  }

  /** Sum of the entries, accumulated front to back. */
  function Sum(v: Vector): real {
    if |v| == 0 then 0.0 else Sum(v[..|v| - 1]) + v[|v| - 1]
  }

  /** Inner product, accumulated front to back. */
  function Dot(u: Vector, v: Vector): real
    requires |u| == |v|
  {
    if |u| == 0 then 0.0 else Dot(u[..|u| - 1], v[..|v| - 1]) + u[|u| - 1] * v[|v| - 1]
  }

  /** The inner product splits off its last term. */
  lemma DotLast(u: Vector, v: Vector)
    requires |u| == |v| > 0
    ensures Dot(u, v) == Dot(u[..|u| - 1], v[..|v| - 1]) + u[|u| - 1] * v[|v| - 1]
  {
  }

  /** Energy of a vector: the sum of its squared entries. */
  function SumSq(v: Vector): real {
    Dot(v, v)
  }

  function Mean(v: Vector): real
    requires |v| > 0
  {
    Sum(v) / |v| as real
  }

  /** v - c, entry by entry. */
  function Shift(v: Vector, c: real): Vector {
    seq(|v|, i requires 0 <= i < |v| => v[i] - c)
  }

  /** k * v. */
  function Scale(v: Vector, k: real): Vector {
    seq(|v|, i requires 0 <= i < |v| => k * v[i])
  }

  /** v / s, entry by entry. */
  function Div(v: Vector, s: real): Vector
    requires s != 0.0
  {
    seq(|v|, i requires 0 <= i < |v| => v[i] / s)
  }

  /** u - v. */
  function Minus(u: Vector, v: Vector): Vector
    requires |u| == |v|
  {
    seq(|u|, i requires 0 <= i < |u| => u[i] - v[i])
  }

  /** u + k * v. */
  function AddScaled(u: Vector, k: real, v: Vector): Vector
    requires |u| == |v|
  {
    seq(|u|, i requires 0 <= i < |u| => u[i] + k * v[i])
  }

  /** The column vector m c (each row dotted with c). */
  function MatVec(m: Matrix, c: Vector): (r: Vector)
    requires IsMatrix(m, |m|, |c|)
    ensures |r| == |m|
  {
    seq(|m|, i requires 0 <= i < |m| => Dot(m[i], c))
  }

  /** The vector m^T u: the inner product of u with every column of m. */
  function Coefs(m: Matrix, cols: nat, u: Vector): (r: Vector)
    requires IsMatrix(m, |u|, cols)
    ensures |r| == cols
  {
    seq(cols, l requires 0 <= l < cols => Dot(Column(m, l), u))
  }

  /** The inner product of row i of a with column j of b: entry (i, j) of a b. */
  function RowTimesColumn(a: Matrix, b: Matrix, i: nat, j: nat): real
    requires i < |a| && HasColumn(b, j) && |a[i]| == |b|
  {
    Dot(a[i], Column(b, j))
  }

  /** The matrix product a b (np.dot of two 2-D arrays). */
  function MatMul(a: Matrix, b: Matrix, inner: nat, cols: nat): (r: Matrix)
    requires IsMatrix(a, |a|, inner) && IsMatrix(b, inner, cols)
    ensures IsMatrix(r, |a|, cols)
  {
    seq(|a|, i requires 0 <= i < |a| =>
      seq(cols, j requires 0 <= j < cols => RowTimesColumn(a, b, i, j)))
  }

  /** a - b, entry by entry. */
  function MatrixMinus(a: Matrix, b: Matrix, cols: nat): (r: Matrix)
    requires IsMatrix(a, |a|, cols) && IsMatrix(b, |a|, cols)
    ensures IsMatrix(r, |a|, cols)
  {
    seq(|a|, i requires 0 <= i < |a| =>
      seq(cols, j requires 0 <= j < cols => a[i][j] - b[i][j]))
  }

  /** k * a, entry by entry. */
  function MatrixScale(a: Matrix, cols: nat, k: real): (r: Matrix)
    requires IsMatrix(a, |a|, cols)
    ensures IsMatrix(r, |a|, cols)
  {
    seq(|a|, i requires 0 <= i < |a| =>
      seq(cols, j requires 0 <= j < cols => a[i][j] * k))
  }

  /** The standard basis vector e_l of length n. */
  function Unit(n: nat, l: nat): Vector {
    seq(n, i requires 0 <= i < n => if i == l then 1.0 else 0.0)
  }

  /** The columns of q are pairwise orthogonal and of unit energy. */
  ghost predicate Orthonormal(q: Matrix) {
    IsRect(q) &&
    forall l, m :: 0 <= l < Width(q) && 0 <= m < Width(q) ==>
      Dot(Column(q, l), Column(q, m)) == if l == m then 1.0 else 0.0
  }

  /** sqrt returns the non-negative square root of every non-negative real. */
  ghost predicate IsSqrt(sqrt: real -> real) {
    forall x :: 0.0 <= x ==> 0.0 <= sqrt(x) && sqrt(x) * sqrt(x) == x
  }

  // ---------------------------------------------------------------------
  // Sums

  lemma {:induction false} SumShift(v: Vector, c: real)
    ensures Sum(Shift(v, c)) == Sum(v) - |v| as real * c
  {
    if |v| > 0 {
      var n := |v|;
      assert Shift(v, c)[..n - 1] == Shift(v[..n - 1], c);
      SumShift(v[..n - 1], c);
    }
  }

  /** Removing the mean leaves a vector whose entries sum to zero. */
  lemma CentredSumsToZero(v: Vector)
    requires |v| > 0
    ensures Sum(Shift(v, Mean(v))) == 0.0
  {
    SumShift(v, Mean(v));
  }

  lemma {:induction false} SumScale(v: Vector, k: real)
    ensures Sum(Scale(v, k)) == k * Sum(v)
  {
    if |v| > 0 {
      var n := |v|;
      ScalePrefix(v, k);
      SumScale(v[..n - 1], k);
    }
  }

  lemma ScalePrefix(v: Vector, k: real)
    requires |v| > 0
    ensures Scale(v, k)[..|v| - 1] == Scale(v[..|v| - 1], k)
  {
    var n := |v|;
    var a, b := Scale(v, k)[..n - 1], Scale(v[..n - 1], k);
    forall i | 0 <= i < n - 1 ensures a[i] == b[i] {
      assert v[..n - 1][i] == v[i];
    }
  }

  lemma AddScaledPrefix(u: Vector, k: real, v: Vector)
    requires |u| == |v| > 0
    ensures AddScaled(u, k, v)[..|u| - 1] == AddScaled(u[..|u| - 1], k, v[..|v| - 1])
  {
    var n := |u|;
    var a, b := AddScaled(u, k, v)[..n - 1], AddScaled(u[..n - 1], k, v[..n - 1]);
    forall i | 0 <= i < n - 1 ensures a[i] == b[i] {
      assert u[..n - 1][i] == u[i] && v[..n - 1][i] == v[i];
    }
  }

  lemma {:induction false} SumAddScaled(u: Vector, k: real, v: Vector)
    requires |u| == |v|
    ensures Sum(AddScaled(u, k, v)) == Sum(u) + k * Sum(v)
  {
    if |u| > 0 {
      var n := |u|;
      AddScaledPrefix(u, k, v);
      SumAddScaled(u[..n - 1], k, v[..n - 1]);
    }
  }

  // ---------------------------------------------------------------------
  // Inner products

  lemma {:induction false} DotSymmetric(u: Vector, v: Vector)
    requires |u| == |v|
    ensures Dot(u, v) == Dot(v, u)
  {
    if |u| > 0 {
      DotSymmetric(u[..|u| - 1], v[..|v| - 1]);
    }
  }

  /** An energy is never negative. */
  lemma {:induction false} SumSqNonnegative(v: Vector)
    ensures SumSq(v) >= 0.0
  {
    if |v| > 0 {
      var n := |v|;
      SumSqNonnegative(v[..n - 1]);
      assert v[n - 1] * v[n - 1] >= 0.0;
    }
  }

  /** An energy is positive as soon as one entry is non-zero. */
  lemma SumSqPositive(v: Vector, i: nat)
    requires i < |v| && v[i] != 0.0
    ensures SumSq(v) > 0.0
  {
    if v[i] > 0.0 {
      SumSqPositiveAt(v, i);
    } else {
      var w := Scale(v, -1.0);
      SumSqPositiveAt(w, i);
      DotScaleRight(w, -1.0, v);
      DotSymmetric(w, v);
      DotScaleRight(v, -1.0, v);
    }
  }

  lemma {:induction false} SumSqPositiveAt(v: Vector, i: nat)
    requires i < |v| && v[i] > 0.0
    ensures SumSq(v) > 0.0
  {
    var n := |v|;
    SumSqLast(v);
    if i < n - 1 {
      assert v[..n - 1][i] == v[i];
      SumSqPositiveAt(v[..n - 1], i);
      SumSqNonnegative([v[n - 1]]);
    } else {
      SumSqNonnegative(v[..n - 1]);
      SingleEnergyPositive(v[n - 1]);
    }
  }

  lemma SingleEnergyPositive(x: real)
    requires x > 0.0
    ensures SumSq([x]) > 0.0
  {
    calc {
      SumSq([x]);
      { SumSqSingle(x); }
      x * x;
    >
      0.0;
    }
  }

  lemma SumSqSingle(x: real)
    ensures SumSq([x]) == x * x
  {
    assert [x][..0] == [];
    assert Dot([], []) == 0.0;
  }

  lemma SumSqLast(v: Vector)
    requires |v| > 0
    ensures SumSq(v) == SumSq(v[..|v| - 1]) + SumSq([v[|v| - 1]])
  {
    var x := v[|v| - 1];
    assert [x][..0] == [];
    assert Dot([], []) == 0.0;
    assert Dot([x], [x]) == x * x;
    assert Dot(v, v) == Dot(v[..|v| - 1], v[..|v| - 1]) + x * x;
  }

  lemma {:induction false} DotScaleRight(u: Vector, k: real, v: Vector)
    requires |u| == |v|
    ensures Dot(u, Scale(v, k)) == k * Dot(u, v)
  {
    if |u| > 0 {
      var n := |u|;
      ScalePrefix(v, k);
      DotScaleRight(u[..n - 1], k, v[..n - 1]);
    }
  }

  lemma {:induction false} DotAddScaled(u: Vector, v: Vector, k: real, w: Vector)
    requires |u| == |v| == |w|
    ensures Dot(u, AddScaled(v, k, w)) == Dot(u, v) + k * Dot(u, w)
  {
    if |u| > 0 {
      var n := |u|;
      AddScaledPrefix(v, k, w);
      DotAddScaled(u[..n - 1], v[..n - 1], k, w[..n - 1]);
    }
  }

  lemma {:induction false} DotMinus(u: Vector, v: Vector, w: Vector)
    requires |u| == |v| == |w|
    ensures Dot(u, Minus(v, w)) == Dot(u, v) - Dot(u, w)
  {
    if |u| > 0 {
      var n := |u|;
      assert Minus(v, w)[..n - 1] == Minus(v[..n - 1], w[..n - 1]);
      DotMinus(u[..n - 1], v[..n - 1], w[..n - 1]);
    }
  }

  /** Dividing by s is scaling by 1/s. */
  lemma DivIsScale(v: Vector, s: real)
    requires s != 0.0
    ensures Div(v, s) == Scale(v, 1.0 / s)
  {
    forall i | 0 <= i < |v| ensures Div(v, s)[i] == Scale(v, 1.0 / s)[i] {
      assert v[i] / s == (1.0 / s) * v[i];
    }
  }

  /** The energy of k v is k * k times the energy of v. */
  lemma SumSqScale(v: Vector, k: real)
    ensures SumSq(Scale(v, k)) == k * k * SumSq(v)
  {
    var w := Scale(v, k);
    DotScaleRight(w, k, v);
    DotSymmetric(w, v);
    DotScaleRight(v, k, v);
    assert SumSq(w) == k * (k * SumSq(v));
  }

  /** A vector orthogonal to v / s is orthogonal to v. */
  lemma OrthogonalToDivided(v: Vector, s: real, d: Vector)
    requires s != 0.0 && |v| == |d|
    requires Dot(Div(v, s), d) == 0.0
    ensures Dot(v, d) == 0.0
  {
    DivIsScale(v, s);
    DotSymmetric(Scale(v, 1.0 / s), d);
    DotScaleRight(d, 1.0 / s, v);
    DotSymmetric(d, v);
    assert (1.0 / s) * Dot(v, d) == 0.0;
  }

  /** The energy of v / s is the energy of v divided by s * s. */
  lemma SumSqDiv(v: Vector, s: real)
    requires s != 0.0
    ensures SumSq(Div(v, s)) == SumSq(v) / (s * s)
  {
    DivIsScale(v, s);
    SumSqScale(v, 1.0 / s);
    assert (1.0 / s) * (1.0 / s) == 1.0 / (s * s);
  }

  /** The sum of v / s is the sum of v divided by s. */
  lemma SumDiv(v: Vector, s: real)
    requires s != 0.0
    ensures Sum(Div(v, s)) == Sum(v) / s
  {
    DivIsScale(v, s);
    SumScale(v, 1.0 / s);
  }

  /** The standard basis vector e_l picks out entry l. */
  lemma {:induction false} DotUnit(l: nat, c: Vector)
    requires l < |c|
    ensures Dot(Unit(|c|, l), c) == c[l]
  {
    var n := |c|;
    assert Unit(n, l)[..n - 1] == Unit(n - 1, l);
    if l < n - 1 {
      DotUnit(l, c[..n - 1]);
    } else {
      DotZero(Unit(n - 1, l), c[..n - 1]);
    }
  }

  lemma {:induction false} DotZero(z: Vector, c: Vector)
    requires |z| == |c|
    requires forall i :: 0 <= i < |z| ==> z[i] == 0.0
    ensures Dot(z, c) == 0.0
  {
    if |z| > 0 {
      DotZero(z[..|z| - 1], c[..|c| - 1]);
    }
  }

  function DropLastColumn(m: Matrix, k: nat): (r: Matrix)
    requires k > 0 && IsMatrix(m, |m|, k)
    ensures IsMatrix(r, |m|, k - 1)
  {
    seq(|m|, i requires 0 <= i < |m| => m[i][..k - 1])
  }

  /** Splitting off the last column: m c == m' c' + c_last * (last column of m). */
  lemma MatVecSplit(m: Matrix, c: Vector)
    requires |c| > 0 && IsMatrix(m, |m|, |c|)
    ensures IsMatrix(DropLastColumn(m, |c|), |m|, |c| - 1)
    ensures MatVec(m, c) ==
            AddScaled(MatVec(DropLastColumn(m, |c|), c[..|c| - 1]), c[|c| - 1], Column(m, |c| - 1))
  {
    var k := |c|;
    var m' := DropLastColumn(m, k);
    forall i | 0 <= i < |m|
      ensures MatVec(m, c)[i] == AddScaled(MatVec(m', c[..k - 1]), c[k - 1], Column(m, k - 1))[i]
    {
      assert m[i][..k - 1] == m'[i];
    }
  }

  lemma CoefsSplit(m: Matrix, k: nat, u: Vector)
    requires k > 0 && IsMatrix(m, |u|, k)
    ensures IsMatrix(DropLastColumn(m, k), |u|, k - 1)
    ensures Coefs(m, k, u)[..k - 1] == Coefs(DropLastColumn(m, k), k - 1, u)
    ensures Coefs(m, k, u)[k - 1] == Dot(Column(m, k - 1), u)
  {
    var m' := DropLastColumn(m, k);
    var a, b := Coefs(m, k, u)[..k - 1], Coefs(m', k - 1, u);
    forall l | 0 <= l < k - 1 ensures a[l] == b[l] {
      assert Column(m, l) == Column(m', l);
    }
  }

  /**
   * The adjoint identity u . (m c) == (m^T u) . c, which moves a matrix from
   * one side of an inner product to the other.
   */
  lemma {:induction false} DotMatVec(u: Vector, m: Matrix, c: Vector)
    requires IsMatrix(m, |u|, |c|)
    ensures Dot(u, MatVec(m, c)) == Dot(Coefs(m, |c|, u), c)
    decreases |c|
  {
    var k := |c|;
    if k == 0 {
      DotZero(MatVec(m, c), u);
      DotSymmetric(u, MatVec(m, c));
    } else {
      var m' := DropLastColumn(m, k);
      var c' := c[..k - 1];
      var last := Column(m, k - 1);
      var a := MatVec(m', c');
      var g := Coefs(m, k, u);
      MatVecSplit(m, c);
      DotAddScaled(u, a, c[k - 1], last);
      DotMatVec(u, m', c');
      CoefsSplit(m, k, u);
      DotSymmetric(last, u);
      DotLast(g, c);
    }
  }

  /**
   * Removing from s its projection onto the columns of an orthonormal q,
   * s - q (q^T s), leaves a vector orthogonal to every column of q.
   */
  lemma ResidualOrthogonal(q: Matrix, s: Vector, l: nat)
    requires Orthonormal(q) && |q| == |s| && l < Width(q)
    ensures Dot(Column(q, l), Minus(s, MatVec(q, Coefs(q, Width(q), s)))) == 0.0
  {
    var w := Width(q);
    var ql := Column(q, l);
    var c := Coefs(q, w, s);
    DotMinus(ql, s, MatVec(q, c));
    DotMatVec(ql, q, c);
    assert Coefs(q, w, ql) == Unit(w, l) by {
      forall m | 0 <= m < w ensures Coefs(q, w, ql)[m] == Unit(w, l)[m] {
        assert Dot(Column(q, m), ql) == if m == l then 1.0 else 0.0;
      }
    }
    DotUnit(l, c);
  }
}
