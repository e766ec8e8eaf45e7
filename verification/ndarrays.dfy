/**
 * Two-dimensional numeric arrays (the ndarrays the preprocessing code
 * updates in place) and their value as a matrix of rows.
 */
module NdArrays {
  import opened LinAlg

  /** The rows of a, as a value. */
  function Contents(a: array2<real>): (m: Matrix)
    reads a
    ensures IsMatrix(m, a.Length0, a.Length1)
  {
    seq(a.Length0, i requires 0 <= i < a.Length0 reads a =>
      seq(a.Length1, j requires 0 <= j < a.Length1 reads a => a[i, j]))
  }

  /** Two matrices agree when their entries do. */
  lemma EqualContents(a: array2<real>, m: Matrix)
    requires IsMatrix(m, a.Length0, a.Length1)
    requires forall i, j :: 0 <= i < a.Length0 && 0 <= j < a.Length1 ==> a[i, j] == m[i][j]
    ensures Contents(a) == m
  {
    var c := Contents(a);
    forall i | 0 <= i < a.Length0 ensures c[i] == m[i] {
      assert forall j :: 0 <= j < a.Length1 ==> c[i][j] == m[i][j];
    }
  }

  /** A column of the array, as a vector. */
  lemma ColumnOfContents(a: array2<real>, j: nat)
    requires j < a.Length1
    ensures HasColumn(Contents(a), j)
    ensures |Column(Contents(a), j)| == a.Length0
    ensures forall i :: 0 <= i < a.Length0 ==> Column(Contents(a), j)[i] == a[i, j]
  {
  }

  /** A fresh array holding the rows of m (ndarray.copy, np.array). */
  method FromMatrix(m: Matrix, rows: nat, cols: nat) returns (r: array2<real>)
    requires IsMatrix(m, rows, cols)
    ensures fresh(r) && r.Length0 == rows && r.Length1 == cols
    ensures Contents(r) == m
  {
    r := new real[rows, cols];
    for i := 0 to rows
      invariant forall i', j :: 0 <= i' < i && 0 <= j < cols ==> r[i', j] == m[i'][j]
    {
      for j := 0 to cols
        invariant forall i', j' :: 0 <= i' < i && 0 <= j' < cols ==> r[i', j'] == m[i'][j']
        invariant forall j' :: 0 <= j' < j ==> r[i, j'] == m[i][j']
      {
        r[i, j] := m[i][j];
      }
    }
    EqualContents(r, m);
  }

  /** ndarray.copy(): a fresh array with the same shape and entries. */
  method Copy(a: array2<real>) returns (r: array2<real>)
    ensures fresh(r) && r.Length0 == a.Length0 && r.Length1 == a.Length1
    ensures Contents(r) == Contents(a)
  {
    r := FromMatrix(Contents(a), a.Length0, a.Length1);
  }

  /** The columns lo..hi of a, as a value (signals[:, lo:hi]). */
  function ColumnRange(m: Matrix, lo: nat, hi: nat): (r: Matrix)
    requires lo <= hi
    requires forall i :: 0 <= i < |m| ==> hi <= |m[i]|
    ensures IsMatrix(r, |m|, hi - lo)
  {
    seq(|m|, i requires 0 <= i < |m| => m[i][lo..hi])
  }

  /** Column k of a column range is column lo + k of the whole matrix. */
  lemma ColumnOfRange(m: Matrix, lo: nat, hi: nat, k: nat)
    requires lo <= hi && k < hi - lo
    requires forall i :: 0 <= i < |m| ==> hi <= |m[i]|
    ensures Column(ColumnRange(m, lo, hi), k) == Column(m, lo + k)
  {
  }

  /** np.copy(a[:, lo:hi]): a fresh array holding columns lo..hi of a. */
  method CopyColumns(a: array2<real>, lo: nat, hi: nat) returns (r: array2<real>)
    requires lo <= hi <= a.Length1
    ensures fresh(r) && r.Length0 == a.Length0 && r.Length1 == hi - lo
    ensures Contents(r) == ColumnRange(Contents(a), lo, hi)
  {
    r := new real[a.Length0, hi - lo];
    for i := 0 to a.Length0
      invariant forall i', k :: 0 <= i' < i && 0 <= k < hi - lo ==> r[i', k] == a[i', lo + k]
    {
      for k := 0 to hi - lo
        invariant forall i', k' :: 0 <= i' < i && 0 <= k' < hi - lo ==> r[i', k'] == a[i', lo + k']
        invariant forall k' :: 0 <= k' < k ==> r[i, k'] == a[i, lo + k']
      {
        r[i, k] := a[i, lo + k];
      }
    }
    EqualContents(r, ColumnRange(Contents(a), lo, hi));
  }

  /** (a ** 2).sum(axis=0)[j]: the energy of column j. */
  method ColumnSumSq(a: array2<real>, j: nat) returns (e: real)
    requires j < a.Length1
    ensures e == SumSq(Column(Contents(a), j))
  {
    ghost var v := Column(Contents(a), j);
    e := 0.0;
    for i := 0 to a.Length0
      invariant e == SumSq(v[..i])
    {
      assert v[..i + 1][..i] == v[..i];
      e := e + a[i, j] * a[i, j];
    }
    assert v[..a.Length0] == v;
  }

  /** np.mean(a, axis=0)[j]: the mean of column j. */
  method ColumnMean(a: array2<real>, j: nat) returns (mu: real)
    requires j < a.Length1 && a.Length0 > 0
    ensures mu == Mean(Column(Contents(a), j))
  {
    ghost var v := Column(Contents(a), j);
    var total := 0.0;
    for i := 0 to a.Length0
      invariant total == Sum(v[..i])
    {
      assert v[..i + 1][..i] == v[..i];
      total := total + a[i, j];
    }
    assert v[..a.Length0] == v;
    mu := total / a.Length0 as real;
  }

  /** np.dot(u, a[:, j]): the inner product of u with column j. */
  method ColumnDot(u: array<real>, a: array2<real>, j: nat) returns (d: real)
    requires j < a.Length1 && u.Length == a.Length0
    ensures d == Dot(u[..], Column(Contents(a), j))
  {
    ghost var v := Column(Contents(a), j);
    d := 0.0;
    for i := 0 to a.Length0
      invariant d == Dot(u[..i], v[..i])
    {
      assert v[..i + 1][..i] == v[..i];
      assert u[..i + 1][..i] == u[..i];
      d := d + u[i] * a[i, j];
    }
    assert v[..a.Length0] == v;
    assert u[..a.Length0] == u[..];
  }

  /** Column j of the array is c's column j when their entries there agree. */
  lemma SameColumn(a: array2<real>, c: Matrix, j: nat)
    requires j < a.Length1 && IsMatrix(c, a.Length0, a.Length1)
    requires forall i :: 0 <= i < a.Length0 ==> a[i, j] == c[i][j]
    ensures Column(Contents(a), j) == Column(c, j)
  {
  }

  /** v.mean() of a one-dimensional array. */
  method VectorMean(v: array<real>) returns (mu: real)
    requires v.Length > 0
    ensures mu == Mean(v[..])
  {
    var total := 0.0;
    for i := 0 to v.Length
      invariant total == Sum(v[..i])
    {
      assert v[..i + 1][..i] == v[..i];
      total := total + v[i];
    }
    assert v[..v.Length] == v[..];
    mu := total / v.Length as real;
  }

  /** (v ** 2).sum() of a one-dimensional array. */
  method VectorSumSq(v: array<real>) returns (e: real)
    ensures e == SumSq(v[..])
  {
    e := 0.0;
    for i := 0 to v.Length
      invariant e == SumSq(v[..i])
    {
      assert v[..i + 1][..i] == v[..i];
      e := e + v[i] * v[i];
    }
    assert v[..v.Length] == v[..];
  }

  /** v -= c, in place. */
  method ShiftInPlace(v: array<real>, c: real)
    modifies v
    ensures v[..] == Shift(old(v[..]), c)
  {
    ghost var old_v := v[..];
    for i := 0 to v.Length
      invariant forall i' :: 0 <= i' < v.Length ==> v[i'] == if i' < i then old_v[i'] - c else old_v[i']
    {
      v[i] := v[i] - c;
    }
  }

  /** v /= s, in place. */
  method DivideInPlace(v: array<real>, s: real)
    requires s != 0.0
    modifies v
    ensures v[..] == Div(old(v[..]), s)
  {
    ghost var old_v := v[..];
    for i := 0 to v.Length
      invariant forall i' :: 0 <= i' < v.Length ==> v[i'] == if i' < i then old_v[i'] / s else old_v[i']
    {
      v[i] := v[i] / s;
    }
  }

  /** dst[lo:lo + len(src)] = src. */
  method StoreAt(dst: array<real>, lo: nat, src: array<real>)
    requires lo + src.Length <= dst.Length && src != dst
    modifies dst
    ensures forall j :: 0 <= j < dst.Length ==>
              dst[j] == if lo <= j < lo + src.Length then src[j - lo] else old(dst[j])
  {
    for k := 0 to src.Length
      invariant forall j :: 0 <= j < dst.Length ==>
                  dst[j] == if lo <= j < lo + k then src[j - lo] else old(dst[j])
    {
      dst[lo + k] := src[k];
    }
  }

  /** a -= d: subtracts d[j] from every entry of column j, in place. */
  method SubtractFromColumns(a: array2<real>, d: array<real>)
    requires d.Length == a.Length1
    modifies a
    ensures forall i, j :: 0 <= i < a.Length0 && 0 <= j < a.Length1 ==> a[i, j] == old(a[i, j]) - d[j]
  {
    for i := 0 to a.Length0
      invariant forall i', j :: 0 <= i' < a.Length0 && 0 <= j < a.Length1 ==>
                  a[i', j] == if i' < i then old(a[i', j]) - d[j] else old(a[i', j])
    {
      for j := 0 to a.Length1
        invariant forall i', j' :: 0 <= i' < a.Length0 && 0 <= j' < a.Length1 ==>
                    a[i', j'] == if i' < i || (i' == i && j' < j) then old(a[i', j']) - d[j'] else old(a[i', j'])
      {
        a[i, j] := a[i, j] - d[j];
      }
    }
  }

  /** a -= m, in place. */
  method SubtractInPlace(a: array2<real>, m: Matrix)
    requires IsMatrix(m, a.Length0, a.Length1)
    modifies a
    ensures Contents(a) == MatrixMinus(old(Contents(a)), m, a.Length1)
  {
    ghost var old_a := Contents(a);
    for i := 0 to a.Length0
      invariant forall i', j :: 0 <= i' < a.Length0 && 0 <= j < a.Length1 ==>
                  a[i', j] == if i' < i then old_a[i'][j] - m[i'][j] else old_a[i'][j]
    {
      for j := 0 to a.Length1
        invariant forall i', j' :: 0 <= i' < a.Length0 && 0 <= j' < a.Length1 ==>
                    a[i', j'] == if i' < i || (i' == i && j' < j) then old_a[i'][j'] - m[i'][j'] else old_a[i'][j']
      {
        a[i, j] := a[i, j] - m[i][j];
      }
    }
    EqualContents(a, MatrixMinus(old_a, m, a.Length1));
  }

  /** a *= k, in place. */
  method ScaleInPlace(a: array2<real>, k: real)
    modifies a
    ensures Contents(a) == MatrixScale(old(Contents(a)), a.Length1, k)
  {
    ghost var old_a := Contents(a);
    for i := 0 to a.Length0
      invariant forall i', j :: 0 <= i' < a.Length0 && 0 <= j < a.Length1 ==>
                  a[i', j] == if i' < i then old_a[i'][j] * k else old_a[i'][j]
    {
      for j := 0 to a.Length1
        invariant forall i', j' :: 0 <= i' < a.Length0 && 0 <= j' < a.Length1 ==>
                    a[i', j'] == if i' < i || (i' == i && j' < j) then old_a[i'][j'] * k else old_a[i'][j']
      {
        a[i, j] := a[i, j] * k;
      }
    }
    EqualContents(a, MatrixScale(old_a, a.Length1, k));
  }
}
