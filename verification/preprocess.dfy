/**
 * Column-wise conditioning of signal matrices (time along the rows, one
 * feature per column): unit-energy scaling with an epsilon guard, the batched
 * mean of squares, and mean/linear-trend removal.
 *
 * Arithmetic is exact. The square root is a parameter; the lemmas that need
 * it to be the true square root say so with IsSqrt.
 */
module Preprocess {
  import opened LinAlg
  import opened NdArrays

  /** Machine epsilon of float64, np.finfo(np.float).eps == 2^-52. */
  const Eps: real := 1.0 / 4503599627370496.0

  // ---------------------------------------------------------------------
  // _standardize

  /**
   * The divisor _standardize uses for column j: the column's norm, replaced
   * by 1 when it is below eps. It is never below eps, so the division is
   * always defined.
   */
  function ColumnScale(m: Matrix, j: nat, sqrt: real -> real): (s: real)
    requires HasColumn(m, j)
    ensures s >= Eps
  {
    var norm := sqrt(SumSq(Column(m, j)));
    if norm < Eps then 1.0 else norm
  }

  /**
   * _standardize(m, normalize): a copy of m, with every column divided by its
   * guarded norm when normalize holds. No mean is subtracted.
   */
  function Standardized(m: Matrix, cols: nat, normalize: bool, sqrt: real -> real): (r: Matrix)
    requires IsMatrix(m, |m|, cols)
    ensures IsMatrix(r, |m|, cols)
  {
    if !normalize then m
    else
      seq(|m|, i requires 0 <= i < |m| =>
        seq(cols, j requires 0 <= j < cols => ScaledEntry(m, i, j, sqrt)))
  }

  /** Entry (i, j) divided by the guarded norm of column j. */
  function ScaledEntry(m: Matrix, i: nat, j: nat, sqrt: real -> real): real
    requires i < |m| && HasColumn(m, j)
  {
    m[i][j] / ColumnScale(m, j, sqrt)
  }

  /** Column j of a standardized matrix is column j of m divided by its guarded norm. */
  lemma StandardizedColumn(m: Matrix, cols: nat, sqrt: real -> real, j: nat)
    requires IsMatrix(m, |m|, cols) && j < cols
    ensures Column(Standardized(m, cols, true, sqrt), j) == Div(Column(m, j), ColumnScale(m, j, sqrt))
  {
  }

  /** Without normalisation the result equals the input. */
  lemma StandardizeWithoutNormalizeIsIdentity(m: Matrix, cols: nat, sqrt: real -> real)
    requires IsMatrix(m, |m|, cols)
    ensures Standardized(m, cols, false, sqrt) == m
  {
  }

  /** Every column whose norm is at least eps ends up with energy 1. */
  lemma StandardizedUnitEnergy(m: Matrix, cols: nat, sqrt: real -> real, j: nat)
    requires IsMatrix(m, |m|, cols) && j < cols && IsSqrt(sqrt)
    requires sqrt(SumSq(Column(m, j))) >= Eps
    ensures SumSq(Column(Standardized(m, cols, true, sqrt), j)) == 1.0
  {
    var v := Column(m, j);
    var s := ColumnScale(m, j, sqrt);
    SumSqNonnegative(v);
    StandardizedColumn(m, cols, sqrt, j);
    SumSqDiv(v, s);
    assert s * s == SumSq(v);
  }

  /** A column whose norm is below eps is divided by 1 and left unchanged. */
  lemma StandardizedKeepsDegenerateColumn(m: Matrix, cols: nat, sqrt: real -> real, j: nat)
    requires IsMatrix(m, |m|, cols) && j < cols
    requires sqrt(SumSq(Column(m, j))) < Eps
    ensures Column(Standardized(m, cols, true, sqrt), j) == Column(m, j)
  {
    var v := Column(m, j);
    StandardizedColumn(m, cols, sqrt, j);
    assert Div(v, 1.0) == v;
  }

  /**
   * The columns are only scaled, never centred: the column sum is the
   * original sum divided by the column's divisor.
   */
  lemma StandardizedDoesNotCentre(m: Matrix, cols: nat, sqrt: real -> real, j: nat)
    requires IsMatrix(m, |m|, cols) && j < cols
    ensures Sum(Column(Standardized(m, cols, true, sqrt), j)) == Sum(Column(m, j)) / ColumnScale(m, j, sqrt)
  {
    StandardizedColumn(m, cols, sqrt, j);
    SumDiv(Column(m, j), ColumnScale(m, j, sqrt));
  }

  lemma SquareMonotone(a: real, b: real)
    requires 0.0 <= a < b
    ensures a * a < b * b
  {
    calc {
      a * a;
    <= a * b;
    < b * b;
    }
  }

  /** The true square root of 1 is 1. */
  lemma SqrtOne(sqrt: real -> real)
    requires IsSqrt(sqrt)
    ensures sqrt(1.0) == 1.0
  {
    var s := sqrt(1.0);
    assert s >= 0.0 && s * s == 1.0;
    if s < 1.0 {
      SquareMonotone(s, 1.0);
      assert false;
    } else if s > 1.0 {
      SquareMonotone(1.0, s);
      assert false;
    }
  }

  /** Standardizing twice is standardizing once. */
  lemma StandardizeIdempotent(m: Matrix, cols: nat, sqrt: real -> real)
    requires IsMatrix(m, |m|, cols) && IsSqrt(sqrt)
    ensures var s := Standardized(m, cols, true, sqrt);
            Standardized(s, cols, true, sqrt) == s
  {
    var s := Standardized(m, cols, true, sqrt);
    var s2 := Standardized(s, cols, true, sqrt);
    forall j | 0 <= j < cols ensures ColumnScale(s, j, sqrt) == 1.0 {
      if sqrt(SumSq(Column(m, j))) >= Eps {
        StandardizedUnitEnergy(m, cols, sqrt, j);
        SqrtOne(sqrt);
      } else {
        StandardizedKeepsDegenerateColumn(m, cols, sqrt, j);
      }
    }
    forall i | 0 <= i < |m| ensures s2[i] == s[i] {
      forall j | 0 <= j < cols ensures s2[i][j] == s[i][j] {
        assert s2[i][j] == s[i][j] / ColumnScale(s, j, sqrt);
      }
    }
  }

  /** np.sqrt((a ** 2).sum(axis=0)): the norm of every column, in a fresh array. */
  method ColumnNorms(a: array2<real>, sqrt: real -> real) returns (norms: array<real>)
    ensures fresh(norms) && norms.Length == a.Length1
    ensures forall j :: 0 <= j < a.Length1 ==> norms[j] == sqrt(SumSq(Column(Contents(a), j)))
  {
    norms := new real[a.Length1];
    for j := 0 to a.Length1
      invariant forall j' :: 0 <= j' < j ==> norms[j'] == sqrt(SumSq(Column(Contents(a), j')))
    {
      var energy := ColumnSumSq(a, j);
      norms[j] := sqrt(energy);
    }
  }

  /** std[std < eps] = 1.: every norm below eps becomes 1. */
  method ReplaceSmallNorms(std: array<real>)
    modifies std
    ensures forall j :: 0 <= j < std.Length ==> std[j] == if old(std[j]) < Eps then 1.0 else old(std[j])
  {
    for j := 0 to std.Length
      invariant forall j' :: 0 <= j' < std.Length ==>
                  std[j'] == if j' < j && old(std[j']) < Eps then 1.0 else old(std[j'])
    {
      if std[j] < Eps {
        std[j] := 1.0;
      }
    }
  }

  /** a /= d: divides every column j of a, in place, by d[j]. */
  method DivideColumns(a: array2<real>, d: array<real>)
    requires d.Length == a.Length1
    requires forall j :: 0 <= j < d.Length ==> d[j] != 0.0
    modifies a
    ensures forall i, j :: 0 <= i < a.Length0 && 0 <= j < a.Length1 ==> a[i, j] == old(a[i, j]) / d[j]
  {
    for i := 0 to a.Length0
      invariant forall i', j :: 0 <= i' < a.Length0 && 0 <= j < a.Length1 ==>
                  a[i', j] == if i' < i then old(a[i', j]) / d[j] else old(a[i', j])
    {
      for j := 0 to a.Length1
        invariant forall i', j' :: 0 <= i' < a.Length0 && 0 <= j' < a.Length1 ==>
                    a[i', j'] == if i' < i || (i' == i && j' < j) then old(a[i', j']) / d[j'] else old(a[i', j'])
      {
        a[i, j] := a[i, j] / d[j];
      }
    }
  }

  /**
   * _standardize as the code runs it: copy, compute the column norms, replace
   * the ones below eps by 1, divide in place. The argument is not modified.
   */
  method Standardize(signals: array2<real>, normalize: bool, sqrt: real -> real) returns (r: array2<real>)
    ensures fresh(r) && r.Length0 == signals.Length0 && r.Length1 == signals.Length1
    ensures Contents(r) == Standardized(Contents(signals), signals.Length1, normalize, sqrt)
  {
    ghost var m := Contents(signals);
    r := Copy(signals);
    if normalize {
      var cols := r.Length1;
      var std := ColumnNorms(r, sqrt);
      ReplaceSmallNorms(std);
      assert forall j :: 0 <= j < cols ==> std[j] == ColumnScale(m, j, sqrt);
      assert forall i, j :: 0 <= i < r.Length0 && 0 <= j < cols ==> r[i, j] == m[i][j];
      DivideColumns(r, std);
      ghost var target := Standardized(m, cols, true, sqrt);
      assert forall i, j :: 0 <= i < r.Length0 && 0 <= j < cols ==> r[i, j] == target[i][j];
      EqualContents(r, target);
    }
  }

  // ---------------------------------------------------------------------
  // _mean_of_squares

  /**
   * A split of the columns 0..n into consecutive batches cuts[b]..cuts[b + 1];
   * every sequence of slices gen_even_slices produces is one.
   */
  predicate IsPartition(cuts: seq<nat>, n: nat) {
    |cuts| >= 1 && cuts[0] == 0 && cuts[|cuts| - 1] == n &&
    forall b, b' :: 0 <= b <= b' < |cuts| ==> cuts[b] <= cuts[b']
  }

  /** The mean of squares of every column, (1/n) sum_i m[i][j]^2, over the whole matrix. */
  function MeanSquares(m: Matrix, cols: nat): (r: Vector)
    requires |m| > 0 && IsMatrix(m, |m|, cols)
    ensures |r| == cols
  {
    seq(cols, j requires 0 <= j < cols => SumSq(Column(m, j)) / |m| as real)
  }

  /** x ** 2, entry by entry. */
  function Squared(v: Vector): (r: Vector)
    ensures |r| == |v|
  {
    seq(|v|, i requires 0 <= i < |v| => v[i] * v[i])
  }

  function SquaredEntries(m: Matrix): (r: Matrix)
    ensures |r| == |m|
  {
    seq(|m|, i requires 0 <= i < |m| => Squared(m[i]))
  }

  /** Summing the squared entries gives the energy. */
  lemma {:induction false} SumOfSquared(v: Vector)
    ensures Sum(Squared(v)) == SumSq(v)
  {
    if |v| > 0 {
      var n := |v|;
      var a, b := Squared(v)[..n - 1], Squared(v[..n - 1]);
      forall i | 0 <= i < n - 1 ensures a[i] == b[i] {
      }
      assert a == b;
      SumOfSquared(v[..n - 1]);
      DotLast(v, v);
    }
  }

  /**
   * The reference computation the docstring gives, a squared copy averaged
   * down the columns, agrees with MeanSquares.
   */
  lemma MeanOfSquaredCopy(m: Matrix, cols: nat, j: nat)
    requires |m| > 0 && IsMatrix(m, |m|, cols) && j < cols
    ensures HasColumn(SquaredEntries(m), j)
    ensures MeanSquares(m, cols)[j] == Mean(Column(SquaredEntries(m), j))
  {
    var sq := SquaredEntries(m);
    forall i | 0 <= i < |m| ensures j < |sq[i]| && sq[i][j] == m[i][j] * m[i][j] {
      assert sq[i] == Squared(m[i]);
    }
    var a, b := Column(sq, j), Squared(Column(m, j));
    forall i | 0 <= i < |m| ensures a[i] == b[i] {
      assert a[i] == sq[i][j];
    }
    assert a == b;
    SumOfSquared(Column(m, j));
  }

  /** tvar **= 2: squares every entry of a in place. */
  method SquareInPlace(a: array2<real>)
    modifies a
    ensures Contents(a) == SquaredEntries(old(Contents(a)))
  {
    ghost var m := Contents(a);
    for i := 0 to a.Length0
      invariant forall i', j :: 0 <= i' < a.Length0 && 0 <= j < a.Length1 ==>
                  a[i', j] == if i' < i then m[i'][j] * m[i'][j] else m[i'][j]
    {
      for j := 0 to a.Length1
        invariant forall i', j' :: 0 <= i' < a.Length0 && 0 <= j' < a.Length1 ==>
                    a[i', j'] == if i' < i || (i' == i && j' < j) then m[i'][j'] * m[i'][j'] else m[i'][j']
      {
        a[i, j] := a[i, j] * a[i, j];
      }
    }
    EqualContents(a, SquaredEntries(m));
  }

  /**
   * The column means of a squared copy of columns lo..hi are the whole-matrix
   * means of squares of those columns: a batch computes its share of the result.
   */
  lemma BatchMeanOfSquares(m: Matrix, cols: nat, lo: nat, hi: nat, k: nat)
    requires |m| > 0 && IsMatrix(m, |m|, cols) && lo <= hi <= cols && k < hi - lo
    ensures HasColumn(SquaredEntries(ColumnRange(m, lo, hi)), k)
    ensures Mean(Column(SquaredEntries(ColumnRange(m, lo, hi)), k)) == MeanSquares(m, cols)[lo + k]
  {
    var batch := ColumnRange(m, lo, hi);
    MeanOfSquaredCopy(batch, hi - lo, k);
    ColumnOfRange(m, lo, hi, k);
  }

  /** tvar.mean(axis=0): the mean of every column, in a fresh array. */
  method ColumnMeans(a: array2<real>) returns (means: array<real>)
    requires a.Length0 > 0
    ensures fresh(means) && means.Length == a.Length1
    ensures forall j :: 0 <= j < a.Length1 ==> means[j] == Mean(Column(Contents(a), j))
  {
    means := new real[a.Length1];
    for j := 0 to a.Length1
      invariant forall j' :: 0 <= j' < j ==> means[j'] == Mean(Column(Contents(a), j'))
    {
      means[j] := ColumnMean(a, j);
    }
  }

  /**
   * One pass of the batch loop: var[lo:hi] = (copy of columns lo..hi, squared).mean(axis=0).
   * Only the batch's entries change.
   */
  method MeanOfSquaresBatch(signals: array2<real>, lo: nat, hi: nat, means: array<real>)
    requires signals.Length0 > 0 && lo <= hi <= signals.Length1 && means.Length == signals.Length1
    modifies means
    ensures forall j :: 0 <= j < means.Length ==>
              means[j] == if lo <= j < hi then MeanSquares(Contents(signals), signals.Length1)[j] else old(means[j])
  {
    ghost var m := Contents(signals);
    var tvar := CopyColumns(signals, lo, hi);
    SquareInPlace(tvar);
    var batchMeans := ColumnMeans(tvar);
    ghost var squared := SquaredEntries(ColumnRange(m, lo, hi));
    assert Contents(tvar) == squared;
    forall k | 0 <= k < hi - lo ensures batchMeans[k] == MeanSquares(m, signals.Length1)[lo + k] {
      BatchMeanOfSquares(m, signals.Length1, lo, hi, k);
    }
    StoreAt(means, lo, batchMeans);
  }

  /**
   * _mean_of_squares as the code runs it: fill a fresh vector batch by batch,
   * each batch from a squared copy of its columns. Whatever the batches, the
   * result is the whole-matrix mean of squares.
   */
  method MeanOfSquares(signals: array2<real>, cuts: seq<nat>) returns (means: array<real>)
    requires signals.Length0 > 0 && IsPartition(cuts, signals.Length1)
    ensures fresh(means) && means[..] == MeanSquares(Contents(signals), signals.Length1)
  {
    var cols := signals.Length1;
    ghost var spec := MeanSquares(Contents(signals), cols);
    means := new real[cols];
    for b := 0 to |cuts| - 1
      invariant forall j :: 0 <= j < cuts[b] ==> means[j] == spec[j]
    {
      assert cuts[b] <= cuts[b + 1] <= cols;
      MeanOfSquaresBatch(signals, cuts[b], cuts[b + 1], means);
    }
    assert means[..] == spec;
  }

  // ---------------------------------------------------------------------
  // _detrend

  /** signals - np.mean(signals, axis=0): every column minus its own mean. */
  function Centred(m: Matrix, cols: nat): (r: Matrix)
    requires IsMatrix(m, |m|, cols)
    ensures IsMatrix(r, |m|, cols)
  {
    seq(|m|, i requires 0 <= i < |m| =>
      seq(cols, j requires 0 <= j < cols => m[i][j] - Mean(Column(m, j))))
  }

  /** np.arange(n). */
  function Ramp(n: nat): (r: Vector)
    ensures |r| == n
  {
    seq(n, i requires 0 <= i < n => i as real)
  }

  /** The time ramp minus its mean. */
  function CentredRamp(n: nat): (r: Vector)
    requires n > 0
    ensures |r| == n
  {
    Shift(Ramp(n), Mean(Ramp(n)))
  }

  /** With two samples or more the centred ramp is not zero: its ends differ by n - 1. */
  lemma CentredRampEnergyPositive(n: nat)
    requires n >= 2
    ensures SumSq(CentredRamp(n)) > 0.0
  {
    var r := CentredRamp(n);
    if r[0] != 0.0 {
      SumSqPositive(r, 0);
    } else {
      assert r[n - 1] == r[0] + (n - 1) as real;
      SumSqPositive(r, n - 1);
    }
  }

  /** The centred ramp scaled to unit energy: the regressor _detrend projects out. */
  function Regressor(n: nat, sqrt: real -> real): (r: Vector)
    requires n >= 2 && IsSqrt(sqrt)
    ensures |r| == n
  {
    CentredRampEnergyPositive(n);
    Div(CentredRamp(n), sqrt(SumSq(CentredRamp(n))))
  }

  /** The regressor has unit energy and zero sum. */
  lemma RegressorUnitCentred(n: nat, sqrt: real -> real)
    requires n >= 2 && IsSqrt(sqrt)
    ensures SumSq(Regressor(n, sqrt)) == 1.0
    ensures Sum(Regressor(n, sqrt)) == 0.0
  {
    var v := CentredRamp(n);
    CentredRampEnergyPositive(n);
    var s := sqrt(SumSq(v));
    assert s * s == SumSq(v);
    SumSqDiv(v, s);
    CentredSumsToZero(Ramp(n));
    DivIsScale(v, s);
    SumScale(v, 1.0 / s);
  }

  /** np.dot(r, c[:, j]): the component of column j along r. */
  function ComponentAlong(r: Vector, c: Matrix, j: nat): real
    requires HasColumn(c, j) && |r| == |c|
  {
    Dot(r, Column(c, j))
  }

  /**
   * signals[:, j] -= np.dot(r, signals[:, j]) * r for every column j:
   * removes from each column its component along r.
   */
  function RemoveComponent(c: Matrix, cols: nat, r: Vector): (d: Matrix)
    requires |c| == |r| && IsMatrix(c, |c|, cols)
    ensures IsMatrix(d, |c|, cols)
  {
    seq(|c|, i requires 0 <= i < |c| =>
      seq(cols, j requires 0 <= j < cols => c[i][j] - ComponentAlong(r, c, j) * r[i]))
  }

  /** _detrend: centre the columns, then, in linear mode, remove their component along the regressor. */
  function Detrended(m: Matrix, cols: nat, linear: bool, sqrt: real -> real): (d: Matrix)
    requires IsMatrix(m, |m|, cols)
    requires linear ==> |m| >= 2 && IsSqrt(sqrt)
    ensures IsMatrix(d, |m|, cols)
  {
    var c := Centred(m, cols);
    if linear then RemoveComponent(c, cols, Regressor(|m|, sqrt)) else c
  }

  /** Centring subtracts the column's mean from every entry of that column. */
  lemma CentredColumn(m: Matrix, cols: nat, j: nat)
    requires |m| > 0 && IsMatrix(m, |m|, cols) && j < cols
    ensures Column(Centred(m, cols), j) == Shift(Column(m, j), Mean(Column(m, j)))
  {
  }

  /** Column j after removing the component along r. */
  lemma RemoveComponentColumn(c: Matrix, cols: nat, r: Vector, j: nat)
    requires |c| == |r| && IsMatrix(c, |c|, cols) && j < cols
    ensures Column(RemoveComponent(c, cols, r), j) == AddScaled(Column(c, j), -ComponentAlong(r, c, j), r)
  {
    var d := RemoveComponent(c, cols, r);
    var k := ComponentAlong(r, c, j);
    var a, b := Column(d, j), AddScaled(Column(c, j), -k, r);
    forall i | 0 <= i < |c| ensures a[i] == b[i] {
      assert a[i] == d[i][j] == c[i][j] - k * r[i];
      assert b[i] == Column(c, j)[i] + (-k) * r[i];
    }
    assert |a| == |b|;
  }

  /** In "constant" mode the only change to a column is the subtraction of its mean. */
  lemma ConstantDetrendOnlyCentres(m: Matrix, cols: nat, sqrt: real -> real, j: nat)
    requires |m| > 0 && IsMatrix(m, |m|, cols) && j < cols
    ensures Column(Detrended(m, cols, false, sqrt), j) == Shift(Column(m, j), Mean(Column(m, j)))
  {
    CentredColumn(m, cols, j);
  }

  /** Every column of a detrended matrix sums to zero, in both modes. */
  lemma DetrendedColumnsSumToZero(m: Matrix, cols: nat, linear: bool, sqrt: real -> real, j: nat)
    requires |m| > 0 && IsMatrix(m, |m|, cols) && j < cols
    requires linear ==> |m| >= 2 && IsSqrt(sqrt)
    ensures Sum(Column(Detrended(m, cols, linear, sqrt), j)) == 0.0
  {
    var c := Centred(m, cols);
    CentredColumn(m, cols, j);
    CentredSumsToZero(Column(m, j));
    if linear {
      var r := Regressor(|m|, sqrt);
      RemoveComponentColumn(c, cols, r, j);
      SumAddScaled(Column(c, j), -ComponentAlong(r, c, j), r);
      RegressorUnitCentred(|m|, sqrt);
    }
  }

  /** In linear mode every output column is orthogonal to the regressor. */
  lemma DetrendedOrthogonalToRegressor(m: Matrix, cols: nat, sqrt: real -> real, j: nat)
    requires |m| >= 2 && IsMatrix(m, |m|, cols) && j < cols && IsSqrt(sqrt)
    ensures Dot(Regressor(|m|, sqrt), Column(Detrended(m, cols, true, sqrt), j)) == 0.0
  {
    var c := Centred(m, cols);
    var r := Regressor(|m|, sqrt);
    RemoveComponentColumn(c, cols, r, j);
    DotAddScaled(r, Column(c, j), -ComponentAlong(r, c, j), r);
    RegressorUnitCentred(|m|, sqrt);
  }

  /** In linear mode every output column is orthogonal to the centred time ramp. */
  lemma DetrendedOrthogonalToRamp(m: Matrix, cols: nat, sqrt: real -> real, j: nat)
    requires |m| >= 2 && IsMatrix(m, |m|, cols) && j < cols && IsSqrt(sqrt)
    ensures Dot(CentredRamp(|m|), Column(Detrended(m, cols, true, sqrt), j)) == 0.0
  {
    var v := CentredRamp(|m|);
    var d := Column(Detrended(m, cols, true, sqrt), j);
    CentredRampEnergyPositive(|m|);
    var s := sqrt(SumSq(v));
    assert Regressor(|m|, sqrt) == Div(v, s);
    DetrendedOrthogonalToRegressor(m, cols, sqrt, j);
    OrthogonalToDivided(v, s, d);
  }

  /** A matrix whose columns already sum to zero is its own centring. */
  lemma CentredOfCentred(m: Matrix, cols: nat)
    requires |m| > 0 && IsMatrix(m, |m|, cols)
    requires forall j :: 0 <= j < cols ==> Sum(Column(m, j)) == 0.0
    ensures Centred(m, cols) == m
  {
    var c := Centred(m, cols);
    forall i | 0 <= i < |m| ensures c[i] == m[i] {
      forall j | 0 <= j < cols ensures c[i][j] == m[i][j] {
        assert Mean(Column(m, j)) == 0.0;
      }
    }
  }

  /** Detrending a detrended matrix changes nothing. */
  lemma DetrendIdempotent(m: Matrix, cols: nat, linear: bool, sqrt: real -> real)
    requires |m| > 0 && IsMatrix(m, |m|, cols)
    requires linear ==> |m| >= 2 && IsSqrt(sqrt)
    ensures var d := Detrended(m, cols, linear, sqrt);
            Detrended(d, cols, linear, sqrt) == d
  {
    var d := Detrended(m, cols, linear, sqrt);
    forall j | 0 <= j < cols ensures Sum(Column(d, j)) == 0.0 {
      DetrendedColumnsSumToZero(m, cols, linear, sqrt, j);
    }
    CentredOfCentred(d, cols);
    if linear {
      var r := Regressor(|m|, sqrt);
      forall j | 0 <= j < cols ensures ComponentAlong(r, d, j) == 0.0 {
        DetrendedOrthogonalToRegressor(m, cols, sqrt, j);
      }
      RemoveNoComponent(d, cols, r);
    }
  }

  /** Removing a component that every column lacks changes nothing. */
  lemma RemoveNoComponent(c: Matrix, cols: nat, r: Vector)
    requires |c| == |r| && IsMatrix(c, |c|, cols)
    requires forall j :: 0 <= j < cols ==> ComponentAlong(r, c, j) == 0.0
    ensures RemoveComponent(c, cols, r) == c
  {
    var e := RemoveComponent(c, cols, r);
    forall i | 0 <= i < |c| ensures e[i] == c[i] {
      forall j | 0 <= j < cols ensures e[i][j] == c[i][j] {
        assert e[i][j] == c[i][j] - ComponentAlong(r, c, j) * r[i];
      }
    }
  }

  /** signals -= np.mean(signals, axis=0), in place. */
  method CentreColumns(a: array2<real>)
    modifies a
    ensures Contents(a) == Centred(old(Contents(a)), a.Length1)
  {
    if a.Length0 == 0 {
      // The mean over no rows is NaN in numpy, but the subtraction touches no entry.
      return;
    }
    ghost var m := Contents(a);
    var means := ColumnMeans(a);
    assert forall i, j :: 0 <= i < a.Length0 && 0 <= j < a.Length1 ==> a[i, j] == m[i][j];
    SubtractFromColumns(a, means);
    ghost var target := Centred(m, a.Length1);
    assert forall i, j :: 0 <= i < a.Length0 && 0 <= j < a.Length1 ==> a[i, j] == target[i][j];
    EqualContents(a, target);
  }

  /**
   * The regressor as the code builds it: np.arange(n), minus its mean, divided
   * by the square root of its energy.
   */
  method TimeRegressor(n: nat, sqrt: real -> real) returns (reg: array<real>)
    requires n >= 2 && IsSqrt(sqrt)
    ensures fresh(reg) && reg[..] == Regressor(n, sqrt)
  {
    reg := new real[n](i => i as real);
    assert reg[..] == Ramp(n);
    var mu := VectorMean(reg);
    ShiftInPlace(reg, mu);
    var energy := VectorSumSq(reg);
    CentredRampEnergyPositive(n);
    DivideInPlace(reg, sqrt(energy));
  }

  /**
   * One pass of the batch loop of _detrend:
   * a[:, lo:hi] -= np.dot(reg, a[:, lo:hi]) * reg, with the inner products
   * taken before any column of the batch changes. Columns outside the batch
   * are left alone; c is the matrix whose batch columns a currently holds.
   */
  method RemoveComponentBatch(a: array2<real>, reg: array<real>, lo: nat, hi: nat, ghost c: Matrix)
    requires reg.Length == a.Length0 && lo <= hi <= a.Length1 && IsMatrix(c, a.Length0, a.Length1)
    requires forall i, j :: 0 <= i < a.Length0 && lo <= j < hi ==> a[i, j] == c[i][j]
    modifies a
    ensures forall i, j :: 0 <= i < a.Length0 && 0 <= j < a.Length1 ==>
              a[i, j] == if lo <= j < hi then c[i][j] - ComponentAlong(reg[..], c, j) * reg[i] else old(a[i, j])
  {
    var dots := BatchComponents(a, reg, lo, hi, c);
    SubtractComponents(a, reg, dots, lo, hi, c);
  }

  /** np.dot(reg, a[:, lo:hi]): the component along reg of every column of the batch. */
  method BatchComponents(a: array2<real>, reg: array<real>, lo: nat, hi: nat, ghost c: Matrix) returns (dots: array<real>)
    requires reg.Length == a.Length0 && lo <= hi <= a.Length1 && IsMatrix(c, a.Length0, a.Length1)
    requires forall i, j :: 0 <= i < a.Length0 && lo <= j < hi ==> a[i, j] == c[i][j]
    ensures fresh(dots) && dots.Length == hi - lo
    ensures forall k :: 0 <= k < hi - lo ==> dots[k] == ComponentAlong(reg[..], c, lo + k)
  {
    dots := new real[hi - lo];
    for k := 0 to hi - lo
      invariant forall k' :: 0 <= k' < k ==> dots[k'] == ComponentAlong(reg[..], c, lo + k')
    {
      SameColumn(a, c, lo + k);
      dots[k] := ColumnDot(reg, a, lo + k);
    }
  }

  /** a[:, lo:hi] -= dots * reg, in place: column lo + k loses dots[k] times reg. */
  method SubtractComponents(a: array2<real>, reg: array<real>, dots: array<real>, lo: nat, hi: nat, ghost c: Matrix)
    requires reg.Length == a.Length0 && lo <= hi <= a.Length1 && dots.Length == hi - lo
    requires IsMatrix(c, a.Length0, a.Length1)
    requires forall i, j :: 0 <= i < a.Length0 && lo <= j < hi ==> a[i, j] == c[i][j]
    modifies a
    ensures forall i, j :: 0 <= i < a.Length0 && 0 <= j < a.Length1 ==>
              a[i, j] == if lo <= j < hi then c[i][j] - dots[j - lo] * reg[i] else old(a[i, j])
  {
    for i := 0 to a.Length0
      invariant forall i', j :: 0 <= i' < a.Length0 && 0 <= j < a.Length1 ==>
                  a[i', j] == if lo <= j < hi && i' < i then c[i'][j] - dots[j - lo] * reg[i'] else old(a[i', j])
    {
      for k := 0 to hi - lo
        invariant forall i', j :: 0 <= i' < a.Length0 && 0 <= j < a.Length1 ==>
                    a[i', j] == if lo <= j < hi && (i' < i || (i' == i && j < lo + k))
                                then c[i'][j] - dots[j - lo] * reg[i'] else old(a[i', j])
      {
        a[i, lo + k] := a[i, lo + k] - dots[k] * reg[i];
      }
    }
  }

  /**
   * _detrend as the code runs it: copy unless in place, centre the columns,
   * and in "linear" mode remove the regressor component batch by batch.
   * Whatever the batches, the result is Detrended; without inplace the
   * argument is untouched.
   */
  method Detrend(signals: array2<real>, inplace: bool, kind: string, cuts: seq<nat>, sqrt: real -> real)
    returns (r: array2<real>)
    requires IsPartition(cuts, signals.Length1)
    requires kind == "linear" ==> signals.Length0 >= 2 && IsSqrt(sqrt)
    modifies if inplace then {signals} else {}
    ensures r.Length0 == signals.Length0 && r.Length1 == signals.Length1
    ensures inplace ==> r == signals
    ensures !inplace ==> fresh(r) && unchanged(signals)
    ensures Contents(r) == Detrended(old(Contents(signals)), signals.Length1, kind == "linear", sqrt)
  {
    ghost var m := Contents(signals);
    var cols := signals.Length1;
    if !inplace {
      r := Copy(signals);
    } else {
      r := signals;
    }
    CentreColumns(r);
    if kind == "linear" {
      var reg := TimeRegressor(r.Length0, sqrt);
      RemoveComponentByBatches(r, reg, cuts);
    }
  }

  /** The batch loop of _detrend: whatever the batches, every column loses its component along reg. */
  method RemoveComponentByBatches(a: array2<real>, reg: array<real>, cuts: seq<nat>)
    requires reg.Length == a.Length0 && IsPartition(cuts, a.Length1)
    modifies a
    ensures Contents(a) == RemoveComponent(old(Contents(a)), a.Length1, reg[..])
  {
    ghost var c := Contents(a);
    ghost var target := RemoveComponent(c, a.Length1, reg[..]);
    for b := 0 to |cuts| - 1
      invariant forall i, j :: 0 <= i < a.Length0 && 0 <= j < a.Length1 ==>
                  a[i, j] == if j < cuts[b] then target[i][j] else c[i][j]
    {
      assert cuts[b] <= cuts[b + 1] <= a.Length1;
      RemoveComponentBatch(a, reg, cuts[b], cuts[b + 1], c);
    }
    EqualContents(a, target);
  }
}
