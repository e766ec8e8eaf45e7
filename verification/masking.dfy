/**
 * Extraction of voxel time series under a brain mask (apply_mask) and the
 * inverse scatter of feature values back into volume space (unmask).
 *
 * A volume of shape (nx, ny, nz) is addressed by the row-major (C order) flat
 * index v = (x * ny + y) * nz + z of its voxels, so "row-major order" is the
 * increasing order of flat indices.
 */
module Masking {
  import opened Wrappers
  import opened LinAlg
  import opened NdArrays

  /**
   * A 4-D scan of shape (nx, ny, nz, nt) seen in C order as one time series per
   * voxel: series[v][t] is the sample at time t of the voxel with flat index v.
   * The affine is the 4 x 4 voxel-to-world transform, row by row.
   */
  datatype Image = Image(nx: nat, ny: nat, nz: nat, nt: nat, series: Matrix, affine: seq<real>)

  predicate ValidImage(img: Image) {
    IsMatrix(img.series, img.nx * img.ny * img.nz, img.nt) && |img.affine| == 16
  }

  /** A 3-D mask image: one value per voxel, in flat-index order, and its affine. */
  datatype MaskImage = MaskImage(nx: nat, ny: nat, nz: nat, values: seq<real>, affine: seq<real>)

  predicate ValidMask(mask: MaskImage) {
    |mask.values| == mask.nx * mask.ny * mask.nz && |mask.affine| == 16
  }

  /** The two ValueErrors apply_mask raises. */
  datatype MaskError =
    | AffineMismatch(maskAffine: seq<real>, imageAffine: seq<real>)
    | ShapeMismatch(maskShape: seq<nat>, imageShape: seq<nat>)

  /** Default tolerances of np.allclose. */
  const RTol: real := 0.00001
  const ATol: real := 0.00000001

  function Abs(x: real): real {
    if x < 0.0 then -x else x
  }

  /** np.allclose(a, b): |a - b| <= atol + rtol * |b| entry by entry (the test is not symmetric). */
  predicate AllClose(a: seq<real>, b: seq<real>)
    ensures AllClose(a, b) ==> |a| == |b|
    ensures a == b ==> AllClose(a, b)
  {
    |a| == |b| && forall i :: 0 <= i < |a| ==> Abs(a[i] - b[i]) <= ATol + RTol * Abs(b[i])
  }

  /** Every affine is close to itself. */
  lemma AllCloseReflexive(a: seq<real>)
    ensures AllClose(a, a)
  {
    forall i | 0 <= i < |a| ensures Abs(a[i] - a[i]) <= ATol + RTol * Abs(a[i]) {
    }
  }

  /** mask.get_data().astype(bool): a voxel is in the mask when its value is non-zero. */
  function InMask(mask: MaskImage): (b: seq<bool>)
    ensures |b| == |mask.values|
    ensures forall v :: 0 <= v < |b| ==> (b[v] <==> mask.values[v] != 0.0)
  {
    seq(|mask.values|, v requires 0 <= v < |mask.values| => mask.values[v] != 0.0)
  }

  /** Number of true entries. */
  function CountTrue(b: seq<bool>): nat {
    if |b| == 0 then 0 else CountTrue(b[..|b| - 1]) + (if b[|b| - 1] then 1 else 0)
  }

  /**
   * The flat indices of the true voxels in increasing (row-major) order:
   * element k is "the k-th true voxel".
   */
  function TrueIndices(b: seq<bool>): (r: seq<nat>)
    ensures |r| == CountTrue(b)
    ensures forall k :: 0 <= k < |r| ==> r[k] < |b| && b[r[k]]
    ensures forall k, k' :: 0 <= k < k' < |r| ==> r[k] < r[k']
    ensures forall v :: 0 <= v < |b| && b[v] ==> v in r
  {
    if |b| == 0 then []
    else
      var p := b[..|b| - 1];
      assert forall v :: 0 <= v < |p| ==> p[v] == b[v];
      TrueIndices(p) + (if b[|b| - 1] then [|b| - 1] else [])
  }

  /** An in-mask voxel v is preceded by fewer true voxels than there are in all. */
  lemma {:induction false} RankBelowCount(b: seq<bool>, v: nat)
    requires v < |b| && b[v]
    ensures CountTrue(b[..v]) < CountTrue(b)
  {
    var n := |b|;
    var p := b[..n - 1];
    if v < n - 1 {
      assert p[..v] == b[..v];
      RankBelowCount(p, v);
    } else {
      assert p == b[..v];
    }
  }

  /** The in-mask voxel v is the CountTrue(b[..v])-th true voxel. */
  lemma {:induction false} IndexOfTrue(b: seq<bool>, v: nat)
    requires v < |b| && b[v]
    ensures CountTrue(b[..v]) < |TrueIndices(b)|
    ensures TrueIndices(b)[CountTrue(b[..v])] == v
  {
    var n := |b|;
    var p := b[..n - 1];
    if v < n - 1 {
      assert p[..v] == b[..v];
      IndexOfTrue(p, v);
    } else {
      assert p == b[..v];
    }
  }

  /** Conversely, exactly k true voxels precede the k-th true voxel. */
  lemma RankOfTrueIndex(b: seq<bool>, k: nat)
    requires k < |TrueIndices(b)|
    ensures CountTrue(b[..TrueIndices(b)[k]]) == k
  {
    var r := TrueIndices(b);
    var v := r[k];
    IndexOfTrue(b, v);
  }

  /** series[mask]: the time series of the selected voxels, in the given order. */
  function Select(series: Matrix, voxels: seq<nat>): (r: Matrix)
    requires forall k :: 0 <= k < |voxels| ==> voxels[k] < |series|
    ensures |r| == |voxels|
    ensures forall k :: 0 <= k < |voxels| ==> r[k] == series[voxels[k]]
  {
    seq(|voxels|, k requires 0 <= k < |voxels| => series[voxels[k]])
  }

  /**
   * apply_mask: the affine test comes first, the shape test second; then
   * series[mask].T, a (time x in-mask voxel) matrix whose entries are the
   * image's own values.
   */
  function ApplyMask(img: Image, mask: MaskImage): (r: Result<Matrix, MaskError>)
    requires ValidImage(img) && ValidMask(mask)
    ensures (r.Failure? && r.error.AffineMismatch?) <==> !AllClose(mask.affine, img.affine)
    ensures (r.Failure? && r.error.ShapeMismatch?) <==>
              AllClose(mask.affine, img.affine) && [mask.nx, mask.ny, mask.nz] != [img.nx, img.ny, img.nz]
    ensures r.Success? ==>
              var voxels := TrueIndices(InMask(mask));
              IsMatrix(r.value, img.nt, |voxels|) &&
              forall t, k :: 0 <= t < img.nt && 0 <= k < |voxels| ==> r.value[t][k] == img.series[voxels[k]][t]
  {
    if !AllClose(mask.affine, img.affine) then
      Failure(AffineMismatch(mask.affine, img.affine))
    else if [mask.nx, mask.ny, mask.nz] != [img.nx, img.ny, img.nz] then
      Failure(ShapeMismatch([mask.nx, mask.ny, mask.nz], [img.nx, img.ny, img.nz]))
    else
      var voxels := TrueIndices(InMask(mask));
      Success(Transpose(Select(img.series, voxels), img.nt))
  }

  /** The selected voxels are exactly those whose mask value is non-zero. */
  lemma SelectedVoxelsAreNonzero(mask: MaskImage)
    ensures forall k :: 0 <= k < |TrueIndices(InMask(mask))| ==>
              var v := TrueIndices(InMask(mask))[k];
              v < |mask.values| && mask.values[v] != 0.0
    ensures forall v :: 0 <= v < |mask.values| && mask.values[v] != 0.0 ==> v in TrueIndices(InMask(mask))
  {
    var b := InMask(mask);
    assert forall v :: 0 <= v < |b| ==> (b[v] <==> mask.values[v] != 0.0);
  }

  /** The X argument of unmask: a 1-D array of shape (L,) or a 2-D array of shape (L, width). */
  datatype Features = Flat(values: Vector) | Table(rows: Matrix, width: nat)

  predicate ValidFeatures(x: Features) {
    x.Table? ==> IsMatrix(x.rows, |x.rows|, x.width)
  }

  /** X.shape[0]: the length of the trailing axis that unmask allocates. */
  function Leading(x: Features): nat {
    match x
    case Flat(values) => |values|
    case Table(rows, _) => |rows|
  }

  /** The ValueError numpy raises when X.T cannot be broadcast onto data[mask, :]. */
  datatype UnmaskError = BroadcastMismatch(valueShape: seq<nat>, targetShape: seq<nat>)

  /**
   * X.T broadcasts onto the (n, L) selection of n in-mask voxels: always for a
   * 1-D X, and for a 2-D X whose width is n or 1.
   */
  predicate Broadcastable(x: Features, n: nat)
    ensures x.Flat? ==> Broadcastable(x, n)
    ensures x.Table? && x.width == n ==> Broadcastable(x, n)
    ensures x.Table? && x.width != n && x.width != 1 ==> !Broadcastable(x, n)
  {
    x.Flat? || x.width == n || x.width == 1
  }

  /** The series unmask writes at the k-th in-mask voxel. */
  function InMaskSeries(x: Features, k: nat): (r: Vector)
    requires ValidFeatures(x)
    requires x.Table? ==> x.width == 1 || k < x.width
    ensures |r| == Leading(x)
    ensures x.Flat? ==> r == x.values
    ensures x.Table? && x.width == 1 ==> r == Column(x.rows, 0)
    ensures x.Table? && x.width != 1 ==> r == Column(x.rows, k)
  {
    match x
    case Flat(values) => values
    case Table(rows, width) =>
      seq(|rows|, s requires 0 <= s < |rows| => rows[s][if width == 1 then 0 else k])
  }

  function Zeros(n: nat): Vector {
    seq(n, _ => 0.0)
  }

  /** The row unmask leaves at voxel v: X's series for an in-mask voxel, zeros elsewhere. */
  function UnmaskedRow(x: Features, b: seq<bool>, v: nat): Vector
    requires ValidFeatures(x) && v < |b| && Broadcastable(x, CountTrue(b))
  {
    if b[v] then RankBelowCount(b, v); InMaskSeries(x, CountTrue(b[..v]))
    else Zeros(Leading(x))
  }

  /**
   * unmask: a zero array of shape mask-shape + (X.shape[0],), with X.T written
   * into the in-mask voxels (one row per voxel, in flat-index order).
   */
  function Unmasked(x: Features, mask: MaskImage): (r: Result<Matrix, UnmaskError>)
    requires ValidFeatures(x) && ValidMask(mask)
    ensures r.Success? <==> Broadcastable(x, CountTrue(InMask(mask)))
    ensures r.Success? ==> IsMatrix(r.value, mask.nx * mask.ny * mask.nz, Leading(x))
    ensures r.Success? ==>
              forall v :: 0 <= v < |mask.values| && mask.values[v] == 0.0 ==> r.value[v] == Zeros(Leading(x))
    ensures r.Success? && x.Flat? ==>
              forall v :: 0 <= v < |mask.values| && mask.values[v] != 0.0 ==> r.value[v] == x.values
    ensures r.Success? && x.Table? && x.width == 1 ==>
              forall v :: 0 <= v < |mask.values| && mask.values[v] != 0.0 ==> r.value[v] == Column(x.rows, 0)
  {
    var b := InMask(mask);
    var n := CountTrue(b);
    if !Broadcastable(x, n) then
      Failure(BroadcastMismatch([x.width, Leading(x)], [n, Leading(x)]))
    else
      Success(seq(|b|, v requires 0 <= v < |b| => UnmaskedRow(x, b, v)))
  }

  /** For a 2-D X of shape (L, n_true), the k-th true voxel receives column k of X. */
  lemma UnmaskedKthVoxel(x: Features, mask: MaskImage, k: nat)
    requires ValidFeatures(x) && ValidMask(mask)
    requires x.Table? && x.width == CountTrue(InMask(mask)) && k < x.width
    ensures Unmasked(x, mask).Success?
    ensures Unmasked(x, mask).value[TrueIndices(InMask(mask))[k]] == Column(x.rows, k)
  {
    var b := InMask(mask);
    RankOfTrueIndex(b, k);
  }

  /** Round trip: gathering the in-mask voxels of unmask(X) gives back X. */
  lemma ApplyMaskAfterUnmask(x: Features, mask: MaskImage)
    requires ValidFeatures(x) && ValidMask(mask)
    requires x.Table? && x.width == CountTrue(InMask(mask))
    ensures Unmasked(x, mask).Success?
    ensures var img := Image(mask.nx, mask.ny, mask.nz, |x.rows|, Unmasked(x, mask).value, mask.affine);
            ValidImage(img) && ApplyMask(img, mask) == Success(x.rows)
  {
    var b := InMask(mask);
    var u := Unmasked(x, mask).value;
    var img := Image(mask.nx, mask.ny, mask.nz, |x.rows|, u, mask.affine);
    AllCloseReflexive(mask.affine);
    assert ValidImage(img);
    var r := ApplyMask(img, mask);
    assert r.Success?;
    var voxels := TrueIndices(b);
    assert IsMatrix(r.value, |x.rows|, |voxels|);
    forall t | 0 <= t < |x.rows| ensures r.value[t] == x.rows[t] {
      forall k | 0 <= k < |voxels| ensures r.value[t][k] == x.rows[t][k] {
        UnmaskedKthVoxel(x, mask, k);
        assert r.value[t][k] == u[voxels[k]][t];
      }
    }
    assert r.value == x.rows;
  }

  /** The other way round: unmasking what apply_mask extracted restores every in-mask voxel and zeroes the rest. */
  lemma UnmaskAfterApplyMask(img: Image, mask: MaskImage)
    requires ValidImage(img) && ValidMask(mask)
    requires ApplyMask(img, mask).Success?
    ensures var x := Table(ApplyMask(img, mask).value, CountTrue(InMask(mask)));
            ValidFeatures(x) && Unmasked(x, mask).Success? &&
            forall v :: 0 <= v < |mask.values| ==>
              Unmasked(x, mask).value[v] == if mask.values[v] != 0.0 then img.series[v] else Zeros(img.nt)
  {
    var b := InMask(mask);
    var a := ApplyMask(img, mask).value;
    var x := Table(a, CountTrue(b));
    var u := Unmasked(x, mask).value;
    forall v | 0 <= v < |mask.values| && mask.values[v] != 0.0 ensures u[v] == img.series[v] {
      IndexOfTrue(b, v);
    }
  }

  /**
   * unmask as the code runs it: np.zeros, then data[mask, :] = X.T, voxel by
   * voxel in flat-index order.
   */
  method Unmask(x: Features, mask: MaskImage) returns (r: Result<array2<real>, UnmaskError>)
    requires ValidFeatures(x) && ValidMask(mask)
    ensures r.Failure? <==> Unmasked(x, mask).Failure?
    ensures r.Failure? ==> r.error == Unmasked(x, mask).error
    ensures r.Success? ==> fresh(r.value) && Contents(r.value) == Unmasked(x, mask).value
  {
    var b := InMask(mask);
    var len := Leading(x);
    var data := new real[|b|, len]((_, _) => 0.0);
    var n := CountTrue(b);
    if !Broadcastable(x, n) {
      return Failure(BroadcastMismatch([x.width, len], [n, len]));
    }
    var k := 0;
    for v := 0 to |b|
      invariant k == CountTrue(b[..v])
      invariant forall v', s :: 0 <= v' < |b| && 0 <= s < len ==>
                  data[v', s] == if v' < v then UnmaskedRow(x, b, v')[s] else 0.0
    {
      assert b[..v + 1][..v] == b[..v];
      if b[v] {
        RankBelowCount(b, v);
        WriteSeries(data, v, x, k);
        k := k + 1;
      }
    }
    EqualContents(data, Unmasked(x, mask).value);
    r := Success(data);
  }

  /** data[v, :] = the series X gives the k-th in-mask voxel, in place. */
  method WriteSeries(data: array2<real>, v: nat, x: Features, k: nat)
    requires ValidFeatures(x) && (x.Table? ==> x.width == 1 || k < x.width)
    requires v < data.Length0 && data.Length1 == Leading(x)
    modifies data
    ensures forall v', s :: 0 <= v' < data.Length0 && 0 <= s < data.Length1 ==>
              data[v', s] == if v' == v then InMaskSeries(x, k)[s] else old(data[v', s])
  {
    for s := 0 to data.Length1
      invariant forall v', s' :: 0 <= v' < data.Length0 && 0 <= s' < data.Length1 ==>
                  data[v', s'] == if v' == v && s' < s then InMaskSeries(x, k)[s'] else old(data[v', s'])
    {
      data[v, s] := match x
        case Flat(values) => values[s]
        case Table(rows, width) => rows[s][if width == 1 then 0 else k];
    }
  }
}
