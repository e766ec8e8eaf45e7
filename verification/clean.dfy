/**
 * The clean pipeline for masked signals: validation and reading of the
 * confounds, normalisation, projection onto the orthogonal complement of the
 * confound space, optional band-pass filtering, and the final rescaling to
 * unit variance.
 *
 * The QR factorisation (qr_economic) and the Butterworth filter are not part
 * of this model; clean receives them, and the square root, as functions.
 */
module Cleaning {
  import opened Wrappers
  import opened LinAlg
  import opened NdArrays
  import opened Preprocess

  /**
   * One confound as clean receives it: the name of a CSV file (with the table
   * np.genfromtxt parses from it), a 1-D or 2-D ndarray, an ndarray of any
   * other number of dimensions, or an object of some other type.
   */
  datatype Confound =
    | CsvFile(name: string, parsed: Matrix, width: nat)
    | Array1(values: Vector)
    | Array2(rows: Matrix, width: nat)
    | ArrayN(ndim: nat)
    | OtherObject(typeName: string)

  predicate ValidConfound(c: Confound) {
    match c
    case CsvFile(_, parsed, width) => IsMatrix(parsed, |parsed|, width)
    case Array2(rows, width) => IsMatrix(rows, |rows|, width)
    case ArrayN(ndim) => ndim != 1 && ndim != 2
    case _ => true
  }

  /** The confounds argument: None, a list or tuple of confounds, or one object. */
  datatype ConfoundsArg = NoConfounds | Several(items: seq<Confound>) | Single(item: Confound)

  predicate ValidConfounds(arg: ConfoundsArg) {
    match arg
    case NoConfounds => true
    case Several(items) => forall k :: 0 <= k < |items| ==> ValidConfound(items[k])
    case Single(item) => ValidConfound(item)
  }

  /** A single confound is wrapped into a one-element tuple. */
  function Items(arg: ConfoundsArg): (items: seq<Confound>)
    requires !arg.NoConfounds?
    ensures arg.Single? ==> |items| == 1 && items[0] == arg.item
    ensures arg.Several? ==> items == arg.items
    ensures ValidConfounds(arg) ==> forall k :: 0 <= k < |items| ==> ValidConfound(items[k])
  {
    if arg.Several? then arg.items else [arg.item]
  }

  /** The exceptions clean raises. */
  datatype CleanError =
    | ConfoundsTypeError(typeName: string)   // the confounds argument has an unhandled type
    | ConfoundTypeError(typeName: string)    // a confound has an unhandled type
    | ConfoundDimensionError(ndim: nat)      // an ndarray confound is neither 1-D nor 2-D
    | ConfoundLengthError                    // a confound's row count differs from the signals'
    | NothingToConcatenate                   // np.hstack of an empty list
    | ZeroRepetitionTime                     // 1. / t_r with t_r == 0

  /** The errors the confound loop itself raises. */
  predicate IsConfoundError(e: CleanError) {
    e.ConfoundTypeError? || e.ConfoundDimensionError? || e.ConfoundLengthError?
  }

  /** A confound read as a 2-D block of columns. */
  datatype Block = Block(rows: Matrix, width: nat)

  /** np.atleast_2d(v).T: a 1-D array as a single column. */
  function AsColumn(v: Vector): (m: Matrix)
    ensures IsMatrix(m, |v|, 1)
  {
    seq(|v|, i requires 0 <= i < |v| => [v[i]])
  }

  /** The promoted column holds the 1-D confound's values, in order. */
  lemma AsColumnKeepsValues(v: Vector)
    ensures Column(AsColumn(v), 0) == v
  {
  }

  /**
   * The checks of the confound loop for one confound against n signal rows:
   * a 1-D array becomes one column; another dimension count, another row
   * count or another type is an error.
   */
  function ReadConfound(c: Confound, n: nat): (r: Result<Block, CleanError>)
    requires ValidConfound(c)
    ensures r.Success? ==> IsMatrix(r.value.rows, n, r.value.width)
    ensures r.Success? <==>
              (c.CsvFile? && |c.parsed| == n) || (c.Array1? && |c.values| == n) || (c.Array2? && |c.rows| == n)
    ensures r.Failure? ==> IsConfoundError(r.error)
  {
    match c
    case CsvFile(_, parsed, width) =>
      if |parsed| != n then Failure(ConfoundLengthError) else Success(Block(parsed, width))
    case Array1(values) =>
      var column := AsColumn(values);
      if |column| != n then Failure(ConfoundLengthError) else Success(Block(column, 1))
    case Array2(rows, width) =>
      if |rows| != n then Failure(ConfoundLengthError) else Success(Block(rows, width))
    case ArrayN(ndim) => Failure(ConfoundDimensionError(ndim))
    case OtherObject(name) => Failure(ConfoundTypeError(name))
  }

  /** The error each kind of bad confound raises. */
  lemma ReadConfoundErrors(c: Confound, n: nat)
    requires ValidConfound(c)
    ensures c.ArrayN? ==> ReadConfound(c, n) == Failure(ConfoundDimensionError(c.ndim))
    ensures c.OtherObject? ==> ReadConfound(c, n) == Failure(ConfoundTypeError(c.typeName))
    ensures (c.CsvFile? || c.Array1? || c.Array2?) && ReadConfound(c, n).Failure? ==>
              ReadConfound(c, n).error == ConfoundLengthError
  {
  }

  /** A 1-D confound of the right length is read as one column holding its values. */
  lemma OneDimensionalConfoundIsColumn(v: Vector)
    ensures ReadConfound(Array1(v), |v|).Success?
    ensures var b := ReadConfound(Array1(v), |v|).value;
            b.width == 1 && Column(b.rows, 0) == v
  {
    AsColumnKeepsValues(v);
  }

  /** The confound loop: read every confound in order; the first bad one stops it. */
  function ReadConfounds(items: seq<Confound>, n: nat): (r: Result<seq<Block>, CleanError>)
    requires forall k :: 0 <= k < |items| ==> ValidConfound(items[k])
    ensures r.Success? <==> forall k :: 0 <= k < |items| ==> ReadConfound(items[k], n).Success?
    ensures r.Success? ==>
              |r.value| == |items| &&
              forall k :: 0 <= k < |items| ==> ReadConfound(items[k], n) == Success(r.value[k])
    ensures r.Failure? ==> IsConfoundError(r.error)
  {
    if |items| == 0 then Success([])
    else
      var front := items[..|items| - 1];
      assert forall k :: 0 <= k < |front| ==> front[k] == items[k];
      var blocks := ReadConfounds(front, n);
      if blocks.Failure? then Failure(blocks.error)
      else
        var last := ReadConfound(items[|items| - 1], n);
        if last.Failure? then Failure(last.error)
        else Success(blocks.value + [last.value])
  }

  /** The error raised is the one of the first confound that fails. */
  lemma {:induction false} FirstBadConfoundReported(items: seq<Confound>, n: nat, k: nat)
    requires forall k' :: 0 <= k' < |items| ==> ValidConfound(items[k'])
    requires k < |items| && ReadConfound(items[k], n).Failure?
    requires forall k' :: 0 <= k' < k ==> ReadConfound(items[k'], n).Success?
    ensures ReadConfounds(items, n) == Failure(ReadConfound(items[k], n).error)
  {
    var front := items[..|items| - 1];
    assert forall k' :: 0 <= k' < |front| ==> front[k'] == items[k'];
    if k < |items| - 1 {
      FirstBadConfoundReported(front, n, k);
    } else {
      assert ReadConfounds(front, n).Success?;
    }
  }

  predicate AreBlocks(blocks: seq<Block>, n: nat) {
    forall k :: 0 <= k < |blocks| ==> IsMatrix(blocks[k].rows, n, blocks[k].width)
  }

  /** Total number of columns of the blocks. */
  function TotalWidth(blocks: seq<Block>): nat {
    if |blocks| == 0 then 0 else TotalWidth(blocks[..|blocks| - 1]) + blocks[|blocks| - 1].width
  }

  /** np.hstack: the blocks side by side, row by row. */
  function HStack(blocks: seq<Block>, n: nat): (h: Block)
    requires AreBlocks(blocks, n)
    ensures IsMatrix(h.rows, n, h.width) && h.width == TotalWidth(blocks)
  {
    if |blocks| == 0 then Block(seq(n, _ => []), 0)
    else
      var front := HStack(blocks[..|blocks| - 1], n);
      var last := blocks[|blocks| - 1];
      Block(seq(n, i requires 0 <= i < n => front.rows[i] + last.rows[i]), front.width + last.width)
  }

  /**
   * Stacking keeps every confound column: column l of block k is column
   * TotalWidth(blocks[..k]) + l of the stack, "as if all were in the same array".
   */
  lemma {:induction false} HStackColumn(blocks: seq<Block>, n: nat, k: nat, l: nat)
    requires AreBlocks(blocks, n) && k < |blocks| && l < blocks[k].width
    ensures TotalWidth(blocks[..k]) + l < TotalWidth(blocks)
    ensures Column(HStack(blocks, n).rows, TotalWidth(blocks[..k]) + l) == Column(blocks[k].rows, l)
  {
    var last := |blocks| - 1;
    var front := blocks[..last];
    if k < last {
      assert front[..k] == blocks[..k];
      HStackColumn(front, n, k, l);
      HStackKeepsFront(blocks, n, TotalWidth(blocks[..k]) + l);
    } else {
      assert blocks[..k] == front;
      HStackAppendsLast(blocks, n, l);
    }
  }

  /** A column of the stack of all blocks but the last is that column of the whole stack. */
  lemma HStackKeepsFront(blocks: seq<Block>, n: nat, c: nat)
    requires AreBlocks(blocks, n) && |blocks| > 0 && c < TotalWidth(blocks[..|blocks| - 1])
    ensures Column(HStack(blocks, n).rows, c) == Column(HStack(blocks[..|blocks| - 1], n).rows, c)
  {
    var h, f := HStack(blocks, n), HStack(blocks[..|blocks| - 1], n);
    forall i | 0 <= i < n ensures h.rows[i][c] == f.rows[i][c] {
      assert h.rows[i] == f.rows[i] + blocks[|blocks| - 1].rows[i];
    }
  }

  /** The last block's columns follow those of the blocks before it. */
  lemma HStackAppendsLast(blocks: seq<Block>, n: nat, l: nat)
    requires AreBlocks(blocks, n) && |blocks| > 0 && l < blocks[|blocks| - 1].width
    ensures TotalWidth(blocks[..|blocks| - 1]) + l < TotalWidth(blocks)
    ensures Column(HStack(blocks, n).rows, TotalWidth(blocks[..|blocks| - 1]) + l) == Column(blocks[|blocks| - 1].rows, l)
  {
    var h, f := HStack(blocks, n), HStack(blocks[..|blocks| - 1], n);
    var c := TotalWidth(blocks[..|blocks| - 1]) + l;
    forall i | 0 <= i < n ensures h.rows[i][c] == blocks[|blocks| - 1].rows[i][l] {
      assert h.rows[i] == f.rows[i] + blocks[|blocks| - 1].rows[i];
    }
  }

  // ---------------------------------------------------------------------
  // Projection

  /** signals - np.dot(Q, np.dot(Q.T, signals)). */
  function Projected(s: Matrix, cols: nat, q: Matrix): (p: Matrix)
    requires IsMatrix(s, |s|, cols) && IsMatrix(q, |s|, Width(q))
    ensures IsMatrix(p, |s|, cols)
  {
    var w := Width(q);
    MatrixMinus(s, MatMul(q, MatMul(Transpose(q, w), s, |s|, cols), w, cols), cols)
  }

  /** Column j of the projection is s_j - q (q^T s_j). */
  lemma ProjectedColumn(s: Matrix, cols: nat, q: Matrix, j: nat)
    requires IsMatrix(s, |s|, cols) && IsMatrix(q, |s|, Width(q)) && j < cols
    ensures Column(Projected(s, cols, q), j) == Minus(Column(s, j), MatVec(q, Coefs(q, Width(q), Column(s, j))))
  {
    var w := Width(q);
    var t := Transpose(q, w);
    var g := MatMul(t, s, |s|, cols);
    var c := Coefs(q, w, Column(s, j));
    assert Column(g, j) == c by {
      forall l | 0 <= l < w ensures Column(g, j)[l] == c[l] {
        assert g[l][j] == RowTimesColumn(t, s, l, j);
        assert t[l] == Column(q, l);
      }
    }
    var qg := MatMul(q, g, w, cols);
    var p := Projected(s, cols, q);
    var a, b := Column(p, j), Minus(Column(s, j), MatVec(q, c));
    forall i | 0 <= i < |s| ensures a[i] == b[i] {
      assert qg[i][j] == RowTimesColumn(q, g, i, j);
    }
  }

  /** With an orthonormal q, every projected column is orthogonal to every column of q. */
  lemma ProjectedOrthogonal(s: Matrix, cols: nat, q: Matrix, l: nat, j: nat)
    requires IsMatrix(s, |s|, cols) && |q| == |s| && Orthonormal(q) && l < Width(q) && j < cols
    ensures Dot(Column(q, l), Column(Projected(s, cols, q), j)) == 0.0
  {
    ProjectedColumn(s, cols, q, j);
    ResidualOrthogonal(q, Column(s, j), l);
  }

  // ---------------------------------------------------------------------
  // clean

  /** qr_economic returns a Q with one row per row of its argument. */
  ghost predicate QrKeepsRows(qr: Matrix -> Matrix) {
    forall m :: IsMatrix(qr(m), |m|, Width(qr(m)))
  }

  /** Q has orthonormal columns, as the Q factor of a QR factorisation does. */
  ghost predicate QrOrthonormal(qr: Matrix -> Matrix) {
    forall m :: Orthonormal(qr(m))
  }

  /** butterworth returns an array of the shape it was given. */
  ghost predicate FilterKeepsShape(butterworth: (Matrix, real, Option<real>, Option<real>) -> Matrix) {
    forall m, rate, low, high :: IsMatrix(butterworth(m, rate, low, high), |m|, Width(m))
  }

  /**
   * The basis Q of the confound space for n signal rows: read every confound,
   * stack them, normalise the columns, take the QR factor.
   */
  function ConfoundBasis(n: nat, confounds: ConfoundsArg, sqrt: real -> real, qr: Matrix -> Matrix)
    : (r: Result<Matrix, CleanError>)
    requires !confounds.NoConfounds? && ValidConfounds(confounds) && QrKeepsRows(qr)
    ensures r.Success? ==> IsMatrix(r.value, n, Width(r.value))
    ensures r.Success? <==> ReadConfounds(Items(confounds), n).Success? && |Items(confounds)| > 0
    ensures r.Failure? ==> !r.error.ConfoundsTypeError? && !r.error.ZeroRepetitionTime?
  {
    var items := Items(confounds);
    var blocks := ReadConfounds(items, n);
    if blocks.Failure? then Failure(blocks.error)
    else if |blocks.value| == 0 then Failure(NothingToConcatenate)
    else
      var stacked := HStack(blocks.value, n);
      Success(qr(Standardized(stacked.rows, stacked.width, true, sqrt)))
  }

  /** The confound-removal stage: nothing without confounds, else the projection off the confound basis. */
  function RemoveConfounds(s: Matrix, cols: nat, confounds: ConfoundsArg, sqrt: real -> real, qr: Matrix -> Matrix)
    : (r: Result<Matrix, CleanError>)
    requires IsMatrix(s, |s|, cols) && ValidConfounds(confounds) && QrKeepsRows(qr)
    ensures r.Success? ==> IsMatrix(r.value, |s|, cols)
    ensures r.Failure? ==> !r.error.ConfoundsTypeError? && !r.error.ZeroRepetitionTime?
    ensures confounds.NoConfounds? ==> r == Success(s)
    ensures !confounds.NoConfounds? ==> (r.Success? <==> ConfoundBasis(|s|, confounds, sqrt, qr).Success?)
  {
    if confounds.NoConfounds? then Success(s)
    else
      var q := ConfoundBasis(|s|, confounds, sqrt, qr);
      if q.Failure? then Failure(q.error)
      else Success(Projected(s, cols, q.value))
  }

  /** The filter stage: butterworth at sampling rate 1 / t_r, only when a cutoff is given. */
  function Filter(s: Matrix, cols: nat, lowPass: Option<real>, highPass: Option<real>, tr: real,
                  butterworth: (Matrix, real, Option<real>, Option<real>) -> Matrix): (r: Result<Matrix, CleanError>)
    requires IsMatrix(s, |s|, cols) && FilterKeepsShape(butterworth)
    ensures r.Success? ==> IsMatrix(r.value, |s|, cols)
    ensures r.Failure? <==> tr == 0.0 && (lowPass.Some? || highPass.Some?)
    ensures r.Failure? ==> r.error == ZeroRepetitionTime
  {
    if lowPass.None? && highPass.None? then Success(s)
    else if tr == 0.0 then Failure(ZeroRepetitionTime)
    else Success(butterworth(s, 1.0 / tr, lowPass, highPass))
  }

  /**
   * clean after its type check and up to, and excluding, its last
   * normalisation: normalisation only when confounds are given, confound
   * removal, then the filter. Its errors come from the confounds or from t_r.
   */
  function Prefinal(s: Matrix, cols: nat, confounds: ConfoundsArg, lowPass: Option<real>, highPass: Option<real>,
                    tr: real, sqrt: real -> real, qr: Matrix -> Matrix,
                    butterworth: (Matrix, real, Option<real>, Option<real>) -> Matrix): (r: Result<Matrix, CleanError>)
    requires IsMatrix(s, |s|, cols) && ValidConfounds(confounds)
    requires QrKeepsRows(qr) && FilterKeepsShape(butterworth)
    ensures r.Success? ==> IsMatrix(r.value, |s|, cols)
    ensures r.Failure? ==> !r.error.ConfoundsTypeError?
    ensures r.Failure? && r.error.ZeroRepetitionTime? ==> tr == 0.0 && (lowPass.Some? || highPass.Some?)
  {
    var projected := RemoveConfounds(Standardized(s, cols, !confounds.NoConfounds?, sqrt), cols, confounds, sqrt, qr);
    if projected.Failure? then Failure(projected.error)
    else Filter(projected.value, cols, lowPass, highPass, tr, butterworth)
  }

  /** The last step: unit energy per column, then times sqrt(n) for unit variance. */
  function Rescaled(f: Matrix, cols: nat, sqrt: real -> real): (r: Matrix)
    requires IsMatrix(f, |f|, cols)
    ensures IsMatrix(r, |f|, cols)
  {
    MatrixScale(Standardized(f, cols, true, sqrt), cols, sqrt(|f| as real))
  }

  /** The last step applied to a stage's result; an error passes through. */
  function RescaledResult(f: Result<Matrix, CleanError>, cols: nat, sqrt: real -> real): (r: Result<Matrix, CleanError>)
    requires f.Success? ==> IsMatrix(f.value, |f.value|, cols)
    ensures r.Success? <==> f.Success?
    ensures r.Failure? ==> r.error == f.error
    ensures r.Success? ==> IsMatrix(r.value, |f.value|, cols)
  {
    if f.Failure? then Failure(f.error) else Success(Rescaled(f.value, cols, sqrt))
  }

  /** clean(signals, confounds, low_pass, high_pass, t_r). */
  function Cleaned(s: Matrix, cols: nat, confounds: ConfoundsArg, lowPass: Option<real>, highPass: Option<real>,
                   tr: real, sqrt: real -> real, qr: Matrix -> Matrix,
                   butterworth: (Matrix, real, Option<real>, Option<real>) -> Matrix): (r: Result<Matrix, CleanError>)
    requires IsMatrix(s, |s|, cols) && ValidConfounds(confounds)
    requires QrKeepsRows(qr) && FilterKeepsShape(butterworth)
    ensures r.Success? ==> IsMatrix(r.value, |s|, cols)
  {
    if confounds.Single? && confounds.item.OtherObject? then
      Failure(ConfoundsTypeError(confounds.item.typeName))
    else
      RescaledResult(Prefinal(s, cols, confounds, lowPass, highPass, tr, sqrt, qr, butterworth), cols, sqrt)
  }

  /**
   * The type error on the confounds argument is raised exactly when it is a
   * single object of an unsupported type, before anything else is done.
   */
  lemma CleanTypeError(s: Matrix, cols: nat, confounds: ConfoundsArg, lowPass: Option<real>, highPass: Option<real>,
                        tr: real, sqrt: real -> real, qr: Matrix -> Matrix,
                        butterworth: (Matrix, real, Option<real>, Option<real>) -> Matrix)
    requires IsMatrix(s, |s|, cols) && ValidConfounds(confounds)
    requires QrKeepsRows(qr) && FilterKeepsShape(butterworth)
    ensures var r := Cleaned(s, cols, confounds, lowPass, highPass, tr, sqrt, qr, butterworth);
            (r.Failure? && r.error.ConfoundsTypeError?) <==> confounds.Single? && confounds.item.OtherObject?
  {
    if !(confounds.Single? && confounds.item.OtherObject?) {
      var p := Prefinal(s, cols, confounds, lowPass, highPass, tr, sqrt, qr, butterworth);
      assert p.Failure? ==> !p.error.ConfoundsTypeError?;
    }
  }

  /** An empty list of confounds cannot be stacked. */
  lemma CleanEmptyConfoundList(s: Matrix, cols: nat, lowPass: Option<real>, highPass: Option<real>,
                               tr: real, sqrt: real -> real, qr: Matrix -> Matrix,
                               butterworth: (Matrix, real, Option<real>, Option<real>) -> Matrix)
    requires IsMatrix(s, |s|, cols)
    requires QrKeepsRows(qr) && FilterKeepsShape(butterworth)
    ensures Cleaned(s, cols, Several([]), lowPass, highPass, tr, sqrt, qr, butterworth) == Failure(NothingToConcatenate)
  {
    var confounds := Several([]);
    assert ReadConfounds([], |s|) == Success([]);
    assert ConfoundBasis(|s|, confounds, sqrt, qr) == Failure(NothingToConcatenate);
    var normalized := Standardized(s, cols, true, sqrt);
    assert RemoveConfounds(normalized, cols, confounds, sqrt, qr) == Failure(NothingToConcatenate);
    assert Prefinal(s, cols, confounds, lowPass, highPass, tr, sqrt, qr, butterworth) == Failure(NothingToConcatenate);
  }

  /**
   * A zero repetition time is an error only when a cutoff is given, and it is
   * the error reported once the confounds have been removed without error.
   */
  lemma CleanZeroRepetitionTime(s: Matrix, cols: nat, confounds: ConfoundsArg, lowPass: Option<real>, highPass: Option<real>,
                        tr: real, sqrt: real -> real, qr: Matrix -> Matrix,
                        butterworth: (Matrix, real, Option<real>, Option<real>) -> Matrix)
    requires IsMatrix(s, |s|, cols) && ValidConfounds(confounds)
    requires QrKeepsRows(qr) && FilterKeepsShape(butterworth)
    ensures Cleaned(s, cols, confounds, lowPass, highPass, tr, sqrt, qr, butterworth) == Failure(ZeroRepetitionTime) ==>
              tr == 0.0 && (lowPass.Some? || highPass.Some?)
    ensures !(confounds.Single? && confounds.item.OtherObject?) && tr == 0.0 && (lowPass.Some? || highPass.Some?) &&
            RemoveConfounds(Standardized(s, cols, !confounds.NoConfounds?, sqrt), cols, confounds, sqrt, qr).Success? ==>
              Cleaned(s, cols, confounds, lowPass, highPass, tr, sqrt, qr, butterworth) == Failure(ZeroRepetitionTime)
  {
  }

  /** Without confounds and cutoffs nothing can fail. */
  lemma CleanWithoutConfoundsOrCutoffs(s: Matrix, cols: nat, tr: real, sqrt: real -> real, qr: Matrix -> Matrix,
                                       butterworth: (Matrix, real, Option<real>, Option<real>) -> Matrix)
    requires IsMatrix(s, |s|, cols)
    requires QrKeepsRows(qr) && FilterKeepsShape(butterworth)
    ensures Cleaned(s, cols, NoConfounds, None, None, tr, sqrt, qr, butterworth).Success?
  {
    var normalized := Standardized(s, cols, false, sqrt);
    assert RemoveConfounds(normalized, cols, NoConfounds, sqrt, qr) == Success(normalized);
    assert Prefinal(s, cols, NoConfounds, None, None, tr, sqrt, qr, butterworth) == Success(normalized);
  }

  /** Among several bad confounds, clean reports the first. */
  lemma CleanReportsFirstBadConfound(s: Matrix, cols: nat, confounds: ConfoundsArg, lowPass: Option<real>,
                                     highPass: Option<real>, tr: real, sqrt: real -> real, qr: Matrix -> Matrix,
                                     butterworth: (Matrix, real, Option<real>, Option<real>) -> Matrix, k: nat)
    requires IsMatrix(s, |s|, cols) && ValidConfounds(confounds) && !confounds.NoConfounds?
    requires QrKeepsRows(qr) && FilterKeepsShape(butterworth)
    requires !(confounds.Single? && confounds.item.OtherObject?)
    requires k < |Items(confounds)| && ReadConfound(Items(confounds)[k], |s|).Failure?
    requires forall k' :: 0 <= k' < k ==> ReadConfound(Items(confounds)[k'], |s|).Success?
    ensures Cleaned(s, cols, confounds, lowPass, highPass, tr, sqrt, qr, butterworth) ==
            Failure(ReadConfound(Items(confounds)[k], |s|).error)
  {
    FirstBadConfoundReported(Items(confounds), |s|, k);
  }

  /** Without confounds there is no normalisation before the filter. */
  lemma NoPrenormalisationWithoutConfounds(s: Matrix, cols: nat, lowPass: Option<real>, highPass: Option<real>,
                                           tr: real, sqrt: real -> real, qr: Matrix -> Matrix,
                                           butterworth: (Matrix, real, Option<real>, Option<real>) -> Matrix)
    requires IsMatrix(s, |s|, cols) && QrKeepsRows(qr) && FilterKeepsShape(butterworth)
    ensures lowPass.None? && highPass.None? ==>
              Prefinal(s, cols, NoConfounds, lowPass, highPass, tr, sqrt, qr, butterworth) == Success(s)
    ensures (lowPass.Some? || highPass.Some?) && tr != 0.0 ==>
              Prefinal(s, cols, NoConfounds, lowPass, highPass, tr, sqrt, qr, butterworth) ==
              Success(butterworth(s, 1.0 / tr, lowPass, highPass))
  {
    StandardizeWithoutNormalizeIsIdentity(s, cols, sqrt);
    assert RemoveConfounds(Standardized(s, cols, false, sqrt), cols, NoConfounds, sqrt, qr) == Success(s);
  }

  /** Column j of the rescaled matrix is column j of the standardized one times sqrt(n). */
  lemma RescaledColumn(f: Matrix, cols: nat, sqrt: real -> real, j: nat)
    requires IsMatrix(f, |f|, cols) && j < cols
    ensures Column(Rescaled(f, cols, sqrt), j) == Scale(Column(Standardized(f, cols, true, sqrt), j), sqrt(|f| as real))
  {
    var a, b := Column(Rescaled(f, cols, sqrt), j), Scale(Column(Standardized(f, cols, true, sqrt), j), sqrt(|f| as real));
    forall i | 0 <= i < |f| ensures a[i] == b[i] {
    }
  }

  /** The last step gives every column whose norm is at least eps the energy n. */
  lemma RescaledEnergy(f: Matrix, cols: nat, sqrt: real -> real, j: nat)
    requires IsMatrix(f, |f|, cols) && j < cols && IsSqrt(sqrt)
    requires sqrt(SumSq(Column(f, j))) >= Eps
    ensures SumSq(Column(Rescaled(f, cols, sqrt), j)) == |f| as real
  {
    var v := Column(Standardized(f, cols, true, sqrt), j);
    var k := sqrt(|f| as real);
    StandardizedUnitEnergy(f, cols, sqrt, j);
    RescaledColumn(f, cols, sqrt, j);
    SumSqScale(v, k);
    assert k * k == |f| as real;
  }

  /** The last step only rescales columns, so a column orthogonal to u stays orthogonal to u. */
  lemma RescaledKeepsOrthogonality(f: Matrix, cols: nat, sqrt: real -> real, u: Vector, j: nat)
    requires IsMatrix(f, |f|, cols) && j < cols && |u| == |f|
    requires Dot(u, Column(f, j)) == 0.0
    ensures Dot(u, Column(Rescaled(f, cols, sqrt), j)) == 0.0
  {
    var fj := Column(f, j);
    var d := ColumnScale(f, j, sqrt);
    var k := sqrt(|f| as real);
    var g := Scale(fj, 1.0 / d);
    RescaledColumn(f, cols, sqrt, j);
    StandardizedColumn(f, cols, sqrt, j);
    DivIsScale(fj, d);
    assert Column(Rescaled(f, cols, sqrt), j) == Scale(g, k);
    DotScaleRight(u, 1.0 / d, fj);
    assert Dot(u, g) == 0.0;
    DotScaleRight(u, k, g);
  }

  /** A column whose energy is the number of rows has a mean of squares of 1. */
  lemma UnitMeanSquare(m: Matrix, cols: nat, j: nat)
    requires |m| > 0 && IsMatrix(m, |m|, cols) && j < cols
    requires SumSq(Column(m, j)) == |m| as real
    ensures MeanSquares(m, cols)[j] == 1.0
  {
  }

  /**
   * After the last step every column that was not degenerate before it has
   * energy n, that is a mean of squares of 1 (unit variance once centred).
   */
  lemma RescaledUnitMeanSquare(f: Matrix, cols: nat, sqrt: real -> real, j: nat)
    requires IsMatrix(f, |f|, cols) && |f| > 0 && j < cols && IsSqrt(sqrt)
    requires sqrt(SumSq(Column(f, j))) >= Eps
    ensures SumSq(Column(Rescaled(f, cols, sqrt), j)) == |f| as real
    ensures MeanSquares(Rescaled(f, cols, sqrt), cols)[j] == 1.0
  {
    RescaledEnergy(f, cols, sqrt, j);
    UnitMeanSquare(Rescaled(f, cols, sqrt), cols, j);
  }

  /** Past the type check, a successful clean returns its stages' result put through the last step. */
  lemma CleanedRescalesPrefinal(s: Matrix, cols: nat, confounds: ConfoundsArg, lowPass: Option<real>,
                                highPass: Option<real>, tr: real, sqrt: real -> real, qr: Matrix -> Matrix,
                                butterworth: (Matrix, real, Option<real>, Option<real>) -> Matrix, f: Matrix)
    requires IsMatrix(s, |s|, cols) && ValidConfounds(confounds)
    requires QrKeepsRows(qr) && FilterKeepsShape(butterworth)
    requires !(confounds.Single? && confounds.item.OtherObject?)
    requires Prefinal(s, cols, confounds, lowPass, highPass, tr, sqrt, qr, butterworth) == Success(f)
    ensures Cleaned(s, cols, confounds, lowPass, highPass, tr, sqrt, qr, butterworth) == Success(Rescaled(f, cols, sqrt))
  {
  }

  /**
   * With confounds and without a filter, clean before its last step is the
   * normalised signals projected off the confound basis.
   */
  lemma PrefinalIsProjection(s: Matrix, cols: nat, confounds: ConfoundsArg, tr: real,
                             sqrt: real -> real, qr: Matrix -> Matrix,
                             butterworth: (Matrix, real, Option<real>, Option<real>) -> Matrix)
    requires IsMatrix(s, |s|, cols) && ValidConfounds(confounds) && !confounds.NoConfounds?
    requires QrKeepsRows(qr) && FilterKeepsShape(butterworth)
    requires ConfoundBasis(|s|, confounds, sqrt, qr).Success?
    ensures Prefinal(s, cols, confounds, None, None, tr, sqrt, qr, butterworth) ==
            Success(Projected(Standardized(s, cols, true, sqrt), cols, ConfoundBasis(|s|, confounds, sqrt, qr).value))
  {
    var q := ConfoundBasis(|s|, confounds, sqrt, qr).value;
    var normalized := Standardized(s, cols, true, sqrt);
    assert RemoveConfounds(normalized, cols, confounds, sqrt, qr) == Success(Projected(normalized, cols, q));
  }

  /**
   * Without a filter, the output of clean is orthogonal to every column of the
   * basis Q that qr returns for the normalised confound table.
   */
  lemma CleanedOrthogonalToConfounds(s: Matrix, cols: nat, confounds: ConfoundsArg, tr: real,
                                     sqrt: real -> real, qr: Matrix -> Matrix,
                                     butterworth: (Matrix, real, Option<real>, Option<real>) -> Matrix,
                                     l: nat, j: nat)
    requires IsMatrix(s, |s|, cols) && ValidConfounds(confounds) && j < cols
    requires !confounds.NoConfounds? && !(confounds.Single? && confounds.item.OtherObject?)
    requires QrKeepsRows(qr) && QrOrthonormal(qr) && FilterKeepsShape(butterworth)
    requires ConfoundBasis(|s|, confounds, sqrt, qr).Success?
    requires l < Width(ConfoundBasis(|s|, confounds, sqrt, qr).value)
    ensures var r := Cleaned(s, cols, confounds, None, None, tr, sqrt, qr, butterworth);
            r.Success? &&
            Dot(Column(ConfoundBasis(|s|, confounds, sqrt, qr).value, l), Column(r.value, j)) == 0.0
  {
    var q := ConfoundBasis(|s|, confounds, sqrt, qr).value;
    var normalized := Standardized(s, cols, true, sqrt);
    var p := Projected(normalized, cols, q);
    PrefinalIsProjection(s, cols, confounds, tr, sqrt, qr, butterworth);
    CleanedRescalesPrefinal(s, cols, confounds, None, None, tr, sqrt, qr, butterworth, p);
    ConfoundBasisOrthonormal(|s|, confounds, sqrt, qr);
    RescaledProjectionOrthogonal(normalized, cols, q, sqrt, l, j);
  }

  /** When qr returns orthonormal columns, so does the confound basis. */
  lemma ConfoundBasisOrthonormal(n: nat, confounds: ConfoundsArg, sqrt: real -> real, qr: Matrix -> Matrix)
    requires !confounds.NoConfounds? && ValidConfounds(confounds) && QrKeepsRows(qr) && QrOrthonormal(qr)
    requires ConfoundBasis(n, confounds, sqrt, qr).Success?
    ensures Orthonormal(ConfoundBasis(n, confounds, sqrt, qr).value)
  {
  }

  /** Projecting off an orthonormal q and then rescaling leaves every column orthogonal to q. */
  lemma RescaledProjectionOrthogonal(s: Matrix, cols: nat, q: Matrix, sqrt: real -> real, l: nat, j: nat)
    requires IsMatrix(s, |s|, cols) && |q| == |s| && Orthonormal(q) && l < Width(q) && j < cols
    ensures Dot(Column(q, l), Column(Rescaled(Projected(s, cols, q), cols, sqrt), j)) == 0.0
  {
    var p := Projected(s, cols, q);
    ProjectedOrthogonal(s, cols, q, l, j);
    RescaledKeepsOrthogonality(p, cols, sqrt, Column(q, l), j);
  }

  /** The confound loop as the code runs it: append each confound read, stop at the first bad one. */
  method ReadAllConfounds(items: seq<Confound>, n: nat) returns (r: Result<seq<Block>, CleanError>)
    requires forall k :: 0 <= k < |items| ==> ValidConfound(items[k])
    ensures r == ReadConfounds(items, n)
  {
    var all: seq<Block> := [];
    for k := 0 to |items|
      invariant ReadConfounds(items[..k], n) == Success(all)
    {
      assert items[..k + 1][..k] == items[..k];
      var block := ReadConfound(items[k], n);
      if block.Failure? {
        FirstBadConfoundReported(items, n, k);
        return Failure(block.error);
      }
      all := all + [block.value];
    }
    assert items[..|items|] == items;
    return Success(all);
  }

  /**
   * The confound stage as the code runs it: read and stack the confounds,
   * normalise them, take Q, and subtract Q (Q^T s) from s in place.
   * Returns the error raised, if any.
   */
  method RemoveConfoundsInPlace(s: array2<real>, confounds: ConfoundsArg, sqrt: real -> real, qr: Matrix -> Matrix)
    returns (error: Option<CleanError>)
    requires !confounds.NoConfounds? && ValidConfounds(confounds) && QrKeepsRows(qr)
    modifies s
    ensures var spec := RemoveConfounds(old(Contents(s)), s.Length1, confounds, sqrt, qr);
            (error.None? <==> spec.Success?) &&
            (error.Some? ==> error.value == spec.error) &&
            (error.None? ==> Contents(s) == spec.value)
  {
    ghost var old_s := Contents(s);
    var basis := ConfoundBasisStage(s.Length0, confounds, sqrt, qr);
    if basis.Failure? {
      return Some(basis.error);
    }
    var q := basis.value;
    var w := Width(q);
    SubtractInPlace(s, MatMul(q, MatMul(Transpose(q, w), Contents(s), s.Length0, s.Length1), w, s.Length1));
    assert Contents(s) == Projected(old_s, s.Length1, q);
    return None;
  }

  /**
   * The confound basis as the code builds it: read every confound, stack
   * them, normalise the table and take Q of its QR decomposition.
   */
  method ConfoundBasisStage(n: nat, confounds: ConfoundsArg, sqrt: real -> real, qr: Matrix -> Matrix)
    returns (r: Result<Matrix, CleanError>)
    requires !confounds.NoConfounds? && ValidConfounds(confounds) && QrKeepsRows(qr)
    ensures r == ConfoundBasis(n, confounds, sqrt, qr)
  {
    var blocks := ReadAllConfounds(Items(confounds), n);
    if blocks.Failure? {
      return Failure(blocks.error);
    }
    var all := blocks.value;
    if |all| == 0 {
      return Failure(NothingToConcatenate);
    }
    var stacked := HStack(all, n);
    var table := FromMatrix(stacked.rows, n, stacked.width);
    var normalizedTable := Standardize(table, true, sqrt);
    return Success(qr(Contents(normalizedTable)));
  }

  /**
   * The filter stage as the code runs it: unchanged without a cutoff, an error
   * for t_r == 0, else a fresh array holding butterworth's output.
   */
  method FilterStage(s: array2<real>, lowPass: Option<real>, highPass: Option<real>, tr: real,
                     butterworth: (Matrix, real, Option<real>, Option<real>) -> Matrix)
    returns (r: Result<array2<real>, CleanError>)
    requires FilterKeepsShape(butterworth)
    ensures Outcome(r) == Filter(Contents(s), s.Length1, lowPass, highPass, tr, butterworth)
    ensures r.Success? ==> (r.value == s || fresh(r.value)) && r.value.Length0 == s.Length0 && r.value.Length1 == s.Length1
  {
    if lowPass.None? && highPass.None? {
      return Success(s);
    }
    if tr == 0.0 {
      return Failure(ZeroRepetitionTime);
    }
    var filtered := butterworth(Contents(s), 1.0 / tr, lowPass, highPass);
    var f := FromMatrix(filtered, s.Length0, s.Length1);
    return Success(f);
  }

  /** The value a stage's result stands for: the rows of its array, or the same error. */
  function Outcome(r: Result<array2<real>, CleanError>): (v: Result<Matrix, CleanError>)
    reads if r.Success? then {r.value} else {}
    ensures v.Success? <==> r.Success?
    ensures v.Failure? ==> v.error == r.error
  {
    if r.Success? then Success(Contents(r.value)) else Failure(r.error)
  }

  /**
   * Normalisation (only when confounds are given) and confound removal, as the
   * code runs them, on a copy of the signals.
   */
  method NormalizeAndRemoveConfounds(signals: array2<real>, confounds: ConfoundsArg, sqrt: real -> real,
                                     qr: Matrix -> Matrix)
    returns (r: Result<array2<real>, CleanError>)
    requires ValidConfounds(confounds) && QrKeepsRows(qr)
    ensures Outcome(r) == RemoveConfounds(Standardized(Contents(signals), signals.Length1, !confounds.NoConfounds?, sqrt),
                                        signals.Length1, confounds, sqrt, qr)
    ensures r.Success? ==> fresh(r.value) && r.value.Length0 == signals.Length0 && r.value.Length1 == signals.Length1
  {
    ghost var m, cols := Contents(signals), signals.Length1;
    var s := Standardize(signals, !confounds.NoConfounds?, sqrt);
    ghost var normalized := Contents(s);
    assert normalized == Standardized(m, cols, !confounds.NoConfounds?, sqrt);
    if !confounds.NoConfounds? {
      var error := RemoveConfoundsInPlace(s, confounds, sqrt, qr);
      if error.Some? {
        return Failure(error.value);
      }
    }
    return Success(s);
  }

  /**
   * clean after its type check and before its last normalisation, as the code
   * runs it, on a copy of the signals.
   */
  method PrefinalStage(signals: array2<real>, confounds: ConfoundsArg, lowPass: Option<real>,
                       highPass: Option<real>, tr: real, sqrt: real -> real, qr: Matrix -> Matrix,
                       butterworth: (Matrix, real, Option<real>, Option<real>) -> Matrix)
    returns (r: Result<array2<real>, CleanError>)
    requires ValidConfounds(confounds) && QrKeepsRows(qr) && FilterKeepsShape(butterworth)
    ensures Outcome(r) == Prefinal(Contents(signals), signals.Length1, confounds, lowPass, highPass, tr, sqrt, qr, butterworth)
    ensures r.Success? ==> fresh(r.value) && r.value.Length0 == signals.Length0 && r.value.Length1 == signals.Length1
  {
    ghost var m, cols := Contents(signals), signals.Length1;
    ghost var removed := RemoveConfounds(Standardized(m, cols, !confounds.NoConfounds?, sqrt), cols, confounds, sqrt, qr);
    var projected := NormalizeAndRemoveConfounds(signals, confounds, sqrt, qr);
    if projected.Failure? {
      return Failure(projected.error);
    }
    ghost var spec := Filter(removed.value, cols, lowPass, highPass, tr, butterworth);
    assert Prefinal(m, cols, confounds, lowPass, highPass, tr, sqrt, qr, butterworth) == spec;
    r := FilterStage(projected.value, lowPass, highPass, tr, butterworth);
    assert Contents(signals) == m;
  }

  /**
   * clean as the code runs it. The caller's array is never written: every
   * update happens on copies (no modifies clause).
   */
  method Clean(signals: array2<real>, confounds: ConfoundsArg, lowPass: Option<real>, highPass: Option<real>,
               tr: real, sqrt: real -> real, qr: Matrix -> Matrix,
               butterworth: (Matrix, real, Option<real>, Option<real>) -> Matrix)
    returns (r: Result<array2<real>, CleanError>)
    requires ValidConfounds(confounds) && QrKeepsRows(qr) && FilterKeepsShape(butterworth)
    ensures Outcome(r) == Cleaned(Contents(signals), signals.Length1, confounds, lowPass, highPass, tr, sqrt, qr, butterworth)
    ensures r.Success? ==> fresh(r.value) && r.value.Length0 == signals.Length0 && r.value.Length1 == signals.Length1
  {
    if confounds.Single? && confounds.item.OtherObject? {
      return Failure(ConfoundsTypeError(confounds.item.typeName));
    }
    ghost var m, cols := Contents(signals), signals.Length1;
    ghost var f := Prefinal(m, cols, confounds, lowPass, highPass, tr, sqrt, qr, butterworth);
    assert Cleaned(m, cols, confounds, lowPass, highPass, tr, sqrt, qr, butterworth) == RescaledResult(f, cols, sqrt);
    var p := PrefinalStage(signals, confounds, lowPass, highPass, tr, sqrt, qr, butterworth);
    assert Outcome(p) == f;
    r := RescaleStage(p, signals.Length1, sqrt);
    assert Contents(signals) == m;
  }

  /** The last normalisation of clean and its rescaling by sqrt(n), on a copy; an error passes through. */
  method RescaleStage(p: Result<array2<real>, CleanError>, cols: nat, sqrt: real -> real)
    returns (r: Result<array2<real>, CleanError>)
    requires p.Success? ==> p.value.Length1 == cols
    ensures Outcome(r) == RescaledResult(old(Outcome(p)), cols, sqrt)
    ensures r.Success? ==> fresh(r.value) && r.value.Length1 == cols
  {
    if p.Failure? {
      return Failure(p.error);
    }
    var s := Standardize(p.value, true, sqrt);
    ScaleInPlace(s, sqrt(s.Length0 as real));
    return Success(s);
  }
}
