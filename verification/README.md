# Masking and signal cleaning for fMRI time series, in Dafny

This project models the numerical core of a small fMRI decoding pipeline.

- **Masking** (`masking.py`):
  - `apply_mask` checks the mask against a 4-D image (affine first, then spatial shape), then gathers the in-mask voxels in row-major order into a (time × voxel) matrix.
  - `unmask` scatters such data back into a zero-filled (voxel × sample) array.
- **Preprocessing** (`preprocess.py`):
  - `_standardize` divides each column by its ε-guarded norm, on a copy.
  - `_mean_of_squares` computes the per-column mean of squares batch by batch.
  - `_detrend` removes each column's mean and, in linear mode, its component along the centred, unit-norm time ramp, batch by batch.
  - `clean` runs these steps in order:
    1. validates the `confounds` argument;
    2. normalises the signals, but only when confounds are given;
    3. reads and validates every confound;
    4. stacks them, normalises the stack, and takes Q of its QR factorisation;
    5. subtracts the projection of the signals onto Q;
    6. optionally applies the Butterworth filter;
    7. normalises again and rescales by sqrt(n).

Numbers are exact `real`s and arrays are Dafny arrays (`array2<real>`). Where the Python code updates an array in place (`/=`, `-=`, `**=`, `*=`, slice assignment), the model has a method with a loop. Each such method is proved against a specification function on matrix values (`Contents(a)`). Each error the code raises is a `Failure` of a `Result`.

Several collaborators are not defined in the source. The square root, `qr_economic` and `butterworth` are therefore function parameters:
- `IsSqrt(sqrt)` states `sqrt(x) >= 0` and `sqrt(x) * sqrt(x) == x` for `x >= 0`;
- `QrKeepsRows` and `QrOrthonormal` state that Q has as many rows as its argument and orthonormal columns;
- `FilterKeepsShape` states that the filter returns an array of the shape it was given.

The modules are:
- `Wrappers`: `Option` and `Result`.
- `LinAlg`: vectors, matrices, sums, dot products, and the lemmas about them.
- `NdArrays`: two-dimensional arrays, their value as a matrix, and in-place helpers.
- `Masking`.
- `Preprocess`.
- `Cleaning`.

Together the contracts and lemmas cover:
- the error conditions of both files and the order in which they are checked;
- the gather/scatter round trip;
- copy-not-mutate semantics;
- batching gives the whole-matrix result for every partition of the columns;
- zero column sums after detrending, and orthogonality to the time ramp;
- unit energy after standardisation;
- every cleaned column is orthogonal to every column of the basis Q that `qr_economic` returns for the normalised confounds;
- unit mean of squares after `clean`.

## Code versus documentation

The model follows the code in each of these places:
- `_standardize` never subtracts the column mean (`preprocess.py:29-35`), although its docstring (`preprocess.py:21-22`) says it centres. `Preprocess.StandardizedDoesNotCentre` states the column sum that results.
- `clean` never calls `_detrend` (`preprocess.py:172-178`), although the comment says "Standardize / detrend" and the documented pipeline begins with a detrend step. The confound table is also normalised without centring.
- Because nothing is centred, the last step of `clean` gives each column a mean of squares of 1 (`Cleaning.RescaledUnitMeanSquare`). That is a variance of 1 only for a column that already has zero mean.
- `unmask` with a 1-D `X` does not produce a 3-D volume. The trailing axis has length `X.shape[0]`, and the whole vector is broadcast into every in-mask voxel. The model does the same (`Masking.Unmasked`, `Features.Flat`).
- `ensure_finite` and `dtype` of `apply_mask` are never used (`masking.py:13-14` against `masking.py:61-65`). The model has neither parameter, and the gathered values are the image's values unchanged.

## Model

| member | source | states |
|---|---|---|
| Masking.AllClose | masking.py:49 | np.allclose with its default tolerances: it holds only for sequences of equal length, and an affine is always close to itself. |
| Masking.InMask | masking.py:41 | mask.get_data().astype(bool): one flag per voxel, true exactly where the mask value is nonzero. |
| Masking.Select | masking.py:65 | series[mask]: one series per selected voxel, in the given order, each the image's own series for that voxel. |
| Masking.ApplyMask | masking.py:49-65 | The affine error is raised exactly when the affines are not close, so it is checked first. The shape error is raised exactly when the affines are close and the shapes differ. On success the result is (n_timepoints × number of in-mask voxels), and entry [t][k] is the image value at the k-th in-mask voxel at time t. |
| Masking.TrueIndices | masking.py:65 | The in-mask voxel indices are in strictly increasing row-major order. They are all in range and all in the mask, they include every in-mask voxel, and there are as many as there are true mask entries. |
| Masking.IndexOfTrue | masking.py:65 | An in-mask voxel v is the k-th selected voxel, where k is the number of in-mask voxels before v. |
| Masking.RankOfTrueIndex | masking.py:65 | The converse: exactly k in-mask voxels precede the k-th selected voxel. |
| Masking.SelectedVoxelsAreNonzero | masking.py:41 | Any nonzero mask value counts as in-mask (the bool cast). The selected voxels are exactly those with a nonzero value. |
| Masking.Broadcastable | masking.py:85 | X.T broadcasts onto data[mask, :]: always for a 1-D X, for a 2-D X whose width is the number of in-mask voxels, and never for any other width except 1. |
| Masking.InMaskSeries | masking.py:85 | The series written at the k-th in-mask voxel has length X.shape[0]. It is X itself for a 1-D X, column 0 for a width-1 X, and column k otherwise. |
| Masking.Unmasked | masking.py:82-85 | Succeeds exactly when X.T broadcasts onto the in-mask selection. On success the shape is (voxels × X.shape[0]). Every out-of-mask voxel is zero along the whole trailing axis, a 1-D X is copied whole into every in-mask voxel, and a 2-D X of width 1 puts its one column into every in-mask voxel. |
| Masking.UnmaskedKthVoxel | masking.py:85 | For a 2-D X of shape (n, n_true), the k-th in-mask voxel receives column k of X. |
| Masking.ApplyMaskAfterUnmask | masking.py:65-85 | Round trip: gathering the in-mask voxels of unmask(X) with the same mask gives back exactly X, for a 2-D X of shape (n, n_true). |
| Masking.UnmaskAfterApplyMask | masking.py:65-85 | The other round trip: unmasking what apply_mask gathered restores every in-mask voxel's series and zeroes every other voxel. |
| Masking.Unmask | masking.py:84-85 | The allocate-and-fill loop fails exactly when the specification fails, with the same error. On success it returns a fresh array whose contents are the specification's matrix. |
| Masking.WriteSeries | masking.py:85 | Writes the k-th in-mask series into row v of the array in place, and changes nothing else. |
| Preprocess.Standardized | preprocess.py:29-35 | _standardize on values, which keeps the shape. Its content is stated by StandardizedColumn, StandardizedUnitEnergy and StandardizedKeepsDegenerateColumn. |
| Preprocess.ColumnScale | preprocess.py:32-33 | The divisor for a column is its norm, or 1 when the norm is below eps, so it is always at least eps. |
| Preprocess.StandardizedColumn | preprocess.py:31-34 | With normalize true, column j of the result is column j divided by its guarded norm. |
| Preprocess.StandardizeWithoutNormalizeIsIdentity | preprocess.py:29-35 | With normalize false the result equals the input. |
| Preprocess.StandardizedUnitEnergy | preprocess.py:32-34 | A column whose norm is at least eps has sum of squares 1 afterwards. |
| Preprocess.StandardizedKeepsDegenerateColumn | preprocess.py:33-34 | A column whose norm is below eps is divided by 1 and is unchanged. |
| Preprocess.StandardizedDoesNotCentre | preprocess.py:29-35 | A column's sum becomes its old sum divided by the divisor. No mean is subtracted. |
| Preprocess.StandardizeIdempotent | preprocess.py:12-35 | Standardising a standardised matrix changes nothing. |
| Preprocess.ColumnNorms | preprocess.py:32 | norms[j] is the square root of column j's sum of squares. |
| Preprocess.ReplaceSmallNorms | preprocess.py:33 | Entries below eps become 1, and the others are unchanged. |
| Preprocess.DivideColumns | preprocess.py:34 | Every entry is divided, in place, by its column's divisor. |
| Preprocess.Standardize | preprocess.py:29-35 | Returns a fresh array of the input's shape holding the standardised matrix. The caller's array is not written (no modifies clause). |
| Preprocess.MeanSquares | preprocess.py:38-62 | One mean of squares per column. The method MeanOfSquares is proved equal to it for every batching. |
| Preprocess.SumOfSquared | preprocess.py:58-60 | The sum of the squared entries is the sum of squares. |
| Preprocess.MeanOfSquaredCopy | preprocess.py:40-44 | Squaring a copy and taking column means gives the mean of squares of every column. |
| Preprocess.BatchMeanOfSquares | preprocess.py:58-60 | Column k of a squared batch copy has, as its mean, the whole-matrix mean of squares of column lo + k. |
| Preprocess.SquareInPlace | preprocess.py:59 | tvar **= 2 squares every entry in place. |
| Preprocess.ColumnMeans | preprocess.py:60 | Returns the mean of every column. |
| Preprocess.MeanOfSquaresBatch | preprocess.py:57-60 | After one batch, the entries inside the batch hold the whole-matrix mean of squares, and the others are unchanged. |
| Preprocess.MeanOfSquares | preprocess.py:38-62 | For every partition of the columns into consecutive batches, the result is (1/n)·Σᵢ signals[i,j]² for each j, the same as one whole-matrix pass. |
| Preprocess.Centred | preprocess.py:94 | signals - mean: keeps the shape, for any row count including zero. CentredColumn gives the column content. |
| Preprocess.Ramp | preprocess.py:98 | np.arange(n) has n entries. |
| Preprocess.CentredRamp | preprocess.py:99 | The ramp minus its mean has n entries. |
| Preprocess.Regressor | preprocess.py:98-100 | The centred ramp over its norm has n entries. RegressorUnitCentred proves it has zero sum and unit energy. |
| Preprocess.RemoveComponent | preprocess.py:105-106 | Removing the component along r keeps the shape. RemoveComponentColumn gives the column content, and RemoveComponentByBatches proves the batch loop equal to it. |
| Preprocess.Detrended | preprocess.py:65-107 | _detrend on values, which keeps the shape. It is defined for zero rows in constant mode. Its properties are stated by DetrendedColumnsSumToZero, DetrendedOrthogonalToRamp and DetrendIdempotent. |
| Preprocess.CentredRampEnergyPositive | preprocess.py:98-100 | With at least two rows the centred ramp has positive energy, so dividing by its norm is defined. |
| Preprocess.RegressorUnitCentred | preprocess.py:98-100 | The regressor has zero sum and unit energy. |
| Preprocess.CentredColumn | preprocess.py:94 | Each column loses its own mean. |
| Preprocess.RemoveComponentColumn | preprocess.py:105-106 | Each column loses its component along the regressor (their dot product) times the regressor. |
| Preprocess.ConstantDetrendOnlyCentres | preprocess.py:91-95 | In "constant" mode the only change to a column is the subtraction of its mean. |
| Preprocess.DetrendedColumnsSumToZero | preprocess.py:94-106 | Every detrended column sums to zero, in both modes. |
| Preprocess.DetrendedOrthogonalToRegressor | preprocess.py:95-106 | In linear mode every detrended column is orthogonal to the unit regressor. |
| Preprocess.DetrendedOrthogonalToRamp | preprocess.py:95-106 | In linear mode every detrended column is orthogonal to the centred time ramp. |
| Preprocess.DetrendIdempotent | preprocess.py:65-107 | Detrending a detrended matrix changes nothing. |
| Preprocess.CentreColumns | preprocess.py:94 | signals -= mean, in place: the contents become the centred matrix. |
| Preprocess.TimeRegressor | preprocess.py:98-100 | Builds, in place, the ramp minus its mean divided by its norm. |
| Preprocess.BatchComponents | preprocess.py:105 | dots[k] is the dot product of the regressor with column lo + k of the batch. |
| Preprocess.SubtractComponents | preprocess.py:105-106 | Column lo + k loses dots[k] times the regressor, in place. Columns outside the batch are unchanged. |
| Preprocess.RemoveComponentBatch | preprocess.py:105-106 | One batch loses its component along the regressor, and nothing else changes. |
| Preprocess.RemoveComponentByBatches | preprocess.py:104-106 | For every partition of the columns, the batch loop gives the whole-matrix removal of the regressor component. |
| Preprocess.Detrend | preprocess.py:65-107 | The shape is kept. With inplace, the caller's array is updated and returned. Otherwise a fresh array is returned and the input is unchanged. The contents are the detrended input in either case. |
| NdArrays.FromMatrix | preprocess.py:29 | A fresh array of the given shape holding exactly the given rows. |
| NdArrays.Copy | preprocess.py:29 | signals.copy(): a fresh array of the same shape and contents. |
| NdArrays.CopyColumns | preprocess.py:58 | np.copy(signals[:, batch]): a fresh array holding exactly those columns. |
| NdArrays.ColumnSumSq | preprocess.py:32 | Returns the sum of squares of one column. |
| NdArrays.ColumnMean | preprocess.py:94 | Returns the mean of one column. |
| NdArrays.ColumnDot | preprocess.py:105 | Returns the dot product of a vector with one column. |
| NdArrays.VectorMean | preprocess.py:99 | Returns the mean of a vector. |
| NdArrays.VectorSumSq | preprocess.py:100 | Returns the sum of squares of a vector. |
| NdArrays.ShiftInPlace | preprocess.py:99 | regressor -= mean, in place. |
| NdArrays.DivideInPlace | preprocess.py:100 | regressor /= norm, in place. |
| NdArrays.StoreAt | preprocess.py:60 | var[batch] = values: the slice receives the values, and the rest is unchanged. |
| NdArrays.SubtractFromColumns | preprocess.py:94 | Subtracts d[j] from every entry of column j, in place. |
| NdArrays.SubtractInPlace | preprocess.py:215 | signals -= M, in place. |
| NdArrays.ScaleInPlace | preprocess.py:223 | signals *= k, in place. |
| Cleaning.Items | preprocess.py:182-183 | A single confound is wrapped into a one-element tuple, and a list is kept as it is. Every item of a valid argument is a valid confound. |
| Cleaning.AsColumn | preprocess.py:197-198 | np.atleast_2d(v).T is an n × 1 matrix. |
| Cleaning.OneDimensionalConfoundIsColumn | preprocess.py:197-198 | A 1-D ndarray confound becomes one column, holding its values. |
| Cleaning.ReadConfound | preprocess.py:188-207 | A confound is read exactly when it is a CSV table, a 1-D array or a 2-D array with as many rows as the signals. Any other outcome is one of the confound errors. |
| Cleaning.ReadConfoundErrors | preprocess.py:193-207 | Arrays of another dimension raise the dimension error. Other objects raise the type error. Tables and arrays can fail only with the length error. |
| Cleaning.ReadConfounds | preprocess.py:186-208 | Succeeds exactly when every confound is read, returning their blocks in order. Otherwise the error is a confound error. |
| Cleaning.FirstBadConfoundReported | preprocess.py:186-208 | The error raised is the first bad confound's. |
| Cleaning.ReadAllConfounds | preprocess.py:186-208 | The append loop returns exactly what ReadConfounds specifies. |
| Cleaning.HStack | preprocess.py:211 | np.hstack gives n rows and the total width of the blocks. |
| Cleaning.HStackColumn | preprocess.py:211 | Column l of block k is the stack's column at offset (width of blocks before k) + l. No confound column is lost or moved out of order. |
| Cleaning.Projected | preprocess.py:215 | signals - Q (Qᵀ signals) keeps the signals' shape. |
| Cleaning.ProjectedColumn | preprocess.py:215 | Each column loses Q times its coefficients along Q's columns. |
| Cleaning.ProjectedOrthogonal | preprocess.py:215 | When Q's columns are orthonormal, every projected column is orthogonal to every column of Q. |
| Cleaning.ConfoundBasis | preprocess.py:181-214 | Q exists exactly when every confound is read and there is at least one. Q has as many rows as the signals. The errors are never the argument type error or the t_r error. |
| Cleaning.ConfoundBasisStage | preprocess.py:186-214 | Reading, stacking, normalising and factorising as the code does gives exactly ConfoundBasis. |
| Cleaning.RemoveConfounds | preprocess.py:180-215 | Without confounds the signals pass through unchanged. With confounds it succeeds exactly when ConfoundBasis does. It keeps the shape, and its errors are never the argument type error or the t_r error. The projected content is stated by PrefinalIsProjection and ProjectedColumn. |
| Cleaning.RemoveConfoundsInPlace | preprocess.py:180-215 | On success the in-place projection leaves the array holding the projected signals. Otherwise it reports the same error as RemoveConfounds. |
| Cleaning.Filter | preprocess.py:217-219 | Fails exactly when t_r is 0 and a cutoff is given, with the zero-division error. Otherwise the shape is kept. |
| Cleaning.FilterStage | preprocess.py:217-219 | Gives the same outcome as Filter. The array is returned unchanged without a cutoff, and a fresh one holding the filter's output otherwise. |
| Cleaning.Prefinal | preprocess.py:172-219 | The steps before the last normalisation keep the shape and never raise the argument type error. Their t_r error implies t_r == 0 with a cutoff. |
| Cleaning.Rescaled | preprocess.py:222-223 | The last normalisation and the sqrt(n) rescaling keep the shape. |
| Cleaning.RescaledResult | preprocess.py:222-223 | The last step succeeds exactly when its input does, passes the error on unchanged, and keeps the shape. |
| Cleaning.Cleaned | preprocess.py:111-225 | On success, clean returns a matrix of the signals' shape. |
| Cleaning.CleanTypeError | preprocess.py:167-170 | The argument type error is raised exactly when confounds is a single object of an unhandled type. |
| Cleaning.CleanEmptyConfoundList | preprocess.py:211 | An empty list of confounds makes np.hstack fail. |
| Cleaning.CleanZeroRepetitionTime | preprocess.py:217-219 | The t_r error occurs only when t_r == 0 and a cutoff is given. It is the error reported whenever those hold and the confounds were removed without error. |
| Cleaning.CleanWithoutConfoundsOrCutoffs | preprocess.py:111-225 | Without confounds and cutoffs, clean cannot fail. |
| Cleaning.CleanReportsFirstBadConfound | preprocess.py:186-208 | clean reports the first bad confound's error. |
| Cleaning.NoPrenormalisationWithoutConfounds | preprocess.py:173-178 | Without confounds the signals reach the filter unnormalised. They pass through unchanged without a cutoff, and go to butterworth as they are otherwise. |
| Cleaning.RescaledColumn | preprocess.py:222-223 | A column of the output is the standardised column times sqrt(n). |
| Cleaning.RescaledEnergy | preprocess.py:222-223 | A column whose norm is at least eps before the last step has sum of squares n after it. |
| Cleaning.RescaledUnitMeanSquare | preprocess.py:222-223 | Such a column has sum of squares n and a mean of squares of 1. |
| Cleaning.RescaledKeepsOrthogonality | preprocess.py:222-223 | The last step only rescales columns, so orthogonality to any vector is kept. |
| Cleaning.CleanedRescalesPrefinal | preprocess.py:222-225 | Past the type check, clean's output is the last step applied to the earlier steps' result. |
| Cleaning.PrefinalIsProjection | preprocess.py:178-215 | With confounds and no cutoff, the signals before the last step are the normalised signals projected off Q. |
| Cleaning.ConfoundBasisOrthonormal | preprocess.py:213 | When qr returns orthonormal columns, so does the confound basis Q. |
| Cleaning.RescaledProjectionOrthogonal | preprocess.py:215-223 | Projecting off an orthonormal Q and then applying the last normalisation and rescaling leaves every column orthogonal to every column of Q. |
| Cleaning.CleanedOrthogonalToConfounds | preprocess.py:210-223 | With confounds, no cutoff and an orthonormal Q, every output column is orthogonal to every column of Q. Q is a parameter here, assumed only to keep the row count and have orthonormal columns. Nothing ties Q's span to the confound table, so orthogonality to the confounds themselves is not claimed. |
| Cleaning.NormalizeAndRemoveConfounds | preprocess.py:172-215 | The normalise-then-project stage, run on a copy, has the outcome RemoveConfounds specifies. |
| Cleaning.PrefinalStage | preprocess.py:172-219 | The stages before the last normalisation have the outcome Prefinal specifies. The result is a fresh array of the signals' shape. |
| Cleaning.RescaleStage | preprocess.py:222-223 | The last step, on a fresh array, has the outcome RescaledResult specifies. |
| Cleaning.Clean | preprocess.py:111-225 | clean as the code runs it has exactly the outcome Cleaned specifies: the same error, or a fresh array of the signals' shape with the specified contents. The caller's array is never written (no modifies clause). |

## Left out

- File and library I/O:
  - loading images and masks from paths (`nibabel.load`, `get_data`, `get_affine`);
  - the `del` memory release;
  - reading confound CSV files with `np.genfromtxt`, including the retry that skips a NaN header line.
  A CSV confound is given as the table the parser returned.
- IEEE floating point. Arithmetic is exact over the reals, so rounding, NaN and infinity are not modelled, nor is the float32 default dtype. The `np.allclose` test is stated exactly, with its default tolerances, over reals.
- Lists of images given to `apply_mask`. Its docstring announces them, but `niimgs.get_affine()` at `masking.py:47` fails on a list with an AttributeError. Only a single 4-D image is modelled.
- Cleaning.ReadConfound: a CSV confound is modelled as the 2-D table its file holds, and two cases differ from the program.
  - A single-column file: `np.genfromtxt` returns a 1-D array, which `clean` never promotes (`preprocess.py:189-194`). If another confound block is 2-D, `np.hstack` raises ValueError (`preprocess.py:211`). If every block is 1-D, the stack is 1-D, and `_standardize` raises TypeError on the scalar `std` (`preprocess.py:33`). So the program always fails on a single-column file, while the model reads it as a one-column table and succeeds.
  - A single-row file: `genfromtxt` returns shape (k,), so `preprocess.py:193` compares the column count k with the signal length. That case is not modelled.
- `sklearn.utils.gen_even_slices` internals. Every partition of the columns into consecutive batches is allowed, which covers the slices it produces.
- `qr_economic`, `butterworth` and the square root. They are not defined in the source and are parameters here, constrained only by `QrKeepsRows`, `QrOrthonormal`, `FilterKeepsShape` and `IsSqrt`.
- `decode.py` and `datasets.py` are not part of this model. They are a model-fitting and plotting driver and a dataset downloader.
- Preprocess.MeanOfSquares: requires at least one row. numpy returns NaN means for an empty matrix, which exact reals cannot express.
- Preprocess.Detrend: in linear mode, requires at least two rows. With one row the ramp has zero norm and numpy fills the column with NaN (0 divided by 0). With zero rows numpy returns the empty array, but the model's regressor needs a nonzero norm. Constant mode accepts any number of rows, including zero.
- Cleaning.CleanedOrthogonalToConfounds: stated without a cutoff only, because the filter is an unconstrained parameter whose output need not stay orthogonal to Q.
- Cleaning.RescaledUnitMeanSquare: stated only for columns whose norm before the last step is at least eps. Smaller columns are divided by 1 and keep their energy.
- Masking.Unmasked: the `order` argument of `unmask` is not modelled. Memory layout does not change the values.
