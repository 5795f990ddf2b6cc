# Thruster surface fits: a Dafny model

The fitting script of `motor_fits` takes thrust-stand measurements of a motor
(pulse width, RPM, current, voltage, power, force and efficiency) recorded at
several supply voltages. It fits cubic polynomial surfaces in two variables to
them. The surfaces are force from (command, voltage), command from (force,
voltage) and current from (command, voltage). Each is fitted separately for
the forward-force and the backward-force regime. This project models the
exact, non-numeric core of that script over Dafny `real`:

- `Basis`: `make_matrix`. It stacks ten monomial columns and transposes them
  into an N×10 design matrix.
- `Surface`: the product `design @ coefficients`, and the polynomial it
  computes.
- `Measurements`: table rows with their data-frame index label. It also has
  the derived `Output` column `(PWM − 1500) / 400` and the per-file labels
  that survive `pd.concat`.
- `Selection`: boolean-mask selection. Both `DataFrame.drop` and numpy's
  `s[mask]` come down to it.
- `Regime`: the forward/backward split `table.drop(table[cond].index)`,
  modelled as label-based removal.
- `Fitting`: `fit_table` and the three regime fits. The least-squares solver
  is a parameter.
- `Validity`: the `z <= 1.0` mask that `plot2` applies to the evaluated
  inverse surface.

The model follows what the script does, including where that departs from
a plain sign split or from a fit that reports missing data:

- A zero-force row is in neither regime, because forward drops `Force <= 0`
  and backward drops `Force >= 0`. It is not assigned to the backward regime.
- A regime is the set of rows with force of that sign only when index labels
  are unique. The code drops by label, and the concatenated table repeats
  labels (see Findings).
- There is no "insufficient data" error. Any subset, even an empty one, is
  passed to the solver.
- The validity ceiling is the constant 1.0, not a caller-supplied bound.

## Model

| member | source | states |
|---|---|---|
| `Basis.MakeMatrix` | process.py:31-45 | Two equal-length inputs give one row per sample, ten entries wide. Row `i` is `[1, a_i, b_i, a_i², a_i·b_i, b_i², a_i³, a_i²·b_i, a_i·b_i², b_i³]` in that column order. The rows are derived from the column-wise stack and transpose. |
| `Basis.MonomialsMatchExponents` | process.py:34-43 | Column `k` of a row is `x^i · y^j` for the `k`-th exponent pair `(i, j)` of the basis. |
| `Basis.ExponentsAreCubicBasis` | process.py:34-43 | The ten columns are the complete cubic basis: every pair `(i, j)` with `i + j ≤ 3` occurs exactly once and no other pair occurs. Columns are ordered by total degree, then by decreasing power of the first input. |
| `Surface.DotMonomials` | process.py:52 | The inner product of a design row with the coefficients is the polynomial `c0 + c1·x + c2·y + c3·x² + … + c9·y³` at that point. |
| `Surface.EvaluateAt` | process.py:20 | `make_matrix(a, b) @ fit` has one entry per input pair. Entry `i` is the fitted polynomial at `(a_i, b_i)`. |
| `Surface.EvaluateAtIsPointwise` | process.py:20 | An evaluated entry depends only on its own input pair and the coefficients. Equal pairs at any two positions of any two inputs give equal values. |
| `Surface.EvaluateAtAppend` | process.py:52 | Evaluating concatenated inputs gives the concatenation of the separate evaluations. |
| `Surface.EvaluateAtCommutesWithMask` | process.py:20-23 | Masking the inputs and then evaluating equals evaluating and then masking the values. |
| `Selection.Mask` | process.py:21-23 | `s[mask]` has one element per true mask position. Its `k`-th element is `s` at the `k`-th true position. |
| `Selection.MaskIsSubsequence` | process.py:58-59 | A masked sequence is an order-preserving subsequence of its source. A value survives exactly when some true position holds it. |
| `Measurements.NormalizedOutput` | process.py:88 | The derived `Output` column is undone by `PWM = 1500 + 400·Output`. |
| `Measurements.NormalizedOutputInverse` | process.py:88 | Rescaling the pulse width of any output gives that output back. |
| `Measurements.NormalizedOutputLandmarks` | process.py:88 | Pulse width 1500 maps to 0, 1100 to −1 and 1900 to 1. |
| `Measurements.NormalizedOutputStrictlyIncreasing` | process.py:88 | One pulse width is below another exactly when its normalised output is below the other's. |
| `Measurements.NormalizedOutputRange` | process.py:88 | A pulse width lies in [1100, 1900] exactly when its normalised output lies in [−1, 1]. |
| `Measurements.LoadFile` | process.py:84-88 | A loaded voltage file keeps its readings in order under labels 0, 1, 2, …. Each row has the normalised output of its own pulse width. |
| `Measurements.Concat` | process.py:91 | `pd.concat(data)` as written: the files' rows in file order, each file keeping its own labels 0, 1, …. The result has exactly as many rows as the files have readings in total. Where each reading lands, and under which label, is stated by `ConcatLayout` and `ConcatRepeatsLabels`. |
| `Measurements.ConcatLayout` | process.py:91 | In the concatenation, reading `k` of file `f` sits after all readings of earlier files, still under label `k`. |
| `Measurements.ConcatRepeatsLabels` | process.py:91 | Reading `k` of two different files lands at two different positions under the same label. With two non-empty files the labels are not unique. |
| `Measurements.ConcatReindexed` | process.py:91 | Corrected variant of line 91 (see Findings). Concatenating with fresh labels keeps the same rows in the same order, relabelled by position, so labels are unique. |
| `Regime.LabelsWhere` | process.py:58 | `table[cond].index` holds exactly the labels of the rows that satisfy `cond`. |
| `Regime.Drop` | process.py:58-59 | `drop(labels)` is an order-preserving subsequence of the table, and a row value survives exactly when its label is not listed. The result equals `Unlisted`, an independent front-to-back scan that keeps each unlisted row, so copies are neither merged nor lost. Every listed label must occur in the table. |
| `Regime.UnlistedCounts` | process.py:58-59 | After dropping, each row occurs as often as in the table when its label is not listed, and not at all when it is. |
| `Regime.DropIsUnlisted` | process.py:58-59 | The label mask `drop` applies selects exactly the rows the front-to-back scan keeps, in the same order. |
| `Regime.Forward` | process.py:58 | The forward regime is a subsequence of the table, and each of its rows has force > 0. |
| `Regime.Backward` | process.py:59 | The backward regime is a subsequence of the table, and each of its rows has force < 0. |
| `Regime.RegimesPartitionPositions` | process.py:58-59 | Both regimes are the table under a mask. No position is kept by both masks. A position with force exactly 0 is kept by neither. |
| `Regime.ZeroForceInNeither` | process.py:58-59 | A row with zero force is in neither regime. |
| `Regime.RegimeMasksByLabel` | process.py:58-59 | A row is kept forward exactly when every row that shares its label has force > 0. A row is kept backward exactly when every row that shares its label has force < 0. |
| `Regime.RegimesWithUniqueLabels` | process.py:58-59 | With unique labels, forward is exactly the positive-force rows and backward exactly the negative-force rows, in table order. |
| `Regime.RegimesWithinSignFilters` | process.py:58-59 | For any labels, each regime is an order-preserving subsequence of its sign filter and never longer. |
| `Regime.SharedLabelEmptiesBothRegimes` | process.py:58-59 | Take a pushing row and a pulling row that share a label. Each sign filter holds one of them, yet both regimes are empty. |
| `Fitting.FitTable` | process.py:48-54 | The solver receives the cubic monomials of each row's two input columns and each row's output value. The fitted values are the returned polynomial at each row's inputs, in row order. |
| `Fitting.FitRegimes` | process.py:57-62 | The forward fit is fitted on the forward regime, whose rows all have force > 0. The backward fit is fitted on the backward regime, whose rows all have force < 0. |
| `Fitting.ForceForward` | process.py:57-62 | Each regime gets a fit of force over (normalised output, voltage), on that regime's rows. |
| `Fitting.ForceInverse` | process.py:65-70 | Each regime gets a fit of normalised output over (force, voltage). Each surface is sampled only at forces of its own sign. |
| `Fitting.CurrentForward` | process.py:73-78 | Each regime gets a fit of current over (normalised output, voltage). The rows are split by the sign of the force. |
| `Fitting.FitVoltageFiles` | process.py:91-94 | Corrected variant of line 91 (see Findings). With the files concatenated under fresh labels, all six forward and backward fits are fitted on exactly the positive-force and negative-force rows. |
| `Fitting.ConcatWithFileLabelsLosesRows` | process.py:91-92 | Concatenate one pushing and one pulling reading from two files while keeping the file labels. Then both regimes are empty and the force fits receive no data. |
| `Validity.ValidIndices` | process.py:20-23 | The surviving positions are exactly the query points where the surface is ≤ 1.0, in ascending order. |
| `Validity.ValidPoints` | process.py:20-23 | The surviving `x`, `y` and `z` are the valid query points in their original order, still aligned. Each surviving `z` is ≤ 1.0 and is the surface's value at its own surviving `(x, y)`. |

## Left out

- `np.linalg.lstsq` is floating-point linear algebra. It is a caller-supplied
  `Solver` that returns ten coefficients. Nothing is proved about
  least-squares optimality, rank deficiency or minimum-norm solutions.
- Rendering (`plot`, and the plotting in `plot2` and `fit_table`) is a user
  interface, so it is left out. The data `fit_table` plots is returned
  instead, as `Fit.fitted`.
- File reading and column renaming are I/O. A file is modelled as a sequence
  of `Reading` values. The `print` calls and the `linspace`/`meshgrid` query
  grid are also left out. `plot2` is modelled for any query points.
- `df.set_index(...)` discards its result and has no effect, so it is not
  modelled.
- Floating point is left out. All arithmetic is over exact reals, so the
  basis identities hold exactly, not bit for bit. NaN is not modelled either.
  A NaN force fails both `<= 0` and `>= 0`, so such a row would be kept in
  both regimes unless a row sharing its label fails that regime's test.
- `Regime.Drop`: the `KeyError` that `drop` raises for a label the table
  lacks is a precondition. The regime split only drops labels taken from the
  same table, so it never raises there.
- `Basis.MakeMatrix`: the `ValueError` that unequal lengths raise (from the
  broadcast `a * b` at process.py:38, or from `np.vstack` when one input has
  length 1) is a precondition. Every caller passes two columns of the same
  table, so it never raises there.
- The three regime fits run one after another, as in the script. Running them
  concurrently would not change their results, so concurrency is not
  modelled.

## Findings

| source | as written | input that shows it | evidently intended | confidence | as-written member | corrected member |
|---|---|---|---|---|---|---|
| process.py:91 | `pd.concat(data)` keeps each file's labels 0, 1, 2, …. The regime split at lines 58-59 drops by label, so a row is dropped whenever any row sharing its label fails the test, including rows from other voltage files. | Two files with one reading each, force 5 in the first and −3 in the second. Both rows get label 0, and both the forward and the backward regime are empty. | Concatenate with fresh labels (`ignore_index=True`), so that forward is exactly the positive-force rows and backward exactly the negative-force rows. | medium; not executed | `Fitting.ConcatWithFileLabelsLosesRows` | `Fitting.FitVoltageFiles` |
