# csvfit core, modelled in Dafny

csvfit identifies simple dynamic systems from CSV measurements. This model covers three parts of it:

- **First-order ARX identification** of a multi-input single-output system (`fit/fitarx.py`):
  - `arxfit` builds a regression matrix row by row and solves it by least squares through a pseudo-inverse.
  - `arxgen` simulates the fitted recurrence `y[k] = a1*y[k-1] + y0 + sum_n (b_n0*u_n[k] + b_n1*u_n[k-1])`.
- **PT1 / PT2 step-response fitting** (`csvfit/fitpt.py`):
  - the closed-form responses `pt1` and `pt2` (PT2 is critically damped);
  - their sampled generators `pt1gen` and `pt2gen`;
  - the fitting skeleton of `pt1fit` and `pt2fit`. It guards the lengths and removes offsets: `pt1fit` removes both the time and the output offset, while `pt2fit` as written removes only the time offset (see "## Findings"). It then normalises by the maxima, calls the nonlinear least-squares solver, and scales the solver's gain and time-constant back;
  - the segmenter inside `do_fit`. It turns the first two rows of an events table into index ranges, one per event column, and cuts the data table into slices.
- **CSV helpers** (`csvfit/util.py`):
  - `get_delimiter`: the first valid delimiter, in list order, that occurs in the header line;
  - `column`: one float per row for a named column;
  - `add_noise`: adds Gaussian noise scaled by `noise_level * max(y)`.

Modules:

- `Outcomes` holds `Option` and `Result`. Error paths are values: a raised exception becomes a `Failure` carrying the reason, and a `return None` becomes a `Failure` too.
- `Numeric` holds Python's `max`, the inner product and `np.dot` of a matrix with a vector.
- `FitArx` models `fit/fitarx.py`.
- `FitPt` models `csvfit/fitpt.py`.
- `CsvUtil` models `csvfit/util.py`.

The model follows the source, not its documentation, in two places:

- `arxgen` returns `len(u[0])` samples. It allocates `N + 1` slots and drops only the last, never-written one.
- The segmenter skips the column named `<event-name>`, with the angle brackets.

Floating-point numbers are modelled as exact `real`s.

Library code becomes function-typed parameters:

- `np.exp` becomes `exp`;
- `scipy.optimize.curve_fit` becomes `curveFit`;
- `np.linalg.pinv` becomes `pinv`;
- Python's `int` and `float` on text become `parseInt` and `parseFloat`;
- `np.random.normal` becomes `normal`.

Nothing is assumed about these functions except what a member states in its own `requires`, for example `exp(0) = 1`, or that the solver's answer reproduces the normalised samples.

## Model

| member | source | states |
|---|---|---|
| `Numeric.Max` | csvfit/fitpt.py:85-86 | Python's `max` on a non-empty list: the result bounds every element and is one of them |
| `FitArx.ChannelPairs` | fit/fitarx.py:25-27 | the pairs `u_n[k+1], u_n[k]` of the first `m` channels, at positions `2n` and `2n+1` |
| `FitArx.RegressionRow` | fit/fitarx.py:24-28 | row `k` of `X` has `2*len(u)+1` entries: the channel pairs, then `y[k]` last |
| `FitArx.BuildRegressors` | fit/fitarx.py:22-29 | the nested loops build exactly `len(u[0]) - 1` rows (none when `u[0]` is empty), and row `k` is `RegressionRow(u, y, k)` |
| `FitArx.ArxFit` | fit/fitarx.py:11-32 | fails exactly when there are fewer than two samples (`pinv` of an empty matrix) or `len(y) != len(u[0])` (`np.dot` shape mismatch); otherwise returns `2*len(u)+1` parameters, equal to `pinv(X) . y[1:]` for the regression matrix `X` |
| `FitArx.AddChannelTerms` | fit/fitarx.py:51-53 | the inner loop adds the full input sum of step `k` to slot `k` and changes no other slot |
| `FitArx.StepSimulation` | fit/fitarx.py:49-53 | when slot 0 holds `y0` and slot `k-1` holds the simulated output, one outer iteration leaves the simulated output in slot `k` and changes nothing else |
| `FitArx.Simulate` | fit/fitarx.py:49-53 | the outer loop leaves the simulated output of every step `0 .. N-1` in its slot |
| `FitArx.ArxGen` | fit/fitarx.py:34-55 | returns exactly `len(u[0])` samples, the first is `y0`, each later one is `a1*y[k-1] + y0 + sum_n (p[2n]*u_n[k] + p[2n+1]*u_n[k-1])`, and each equals the reference `Simulated` |
| `FitArx.PairsWeightedByB` | fit/fitarx.py:26-27 | the `b` coefficients times the channel pairs of row `k-1` equal the simulator's input sum at step `k` |
| `FitArx.SimulatorStepIsRegressionRow` | fit/fitarx.py:19-20 | `arxfit`'s parameter layout matches `arxgen`'s use of it: every simulated sample `k >= 1` is the parameters' inner product with regression row `k-1` (built over the simulated output) plus `y0` |
| `FitPt.PtGenStartsAtOffset` | csvfit/fitpt.py:40-64 | both generators give exactly `y0` wherever a sample time is 0, given `exp(0) = 1`, and give one sample per time |
| `FitPt.ResponseByShape` | csvfit/fitpt.py:23 | each response is the gain times a shape depending only on `t/T` |
| `FitPt.ResponseScales` | csvfit/fitpt.py:38 | scaling time and time-constant together leaves the response unchanged, and scaling the gain scales the response |
| `FitPt.Shift` | csvfit/fitpt.py:83 | same length as the input, and adding the offset back gives each input element |
| `FitPt.ShiftByFirst` | csvfit/fitpt.py:83-84 | same length; on a non-empty list it starts at 0 and adding `s[0]` back restores every element |
| `FitPt.PrepareShifted` | csvfit/fitpt.py:79-86 | fails with `LengthMismatch` iff `len(t) != len(y)` |
| `FitPt.PreparePt2AsWritten` | csvfit/fitpt.py:106-113 | fails with `LengthMismatch` iff `len(t) != len(y)` |
| `FitPt.Pt1Fit` | csvfit/fitpt.py:66-92 | returns `None` (as `LengthMismatch`) iff the lengths differ; empty inputs fail with `NoSamples`; reaches the solver and returns parameters iff the lengths agree, the data are non-empty, and neither the shifted `t` nor the shifted `y` has maximum 0 (no division by zero) |
| `FitPt.Pt2Fit` | csvfit/fitpt.py:94-119 | same length and emptiness guards as `pt1fit`; as written it returns parameters iff the lengths agree, the data are non-empty, the shifted `t` has a non-zero maximum and the unshifted `y` has a non-zero maximum |
| `FitPt.Pt2FitCorrected` | csvfit/fitpt.py:94-119 | same guards and the same success condition as `pt1fit` |
| `FitPt.NormalisedPeak` | csvfit/fitpt.py:83-86 | a list shifted to start at 0 with a non-zero maximum has a positive maximum; its normalisation starts at 0 and peaks at exactly 1 |
| `FitPt.PreparedIsUnitRange` | csvfit/fitpt.py:83-86 | whenever `pt1fit` reaches the solver, both arrays start at 0 and peak at 1, and both maxima are positive |
| `FitPt.ScaledSampleFits` | csvfit/fitpt.py:90-91 | if `(K, T)` fits a normalised sample, then `(max(y)*K, max(t)*T)` fits the unnormalised sample |
| `FitPt.DenormalisedSample` | csvfit/fitpt.py:90-91 | the denormalised parameters fit each shifted sample whose normalised sample the solver's answer fits |
| `FitPt.DenormaliseReproduces` | csvfit/fitpt.py:85-91 | if the solver's answer reproduces the normalised arrays exactly, the denormalised parameters reproduce the shifted arrays |
| `FitPt.OffsetRestores` | csvfit/fitpt.py:51 | a reproduction of the shifted output, offset by `y[0]`, is `y` itself |
| `FitPt.Pt1FitReproducesExactData` | csvfit/fitpt.py:66-92 | round trip: if the solver reproduces the normalised samples, `pt1gen` with the fitted `(K_opt, T_opt)` at the shifted times, offset by `y[0]`, gives back `y` |
| `FitPt.Pt2FitCorrectedReproducesExactData` | csvfit/fitpt.py:94-119 | the same round trip for `pt2fit` with the output offset removed |
| `FitPt.NormalisedSampleFits` | csvfit/fitpt.py:85-88 | one sample of exact PT data with gain `K` and time-constant `T`, divided by the maxima, is fitted exactly by gain `K / max(y)` and time-constant `T / max(t)` |
| `FitPt.ExactDataShifts` | csvfit/fitpt.py:83-84 | subtracting `y[0]` from data generated as `ptgen(t - t[0], K, T) + y0` leaves the same response without the offset |
| `FitPt.NormaliseKeepsExact` | csvfit/fitpt.py:85-88 | exact PT data of the shifted arrays stay exact PT data after normalisation, with gain `K / max(y)` and time-constant `T / max(t)` |
| `FitPt.DenormaliseUndoesScale` | csvfit/fitpt.py:90-91 | scaling the normalised parameters back by the maxima gives back the original `(K, T)` |
| `FitPt.ExactDataNormalises` | csvfit/fitpt.py:83-91 | the converse of the round trip: exact data `ptgen(t - t[0], K, T) + y0` are normalised to exact data with parameters `(K / max(y'), T / max(t'))`, and denormalising those gives back `(K, T)` |
| `FitPt.ExactDataRecoversParameters` | csvfit/fitpt.py:66-92 | fitting exact data recovers the generating parameters: when the solver returns the exact fit of the normalised data, `pt1fit` and the corrected `pt2fit` return `(K, T)` |
| `FitPt.Pt2AsWrittenKeepsOutputOffset` | csvfit/fitpt.py:110-111 | as written, the output reaches the normalisation unshifted |
| `FitPt.ScaledFirst` | csvfit/fitpt.py:85-86 | the first normalised entry is 0 iff the first shifted entry is 0 |
| `FitPt.Pt2AtRest` | csvfit/fitpt.py:38 | `pt2(0, K, T) = 0` for every `K` and `T != 0`, given `exp(0) = 1` |
| `FitPt.Pt2AsWrittenMissesFirstSample` | csvfit/fitpt.py:110-115 | as written, when `y[0] != 0` the first normalised output is non-zero at normalised time 0, so no `(K, T)` of `pt2` fits it |
| `FitPt.Pt2AsWrittenExample` | csvfit/fitpt.py:110-113 | `t = [0, 1]`, `y = [1, 2]` is prepared by `pt2fit` with first normalised output `1/2` |
| `FitPt.PreparedExample` | csvfit/fitpt.py:83-86 | the same input with both offsets removed starts its normalised output at 0 |
| `FitPt.SliceBound` | csvfit/fitpt.py:152 | a resolved slice bound lies in `0..len`, and is the index itself when that already lies in range |
| `FitPt.PySlice` | csvfit/fitpt.py:152 | `data[from:to]` is the plain subsequence when `0 <= from <= to <= len(data)` |
| `FitPt.FailureSticks` | csvfit/fitpt.py:146-152 | once a column fails, the segmenter ends with that column's error |
| `FitPt.Segment` | csvfit/fitpt.py:144-152 | the loop over the keys of the first events row computes the reference segmenter `SegmentEvents`, errors included (no events row, no second row, missing cell, a cell `int()` rejects, an over-long first row) |
| `FitPt.PaddedOrOverlongFirstRowFails` | csvfit/fitpt.py:146-150 | a first events row padded with `None` in a non-label column, or longer than the header, makes the segmenter raise |
| `FitPt.NonLabel` | csvfit/fitpt.py:146-148 | the columns the loop keeps: none is the label column, each is a column of the row, and every other column is kept |
| `FitPt.SegmentSucceedsIff` | csvfit/fitpt.py:146-152 | the segmenter succeeds iff every non-label column yields an integer range from the first two rows |
| `FitPt.OrderedKeysStep` | csvfit/fitpt.py:152 | inserting a new key into the dictionary appends it to the key order |
| `FitPt.AlignedStep` | csvfit/fitpt.py:149-152 | one iteration on a new non-label column keeps `time_slots`, key order and slices aligned |
| `FitPt.SegmentsAligned` | csvfit/fitpt.py:144-152 | with distinct column names, `time_slots` and the dictionary have one entry per non-label column, in column order; entry `i` is that column's range and the slice `data[from:to]` is stored under its name |
| `FitPt.SegmentSliceLengths` | csvfit/fitpt.py:158-160 | the positional pairing used later is sound: the `i`-th key's slice has the length of the `i`-th range whenever that range lies inside the data |
| `CsvUtil.Lookup` | csvfit/util.py:50 | `row[key]` is missing iff no cell has that name; otherwise it is a cell stored under that name (text, or `None` in a padded row) |
| `CsvUtil.FirstBreak` | csvfit/util.py:32 | finds nothing iff the text has no `'\n'` or `'\r'`; otherwise the first position holding one |
| `CsvUtil.FirstLine` | csvfit/util.py:31-32 | text-mode `readline()` with universal newlines: the whole text when it has no line break; otherwise the break-free text before the first `'\n'`, `'\r'` or `'\r\n'`, followed by one `'\n'`; never holds `'\r'` |
| `CsvUtil.FirstDelimiter` | csvfit/util.py:33-35 | no candidate is found iff none occurs in the header; otherwise the found one occurs and no earlier one does |
| `CsvUtil.GetDelimiter` | csvfit/util.py:18-36 | raises `FileError` iff no valid delimiter occurs in the first line; otherwise returns the first one in list order that does |
| `CsvUtil.OccursChar` | csvfit/util.py:34 | a one-character `delimiter in header` holds iff the character appears in the header |
| `CsvUtil.DefaultDelimiterChoice` | csvfit/util.py:18 | with the defaults a comma wins, a semicolon is taken only without a comma, and neither means failure |
| `CsvUtil.FirstLineIgnoresRest` | csvfit/util.py:32 | text after the first line break, of any of the three kinds, never reaches the delimiter search |
| `CsvUtil.CarriageReturnEndsHeader` | csvfit/util.py:31-35 | for the text `a;b\rc,d` the header is `a;b` plus a newline, and the semicolon is chosen, not the comma of the second line |
| `CsvUtil.Column` | csvfit/util.py:38-51 | succeeds iff every row has the key and a numeric cell; then returns one value per row, in row order; otherwise fails with the error of the first bad row |
| `CsvUtil.AddNoiseRaises` | csvfit/util.py:14-15 | `add_noise` raises on empty data; it does not raise with a non-negative noise level and some non-negative sample; it raises with a positive noise level on all-negative data (negative scale) |
| `CsvUtil.AddNoiseKeepsLength` | csvfit/util.py:14-16 | when the generator delivers `len(y)` samples, the noisy output has `len(y)` entries, each `y[i] + noise[i]` |

## Left out

- Floating point: all arithmetic is exact over `real`. Rounding, overflow, `inf` and `nan` are not modelled.
- `scipy.optimize.curve_fit` is a parameter returning a parameter pair. Its convergence, its covariance output and the exceptions it raises are not modelled. The round-trip lemmas assume, in their `requires`, that its answer reproduces the normalised data.
- `np.linalg.pinv` is a parameter. Only its output shape (`c` by `r` for an `r` by `c` matrix) is assumed, and only by `FitArx.ArxFit`. That the result is a least-squares solution is not modelled.
- `np.random.normal`, `int` and `float` on text, and `np.exp` are parameters. Randomness and number parsing are not modelled.
- `FitArx.ArxFit` requires `u` to be non-empty and, when `u[0]` has two samples or more, every channel and `y` to be long enough for the regressor loop. Those are exactly the inputs on which the source raises `IndexError`. That error is not modelled as an error value.
- `FitArx.ArxGen` requires `u` to be non-empty and, when `u[0]` has two samples or more, every channel to be as long as `u[0]` and `p` to hold `2*len(u)` entries or more. Those are exactly the inputs on which the source raises `IndexError`.
- `FitPt.Pt1Fit`: a zero maximum is reported as `ZeroRange`. With Python lists, as `do_fit` passes them, the source raises `ZeroDivisionError` at the first division. With numpy arrays, as `test/test.py` passes them, the division gives `nan`/`inf` with a warning, and the fit then fails inside `curve_fit`. Neither the warning nor the later failure is modelled.
- `FitPt.PtGen`: `Pt1`, `Pt2`, `Response` and `PtGen` require `tc != 0`. The source accepts `T = 0`: it raises `ZeroDivisionError` on Python floats and gives `nan`/`inf` on numpy values. That case is not modelled.
- `FitPt.Pt1Fit`: for empty inputs the source fails inside the solver. The model reports `NoSamples` without calling it.
- `FitPt.Segment`: a cell that `DictReader` pads with `None`, or the list it keeps under the `None` key of an over-long row, is modelled as a value `int()` rejects (`NotAnInteger` or `OverlongRow`). The list's contents are not kept.
- `FitPt.SegmentsAligned`: assumes distinct column names. `csv.DictReader` keeps only the last of duplicate header names, so the parsed rows never contain duplicates.
- Not part of this model:
  - file opening and `csv.DictReader`: a file is its text and a parsed table is a list of rows;
  - the `click` command-line layer;
  - plotting, printing and saving figures;
  - the rest of `do_fit` and the ARX command: column selection, the `type` dispatch, and the loops that call the fits. The positional pairing of keys and time slots is covered by `FitPt.SegmentSliceLengths`.
- `CsvUtil.GetDelimiter` takes the file's text instead of a path. I/O errors of `open` are not modelled.

## Findings

| source | as written | input that shows it | evidently intended | confidence | as-written member | corrected member |
|---|---|---|---|---|---|---|
| csvfit/fitpt.py:110-111 | `pt2fit` subtracts `t[0]` from the output after `t` was already shifted to start at 0, so the output offset is never removed | `t = [0, 1]`, `y = [1, 2]`: the normalised output starts at `1/2` instead of 0, while `pt2` is 0 at time 0 for every `K` and `T` | subtract `y[0]`, as `pt1fit` does on line 84 | high (proved on the model; not executed) | `FitPt.Pt2AsWrittenMissesFirstSample` | `FitPt.Pt2FitCorrectedReproducesExactData` |
