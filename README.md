# amazon_fires: bootstrap engine and helpers, modelled in Dafny

This project models the algorithmic core of the `resources` package of the
amazon_fires analysis. The model is written over exact values and comes with
proofs about it.

- **Bootstrap engine** (`resources/utils.py`, class `Bootstrap`). The model is
  the class `Resampling.Bootstrap`, whose fields `Feed` updates in place. Each
  round resamples the input arrays with one shared index sequence and fits a
  fresh estimator. It reads the tracked attribute, transforms it and appends
  it to `results`. `_process_results` then sets `stat` to the mean and
  `conf_int` to the quantiles at `alpha/2` and `1 - alpha/2`.
- **numpy reductions** (`Statistics`). `np.mean`, the population variance
  under `np.std`, and `np.quantile` with its default linear interpolation,
  all over `real`.
- **Text helpers of utils.py.** `multiline`, the word-wrap loop inside
  `summary_dataset` (`TextWrap.Multiline`). `extract_fields`, the sorted
  union of column names (`Fields.ExtractFields`).
- **Station-file header** (`resources/io.py`).
  - `convert_to_number`: the trailing number text found by `re.search`.
  - `_parse_line_table`: classifies a line by its prefix.
  - The line-scanning loop of `import_table` (`StationIo.ScanHeader`).
- **Pure helpers of plotting.py.**
  - `_parse_interval` and the band `streamplot` derives from it.
  - The `att_gen` generator.
  - The column count and figure width of `decompositionplot`.
  - The `nlags` check of `autocorrplot`.

Randomness enters as a parameter. The indices that
`np.random.choice(np.arange(n), n, replace=True)` would draw in round r are
given to `Feed` as `draws[r]`. Seeding is therefore outside the model, and
the same draws give the same results (`Resampling.Replay`).
`est_class().fit(*arrays)` followed by `getattr(est, attrs)` becomes a
function from the resampled arrays to a `Fit`. That value is either an
exception or the fitted object's numeric attributes by name.

The engine makes fewer checks than a bootstrap engine usually does, and the
model keeps exactly the checks the code makes:

- No shape or emptiness check runs before the rounds. An array longer than
  the first is resampled without complaint. A shorter one raises IndexError
  only when a drawn index falls outside it (`BootstrapData`). An empty
  argument list raises on `args[0]` inside the first round.
- `alpha` is never checked against (0, 1). `np.quantile` refuses only levels
  outside [0, 1], so every `alpha` in [0, 2] is accepted. For `alpha` in
  [1, 2] the interval comes out in descending order
  (`Resampling.IntervalReversed`).
- A fit that raises is not wrapped in a failure carrying the round index. The
  exception propagates as it is, and `results` keeps the rounds completed
  before it.
- The standard error is `np.std` with divisor N, not N - 1.
- With `n_samples <= 0` there are no rounds. `stat` becomes NaN
  (`np.mean` of an empty list), and `np.quantile` then raises on the empty
  list (`EmptyResults`).

## Model

| member | source | states |
|---|---|---|
| Statistics.Sort | resources/utils.py:63 | the order statistics `np.quantile` reads are an ascending permutation of the results |
| Statistics.Quantile | resources/utils.py:63 | the linear-interpolation quantile at any level in [0, 1] lies between the smallest and the largest result |
| Statistics.SortedQuantile | resources/utils.py:63 | interpolating between the order statistics at floor((n-1)q) and the next one stays between the first and last of the sorted values |
| Statistics.Lerp | resources/utils.py:63 | the interpolation between two order statistics lies between them |
| Statistics.SortedQuantileBetween | resources/utils.py:63 | on sorted values, a level whose virtual index (n-1)q is k + g gives the k-th value plus the fraction g of the gap to the next, which is numpy's linear method |
| Statistics.QuantileBetween | resources/utils.py:63 | `np.quantile` of the results at a level whose virtual index (n-1)q is k + g is the k-th smallest result plus g times the gap to the (k+1)-th |
| Statistics.QuantileAtOrderStatistic | resources/utils.py:63 | at the level k/(n-1) the quantile is exactly the k-th smallest result, with no interpolation |
| Statistics.QuantileEnds | resources/utils.py:63 | the levels 0 and 1 give the smallest and the largest result |
| Statistics.QuantileMonotone | resources/utils.py:63 | a larger level never gives a smaller quantile |
| Statistics.MeanBetween | resources/utils.py:61 | `np.mean` of the results (`Statistics.Mean`, their sum over their count) lies between their minimum and maximum |
| Statistics.Variance | resources/utils.py:62 | the population variance (divisor N) under `np.std` is never negative |
| Statistics.ConstantStatistics | resources/utils.py:61-63 | when every result is c, the mean and every quantile are c and the variance is 0 |
| Resampling.Transformation | resources/utils.py:20 | the kept transformation is the one given, or `_transform` when None is given, which returns its argument and never raises |
| Resampling.Identity | resources/utils.py:41-42 | `_transform` returns its argument unchanged and never raises |
| Resampling.Reindex | resources/utils.py:57 | `arg[idx]` succeeds exactly when every index is within the array; the result has one row per index, and row i is `arg[idx[i]]` |
| Resampling.BootstrapData | resources/utils.py:51-57 | every array is re-indexed by the same index sequence; it fails exactly when some index is past the end of some array |
| Resampling.BootstrapDataAligned | resources/utils.py:54-57 | for equal-length arrays and a draw of n indices in [0, n), there is one output per input, each of length n, and position i of every output is row `idx[i]` of its input |
| Resampling.RunRoundsResults | resources/utils.py:33-37 | entry k of the results is round k's statistic; without an exception there are exactly n_samples entries, and with one the entries are the rounds before the failing round, which is not retried |
| Resampling.FittedAttribute | resources/utils.py:34-36 | a round raises IndexError on an empty argument list and only then; a read attribute means the resampling succeeded; a transformation error cannot arise before the transformation runs |
| Resampling.RoundStat | resources/utils.py:34-37 | an exception from resampling, fitting or reading the attribute is the round's exception; the round raises in the transformation exactly when the attribute was read and the transformation raises on it; otherwise the round's statistic is the transformed attribute |
| Resampling.RunRounds | resources/utils.py:33-37 | the loop stores at most n_samples results, and exactly n_samples when no round raises |
| Resampling.IdentityKeepsAttribute | resources/utils.py:33-42 | without a transformation every stored result is the raw fitted attribute of its round |
| Resampling.MeanStat | resources/utils.py:61 | `stat` is a number exactly when there are results (NaN otherwise), and it lies within their range |
| Resampling.ConfidenceInterval | resources/utils.py:63 | the quantile pair exists exactly when alpha is in [0, 2] and there are results; both bounds lie within the results' range |
| Resampling.IntervalOrdered | resources/utils.py:63 | for alpha in [0, 1] the interval is ascending and within [min, max] |
| Resampling.IntervalReversed | resources/utils.py:63 | for alpha in [1, 2] the interval is descending and within [min, max] |
| Resampling.ConstantResults | resources/utils.py:59-63 | if every result is c, `stat` is c and `conf_int` is (c, c) |
| Resampling.Bootstrap.constructor | resources/utils.py:11-20 | keeps the estimator, attribute name and sample count (1000 by default), and the given transformation or the identity; no round has been run yet |
| Resampling.Bootstrap.Round | resources/utils.py:33-36 | one round gives the transformed attribute, or the first exception among an empty argument list, a drawn index past an array's end, a raising fit, a missing attribute and a raising transformation |
| Resampling.Bootstrap.Feed | resources/utils.py:22-39 | `results` is reset and then holds the completed rounds in order, and `alpha` is the new value (0.05 by default); an exception leaves `stat` and `conf_int` unchanged; otherwise `stat` is the mean and `conf_int` the quantile pair, or the quantile's exception |
| Resampling.Bootstrap.ProcessResults | resources/utils.py:59-63 | `stat` is set to the mean before the interval is computed; `conf_int` is set only when the quantiles succeed |
| Resampling.Replay | resources/utils.py:30-37 | two `feed` calls with the same drawn indices produce identical results |
| TextWrap.RFind | resources/utils.py:120 | `rfind(sep, 0, width)` is the last position whose whole occurrence of `sep` ends within the normalised slice end, or -1 when there is none |
| TextWrap.Multiline | resources/utils.py:119-128 | returns `(len(out), out)` with the pieces of the wrap exactly when the loop ends, and reports the texts on which it spins forever |
| TextWrap.Wrap | resources/utils.py:119-128 | the pieces the loop returns are never an empty list, and a text that already fits is returned as the single piece |
| TextWrap.WrapJoins | resources/utils.py:119-128 | joining the pieces with the separator's first character gives back the input |
| TextWrap.WrapWidths | resources/utils.py:119-128 | each piece but the last is at most `width - len(sep)` long, and the last at most `width` |
| TextWrap.WrapEndless | resources/utils.py:120-127 | the loop never ends when the text it starts from stalls; when it never ends, some remaining suffix is longer than `width` with no separator in its first `width` characters (or is empty) |
| TextWrap.WrapCutExample | resources/utils.py:119-128 | "ab cd" with width 3 gives the pieces "ab" and "cd" |
| TextWrap.WrapEndlessExample | resources/utils.py:119-128 | "abcd" with width 2 makes the loop spin forever |
| Fields.LessIrreflexive | resources/utils.py:99 | no string sorts before itself |
| Fields.LessTransitive | resources/utils.py:99 | the string order is transitive |
| Fields.LessTotal | resources/utils.py:99 | of two different strings one sorts before the other |
| Fields.LeastExists | resources/utils.py:99 | a non-empty set of names has a least one |
| Fields.ExtractFields | resources/utils.py:93-99 | the result is strictly ascending and holds exactly the names in some station's columns and not excluded (nothing is excluded by default) |
| Fields.SortedUnique | resources/utils.py:99 | two strictly ascending sequences with the same names are equal, so the result is fully determined |
| StationIo.ConvertToNumber | resources/io.py:111-114 | the text is a suffix of the line (before a final newline) that matches `-?[0-9]*\.?[0-9]*`, and no longer suffix matches |
| StationIo.ConvertTakesLastNumber | resources/io.py:113 | a tail "1.2.3" gives "2.3" |
| StationIo.ConvertNoTrailingNumber | resources/io.py:113 | a line ending in a character outside digits, '.' and '-' gives the empty text |
| StationIo.NotNumberEnding | resources/io.py:113 | a text ending in a character outside digits, '.' and '-' does not match the pattern |
| StationIo.RemoveNewlines | resources/io.py:93 | the result holds no newline |
| StationIo.RemoveNewlinesKeeps | resources/io.py:97 | a line without newlines is left as it is |
| StationIo.RemoveNewlinesAppend | resources/io.py:93 | removing newlines from a concatenation removes them from each part |
| StationIo.RemoveNewlinesDropsNewline | resources/io.py:93 | a lone newline is removed entirely |
| StationIo.RemoveFinalNewline | resources/io.py:93 | a line read with its terminating newline loses exactly that newline |
| StationIo.KindByPrefix | resources/io.py:92-109 | a line is classed as Code, Latitude, Longitude, Altitude or table line exactly when it starts with that prefix |
| StationIo.Kind | resources/io.py:92-108 | a line tested as Code, Latitude, Longitude, Altitude or table line starts with that prefix, and a line matches none of the tests exactly when it starts with none of the five prefixes |
| StationIo.NumericRecord | resources/io.py:96-106 | the record is the given key with the number text taken from the line without newlines, exactly when that text holds a digit; otherwise `float` raises ValueError |
| StationIo.ParseLineTable | resources/io.py:89-109 | a record's key is one of Code, Latitude, Longitude, Height, and a numeric value holds a digit |
| StationIo.ParseLineRecords | resources/io.py:92-106 | a "Codigo Estacao" line gives the Code record, and a Latitude, Longitude or Altitude line gives the Latitude, Longitude or Height record, each with the text `convert_to_number` takes from the line without newlines; a numeric line succeeds exactly when that text holds a digit |
| StationIo.ParseLineOutcomes | resources/io.py:89-109 | only Latitude, Longitude and Altitude lines raise; the table line gives True and a line with no known prefix gives None; the key is "Code" exactly for a "Codigo Estacao" line |
| StationIo.LatitudeWithoutNumber | resources/io.py:96-98 | "Latitude:" without a number raises ValueError |
| StationIo.ParseAll | resources/io.py:56-57 | one parse outcome per line, in order |
| StationIo.ScanLine | resources/io.py:58-63 | one turn raises exactly when the line's parse raises; a record adds or overwrites its key and keeps the other keys; a table line sets `table_found` and `skiprows` to the line's number; other lines leave both as they were |
| StationIo.ScanParsed | resources/io.py:56-63 | after the loop, `table_found` holds exactly when `skiprows` is bound, and `skiprows` is the number of a line that was read |
| StationIo.Scan | resources/io.py:54-63 | over the file's lines, `table_found` holds exactly when `skiprows` is bound, and `skiprows` is below the line count |
| StationIo.ScanHeader | resources/io.py:54-63 | the loop ends in the state, or with the exception, that the line-by-line scan defines |
| StationIo.ScanErrorPersists | resources/io.py:56-57 | the first line that raises decides the exception of the whole scan |
| StationIo.ScanFails | resources/io.py:56-57 | the scan raises exactly when some line's parse raises |
| StationIo.ScanTable | resources/io.py:56-63 | `table_found` is set exactly when some line is the table line; `skiprows` is then bound to the index of the last such line |
| StationIo.ScanLastRecordWins | resources/io.py:58-59 | the metadata holds exactly the keys some line gave, each with the value of the last line giving it |
| StationIo.ScanLines | resources/io.py:54-63 | over the file's lines: raises exactly when a line raises; `table_found` iff a line starts with "Data Medicao", with `skiprows` the last such line; keys among the four |
| Plotting.KindsExclusive | resources/plotting.py:105 | no text starts with both "sigma" and "robust" |
| Plotting.MatchInterval | resources/plotting.py:105 | a match gives a digit in 1-3 or none and the word "sigma" or "robust", and a text starting with either word always matches |
| Plotting.ParseInterval | resources/plotting.py:99-110 | None gives None, a text never gives None, a parsed spec is one the pattern allows, and the only exception is ValueError |
| Plotting.ParseIntervalSound | resources/plotting.py:99-110 | an accepted text starts with a digit 1-3 (optionally) followed by "sigma" or "robust", and the result gives those groups |
| Plotting.ParseIntervalComplete | resources/plotting.py:105-110 | every text starting with such a spec parses to exactly that spec, whatever follows |
| Plotting.ParseIntervalRejects | resources/plotting.py:105-109 | a text raises ValueError exactly when it starts with no allowed spec |
| Plotting.ParseIntervalAccepts | resources/plotting.py:102-110 | None gives None, "2sigmaXYZ" gives ('2', 'sigma') and "robust" gives (None, 'robust') |
| Plotting.RejectedWhenNoWord | resources/plotting.py:105-109 | a text starting with neither word, with none after a leading digit 1-3, raises ValueError |
| Plotting.ParseIntervalRefuses | resources/plotting.py:105-109 | "4sigma", "12sigma", "Sigma" and "" raise ValueError |
| Plotting.DigitValue | resources/plotting.py:34 | `int` of a digit is between 0 and 9 |
| Plotting.BandOf | resources/plotting.py:33-40 | "sigma" gives the multiplier written before it (1 without a digit), so 1, 2 or 3, and "robust" exactly the 5 %-95 % quantile band |
| Plotting.SigmaMultiplierRoundTrip | resources/plotting.py:33-34 | the digit n written before "sigma" is the multiplier used |
| Plotting.Select | resources/plotting.py:133-136 | the yielded names are exactly those whose flag is set, and one name is yielded per flag set |
| Plotting.AttGen | resources/plotting.py:133-136 | `att_gen` yields at most three names, each of them trend, seasonal or resid |
| Plotting.SelectKeepsOrder | resources/plotting.py:133-136 | the yielded names keep the order of the candidate names, so a name listed once is yielded at most once |
| Plotting.AttGenSelects | resources/plotting.py:133-136 | `att_gen` yields exactly the enabled names among trend, seasonal, resid, one per flag set, in that order |
| Plotting.NCols | resources/plotting.py:148 | at most 3 columns, an odd count exactly when the residual is drawn, and at least 2 exactly when trend or seasonal is drawn |
| Plotting.FigureWidth | resources/plotting.py:150 | the figure is 4 inches wide per grid column |
| Plotting.Lags | resources/plotting.py:285-288 | `nlags` passes exactly when it is "auto", a positive int, or True; "auto" draws one lag more than the coefficients, a positive int n draws n lags, True draws one, so any accepted value draws at least one |

## Left out

- `np.random.seed` and `np.random.choice`: the global random state is replaced by the drawn indices, which are passed to `Feed`. `Feed` requires those indices to be in range for the first array, as numpy's draw guarantees.
- Keyword arguments of `feed` other than `seed` are passed on to `_bootstrap_data`, which ignores them. They are not modelled.
- `Resampling.Bootstrap.Feed`: the statistic is a scalar `real`. Array-valued attributes and numpy broadcasting are not modelled.
- `Resampling.Bootstrap.Feed`: before the first `feed`, Python has no `results`, `alpha` or `stat` attribute. The model starts them as `[]`, `0.0` and `Unset`.
- `Resampling.Bootstrap.Round`: every exception raised by the estimator's `fit` or by the transformation is one error value (`FitRaised`, `TransformRaised`); which exception it was is not kept.
- `Resampling.Bootstrap.ProcessResults`: `se = np.std(results)` needs a floating-point square root and is not stored. Only the population variance under it is modelled (`Statistics.Variance`).
- `Bootstrap.summary` is `%`-formatting of floats for display and is not modelled.
- Floating point throughout: all arithmetic is exact over `real`, so rounding in `np.mean` and `np.quantile` is not captured.
- `StationIo.ParseLineTable`: the value `float` returns is represented by the text it parses. Only whether `float` accepts the text is modelled (it accepts exactly when the text holds a digit).
- File and library I/O in io.py: opening the file, the cp1252 decoding, `pd.read_csv` of the table and the column renaming. Also the other readers (`read_heatspots_dataset`, `read_deforestation_dataset`, `read_states_geometry`) and `dump_data`/`load_data`.
- `StationIo.ScanHeader` takes the file's lines as a sequence of strings. The `print` calls are not modelled.
- pandas, shapely and geopandas wrappers in utils.py: `collect_features`, `extract_locations`, `create_df_from_pca`, `get_peak_month`, `print_frequency`. Also the rest of `summary_dataset`.
- `Fields.ExtractFields` takes each station's table as its list of column names.
- All matplotlib drawing in plotting.py is left out. Only the values the drawing code computes from its arguments are modelled.
- `Plotting.NCols`: the flags of `decompositionplot` are modelled as booleans. Other truthy values, where `or` returns an operand, are not modelled.
- `Plotting.Lags`: the assertion runs after `acf` (or the given `autocorr_fn`) has been called. An exception raised by that call is not modelled, and neither are numpy integer types.
- `TextWrap.WrapJoins` rejoins the pieces with the separator's first character only. Each cut drops just one character, so with a longer separator the rest of it stays at the head of the next piece, and joining with the whole separator would not give the input back.
- `TextWrap.Multiline` returns `Endless` where Python's loop never ends. A call that does not return cannot be written as a Dafny result.
