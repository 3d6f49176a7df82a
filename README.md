# Heat-diffusion pipeline, modelled in Dafny

This project models the core of a small research pipeline for the one-dimensional
heat equation `u_t = alpha * u_xx` on `[0, L]` with fixed (Dirichlet) ends.
It covers:

- the explicit finite-difference solver (`HeatEquationSolver1D`), including its
  stability gate `dt <= dx^2 / (2 alpha)`;
- the parameter sweep that runs the solver once per combination of parameters and
  names every run with a stable hash id;
- the metrics a run yields (min, max and mean of the final temperature field, an
  energy-like integral, the stability ratio `alpha dt / dx^2`);
- the extraction of a `metrics.json` payload from a run directory, and its validation
  against the rules the pipeline enforces beyond the JSON schema;
- the aggregation of all run directories into `summary.csv`, `summary.md` and a
  `top_runs.md` ranking by lowest energy;
- reading the run ids back out of `top_runs.md`, and reading a run's `timeseries.csv`
  back into times and profiles.

Python's floats are modelled as `real`. Python dictionaries are insertion-ordered
association lists (`Json.Dict`). Exceptions are the `Exception` values of a `Result`.
Everything the pipeline delegates to a library is a parameter of the model:

- number parsing (`float()`/`int()`) is `Json.Parsers`;
- number rendering is `show`/`fmtFloat`;
- `json.dumps` with md5 is `Sweep.Hashing`;
- the JSON-schema checker is `Validate.Schema`;
- the initial condition `f(x)` is `peak`;
- a directory listing is a sequence of `Aggregate.RunDir` values;
- a parsed CSV file is a `Profiles.Table`.

Each loop of the source that updates variables step by step (the solver's time loop,
the sweep's loop over combinations, the run collection, the CSV writer and its cell
escaping, the two readers) is a Dafny method. It is proved equal to a specification
function, and the properties are proved about that function. The markdown writers
(`MdTable`, `SummaryMd`, `TopRunsMd`, `PickAll`) build their text from comprehensions
and joins, so they are functions.

| file | module | source |
|---|---|---|
| wrappers.dfy | `Wrappers` | `Option`, `Result`, the exceptions raised |
| text.dfy | `Text` | `str.strip`/`split`/`join`/`splitlines`, integer rendering |
| json.dfy | `Json` | JSON values, ordered dicts, `dict.get`, `float()`/`int()` coercion |
| sorting.dfy | `Sorting` | Python's stable `sorted` |
| reductions.dfy | `Reductions` | `np.max`, `np.min`, `np.mean`, sums |
| columns.dfy | `Columns` | the `p0 … p{nx-1}` column convention |
| solver.dfy | `Solver` | simulations/solver.py |
| metrics.dfy | `Metrics` | analysis/metrics.py |
| extract.dfy | `Extract` | scripts/extract_metrics.py |
| validate.dfy | `Validate` | scripts/validate_metrics.py |
| sweep.dfy | `Sweep` | simulations/sweep.py |
| aggregate.dfy | `Aggregate` | analysis/aggregate_runs.py |
| visualize.dfy | `Visualize` | `_extract_run_ids_from_top_runs` in scripts/visualize.py |
| profiles.dfy | `Profiles` | `_read_csv_timeseries` in visualization/plot_temp_profiles.py |

## Model

| member | source | states |
|---|---|---|
| Solver.Configure | simulations/solver.py:10-38 | `dx * (nx-1) == L`. An explicit `dt` at or below `dx^2/(2 alpha)` is kept, and a missing `dt` becomes 0.9 of that limit. `nt` is the truncation of `t_max / dt`. The call fails with `StabilityCheckFailed(dt, limit)` exactly when `dt` exceeds the limit. |
| Solver.Linspace | simulations/solver.py:39 | `nx` grid points, running from 0 to `L`. |
| Solver.DtAtLimitAccepted | simulations/solver.py:28-36 | A `dt` exactly at the limit is accepted, so the gate is strict. |
| Solver.AcceptedRatio | simulations/solver.py:28-36 | Every accepted setup has stability ratio `alpha dt / dx^2 <= 0.5`. |
| Solver.DefaultRatio | simulations/solver.py:30-32 | The automatic `dt` gives stability ratio exactly 0.45. |
| Solver.StepCount | simulations/solver.py:38 | `nt * dt <= t_max < (nt+1) * dt`, so the simulation never runs past `t_max`. |
| Solver.StabilityExamples | tests/test_solver.py:11-34 | With L=1, nx=11, alpha=1, t_max=0.01: `dt = 0.004` is accepted with ratio `0.4`, `dt = 0.006` fails with `StabilityCheckFailed(0.006, 0.005)`, and the automatic `dt` is `0.0045`. |
| Solver.SavedStepsExact | simulations/solver.py:85-86 | Step `n` is saved exactly when `n` is a multiple of `save_interval` or `n` is the last step. |
| Solver.HistoryLength | simulations/solver.py:65-86 | The history holds `1 + nt / k` snapshots, plus one more when `k` does not divide `nt`. |
| Solver.HistoryEntries | simulations/solver.py:65-86 | Snapshot `j` is the field after the `j`-th saved step, and its time is that step times `dt`. |
| Solver.HistoryEnds | simulations/solver.py:61-88 | The first snapshot is `(0, u0)` and the last is `(nt dt, field after nt steps)`. |
| Solver.StepWithin | simulations/solver.py:74-82 | With ratio in `[0, 1/2]` and bounds `lo <= 0 <= hi`, one step keeps every value of a field within `[lo, hi]`. The ends are set to 0. |
| Solver.HistoryWithin | simulations/solver.py:65-86 | With ratio in `[0, 1/2]` and bounds `lo <= 0 <= hi` of the initial field, every saved value lies within those bounds. This is the discrete maximum principle. |
| Solver.MaxNonincreasing | simulations/solver.py:71-86 | With ratio in `[0, 1/2]` and a non-negative start, the maximum after `b` steps never exceeds the maximum after `a <= b` steps. |
| Sweep.EvolvedMaxBelow | simulations/solver.py:71-86 | With ratio in `[0, 1/2]` and a non-negative, non-empty start, the field after any number of steps is non-empty and its maximum is at most the initial maximum. |
| Sweep.HistoryMaxBelow | simulations/sweep.py:103 | No snapshot of such a history has a maximum above the initial field's maximum. |
| Solver.SolveSucceeds | simulations/solver.py:51-88 | With `dx != 0`, a non-empty field and `save_interval >= 1`, `solve` succeeds and returns the history. |
| Solver.HeatEquationSolver1D.constructor | simulations/solver.py:10-40 | The fields equal the configured setup, `x` is the grid, and `u` is all zeros. |
| Solver.HeatEquationSolver1D.Create | simulations/solver.py:10-40 | Returns the stability failure, or a fresh solver whose configuration is the setup. |
| Solver.HeatEquationSolver1D.SetInitialCondition | simulations/solver.py:42-49 | `u` becomes `f(x)`. The grid and the configuration are constants, so they do not change. |
| Solver.HeatEquationSolver1D.Advance | simulations/solver.py:74-82 | `cur` becomes one explicit FTCS step of its old contents, with the interior updated and both ends set to 0. `next` holds the same values. |
| Solver.HeatEquationSolver1D.Solve | simulations/solver.py:51-88 | The result equals `SolveSpec` of the current field and configuration. That is `ZeroDivisionError` when `dx == 0`, because the ratio divides by `dx**2`. Otherwise it is what `Run` returns for that ratio. The method modifies nothing, because the loop works on copies. |
| Solver.HeatEquationSolver1D.Run | simulations/solver.py:61-88 | Returns `Stepped`. With at least one step, an empty field gives `IndexError` (writing `u_new[0]`) and a zero interval gives `ZeroDivisionError` (the save test). With no step, the history is `[(0, u0)]`. Otherwise the history holds `(0, u0)` and then `(n dt, field after n steps)` for every saved step `n`, in order. |
| Solver.HeatEquationSolver1D.Pass | simulations/solver.py:71-86 | After pass `n`, the array holds the field after `n` steps, the clock reads `n * dt` although it was advanced by adding `dt`, and the history has gained step `n` exactly when `n % k == 0` or `n == nt`. |
| Solver.SolveStep | simulations/solver.py:74-86 | One pass of the loop turns the history up to step `n-1` into the history up to step `n`. The running sum `t + dt` equals `n * dt`. |
| Reductions.Max | analysis/metrics.py:34 | An upper bound of all values that is attained. |
| Reductions.Min | analysis/metrics.py:35 | A lower bound of all values that is attained. |
| Reductions.SumSquares | analysis/metrics.py:40 | Never negative. |
| Reductions.MeanBetween | analysis/metrics.py:34-36 | `min <= mean <= max`. |
| Columns.SpatialNames | analysis/metrics.py:27 | Exactly the columns that start with `p`, and no more of them than there are columns. |
| Columns.SuffixOrder | analysis/metrics.py:29 | A permutation of the positions under which the keys never decrease, and equal keys keep their original order. |
| Columns.OrderBySuffix | analysis/metrics.py:29 | Fails with `ValueError` exactly when some suffix is not an integer. Otherwise it returns the same columns as a multiset, in non-decreasing order of their integer suffix: entry `i` is column `SuffixOrder(keys)[i]`, and columns with equal suffixes keep their original order, as Python's stable `list.sort` does. |
| Sorting.PermuteMultiset | analysis/metrics.py:29 | Reordering by a permutation of the positions keeps the multiset of elements, so a sort loses and duplicates nothing. |
| Columns.PNamesInOrder | simulations/sweep.py:70-72 | The columns `p0 … p{m-1}` that the sweep writes are already in suffix order. |
| Columns.SpatialColumnsOfHeader | simulations/sweep.py:70-72 | In the header `time, p0, …`, the spatial columns are exactly `p0 … p{m-1}`. |
| Metrics.ToDict | analysis/metrics.py:46-52 | Exactly the five documented keys, in order and distinct. |
| Metrics.Measure | analysis/metrics.py:31-44 | min ≤ mean ≤ max. Every value lies between min and max, and both are attained. Energy is non-negative for `dx > 0`. The ratio is `alpha dt / dx^2`. |
| Metrics.ComputeRunMetrics | analysis/metrics.py:10-52 | No rows gives `IndexError`, and a bad column suffix gives `ValueError`. The call succeeds exactly when there is a row, every suffix parses, some `p` column exists and `dx != 0`. The result is then `Measure` of the final row's spatial values in suffix order. |
| Metrics.MetricsOfFinalRow | analysis/metrics.py:24-44 | The min/max/mean bounds over the final row's `p` cells. |
| Metrics.OnlyLastRowMeasured | analysis/metrics.py:24 | Two frames with the same final row give the same metrics. |
| Metrics.SweepFrameMeasuresFinal | analysis/metrics.py:24-31 | For the frame the sweep writes, the metrics are those of the last snapshot's field. |
| Metrics.RatioOfAcceptedRun | analysis/metrics.py:44 | For any setup the solver accepts, the computed stability ratio is at most 0.5. |
| Extract.ToJson | scripts/extract_metrics.py:74-80 | An object with exactly the keys `run_id`, `parameter_set`, `performance_metrics`, `quality_metrics`, `execution_metrics`, in that order. |
| Extract.GridSpacing | scripts/extract_metrics.py:55-57 | `dx * (nx-1) == L` for `nx > 1`, and 0 otherwise. |
| Extract.ExtractRunMetrics | scripts/extract_metrics.py:12-82 | A missing file gives `FileNotFoundError`. On success: `converged` holds exactly when the ratio is at most 0.5; `dx` is the grid spacing; the run id is `run_id`, falling back to the directory name. |
| Extract.Defaults | scripts/extract_metrics.py:32-71 | Empty metadata and metrics give the documented defaults. |
| Extract.DtPrecedence | scripts/extract_metrics.py:35 | `dt` is taken first, then `actual_dt`, and 0 when neither is present. |
| Extract.PerformanceOfEngineOutput | scripts/extract_metrics.py:41-47 | The performance block read from `compute_run_metrics`'s dict is the metrics themselves. |
| Extract.SpacingMatchesSolver | scripts/extract_metrics.py:55-57 | The reported `dx` equals the solver's `dx` for the same `L` and `nx`. |
| Extract.NumbersCarriedOver | scripts/extract_metrics.py:32-63 | Numeric metadata and metrics reach the payload unchanged. |
| Extract.ParametersCarriedOver | scripts/extract_metrics.py:32-38 | When `alpha`, `nx`, `dt`, `L` and `t_max` are numbers in the metadata, the parameter set holds exactly those numbers. A present `dt` wins over `actual_dt`. |
| Extract.PerformanceOfNoKeys | scripts/extract_metrics.py:41-47 | A metrics object holding none of the five performance keys reports every metric as 0.0. |
| Validate.OrderingRule | scripts/validate_metrics.py:40-41 | With both temperatures numeric, reports the error exactly when max < min, and the message mentions `max_temp`. A missing temperature raises `TypeError` from comparing `None`. |
| Validate.StabilityRule | scripts/validate_metrics.py:46-52 | With a numeric ratio (0 when absent), reports the error exactly when the ratio exceeds 0.5 and `converged` (true when absent) is truthy. |
| Validate.NegativeRule | scripts/validate_metrics.py:55-60 | A missing key counts as -1 and is reported. A numeric value is reported exactly when it is negative. A non-numeric value raises `TypeError`. |
| Validate.ValidateSpec | scripts/validate_metrics.py:18-62 | Valid exactly when there are no errors. A schema failure yields exactly one error and skips the other rules. At most four errors are reported. |
| Validate.ValidateRunMetrics | scripts/validate_metrics.py:18-62 | Returns `ValidateSpec` of the payload. |
| Validate.RulesInOrder | scripts/validate_metrics.py:35-60 | The errors are the ordering, stability, steps and energy findings, in that order. |
| Validate.OrderingViolationReported | scripts/validate_metrics.py:40-41 | A disordered payload is invalid, and its errors mention it. |
| Validate.StabilityViolationReported | scripts/validate_metrics.py:46-52 | A payload marked converged with a ratio above 0.5 is invalid. |
| Validate.HalfRatioPasses | scripts/validate_metrics.py:49 | A ratio of exactly 0.5 is not a stability error. |
| Validate.StabilityAtHalf | scripts/validate_metrics.py:46-52 | A stored ratio of exactly 0.5 adds no stability error, whatever `converged` says. |
| Validate.OrderingShape | scripts/validate_metrics.py:40-41 | The ordering rule adds either nothing or the one message naming the two values it compared. |
| Validate.OtherRulesOnly | scripts/validate_metrics.py:40-60 | Errors from the ordering, steps and energy rules are never the stability message. |
| Validate.NegativeCountsReported | scripts/validate_metrics.py:55-60 | Negative steps or negative energy make the payload invalid. |
| Validate.ValidateExtractedShape | scripts/validate_metrics.py:35-62 | For an extracted payload that passes the schema, validation succeeds. Its errors are exactly the ordering, stability, steps and energy findings computed from the payload's own fields. |
| Validate.OrderingOfMetrics | scripts/validate_metrics.py:40-41 | On the engine's metrics dict, the ordering rule reports exactly a maximum below the minimum. |
| Validate.StabilityOfMetrics | scripts/validate_metrics.py:46-52 | On the engine's metrics dict, the stability rule reports exactly a ratio above 0.5 on a run marked converged. |
| Validate.StepsOfQuality | scripts/validate_metrics.py:55-56 | On an integer step count, the steps rule reports exactly a negative count. |
| Validate.EnergyOfMetrics | scripts/validate_metrics.py:59-60 | On the engine's metrics dict, the energy rule reports exactly a negative energy. |
| Validate.ConsistentPayloadNeverUnstable | scripts/validate_metrics.py:46-52 | When `converged` agrees with `ratio <= 0.5`, no stability error is reported. |
| Validate.ExtractedNeverUnstable | scripts/validate_metrics.py:46-52 | No payload produced by extraction gets a stability error. |
| Validate.MeasuredRunIsValid | scripts/validate_metrics.py:40-62 | A schema-conforming payload whose metrics are `compute_run_metrics` of a field with `dx > 0`, with non-negative steps and with `converged` agreeing with the ratio, is valid with no errors. |
| Sweep.SortedByKey | simulations/sweep.py:34 | The same entries. When the keys are distinct, they come in strictly increasing key order. |
| Sweep.SortedByKeyIgnoresInsertionOrder | simulations/sweep.py:34 | Two dicts with the same entries sort to the same sequence. |
| Sweep.RunIdShape | simulations/sweep.py:33-35 | For a 32-character digest, the id is `run_` plus its first 8 characters, 12 in all. It is independent of the order in which the parameters were inserted. |
| Sweep.Product | simulations/sweep.py:141-143 | The number of combinations is the product of the axis lengths. |
| Sweep.ProductOrder | simulations/sweep.py:141-143 | Combinations are enumerated in `itertools.product` order: the last axis varies fastest. |
| Sweep.ProductMembers | simulations/sweep.py:141-143 | A combination appears exactly when it picks one value from each axis. |
| Sweep.ProductOnlyChoices | simulations/sweep.py:141-143 | Every combination picks one value from each axis, in axis order. |
| Sweep.ProductAllChoices | simulations/sweep.py:141-143 | Every way of picking one value from each axis is a combination. |
| Sweep.OverrideLookup | simulations/sweep.py:150-153 | After merging, the swept keys map to the combination's values. Every other key keeps its base value. Keys stay distinct. |
| Sweep.OverrideSets | simulations/sweep.py:150-153 | With distinct swept keys, each swept key maps to its value in the combination. |
| Sweep.OverrideKeeps | simulations/sweep.py:150-153 | A key that is not swept keeps its base value, or stays absent. |
| Sweep.OverrideDistinct | simulations/sweep.py:150-153 | Merging keeps the keys of a dict distinct. |
| Sweep.MergeOverrides | simulations/sweep.py:149-153 | Returns `Override` of the base parameters and the combination. |
| Sweep.CollectRows | simulations/sweep.py:68-73 | Returns one row per snapshot (`Rows`). |
| Sweep.RowsLayout | simulations/sweep.py:68-73 | Every row has the header `time, p0 … p{m-1}`, and the snapshot's time and values are under those keys. |
| Sweep.MetadataLookup | simulations/sweep.py:90-93 | The metadata has the parameters plus `actual_dt`, `steps` and `run_id`, and nothing else changes. |
| Sweep.GlobalMax | simulations/sweep.py:103 | An upper bound of every snapshot's maximum, attained by some snapshot. |
| Sweep.MetricsOfHistory | simulations/sweep.py:100-118 | The global max is at least the final max, the final time is `nt * dt` (0 without steps), and the recorded step count is `nt`. |
| Sweep.GlobalMaxIsInitialMax | simulations/sweep.py:103 | With ratio at most 1/2 and a non-negative start, the global max is the initial field's max. |
| Sweep.SweepMetricsUnreadByExtraction | simulations/sweep.py:109-118 | Extraction reads none of the keys the sweep writes, so every performance figure defaults to 0. |
| Sweep.Attempt | simulations/sweep.py:51-128 | Keeps the run id. The attempt succeeds exactly when `L`, `alpha`, `t_max` and `dt` are numbers (or `dt` is absent or None), the solver accepts the setup, there are at least two grid points, and the solve succeeds. A successful attempt carries metrics, and time series and metadata are written together or not at all. |
| Sweep.AttemptFailures | simulations/sweep.py:51-128 | The attempt is a failed-run record when a parameter is not a number, when the solver rejects the setup, in particular when an explicit `dt` exceeds `dx^2/(2 alpha)`, and when the solve fails. |
| Sweep.RunSimulation | simulations/sweep.py:37-128 | Fails exactly when `int()` of `nx` or `save_interval` fails, because those calls sit outside the `try`. Otherwise it returns a record carrying `get_stable_id` of the parameters. |
| Sweep.DefaultSetup | simulations/sweep.py:44-52 | With positive `L` and `alpha`, `nx >= 2` and no `dt`, the solver accepts the configuration with `dx > 0`, `dt > 0` and `nt >= 0`. |
| Sweep.AttemptCompletes | simulations/sweep.py:51-124 | For valid parameters without `dt`, the attempt succeeds. Its time series has `1 + nt / k` rows, plus one when `k` does not divide `nt`. Its metadata is `Metadata` of the setup. |
| Sweep.RunCompletes | simulations/sweep.py:37-124 | For valid parameters without `dt`, `run_simulation` completes. It writes as many rows as the history has, and records the solver's `dt` as `actual_dt`. |
| Sweep.RunAllRecords | simulations/sweep.py:149-156 | A completed sweep has one record per combination, in order, each for the merged parameters. |
| Sweep.RunAllFailure | simulations/sweep.py:149-156 | An exception escaping one run stops the whole sweep. |
| Sweep.RunSweep | simulations/sweep.py:130-156 | Returns `SweepSpec`: the runs over the product of the axes, in order. |
| Sweep.RunCombos | simulations/sweep.py:149-156 | Returns `RunAll`: each combination is merged into a copy of the base parameters and run in order, and the first exception stops the loop. |
| Sweep.BadGridSizeStopsSweep | simulations/sweep.py:44-51 | A combination whose `nx` is not an integer aborts the sweep instead of recording a failed run. |
| Aggregate.ReadJson | analysis/aggregate_runs.py:10-16 | Succeeds exactly for a JSON object and returns its entries. Anything else is `ValueError`. |
| Aggregate.LenientFloat | analysis/aggregate_runs.py:23-29 | `None` exactly when `float()` would raise, and otherwise the converted value. |
| Aggregate.LenientInt | analysis/aggregate_runs.py:32-38 | `None` exactly when `int()` would raise, and otherwise the converted value. |
| Aggregate.RowRunId | analysis/aggregate_runs.py:71 | A row's `run_id` is the metadata's `run_id`, falling back to the directory name. |
| Aggregate.RowEnergy | analysis/aggregate_runs.py:88 | A row's energy is the lenient float of the metric, or `None`. |
| Aggregate.RowPath | analysis/aggregate_runs.py:91 | A row's `run_dir` is the directory path. |
| Aggregate.Dirs | analysis/aggregate_runs.py:58 | Exactly the entries that are directories. |
| Aggregate.VisitOrder | analysis/aggregate_runs.py:58 | The directories, visited in order of their names. |
| Aggregate.Completes | analysis/aggregate_runs.py:60-65 | Exactly the directories that have both JSON files. |
| Aggregate.CollectedRows | analysis/aggregate_runs.py:58-96 | A successful collection is one row per complete directory, in visiting order. |
| Aggregate.CollectedFailure | analysis/aggregate_runs.py:67-68 | Collection fails with `ValueError` exactly when some complete directory holds a JSON file that is not an object. |
| Aggregate.CollectRuns | analysis/aggregate_runs.py:41-96 | Returns `CollectSpec`. A missing root gives `FileNotFoundError`. |
| Aggregate.CsvCells | analysis/aggregate_runs.py:155-165 | One cell per column, holding the row's value rendered and escaped. |
| Aggregate.ValueCell | analysis/aggregate_runs.py:157-165 | Returns `Cell` of the value: empty for `None`, otherwise its text, quoted with doubled quotes exactly when it holds a comma or a quote. |
| Aggregate.WriteSummaryCsv | analysis/aggregate_runs.py:151-166 | Returns `SummaryCsv`, the header line followed by one line per row. |
| Aggregate.RowValues | analysis/aggregate_runs.py:155-165 | Returns `CsvCells` of the row. |
| Aggregate.RecordOfEscaped | analysis/aggregate_runs.py:157-165 | Reading a line of escaped cells back as CSV gives the original texts, commas and quotes included. |
| Aggregate.CsvLineFields | analysis/aggregate_runs.py:155-165 | Each written row reads back as its rendered values. |
| Aggregate.SummaryCsvReadBack | analysis/aggregate_runs.py:151-166 | When no value holds a line break, `summary.csv` splits into the header plus one line per row, and each line reads back as that row. |
| Aggregate.MdTableLines | analysis/aggregate_runs.py:99-113 | The header line, a `---` separator, then one line per row. |
| Aggregate.MdTableReadBack | analysis/aggregate_runs.py:99-113 | For single-line cells, the table text splits back into exactly those lines. |
| Aggregate.KeyCompareRaises | analysis/aggregate_runs.py:183-186 | Two sort keys fail to compare (Python raises `TypeError`) exactly for an absent entry beside a None value, a number beside a string, or an object beside a different non-None value. |
| Aggregate.KeyLessAgrees | analysis/aggregate_runs.py:183-186 | On two rows whose keys Python can compare, the model's key order gives the same answer as Python's tuple `<`. |
| Aggregate.RankOrder | analysis/aggregate_runs.py:183-186 | A permutation of the rows. Missing energies come last, then numbers in non-decreasing order, then strings in code-point order, and equal keys keep their original order. |
| Aggregate.RankingSorted | analysis/aggregate_runs.py:183-186 | When the ranking succeeds, the ranked rows are the rows permuted by `RankOrder`. No row's key is below an earlier row's key under Python's `<`, and rows with equal keys keep their original order. |
| Aggregate.TextAndNoneRank | analysis/aggregate_runs.py:183-186 | When every energy is a string or None, ranking does not raise, and the strings come first, in code-point order. |
| Aggregate.RankingOfOne | analysis/aggregate_runs.py:183-186 | Zero rows or one row are returned as is. |
| Aggregate.CollectedRowsRank | analysis/aggregate_runs.py:88 | Rows from `collect_runs` hold a float or None as energy, and any two such keys compare, so ranking them never raises `TypeError`. |
| Aggregate.RowOfDirEnergy | analysis/aggregate_runs.py:88 | The `energy_like_metric` of a row built from a readable directory is present and is a float or None, never a value that does not compare. |
| Aggregate.TopIsPrefix | analysis/aggregate_runs.py:187 | The top list is the first `min(top_n, |rows|)` ranked rows. |
| Aggregate.Pick | analysis/aggregate_runs.py:173 | One value per header: the row's value, or `None` when the key is absent. |
| Visualize.Cells | scripts/visualize.py:26 | A line always has at least one cell. |
| Visualize.Taken | scripts/visualize.py:23-28 | Each line yields at most one id. |
| Visualize.LineId | scripts/visualize.py:23-28 | Returns `Taken` of the line. |
| Visualize.ExtractRunIds | scripts/visualize.py:13-31 | Returns `ExtractSpec`. A missing file gives `FileNotFoundError`. |
| Visualize.ScanIsPrefix | scripts/visualize.py:22-30 | The ids collected are a prefix of all the ids in the file. |
| Visualize.AtMostMaxN | scripts/visualize.py:22-30 | Collects the first `min(max_n, count)` ids of the file. |
| Visualize.NonPositiveBound | scripts/visualize.py:29-30 | With `max_n <= 0`, only the first line is read, because the bound is tested after each line. The result is that line's id, if it has one. |
| Visualize.HeaderNotTaken | scripts/visualize.py:24 | The table header line (containing `run_id`) yields no id. |
| Visualize.SeparatorNotTaken | scripts/visualize.py:24 | The `---` separator line yields no id. |
| Visualize.RunRowTaken | scripts/visualize.py:23-28 | A table row whose first cell starts with `run_` yields that cell. |
| Visualize.TopRunsReadBack | scripts/visualize.py:13-31 | Reading `top_runs.md` gives the first `min(max_n, |top|)` ids of the ranked rows. |
| Visualize.TopIdsPrefix | analysis/aggregate_runs.py:187-199 | The ids of the top list are a prefix of the ranked ids. |
| Visualize.ArtifactsReadBack | scripts/visualize.py:13-31 | End to end: reading back the `top_runs.md` that aggregation writes gives the ids of the first `min(max_n, top_n, |rows|)` ranked runs. |
| Profiles.Field | visualization/plot_temp_profiles.py:31-32 | `KeyError` exactly when the column is not in the header. |
| Profiles.FieldValue | visualization/plot_temp_profiles.py:31-32 | `KeyError` for a missing column, `TypeError` for a short row, and otherwise the parsed cell. |
| Profiles.ReadValues | visualization/plot_temp_profiles.py:32 | Succeeds exactly when every spatial cell parses, and gives one value per column, in order. |
| Profiles.ReadTimeseries | visualization/plot_temp_profiles.py:10-36 | A missing header gives `MissingHeader`, and no `p` columns gives `NoSpatialColumns`. These are the two `ValueError`s the source raises, with their distinct messages. A bad column suffix gives `ValueError`. |
| Profiles.ReadCsvTimeseries | visualization/plot_temp_profiles.py:10-36 | Returns `ReadTimeseries` of the table. |
| Profiles.RowsFail | visualization/plot_temp_profiles.py:30-34 | Reading succeeds exactly when every non-blank row reads. |
| Profiles.RowsRead | visualization/plot_temp_profiles.py:30-36 | Entry `k` of the result is the reading of the `k`-th non-blank row. |
| Profiles.RowsOfReadings | visualization/plot_temp_profiles.py:30-36 | Rows that each read as a given time and profile read back as exactly those times and profiles, in order. |
| Profiles.SnapshotWidths | visualization/plot_temp_profiles.py:23-36 | Every profile has one value per spatial column. |
| Profiles.WrittenSweep | simulations/sweep.py:68-86 | The CSV the sweep writes has the header `time, p0 …` and one row per snapshot. |
| Profiles.SweepReadBack | visualization/plot_temp_profiles.py:10-36 | Reading the sweep's `timeseries.csv` gives back the history's times and fields, provided rendering and parsing round-trip. |

## Left out

- Floating point: every quantity is an exact `real`, so rounding in the FTCS update, in `dt = 0.9 * limit` and in `t_max / dt` is not modelled.
- `np.linspace`: modelled with exact spacing `L/(nx-1)`. Its floating-point endpoints are not modelled.
- `np.exp(...)` and other initial conditions: these are the parameter `peak`. `set_initial_condition` calls it once per grid point.
- `json.dumps(sort_keys=True)` and `hashlib.md5`: these are the parameter `Sweep.Hashing`. Only the sorting and the 8-character truncation are modelled.
- `jsonschema` validation: this is the parameter `Validate.Schema`. The schema file's content is not part of this model.
- `float()`, `int()`, `str()`, and the `%.3e`/`%.6f`/`%.4f` renderers: these are parameters. Every property that needs them to round-trip states that as a precondition.
- File-system effects are modelled as values: directory listings, `open`/`read`/`write`, `os.makedirs`, `time.perf_counter` (the duration), and `datetime.now()` (the `now` parameter of extraction). Failures of `open` or `makedirs` are not modelled.
- `csv.DictReader`/`csv.writer` tokenising on the reading side: a CSV file arrives as a `Profiles.Table` of cells. The writer's quoting is modelled, and its reading is modelled for the lines aggregation writes.
- Plotting with matplotlib, the CLI argument parsing and `main` wrappers of each script, and logging: these are not part of this model.
- analysis/compute_metrics.py, and the other scripts not named above, are not part of this model.
- JSON decoding is not modelled: `metadata.json` and `metrics.json` arrive already decoded as `Json` values, so a file that `json.load` rejects (a `JSONDecodeError`, a subclass of `ValueError`) is modelled by the same `ValueError` path as an unreadable value. `Json` has no arrays, and no NaN or Infinity.
- Aggregate.Ranking: the model raises `TypeError` whenever some pair of keys fails to compare. Python's sort raises only when it actually compares such a pair, which depends on the input order. When every pair compares, the two rank identically. Objects equal only under Python's looser `==` (different key order, `1 == 1.0`) count as unequal here.
- Solver.MaxNonincreasing: the solver test asserts the final max is strictly below the initial max for its Gaussian start. The model proves the non-strict inequality, which holds for every start; strictness depends on the start.
- Solver.HeatEquationSolver1D.Solve: the clock is the running sum `t += dt`, as in the source; with exact reals it equals `n * dt`, and the floating-point drift between the two is not modelled. Snapshots are values, so aliasing of the saved arrays is not modelled.
- Solver.HeatEquationSolver1D.Run: the two errors of the first pass (an empty field, an interval of 0) are decided before the local arrays are allocated rather than inside the first pass. The arrays are local, so the difference cannot be observed.

## Where the code and its description differ

The model follows the code in each case:

- analysis/compute_metrics.py:22-32 computes run metrics from the persisted `timeseries.csv`. The sweep computes the metrics it writes from the in-memory history instead (simulations/sweep.py:100-118). `Metrics.SweepFrameMeasuresFinal` shows that both give the same final-field statistics.
- The sweep writes metrics under the keys `max_temp_global`, `max_temp_final`, `avg_temp_final`, `total_energy_final`, `convergence_steps`, `final_time`, `dx` and `dt` (simulations/sweep.py:109-118). Extraction reads `max_temperature`, `min_temperature`, `mean_temperature`, `energy_like_metric` and `stability_ratio` (scripts/extract_metrics.py:41-47), so a payload extracted from a sweep run reports zeros (`Sweep.SweepMetricsUnreadByExtraction`).
- `run_simulation` returns `True`/`False` (simulations/sweep.py:124-128), while tests/test_pipeline.py:32-36 expects a path. The model returns the record of the run.
- `int(params.get("nx"))` and `int(params.get("save_interval"))` are evaluated before the `try` (simulations/sweep.py:44-51). A malformed value therefore aborts the whole sweep instead of producing a failed-run record (`Sweep.BadGridSizeStopsSweep`).
- Extraction prefers `dt` over `actual_dt` (scripts/extract_metrics.py:35), while analysis/compute_metrics.py:38 prefers `actual_dt`. Only the former is modelled.
