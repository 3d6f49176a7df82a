/** The metrics engine: the five numbers measured on the final row of a run's timeseries
    table (`compute_run_metrics`). */
module Metrics {
  import opened Wrappers
  import Text
  import Json
  import Columns
  import Reductions
  import Solver

  /** A timeseries table as pandas holds it: named columns and rows of numbers. */
  datatype Frame = Frame(columns: seq<string>, rows: seq<seq<real>>)

  /** What a DataFrame guarantees: column names are unique (pandas renames repeated names when
      it reads a CSV) and every row has one value per column. */
  ghost predicate WellFormed(f: Frame) {
    && (forall i, j :: 0 <= i < j < |f.columns| ==> f.columns[i] != f.columns[j])
    && (forall k :: 0 <= k < |f.rows| ==> |f.rows[k]| == |f.columns|)
  }

  /** The five metrics, under the keys of the dictionary the engine returns. */
  datatype RunMetrics = RunMetrics(
    maxTemperature: real,
    minTemperature: real,
    meanTemperature: real,
    energyLikeMetric: real,
    stabilityRatio: real)

  const MetricKeys: seq<string> :=
    ["max_temperature", "min_temperature", "mean_temperature", "energy_like_metric", "stability_ratio"]

  /** The returned dictionary, in the order the engine builds it. */
  function ToDict(m: RunMetrics): (d: Json.Dict)
    ensures Json.Keys(d) == MetricKeys && Json.DistinctKeys(d)
  {
    [ ("max_temperature", Json.Real(m.maxTemperature)),
      ("min_temperature", Json.Real(m.minTemperature)),
      ("mean_temperature", Json.Real(m.meanTemperature)),
      ("energy_like_metric", Json.Real(m.energyLikeMetric)),
      ("stability_ratio", Json.Real(m.stabilityRatio)) ]
  }

  /** `final_row[p_cols]`: the values of the named columns in a row. */
  function Select(columns: seq<string>, row: seq<real>, names: seq<string>): (u: seq<real>)
    requires |row| == |columns|
    requires forall c :: c in names ==> c in columns
    ensures |u| == |names|
    ensures forall k :: 0 <= k < |names| ==> u[k] == row[IndexOfName(columns, names[k])]
  {
    if names == [] then []
    else
      var i := IndexOfName(columns, names[0]);
      [row[i]] + Select(columns, row, names[1..])
  }

  function IndexOfName(columns: seq<string>, c: string): (i: nat)
    requires c in columns
    ensures i < |columns| && columns[i] == c
  {
    if columns[0] == c then 0 else 1 + IndexOfName(columns[1..], c)
  }

  /** With unique names, a name's column is the one that carries it. */
  lemma IndexOfUnique(columns: seq<string>, i: nat)
    requires i < |columns|
    requires forall a, b :: 0 <= a < b < |columns| ==> columns[a] != columns[b]
    ensures IndexOfName(columns, columns[i]) == i
  {
    var j := IndexOfName(columns, columns[i]);
    assert columns[j] == columns[i];
  }

  /** The five reductions of a final profile `u`. */
  function Measure(u: seq<real>, dx: real, dt: real, alpha: real): (m: RunMetrics)
    requires u != [] && dx != 0.0
    ensures m.minTemperature <= m.meanTemperature <= m.maxTemperature
    ensures forall i :: 0 <= i < |u| ==> m.minTemperature <= u[i] <= m.maxTemperature
    ensures (exists i :: 0 <= i < |u| && u[i] == m.maxTemperature)
    ensures exists i :: 0 <= i < |u| && u[i] == m.minTemperature
    ensures dx > 0.0 ==> m.energyLikeMetric >= 0.0
    ensures m.stabilityRatio == Solver.Ratio(alpha, dt, dx)
  {
    Reductions.MeanBetween(u);
    NonnegScaled(Reductions.SumSquares(u), dx);
    RunMetrics(
      Reductions.Max(u),
      Reductions.Min(u),
      Reductions.Mean(u),
      Reductions.SumSquares(u) * dx,
      Solver.Ratio(alpha, dt, dx))
  }

  lemma NonnegScaled(s: real, dx: real)
    requires s >= 0.0
    ensures dx > 0.0 ==> s * dx >= 0.0
  {
  }

  /** `compute_run_metrics(df, dx, dt, alpha)`, with the exception of each step: `iloc[-1]` of
      an empty table (IndexError), a `p` column whose suffix is not an integer (ValueError),
      `np.max` of no values (ValueError) and `dx**2 == 0` (ZeroDivisionError). */
  function ComputeRunMetrics(f: Frame, dx: real, dt: real, alpha: real, p: Json.Parsers): (r: Result<RunMetrics, Exception>)
    requires WellFormed(f)
    ensures f.rows == [] ==> r == Failure(IndexError)
    ensures f.rows != [] && Columns.OrderBySuffix(Columns.SpatialNames(f.columns), p).Failure? ==>
      r == Failure(ValueError)
    ensures r.Success? <==>
      && f.rows != []
      && Columns.OrderBySuffix(Columns.SpatialNames(f.columns), p).Success?
      && (exists c :: c in f.columns && Text.StartsWith(c, "p"))
      && dx != 0.0
    ensures r.Success? ==> r.value == Measure(SpatialValues(f, p), dx, dt, alpha)
  {
    if f.rows == [] then Failure(IndexError)
    else
      match Columns.OrderBySuffix(Columns.SpatialNames(f.columns), p)
      case Failure(e) => Failure(e)
      case Success(pcols) =>
        if pcols == [] then
          assert forall c :: c in f.columns ==> !Text.StartsWith(c, "p");
          Failure(ValueError)
        else if dx == 0.0 then Failure(ZeroDivisionError)
        else
          assert pcols[0] in Columns.SpatialNames(f.columns);
          Success(Measure(SpatialValues(f, p), dx, dt, alpha))
  }

  /** `final_row[p_cols]` with `p_cols` in suffix order. */
  function SpatialValues(f: Frame, p: Json.Parsers): (u: seq<real>)
    requires WellFormed(f) && f.rows != []
    requires Columns.OrderBySuffix(Columns.SpatialNames(f.columns), p).Success?
    ensures |u| == |Columns.OrderBySuffix(Columns.SpatialNames(f.columns), p).value|
  {
    Select(f.columns, f.rows[|f.rows| - 1], Columns.OrderBySuffix(Columns.SpatialNames(f.columns), p).value)
  }

  /** The metrics bound and attain the values of the spatial columns of the last row. */
  lemma MetricsOfFinalRow(f: Frame, dx: real, dt: real, alpha: real, p: Json.Parsers)
    requires WellFormed(f) && ComputeRunMetrics(f, dx, dt, alpha, p).Success?
    ensures var m := ComputeRunMetrics(f, dx, dt, alpha, p).value; var last := f.rows[|f.rows| - 1];
      && (forall i :: 0 <= i < |f.columns| && Text.StartsWith(f.columns[i], "p") ==>
            m.minTemperature <= last[i] <= m.maxTemperature)
      && (exists i :: 0 <= i < |f.columns| && Text.StartsWith(f.columns[i], "p") && last[i] == m.maxTemperature)
      && (exists i :: 0 <= i < |f.columns| && Text.StartsWith(f.columns[i], "p") && last[i] == m.minTemperature)
      && m.minTemperature <= m.meanTemperature <= m.maxTemperature
      && (dx > 0.0 ==> m.energyLikeMetric >= 0.0)
      && m.stabilityRatio == Solver.Ratio(alpha, dt, dx)
  {
    var m := ComputeRunMetrics(f, dx, dt, alpha, p).value;
    var names := Columns.SpatialNames(f.columns);
    var pcols := Columns.OrderBySuffix(names, p).value;
    var last := f.rows[|f.rows| - 1];
    var u := SpatialValues(f, p);
    assert u == Select(f.columns, last, pcols);
    assert pcols != [] by {
      var c :| c in f.columns && Text.StartsWith(c, "p");
      assert c in names;
    }
    assert m == Measure(u, dx, dt, alpha);
    SelectCovers(f.columns, last, pcols, m);
  }

  /** The selected values are exactly the values of the spatial columns, so bounds on the
      ones are bounds on the others. */
  lemma SelectCovers(columns: seq<string>, row: seq<real>, pcols: seq<string>, m: RunMetrics)
    requires |row| == |columns| && pcols != []
    requires forall c :: c in pcols <==> c in columns && Text.StartsWith(c, "p")
    requires forall i, j :: 0 <= i < j < |columns| ==> columns[i] != columns[j]
    requires var u := Select(columns, row, pcols);
      && (forall k :: 0 <= k < |u| ==> m.minTemperature <= u[k] <= m.maxTemperature)
      && (exists k :: 0 <= k < |u| && u[k] == m.maxTemperature)
      && (exists k :: 0 <= k < |u| && u[k] == m.minTemperature)
    ensures forall i :: 0 <= i < |columns| && Text.StartsWith(columns[i], "p") ==>
      m.minTemperature <= row[i] <= m.maxTemperature
    ensures exists i :: 0 <= i < |columns| && Text.StartsWith(columns[i], "p") && row[i] == m.maxTemperature
    ensures exists i :: 0 <= i < |columns| && Text.StartsWith(columns[i], "p") && row[i] == m.minTemperature
  {
    var u := Select(columns, row, pcols);
    forall i | 0 <= i < |columns| && Text.StartsWith(columns[i], "p")
      ensures m.minTemperature <= row[i] <= m.maxTemperature
    {
      assert columns[i] in pcols;
      var k :| 0 <= k < |pcols| && pcols[k] == columns[i];
      IndexOfUnique(columns, i);
    }
    var kmax :| 0 <= kmax < |u| && u[kmax] == m.maxTemperature;
    var imax := IndexOfName(columns, pcols[kmax]);
    assert pcols[kmax] in pcols;
    var kmin :| 0 <= kmin < |u| && u[kmin] == m.minTemperature;
    var imin := IndexOfName(columns, pcols[kmin]);
    assert pcols[kmin] in pcols;
  }

  /** Only the last row is measured: any earlier rows can be dropped or changed. */
  lemma OnlyLastRowMeasured(columns: seq<string>, rows: seq<seq<real>>, other: seq<seq<real>>, dx: real, dt: real, alpha: real, p: Json.Parsers)
    requires rows != [] && other != [] && rows[|rows| - 1] == other[|other| - 1]
    requires WellFormed(Frame(columns, rows)) && WellFormed(Frame(columns, other))
    ensures ComputeRunMetrics(Frame(columns, rows), dx, dt, alpha, p) ==
            ComputeRunMetrics(Frame(columns, other), dx, dt, alpha, p)
  {
    var f, g := Frame(columns, rows), Frame(columns, other);
    if Columns.OrderBySuffix(Columns.SpatialNames(columns), p).Success? {
      assert f.rows[|f.rows| - 1] == g.rows[|g.rows| - 1];
      assert SpatialValues(f, p) == SpatialValues(g, p);
    }
  }

  // ---------------------------------------------------------------------------
  // The table the sweep writes

  /** One row per history entry: the time, then the profile. */
  function SweepFrame(history: seq<Solver.Snapshot>, m: nat): (f: Frame)
    requires forall e :: e in history ==> |e.field| == m
    ensures WellFormed(f) && |f.rows| == |history|
  {
    Columns.HeaderDistinct(m);
    Frame(Columns.Header(m), seq(|history|, k requires 0 <= k < |history| => [history[k].time] + history[k].field))
  }

  /** Measuring the table of a history measures its final profile, point by point in grid
      order (p10 after p9). */
  lemma SweepFrameMeasuresFinal(history: seq<Solver.Snapshot>, m: nat, dx: real, dt: real, alpha: real, p: Json.Parsers)
    requires history != [] && m >= 1 && dx != 0.0
    requires forall e :: e in history ==> |e.field| == m
    requires Columns.ReadsDecimal(p)
    ensures ComputeRunMetrics(SweepFrame(history, m), dx, dt, alpha, p) ==
            Success(Measure(history[|history| - 1].field, dx, dt, alpha))
  {
    var f := SweepFrame(history, m);
    var final := history[|history| - 1];
    assert f.rows[|f.rows| - 1] == [final.time] + final.field;
    Columns.SpatialColumnsOfHeader(m);
    Columns.PNamesInOrder(m, p);
    SelectHeader(final.time, final.field, m);
    assert SpatialValues(f, p) == final.field;
    assert f.columns[1] == Columns.PName(0) && Text.StartsWith(f.columns[1], "p");
  }

  /** Selecting `p0, ..., p{m-1}` from a row laid out under the sweep's header gives back the
      profile. */
  lemma SelectHeader(t: real, field: seq<real>, m: nat)
    requires |field| == m
    ensures Select(Columns.Header(m), [t] + field, Columns.PNames(m)) == field
  {
    var columns, row, pcols := Columns.Header(m), [t] + field, Columns.PNames(m);
    assert forall k :: 0 <= k < m ==> columns[k + 1] == pcols[k];
    var u := Select(columns, row, pcols);
    Columns.HeaderDistinct(m);
    forall k | 0 <= k < m ensures u[k] == field[k] {
      IndexOfUnique(columns, k + 1);
    }
  }

  /** Fed the solver's own `dx` and `dt`, the stability ratio of the metrics is the solver's
      `r`, at most 0.5 for any run the constructor accepted with `alpha > 0`. */
  lemma RatioOfAcceptedRun(L: real, nx: int, alpha: real, tMax: real, dt: Option<real>, u: seq<real>)
    requires alpha > 0.0 && L != 0.0 && u != []
    requires Solver.Configure(L, nx, alpha, tMax, dt).Success?
    ensures var s := Solver.Configure(L, nx, alpha, tMax, dt).value;
      s.dx != 0.0 && Measure(u, s.dx, s.dt, alpha).stabilityRatio <= 0.5
  {
    Solver.AcceptedRatio(L, nx, alpha, tMax, dt);
  }
}
