/** Reading a run's `timeseries.csv` back into times and temperature snapshots
    (`_read_csv_timeseries`). The file arrives as what `csv.DictReader` sees: the header row
    (`None` for an empty file) and the data rows as lists of cell texts; tokenising the CSV text
    is not modelled. Number parsing is a parameter. */
module Profiles {
  import opened Wrappers
  import Json
  import Columns
  import Solver
  import Sweep

  datatype Table = Table(header: Option<seq<string>>, rows: seq<seq<string>>)

  /** `(times, snapshots)`. */
  datatype Profile = Profile(times: seq<real>, snapshots: seq<seq<real>>)

  /** Position of the last column named `c`: a dict built from the header keeps the value of
      the last column of a repeated name. */
  function LastIndexOf(names: seq<string>, c: string): (r: Option<nat>)
    ensures r.Some? <==> c in names
    ensures r.Some? ==> r.value < |names| && names[r.value] == c
    ensures r.Some? ==> forall j :: r.value < j < |names| ==> names[j] != c
    decreases |names|
  {
    if names == [] then None
    else if names[|names| - 1] == c then Some(|names| - 1)
    else LastIndexOf(names[..|names| - 1], c)
  }

  /** `row[c]` for a DictReader row: the cell under column `c`, None (the reader's `restval`)
      when the row is too short to reach it, KeyError when the header has no such column. */
  function Field(header: seq<string>, row: seq<string>, c: string): (r: Result<Json.Json, Exception>)
    ensures r.Failure? <==> c !in header
    ensures r.Failure? ==> r.error == KeyError
  {
    match LastIndexOf(header, c)
    case None => Failure(KeyError)
    case Some(j) => Success(if j < |row| then Json.Str(row[j]) else Json.Null)
  }

  /** `float(row[c])`: KeyError for an unknown column, TypeError (`float(None)`) for a row too
      short to reach it, ValueError for a cell that is not a number. */
  function FieldValue(header: seq<string>, row: seq<string>, c: string, p: Json.Parsers): (r: Result<real, Exception>)
    ensures c !in header ==> r == Failure(KeyError)
    ensures c in header && LastIndexOf(header, c).value >= |row| ==> r == Failure(TypeError)
    ensures c in header && LastIndexOf(header, c).value < |row| ==>
      r == match p.parseFloat(row[LastIndexOf(header, c).value])
           case Some(x) => Success(x)
           case None => Failure(ValueError)
  {
    var v :- Field(header, row, c);
    Json.FloatOf(v, p)
  }

  /** `[float(row[c]) for c in p_cols]`: one value per column, in column order; the first
      column that does not read raises. */
  function ReadValues(header: seq<string>, pcols: seq<string>, row: seq<string>, p: Json.Parsers): (r: Result<seq<real>, Exception>)
    ensures r.Success? <==> forall i :: 0 <= i < |pcols| ==> FieldValue(header, row, pcols[i], p).Success?
    ensures r.Success? ==> |r.value| == |pcols|
    ensures r.Success? ==> forall i :: 0 <= i < |pcols| ==> r.value[i] == FieldValue(header, row, pcols[i], p).value
    decreases |pcols|
  {
    if pcols == [] then Success([])
    else
      var x :- FieldValue(header, row, pcols[0], p);
      var xs :- ReadValues(header, pcols[1..], row, p);
      Success([x] + xs)
  }

  /** One data row: its time first, then its values. */
  function ReadRow(header: seq<string>, pcols: seq<string>, row: seq<string>, p: Json.Parsers): Result<(real, seq<real>), Exception> {
    var t :- FieldValue(header, row, "time", p);
    var u :- ReadValues(header, pcols, row, p);
    Success((t, u))
  }

  /** The rows the reader yields: blank lines are skipped. */
  function NonBlank(rows: seq<seq<string>>): (r: seq<seq<string>>)
    ensures |r| <= |rows|
    ensures forall k :: 0 <= k < |r| ==> r[k] != []
    decreases |rows|
  {
    if rows == [] then []
    else if rows[0] == [] then NonBlank(rows[1..])
    else [rows[0]] + NonBlank(rows[1..])
  }

  /** The loop over the reader's rows, stopping at the first row that does not read. */
  function ReadRows(header: seq<string>, pcols: seq<string>, rows: seq<seq<string>>, p: Json.Parsers): Result<Profile, Exception>
    decreases |rows|
  {
    if rows == [] then Success(Profile([], []))
    else if rows[0] == [] then ReadRows(header, pcols, rows[1..], p)
    else
      var first :- ReadRow(header, pcols, rows[0], p);
      var rest :- ReadRows(header, pcols, rows[1..], p);
      Success(Profile([first.0] + rest.times, [first.1] + rest.snapshots))
  }

  /** `_read_csv_timeseries(path)`. */
  function ReadTimeseries(t: Table, p: Json.Parsers): (r: Result<Profile, Exception>)
    ensures t.header.None? ==> r == Failure(MissingHeader)
    ensures t.header.Some? && Columns.SpatialNames(t.header.value) == [] ==> r == Failure(NoSpatialColumns)
    ensures t.header.Some? && Columns.OrderBySuffix(Columns.SpatialNames(t.header.value), p).Failure? ==> r == Failure(ValueError)
  {
    match t.header
    case None => Failure(MissingHeader)
    case Some(header) =>
      var pcols := Columns.SpatialNames(header);
      if pcols == [] then Failure(NoSpatialColumns)
      else
        var ordered :- Columns.OrderBySuffix(pcols, p);
        ReadRows(header, ordered, t.rows, p)
  }

  function Prepend(times: seq<real>, snapshots: seq<seq<real>>, r: Result<Profile, Exception>): Result<Profile, Exception> {
    match r
    case Failure(e) => Failure(e)
    case Success(q) => Success(Profile(times + q.times, snapshots + q.snapshots))
  }

  /** One turn of the row loop. */
  lemma ReadRowsStep(header: seq<string>, pcols: seq<string>, rows: seq<seq<string>>, i: nat, p: Json.Parsers,
                     times: seq<real>, snapshots: seq<seq<real>>)
    requires i < |rows|
    ensures Prepend(times, snapshots, ReadRows(header, pcols, rows[i..], p)) ==
      if rows[i] == [] then Prepend(times, snapshots, ReadRows(header, pcols, rows[i + 1..], p))
      else match ReadRow(header, pcols, rows[i], p)
        case Failure(e) => Failure(e)
        case Success(x) => Prepend(times + [x.0], snapshots + [x.1], ReadRows(header, pcols, rows[i + 1..], p))
  {
    assert rows[i..][0] == rows[i] && rows[i..][1..] == rows[i + 1..];
    if rows[i] != [] && ReadRow(header, pcols, rows[i], p).Success? {
      var x := ReadRow(header, pcols, rows[i], p).value;
      match ReadRows(header, pcols, rows[i + 1..], p) {
        case Failure(_) =>
        case Success(q) =>
          assert times + ([x.0] + q.times) == times + [x.0] + q.times;
          assert snapshots + ([x.1] + q.snapshots) == snapshots + [x.1] + q.snapshots;
      }
    }
  }

  /** The reading loop: the header checks, the in-place sort of the spatial columns, then one
      time and one snapshot appended per data row. */
  method ReadCsvTimeseries(t: Table, p: Json.Parsers) returns (r: Result<Profile, Exception>)
    ensures r == ReadTimeseries(t, p)
  {
    if t.header.None? {
      return Failure(MissingHeader);
    }
    var header := t.header.value;
    var pcols := Columns.SpatialNames(header);
    if pcols == [] {
      return Failure(NoSpatialColumns);
    }
    var ordered := Columns.OrderBySuffix(pcols, p);
    if ordered.Failure? {
      return Failure(ordered.error);
    }
    pcols := ordered.value;
    ghost var spec := ReadRows(header, pcols, t.rows, p);
    var times: seq<real> := [];
    var snapshots: seq<seq<real>> := [];
    var i := 0;
    assert t.rows[0..] == t.rows;
    match spec {
      case Failure(_) =>
      case Success(q) => assert [] + q.times == q.times && [] + q.snapshots == q.snapshots;
    }
    while i < |t.rows|
      invariant 0 <= i <= |t.rows|
      invariant spec == Prepend(times, snapshots, ReadRows(header, pcols, t.rows[i..], p))
      decreases |t.rows| - i
    {
      ReadRowsStep(header, pcols, t.rows, i, p, times, snapshots);
      if t.rows[i] != [] {
        var row := ReadRow(header, pcols, t.rows[i], p);
        if row.Failure? {
          return Failure(row.error);
        }
        times := times + [row.value.0];
        snapshots := snapshots + [row.value.1];
      }
      i := i + 1;
    }
    assert t.rows[i..] == [];
    assert times + [] == times && snapshots + [] == snapshots;
    return Success(Profile(times, snapshots));
  }

  /** Every one of the given rows reads. */
  predicate AllRead(header: seq<string>, pcols: seq<string>, data: seq<seq<string>>, p: Json.Parsers) {
    forall k :: 0 <= k < |data| ==> ReadRow(header, pcols, data[k], p).Success?
  }

  /** The loop succeeds exactly when every data row reads: it fails on the first that does not. */
  lemma {:induction false} RowsFail(header: seq<string>, pcols: seq<string>, rows: seq<seq<string>>, p: Json.Parsers)
    ensures ReadRows(header, pcols, rows, p).Success? <==> AllRead(header, pcols, NonBlank(rows), p)
    decreases |rows|
  {
    if rows != [] {
      RowsFail(header, pcols, rows[1..], p);
      if rows[0] != [] {
        var data, rest := NonBlank(rows), NonBlank(rows[1..]);
        assert data == [rows[0]] + rest;
        assert AllRead(header, pcols, data, p) <==>
          ReadRow(header, pcols, rows[0], p).Success? && AllRead(header, pcols, rest, p) by {
          assert data[0] == rows[0];
          assert forall k :: 0 <= k < |rest| ==> data[k + 1] == rest[k];
        }
      }
    }
  }

  /** `times` and `snapshots` have one entry per data row, in file order, each the reading of
      that row. */
  lemma {:induction false} RowsRead(header: seq<string>, pcols: seq<string>, rows: seq<seq<string>>, p: Json.Parsers)
    requires ReadRows(header, pcols, rows, p).Success?
    ensures var q, data := ReadRows(header, pcols, rows, p).value, NonBlank(rows);
      && |q.times| == |data| && |q.snapshots| == |data|
      && forall k :: 0 <= k < |data| ==> ReadRow(header, pcols, data[k], p) == Success((q.times[k], q.snapshots[k]))
    decreases |rows|
  {
    if rows != [] {
      RowsRead(header, pcols, rows[1..], p);
      if rows[0] != [] {
        var data, rest := NonBlank(rows), NonBlank(rows[1..]);
        var first := ReadRow(header, pcols, rows[0], p).value;
        var q, q' := ReadRows(header, pcols, rows, p).value, ReadRows(header, pcols, rows[1..], p).value;
        assert data == [rows[0]] + rest;
        assert q.times == [first.0] + q'.times && q.snapshots == [first.1] + q'.snapshots;
        forall k | 0 <= k < |data| ensures ReadRow(header, pcols, data[k], p) == Success((q.times[k], q.snapshots[k])) {
          if k > 0 {
            assert data[k] == rest[k - 1];
          }
        }
      }
    }
  }

  /** Rows that all read, and read as the given times and snapshots, give those back. */
  lemma {:induction false} RowsOfReadings(header: seq<string>, pcols: seq<string>, rows: seq<seq<string>>, p: Json.Parsers,
                                          times: seq<real>, snapshots: seq<seq<real>>)
    requires |times| == |rows| && |snapshots| == |rows|
    requires forall k :: 0 <= k < |rows| ==> rows[k] != [] && ReadRow(header, pcols, rows[k], p) == Success((times[k], snapshots[k]))
    ensures ReadRows(header, pcols, rows, p) == Success(Profile(times, snapshots))
    decreases |rows|
  {
    if rows != [] {
      assert rows[0] != [] && ReadRow(header, pcols, rows[0], p) == Success((times[0], snapshots[0]));
      var rest, ts, ss := rows[1..], times[1..], snapshots[1..];
      forall k | 0 <= k < |rest| ensures rest[k] != [] && ReadRow(header, pcols, rest[k], p) == Success((ts[k], ss[k])) {
        assert rest[k] == rows[k + 1] && ts[k] == times[k + 1] && ss[k] == snapshots[k + 1];
      }
      RowsOfReadings(header, pcols, rest, p, ts, ss);
      ReadRowsCons(header, pcols, rows, p, (times[0], snapshots[0]), Profile(ts, ss));
      assert times == [times[0]] + ts && snapshots == [snapshots[0]] + ss;
    }
  }

  /** One step of the loop over a non-blank first row that reads. */
  lemma ReadRowsCons(header: seq<string>, pcols: seq<string>, rows: seq<seq<string>>, p: Json.Parsers,
                     first: (real, seq<real>), rest: Profile)
    requires rows != [] && rows[0] != []
    requires ReadRow(header, pcols, rows[0], p) == Success(first)
    requires ReadRows(header, pcols, rows[1..], p) == Success(rest)
    ensures ReadRows(header, pcols, rows, p) == Success(Profile([first.0] + rest.times, [first.1] + rest.snapshots))
  {
  }

  /** Every snapshot has one value per spatial column of the header. */
  lemma SnapshotWidths(t: Table, p: Json.Parsers)
    requires ReadTimeseries(t, p).Success?
    ensures var q := ReadTimeseries(t, p).value;
      && |q.times| == |q.snapshots| == |NonBlank(t.rows)|
      && forall k :: 0 <= k < |q.snapshots| ==> |q.snapshots[k]| == |Columns.SpatialNames(t.header.value)|
  {
    var header := t.header.value;
    var ordered := Columns.OrderBySuffix(Columns.SpatialNames(header), p).value;
    RowsRead(header, ordered, t.rows, p);
    var q := ReadTimeseries(t, p).value;
    var data := NonBlank(t.rows);
    forall k | 0 <= k < |q.snapshots| ensures |q.snapshots[k]| == |ordered| {
      assert ReadRow(header, ordered, data[k], p) == Success((q.times[k], q.snapshots[k]));
    }
  }

  // ---------------------------------------------------------------------------
  // Reading back what the sweep writes

  /** What `csv.DictWriter` writes for the sweep's rows, as the reader sees it: the keys of the
      first row as the header, then each row's values in order, each number printed by `show`
      (the sweep writes only numbers). An empty history writes no header. */
  function WrittenTable(data: seq<Json.Dict>, show: real -> string): Table {
    Table(if data == [] then None else Some(Json.Keys(data[0])),
          seq(|data|, k requires 0 <= k < |data| => WrittenRow(data[k], show)))
  }

  function WrittenRow(d: Json.Dict, show: real -> string): (cells: seq<string>)
    ensures |cells| == |d|
  {
    seq(|d|, i requires 0 <= i < |d| => if d[i].1.Real? then show(d[i].1.r) else "")
  }

  /** The sweep's rows for a history of profiles of `m` points are written as the header
      `time, p0, ..., p{m-1}` and one line per entry: its time, then its profile. */
  lemma WrittenSweep(history: seq<Solver.Snapshot>, m: nat, show: real -> string)
    requires history != [] && forall e :: e in history ==> |e.field| == m
    ensures var t := WrittenTable(Sweep.Rows(history), show);
      && t.header == Some(Columns.Header(m)) && |t.rows| == |history|
      && forall k :: 0 <= k < |history| ==> t.rows[k] == SweepRow(history[k], show)
  {
    Sweep.RowsLayout(history, m);
    var data := Sweep.Rows(history);
    forall k | 0 <= k < |history| ensures WrittenRow(data[k], show) == SweepRow(history[k], show) {
      WrittenSweepRow(history[k], show);
    }
  }

  /** One history entry is written as its time, then its profile. */
  lemma WrittenSweepRow(e: Solver.Snapshot, show: real -> string)
    ensures WrittenRow(Sweep.RowOf(e), show) == SweepRow(e, show)
  {
    var d := Sweep.RowOf(e);
    var w, s := WrittenRow(d, show), SweepRow(e, show);
    forall i | 0 <= i < |w| ensures w[i] == s[i] {
      if i > 0 { assert d[i].1 == Json.Real(e.field[i - 1]); }
    }
  }

  function SweepRow(e: Solver.Snapshot, show: real -> string): (cells: seq<string>)
    ensures |cells| == 1 + |e.field|
    ensures cells[0] == show(e.time) && forall i :: 0 <= i < |e.field| ==> cells[i + 1] == show(e.field[i])
  {
    [show(e.time)] + seq(|e.field|, i requires 0 <= i < |e.field| => show(e.field[i]))
  }

  /** Printing then parsing a number gives it back. */
  ghost predicate ParsesBack(show: real -> string, p: Json.Parsers) {
    forall x :: p.parseFloat(show(x)) == Some(x)
  }

  /** A column of the sweep's header sits at its own position. */
  lemma HeaderField(m: nat, row: seq<string>, j: nat)
    requires j < 1 + m && |row| == 1 + m
    ensures Field(Columns.Header(m), row, Columns.Header(m)[j]) == Success(Json.Str(row[j]))
  {
    var h := Columns.Header(m);
    Columns.HeaderDistinct(m);
    var r := LastIndexOf(h, h[j]);
    assert r.Some?;
    assert r.value == j;
  }

  /** Each number of a row the sweep wrote reads back. */
  lemma SweepCellReads(e: Solver.Snapshot, m: nat, show: real -> string, p: Json.Parsers, j: nat)
    requires |e.field| == m && ParsesBack(show, p) && j < 1 + m
    ensures FieldValue(Columns.Header(m), SweepRow(e, show), Columns.Header(m)[j], p) ==
      Success(if j == 0 then e.time else e.field[j - 1])
  {
    var row := SweepRow(e, show);
    HeaderField(m, row, j);
    assert row[j] == show(if j == 0 then e.time else e.field[j - 1]);
  }

  /** Columns that each read as the given values read as those values, in order. */
  lemma ValuesOfReadings(header: seq<string>, pcols: seq<string>, row: seq<string>, p: Json.Parsers, vals: seq<real>)
    requires |vals| == |pcols|
    requires forall i :: 0 <= i < |pcols| ==> FieldValue(header, row, pcols[i], p) == Success(vals[i])
    ensures ReadValues(header, pcols, row, p) == Success(vals)
  {
    var r := ReadValues(header, pcols, row, p);
    assert r.Success?;
    assert forall i :: 0 <= i < |pcols| ==> r.value[i] == vals[i];
    assert r.value == vals;
  }

  /** A row the sweep wrote reads back as its time and profile. */
  lemma SweepRowReads(e: Solver.Snapshot, m: nat, show: real -> string, p: Json.Parsers)
    requires |e.field| == m && ParsesBack(show, p)
    ensures ReadRow(Columns.Header(m), Columns.PNames(m), SweepRow(e, show), p) == Success((e.time, e.field))
  {
    var h, row, ps := Columns.Header(m), SweepRow(e, show), Columns.PNames(m);
    assert FieldValue(h, row, "time", p) == Success(e.time) by {
      SweepCellReads(e, m, show, p, 0);
      assert h[0] == "time";
    }
    assert ReadValues(h, ps, row, p) == Success(e.field) by {
      forall i | 0 <= i < m ensures FieldValue(h, row, ps[i], p) == Success(e.field[i]) {
        SweepCellReads(e, m, show, p, i + 1);
        assert h[i + 1] == ps[i];
      }
      ValuesOfReadings(h, ps, row, p, e.field);
    }
  }

  /** Reading the timeseries the sweep writes returns its history: the times, and the profiles
      point by point in grid order. */
  lemma SweepReadBack(history: seq<Solver.Snapshot>, m: nat, show: real -> string, p: Json.Parsers)
    requires history != [] && m >= 1 && forall e :: e in history ==> |e.field| == m
    requires ParsesBack(show, p) && Columns.ReadsDecimal(p)
    ensures ReadTimeseries(WrittenTable(Sweep.Rows(history), show), p) ==
      Success(Profile(seq(|history|, k requires 0 <= k < |history| => history[k].time),
                      seq(|history|, k requires 0 <= k < |history| => history[k].field)))
  {
    var t := WrittenTable(Sweep.Rows(history), show);
    WrittenSweep(history, m, show);
    Columns.SpatialColumnsOfHeader(m);
    Columns.PNamesInOrder(m, p);
    SweepRowsRead(history, m, show, p);
  }

  /** The written lines of the sweep read back as the entries' times and profiles. */
  lemma SweepRowsRead(history: seq<Solver.Snapshot>, m: nat, show: real -> string, p: Json.Parsers)
    requires history != [] && m >= 1 && forall e :: e in history ==> |e.field| == m
    requires ParsesBack(show, p) && Columns.ReadsDecimal(p)
    ensures ReadRows(Columns.Header(m), Columns.PNames(m), WrittenTable(Sweep.Rows(history), show).rows, p) ==
      Success(Profile(seq(|history|, k requires 0 <= k < |history| => history[k].time),
                      seq(|history|, k requires 0 <= k < |history| => history[k].field)))
  {
    var t := WrittenTable(Sweep.Rows(history), show);
    WrittenSweep(history, m, show);
    var times := seq(|history|, k requires 0 <= k < |history| => history[k].time);
    var fields := seq(|history|, k requires 0 <= k < |history| => history[k].field);
    Columns.PNamesInOrder(m, p);
    assert Columns.PNames(m) != [];
    forall k | 0 <= k < |history|
      ensures t.rows[k] != [] && ReadRow(Columns.Header(m), Columns.PNames(m), t.rows[k], p) == Success((times[k], fields[k]))
    {
      assert history[k] in history;
      SweepRowReads(history[k], m, show, p);
    }
    RowsOfReadings(Columns.Header(m), Columns.PNames(m), t.rows, p, times, fields);
  }
}
