/** Aggregation of finished runs (`analysis/aggregate_runs.py`): lenient number coercion, the
    flattening of each complete run directory into one row, and the three summary texts —
    `summary.csv`, `summary.md` and `top_runs.md` — written from those rows. Directory
    listings and file contents are inputs; the texts are returned instead of written. */
module Aggregate {
  import opened Wrappers
  import Text
  import Json
  import Sorting

  // ---------------------------------------------------------------------------
  // Lenient coercion: `_to_float`, `_to_int`

  /** `_to_float(v)`: the number `float(v)` gives, or None wherever `float(v)` would raise. */
  function LenientFloat(v: Json.Json, p: Json.Parsers): (r: Option<real>)
    ensures r.Some? <==> Json.FloatOf(v, p).Success?
    ensures r.Some? ==> r.value == Json.FloatOf(v, p).value
  {
    if v == Json.Null then None
    else match Json.FloatOf(v, p)
      case Success(x) => Some(x)
      case Failure(_) => None
  }

  /** `_to_int(v)`: the number `int(v)` gives, or None wherever `int(v)` would raise. */
  function LenientInt(v: Json.Json, p: Json.Parsers): (r: Option<int>)
    ensures r.Some? <==> Json.IntOf(v, p).Success?
    ensures r.Some? ==> r.value == Json.IntOf(v, p).value
  {
    if v == Json.Null then None
    else match Json.IntOf(v, p)
      case Success(n) => Some(n)
      case Failure(_) => None
  }

  /** The value stored in a row: the number, or None. */
  function RealOrNone(o: Option<real>): Json.Json {
    match o
    case Some(x) => Json.Real(x)
    case None => Json.Null
  }

  function IntOrNone(o: Option<int>): Json.Json {
    match o
    case Some(n) => Json.Int(n)
    case None => Json.Null
  }

  // ---------------------------------------------------------------------------
  // `collect_runs`

  /** An entry of the results root: its name, its path as `str()` prints it, whether it is a
      directory, and the content of its `metadata.json` and `metrics.json` (`None` for a file
      that does not exist). The JSON text is taken as already decoded. */
  datatype RunDir = RunDir(name: string, path: string, isDir: bool, meta: Option<Json.Json>, metrics: Option<Json.Json>)

  /** `_read_json`: a file whose root is not an object raises ValueError. */
  function ReadJson(content: Json.Json): (r: Result<Json.Dict, Exception>)
    ensures r.Success? <==> content.Obj?
    ensures r.Success? ==> r.value == content.entries
    ensures r.Failure? ==> r.error == ValueError
  {
    if content.Obj? then Success(content.entries) else Failure(ValueError)
  }

  /** The keys of a row, in the order the row literal lists them. */
  const RowKeys: seq<string> := [
    "run_id", "created_at", "git_commit_hash", "python_version", "platform",
    "L", "nx", "alpha", "t_max", "actual_dt", "steps", "save_interval",
    "max_temperature", "min_temperature", "mean_temperature", "energy_like_metric", "stability_ratio",
    "run_dir"]

  /** The value a row holds under key `k`: text fields of the metadata as they are, the
      parameters and the five metrics coerced leniently, and the directory's path. */
  function RowValue(k: string, name: string, path: string, meta: Json.Dict, metrics: Json.Dict, p: Json.Parsers): Json.Json {
    if k == "run_id" then Json.Get(meta, "run_id", Json.Str(name))
    else if k in ["created_at", "git_commit_hash", "python_version", "platform"] then Json.Get(meta, k, Json.Null)
    else if k in ["L", "alpha", "t_max", "actual_dt"] then RealOrNone(LenientFloat(Json.Get(meta, k, Json.Null), p))
    else if k in ["nx", "steps", "save_interval"] then IntOrNone(LenientInt(Json.Get(meta, k, Json.Null), p))
    else if k == "run_dir" then Json.Str(path)
    else RealOrNone(LenientFloat(Json.Get(metrics, k, Json.Null), p))
  }

  /** The entries of a row for the keys `keys`, in their order. */
  function RowEntries(keys: seq<string>, name: string, path: string, meta: Json.Dict, metrics: Json.Dict, p: Json.Parsers): (es: Json.Dict)
    ensures |es| == |keys|
    ensures forall i :: 0 <= i < |keys| ==> es[i] == (keys[i], RowValue(keys[i], name, path, meta, metrics, p))
  {
    if keys == [] then []
    else [(keys[0], RowValue(keys[0], name, path, meta, metrics, p))] + RowEntries(keys[1..], name, path, meta, metrics, p)
  }

  /** The flattened row of one run. */
  function RowOf(name: string, path: string, meta: Json.Dict, metrics: Json.Dict, p: Json.Parsers): Json.Dict {
    RowEntries(RowKeys, name, path, meta, metrics, p)
  }

  /** A row's id is the metadata's `run_id`, and the directory name when there is none. */
  lemma RowRunId(name: string, path: string, meta: Json.Dict, metrics: Json.Dict, p: Json.Parsers)
    ensures Json.Lookup(RowOf(name, path, meta, metrics, p), "run_id") ==
      Some(match Json.Lookup(meta, "run_id") case Some(v) => v case None => Json.Str(name))
  {
    var row := RowOf(name, path, meta, metrics, p);
    assert row[0].0 == "run_id";
    Json.LookupFirst(row, 0);
  }

  /** A row's energy is the metrics file's `energy_like_metric` when that converts to a
      number, and None otherwise. */
  lemma RowEnergy(name: string, path: string, meta: Json.Dict, metrics: Json.Dict, p: Json.Parsers)
    ensures var v := Json.Get(metrics, "energy_like_metric", Json.Null);
      Json.Lookup(RowOf(name, path, meta, metrics, p), "energy_like_metric") ==
        Some(if Json.FloatOf(v, p).Success? then Json.Real(Json.FloatOf(v, p).value) else Json.Null)
  {
    EnergyKey();
    RowLookupAt(15, name, path, meta, metrics, p);
    EnergyValue(name, path, meta, metrics, p);
  }

  /** The row's value under `energy_like_metric` is the metrics file's, coerced leniently. */
  lemma EnergyValue(name: string, path: string, meta: Json.Dict, metrics: Json.Dict, p: Json.Parsers)
    ensures RowValue("energy_like_metric", name, path, meta, metrics, p) ==
      RealOrNone(LenientFloat(Json.Get(metrics, "energy_like_metric", Json.Null), p))
  {
    var k := "energy_like_metric";
    assert k !in ["created_at", "git_commit_hash", "python_version", "platform"];
    assert k !in ["L", "alpha", "t_max", "actual_dt"];
    assert k !in ["nx", "steps", "save_interval"];
  }

  /** `energy_like_metric` is the sixteenth key of a row and does not occur before it. */
  lemma EnergyKey()
    ensures RowKeys[15] == "energy_like_metric" && forall j :: 0 <= j < 15 ==> RowKeys[j] != RowKeys[15]
  {
    assert forall j :: 0 <= j < 15 ==> |RowKeys[j]| != 18;
  }

  /** The value of a row under a key that does not occur earlier among its keys. */
  lemma RowLookupAt(i: nat, name: string, path: string, meta: Json.Dict, metrics: Json.Dict, p: Json.Parsers)
    requires i < |RowKeys| && forall j :: 0 <= j < i ==> RowKeys[j] != RowKeys[i]
    ensures Json.Lookup(RowOf(name, path, meta, metrics, p), RowKeys[i]) == Some(RowValue(RowKeys[i], name, path, meta, metrics, p))
  {
    Json.LookupFirst(RowOf(name, path, meta, metrics, p), i);
  }

  /** A row's `run_dir` is the directory's path. */
  lemma RowPath(name: string, path: string, meta: Json.Dict, metrics: Json.Dict, p: Json.Parsers)
    ensures Json.Lookup(RowOf(name, path, meta, metrics, p), "run_dir") == Some(Json.Str(path))
  {
    assert RowKeys[17] == "run_dir";
    assert forall j :: 0 <= j < 17 ==> |RowKeys[j]| != 7;
    RowLookupAt(17, name, path, meta, metrics, p);
  }

  predicate Complete(d: RunDir) {
    d.meta.Some? && d.metrics.Some?
  }

  /** `[p for p in root.iterdir() if p.is_dir()]`. */
  function Dirs(entries: seq<RunDir>): (ds: seq<RunDir>)
    ensures |ds| <= |entries|
    ensures forall d :: d in ds <==> d in entries && d.isDir
  {
    if entries == [] then []
    else
      assert forall d :: d in entries <==> d == entries[0] || d in entries[1..];
      (if entries[0].isDir then [entries[0]] else []) + Dirs(entries[1..])
  }

  function NameOrder(a: string, b: string): bool {
    Text.LexLess(a, b)
  }

  lemma NameOrderIsStrictTotal()
    ensures Sorting.StrictTotalOrder(NameOrder)
  {
    forall a ensures !NameOrder(a, a) {
      Text.LexLessIrreflexive(a);
    }
    forall a, b, c | NameOrder(a, b) && NameOrder(b, c) ensures NameOrder(a, c) {
      Text.LexLessTransitive(a, b, c);
    }
    forall a, b | a != b ensures NameOrder(a, b) || NameOrder(b, a) {
      Text.LexLessTotal(a, b);
    }
  }

  function Names(ds: seq<RunDir>): (ns: seq<string>)
    ensures |ns| == |ds| && forall i :: 0 <= i < |ds| ==> ns[i] == ds[i].name
  {
    seq(|ds|, i requires 0 <= i < |ds| => ds[i].name)
  }

  /** `sorted(...)` of the directories: every directory once, by name. */
  function VisitOrder(entries: seq<RunDir>): (r: seq<RunDir>)
    ensures |r| == |Dirs(entries)|
    ensures forall d :: d in r <==> d in entries && d.isDir
    ensures forall i, j :: 0 <= i < j < |r| ==> r[i].name == r[j].name || Text.LexLess(r[i].name, r[j].name)
  {
    var ds := Dirs(entries);
    NameOrderIsStrictTotal();
    var names := Names(ds);
    var perm := Sorting.SortIndices(names, NameOrder);
    var r := Sorting.Permute(ds, perm);
    assert forall d :: d in r <==> d in ds by {
      forall d ensures d in r <==> d in ds {
        if d in ds {
          var i :| 0 <= i < |ds| && ds[i] == d;
          assert i in perm;
          var j :| 0 <= j < |perm| && perm[j] == i;
          assert r[j] == d;
        }
      }
    }
    assert forall i, j :: 0 <= i < j < |r| ==> r[i].name == r[j].name || Text.LexLess(r[i].name, r[j].name) by {
      forall i, j | 0 <= i < j < |r| ensures r[i].name == r[j].name || Text.LexLess(r[i].name, r[j].name) {
        assert Sorting.Before(names, NameOrder, perm[i], perm[j]);
      }
    }
    r
  }

  /** The rows of the directories `ds`, visited in order: an incomplete directory is skipped,
      a file whose root is not an object stops the collection. */
  function Collected(ds: seq<RunDir>, p: Json.Parsers): Result<seq<Json.Dict>, Exception>
    decreases |ds|
  {
    if ds == [] then Success([])
    else if !Complete(ds[0]) then Collected(ds[1..], p)
    else
      var meta :- ReadJson(ds[0].meta.value);
      var metrics :- ReadJson(ds[0].metrics.value);
      var rest :- Collected(ds[1..], p);
      Success([RowOf(ds[0].name, ds[0].path, meta, metrics, p)] + rest)
  }

  /** `collect_runs(results_root)`; `None` is a root that does not exist. */
  function CollectSpec(root: Option<seq<RunDir>>, p: Json.Parsers): Result<seq<Json.Dict>, Exception> {
    match root
    case None => Failure(FileNotFoundError)
    case Some(entries) => Collected(VisitOrder(entries), p)
  }

  /** The complete directories among `ds`, in order. */
  function Completes(ds: seq<RunDir>): (cs: seq<RunDir>)
    ensures |cs| <= |ds|
    ensures forall d :: d in cs <==> d in ds && Complete(d)
    ensures forall i :: 0 <= i < |cs| ==> Complete(cs[i])
  {
    if ds == [] then []
    else
      assert forall d :: d in ds <==> d == ds[0] || d in ds[1..];
      (if Complete(ds[0]) then [ds[0]] else []) + Completes(ds[1..])
  }

  /** A complete directory whose two files are objects. */
  predicate Readable(d: RunDir) {
    Complete(d) && d.meta.value.Obj? && d.metrics.value.Obj?
  }

  function RowOfDir(d: RunDir, p: Json.Parsers): Json.Dict
    requires Readable(d)
  {
    RowOf(d.name, d.path, d.meta.value.entries, d.metrics.value.entries, p)
  }

  /** The rows of readable directories, one each, in order. */
  function RowsOfDirs(cs: seq<RunDir>, p: Json.Parsers): (rows: seq<Json.Dict>)
    requires forall d :: d in cs ==> Readable(d)
    ensures |rows| == |cs| && forall i :: 0 <= i < |cs| ==> rows[i] == RowOfDir(cs[i], p)
    decreases |cs|
  {
    if cs == [] then []
    else
      var rest := cs[1..];
      assert forall i :: 0 <= i < |rest| ==> rest[i] == cs[i + 1];
      [RowOfDir(cs[0], p)] + RowsOfDirs(rest, p)
  }

  lemma RowsOfDirsCons(d: RunDir, rest: seq<RunDir>, p: Json.Parsers)
    requires Readable(d) && forall e :: e in rest ==> Readable(e)
    ensures forall e :: e in [d] + rest ==> Readable(e)
    ensures RowsOfDirs([d] + rest, p) == [RowOfDir(d, p)] + RowsOfDirs(rest, p)
  {
    var cs := [d] + rest;
    assert cs[0] == d && cs[1..] == rest;
  }

  /** Without an error every complete directory is readable, and the rows are theirs, one per
      complete directory, in visiting order. */
  lemma {:induction false} CollectedRows(ds: seq<RunDir>, p: Json.Parsers)
    requires Collected(ds, p).Success?
    ensures forall d :: d in Completes(ds) ==> Readable(d)
    ensures Collected(ds, p).value == RowsOfDirs(Completes(ds), p)
    decreases |ds|
  {
    if ds != [] {
      CollectedRows(ds[1..], p);
      var rest := Completes(ds[1..]);
      if Complete(ds[0]) {
        assert Completes(ds) == [ds[0]] + rest;
        RowsOfDirsCons(ds[0], rest, p);
      } else {
        assert Completes(ds) == rest;
      }
    }
  }

  /** The collection fails exactly when some complete directory holds a file whose root is
      not an object, and then with ValueError. */
  lemma {:induction false} CollectedFailure(ds: seq<RunDir>, p: Json.Parsers)
    ensures Collected(ds, p).Failure? <==>
      exists i :: 0 <= i < |ds| && Complete(ds[i]) && !(ds[i].meta.value.Obj? && ds[i].metrics.value.Obj?)
    ensures Collected(ds, p).Failure? ==> Collected(ds, p).error == ValueError
    decreases |ds|
  {
    if ds != [] {
      CollectedFailure(ds[1..], p);
      assert forall i :: 1 <= i < |ds| ==> ds[i] == ds[1..][i - 1];
      if exists i :: 0 <= i < |ds[1..]| && Complete(ds[1..][i]) && !(ds[1..][i].meta.value.Obj? && ds[1..][i].metrics.value.Obj?) {
        var i :| 0 <= i < |ds[1..]| && Complete(ds[1..][i]) && !(ds[1..][i].meta.value.Obj? && ds[1..][i].metrics.value.Obj?);
        assert Complete(ds[i + 1]) && !(ds[i + 1].meta.value.Obj? && ds[i + 1].metrics.value.Obj?);
      }
    }
  }

  function PrependRows(done: seq<Json.Dict>, rest: Result<seq<Json.Dict>, Exception>): Result<seq<Json.Dict>, Exception> {
    match rest
    case Failure(e) => Failure(e)
    case Success(rs) => Success(done + rs)
  }

  /** `collect_runs`: visit the directories in sorted order, skip the incomplete ones and
      append the row of each of the others. */
  method CollectRuns(root: Option<seq<RunDir>>, p: Json.Parsers) returns (r: Result<seq<Json.Dict>, Exception>)
    ensures r == CollectSpec(root, p)
  {
    if root.None? {
      return Failure(FileNotFoundError);
    }
    var ds := VisitOrder(root.value);
    var rows: seq<Json.Dict> := [];
    var i := 0;
    assert ds[0..] == ds;
    match Collected(ds, p) {
      case Failure(_) =>
      case Success(rs) => assert [] + rs == rs;
    }
    while i < |ds|
      invariant 0 <= i <= |ds|
      invariant CollectSpec(root, p) == PrependRows(rows, Collected(ds[i..], p))
    {
      var d := ds[i];
      assert ds[i..][0] == d && ds[i..][1..] == ds[i + 1..];
      if d.meta.Some? && d.metrics.Some? {
        var meta := ReadJson(d.meta.value);
        if meta.Failure? {
          return Failure(meta.error);
        }
        var metrics := ReadJson(d.metrics.value);
        if metrics.Failure? {
          return Failure(metrics.error);
        }
        var row := RowOf(d.name, d.path, meta.value, metrics.value, p);
        match Collected(ds[i + 1..], p) {
          case Failure(_) =>
          case Success(rs) => assert rows + [row] + rs == rows + ([row] + rs);
        }
        rows := rows + [row];
      }
      i := i + 1;
    }
    assert ds[i..] == [];
    assert rows + [] == rows;
    r := Success(rows);
  }

  // ---------------------------------------------------------------------------
  // `summary.csv`

  /** The columns of `summary.csv`, in order. */
  const CsvColumns: seq<string> := [
    "run_id", "created_at", "nx", "alpha", "t_max", "actual_dt", "steps", "stability_ratio",
    "max_temperature", "mean_temperature", "energy_like_metric", "git_commit_hash",
    "python_version", "platform", "run_dir"]

  /** `s.replace('"', '""')`. */
  function DoubleQuotes(s: string): (r: string)
    decreases |s|
  {
    if s == [] then []
    else (if s[0] == '"' then "\"\"" else [s[0]]) + DoubleQuotes(s[1..])
  }

  /** The text a value stands for in the summary: empty for None, `str(v)` otherwise. */
  function CellText(v: Json.Json, show: Json.Json -> string): string {
    if v == Json.Null then "" else Json.ToStr(v, show)
  }

  /** The CSV form of one text: a text holding a comma or a double quote is quoted, with each
      quote doubled (rule 7 of section 2 of RFC 4180); any other text is written as it is. A
      line break is not a reason to quote. */
  function Escape(s: string): string {
    if ',' in s || '"' in s then "\"" + DoubleQuotes(s) + "\"" else s
  }

  /** The CSV cell of one value. */
  function Cell(v: Json.Json, show: Json.Json -> string): string {
    Escape(CellText(v, show))
  }

  function EscapeAll(texts: seq<string>): (cells: seq<string>)
    ensures |cells| == |texts| && forall i :: 0 <= i < |texts| ==> cells[i] == Escape(texts[i])
  {
    if texts == [] then [] else [Escape(texts[0])] + EscapeAll(texts[1..])
  }

  /** The texts of one row's values, one per column, in column order (`r.get(c)`). */
  function RowTexts(r: Json.Dict, columns: seq<string>, show: Json.Json -> string): (texts: seq<string>)
    ensures |texts| == |columns|
    ensures forall i :: 0 <= i < |columns| ==> texts[i] == CellText(Json.Get(r, columns[i], Json.Null), show)
  {
    seq(|columns|, i requires 0 <= i < |columns| => CellText(Json.Get(r, columns[i], Json.Null), show))
  }

  /** The cells of one row, one per column, in column order. */
  function CsvCells(r: Json.Dict, columns: seq<string>, show: Json.Json -> string): (cells: seq<string>)
    ensures |cells| == |columns|
    ensures forall i :: 0 <= i < |columns| ==> cells[i] == Cell(Json.Get(r, columns[i], Json.Null), show)
  {
    EscapeAll(RowTexts(r, columns, show))
  }

  /** The lines of `summary.csv` after the header, one per row. */
  function CsvLines(rows: seq<Json.Dict>, columns: seq<string>, show: Json.Json -> string): (lines: seq<string>)
    ensures |lines| == |rows|
    ensures forall k :: 0 <= k < |rows| ==> lines[k] == Text.Join(",", CsvCells(rows[k], columns, show))
  {
    seq(|rows|, k requires 0 <= k < |rows| => Text.Join(",", CsvCells(rows[k], columns, show)))
  }

  /** The content of `summary.csv`: the header line, then one line per row. */
  function SummaryCsv(rows: seq<Json.Dict>, columns: seq<string>, show: Json.Json -> string): string {
    Text.Unlines([Text.Join(",", columns)] + CsvLines(rows, columns, show))
  }

  /** The loop that writes `summary.csv`: one line per row. */
  method WriteSummaryCsv(rows: seq<Json.Dict>, columns: seq<string>, show: Json.Json -> string) returns (text: string)
    ensures text == SummaryCsv(rows, columns, show)
  {
    ghost var lines := [Text.Join(",", columns)] + CsvLines(rows, columns, show);
    text := Text.Join(",", columns) + "\n";
    var k := 0;
    while k < |rows|
      invariant 0 <= k <= |rows|
      invariant text + Text.Unlines(lines[k + 1..]) == Text.Unlines(lines)
    {
      var values := RowValues(rows[k], columns, show);
      var line := Text.Join(",", values);
      assert lines[k + 1] == line;
      UnlinesStep(lines, k + 1, text);
      text := text + line + "\n";
      k := k + 1;
    }
    assert lines[k + 1..] == [];
  }

  /** The `values` list of one row, built column by column. */
  method RowValues(r: Json.Dict, columns: seq<string>, show: Json.Json -> string) returns (values: seq<string>)
    ensures values == CsvCells(r, columns, show)
  {
    ghost var texts := RowTexts(r, columns, show);
    values := [];
    var c := 0;
    assert texts[0..] == texts;
    while c < |columns|
      invariant 0 <= c <= |columns|
      invariant values + EscapeAll(texts[c..]) == EscapeAll(texts)
    {
      var cell := ValueCell(Json.Get(r, columns[c], Json.Null), show);
      assert texts[c..][1..] == texts[c + 1..];
      assert values + [cell] + EscapeAll(texts[c + 1..]) == values + EscapeAll(texts[c..]);
      values := values + [cell];
      c := c + 1;
    }
    assert values + [] == values;
  }

  /** One entry of `values`: empty for None, otherwise `str(v)`, quoted with its quotes
      doubled when it holds a comma or a quote. */
  method ValueCell(v: Json.Json, show: Json.Json -> string) returns (cell: string)
    ensures cell == Cell(v, show)
  {
    if v == Json.Null {
      cell := "";
    } else {
      var s := Json.ToStr(v, show);
      if ',' in s || '"' in s {
        cell := "\"" + DoubleQuotes(s) + "\"";
      } else {
        cell := s;
      }
    }
  }

  /** Writing the next line keeps the text written so far a prefix of the whole file. */
  lemma UnlinesStep(lines: seq<string>, k: nat, text: string)
    requires k < |lines|
    requires text + Text.Unlines(lines[k..]) == Text.Unlines(lines)
    ensures text + lines[k] + "\n" + Text.Unlines(lines[k + 1..]) == Text.Unlines(lines)
  {
    assert lines[k..][1..] == lines[k + 1..];
    assert Text.Unlines(lines[k..]) == lines[k] + "\n" + Text.Unlines(lines[k + 1..]);
  }

  // A reader of CSV lines (quoted fields per section 2 of RFC 4180), against which the
  // escaping is checked.

  /** The rest of a quoted field after its opening quote: its text, and how many characters
      up to and including the closing quote it takes (`""` stands for one quote). */
  function QuotedBody(s: string): (r: (string, nat))
    ensures r.1 <= |s|
    decreases |s|
  {
    if s == [] then ([], 0)
    else if s[0] == '"' then
      if |s| > 1 && s[1] == '"' then
        var rest := QuotedBody(s[2..]);
        ("\"" + rest.0, rest.1 + 2)
      else ([], 1)
    else
      var rest := QuotedBody(s[1..]);
      ([s[0]] + rest.0, rest.1 + 1)
  }

  /** The first field of a line and how many characters it takes. */
  function CsvField(s: string): (r: (string, nat))
    ensures r.1 <= |s|
  {
    if s != [] && s[0] == '"' then
      var q := QuotedBody(s[1..]);
      (q.0, q.1 + 1)
    else
      var f := Text.SplitFirst(s, ',');
      (f, |f|)
  }

  /** The fields of a line. */
  function CsvRecord(s: string): (fields: seq<string>)
    ensures fields != []
    decreases |s|
  {
    var f := CsvField(s);
    if f.1 < |s| && s[f.1] == ',' then [f.0] + CsvRecord(s[f.1 + 1..]) else [f.0]
  }

  /** A doubled text followed by the closing quote reads back as the text. */
  lemma {:induction false} QuotedBodyOfDoubled(x: string, tail: string)
    requires tail == [] || tail[0] != '"'
    ensures QuotedBody(DoubleQuotes(x) + "\"" + tail) == (x, |DoubleQuotes(x)| + 1)
    decreases |x|
  {
    var s := DoubleQuotes(x) + "\"" + tail;
    if x != [] {
      QuotedBodyOfDoubled(x[1..], tail);
      var rest := DoubleQuotes(x[1..]) + "\"" + tail;
      if x[0] == '"' {
        assert s == "\"\"" + rest;
        assert s[2..] == rest;
      } else {
        assert s == [x[0]] + rest;
        assert s[1..] == rest;
      }
      assert [x[0]] + x[1..] == x;
    } else {
      assert s == "\"" + tail;
    }
  }

  /** An escaped text followed by the end of the line or by a comma reads back as the text. */
  lemma FieldOfEscaped(x: string, tail: string)
    requires tail == [] || tail[0] == ','
    ensures CsvField(Escape(x) + tail) == (x, |Escape(x)|)
  {
    var c := Escape(x);
    if ',' in x || '"' in x {
      QuotedBodyOfDoubled(x, tail);
      assert (c + tail)[1..] == DoubleQuotes(x) + "\"" + tail;
    } else {
      if tail == [] {
        Text.SplitFirstAt(x, ',', []);
        assert c + tail == x;
      } else {
        Text.SplitFirstAt(x, ',', tail[1..]);
        assert c + tail == x + [','] + tail[1..];
      }
    }
  }

  /** Texts escaped and joined by commas read back as those texts, one field each: no comma or
      quote inside a text moves a field boundary. */
  lemma {:induction false} RecordOfEscaped(texts: seq<string>)
    requires texts != []
    ensures CsvRecord(Text.Join(",", EscapeAll(texts))) == texts
    decreases |texts|
  {
    var cells := EscapeAll(texts);
    var line := Text.Join(",", cells);
    var c := Escape(texts[0]);
    if |texts| == 1 {
      FieldOfEscaped(texts[0], []);
      assert line == c + [];
    } else {
      assert cells[1..] == EscapeAll(texts[1..]);
      var rest := Text.Join(",", EscapeAll(texts[1..]));
      assert line == c + ("," + rest);
      FieldOfEscaped(texts[0], "," + rest);
      assert line[|c|] == ',';
      assert line[|c| + 1..] == rest;
      RecordOfEscaped(texts[1..]);
      assert texts == [texts[0]] + texts[1..];
    }
  }

  /** Every line of `summary.csv` after the header reads back as one field per column, in
      column order, each the text of that column's value in the row (empty for None). */
  lemma CsvLineFields(r: Json.Dict, columns: seq<string>, show: Json.Json -> string)
    requires columns != []
    ensures CsvRecord(Text.Join(",", CsvCells(r, columns, show))) == RowTexts(r, columns, show)
  {
    RecordOfEscaped(RowTexts(r, columns, show));
  }

  /** A doubled text keeps every character other than the quote. */
  lemma {:induction false} DoubleQuotesNoLineBreak(s: string)
    requires Text.NoLineBreak(s)
    ensures Text.NoLineBreak(DoubleQuotes(s))
    decreases |s|
  {
    if s != [] {
      assert Text.NoLineBreak(s[1..]) by {
        forall i | 0 <= i < |s[1..]| ensures !Text.IsLineBreak(s[1..][i]) {
          assert s[1..][i] == s[i + 1];
        }
      }
      DoubleQuotesNoLineBreak(s[1..]);
      var head: string := if s[0] == '"' then "\"\"" else [s[0]];
      NoLineBreakAppend(head, DoubleQuotes(s[1..]));
    }
  }

  lemma NoLineBreakAppend(a: string, b: string)
    requires Text.NoLineBreak(a) && Text.NoLineBreak(b)
    ensures Text.NoLineBreak(a + b)
  {
    forall i | 0 <= i < |a + b| ensures !Text.IsLineBreak((a + b)[i]) {
      if i >= |a| { assert (a + b)[i] == b[i - |a|]; }
    }
  }

  /** Parts without line breaks joined by a separator without one give a single line. */
  lemma {:induction false} JoinNoLineBreak(sep: string, parts: seq<string>)
    requires Text.NoLineBreak(sep) && forall i :: 0 <= i < |parts| ==> Text.NoLineBreak(parts[i])
    ensures Text.NoLineBreak(Text.Join(sep, parts))
    decreases |parts|
  {
    if |parts| > 1 {
      JoinNoLineBreak(sep, parts[1..]);
      NoLineBreakAppend(parts[0], sep);
      NoLineBreakAppend(parts[0] + sep, Text.Join(sep, parts[1..]));
    }
  }

  /** The cells of texts without line breaks hold none either. */
  lemma EscapeAllNoLineBreak(texts: seq<string>)
    requires forall i :: 0 <= i < |texts| ==> Text.NoLineBreak(texts[i])
    ensures forall i :: 0 <= i < |texts| ==> Text.NoLineBreak(EscapeAll(texts)[i])
  {
    forall i | 0 <= i < |texts| ensures Text.NoLineBreak(EscapeAll(texts)[i]) {
      var x := texts[i];
      if ',' in x || '"' in x {
        DoubleQuotesNoLineBreak(x);
        NoLineBreakAppend("\"", DoubleQuotes(x));
        NoLineBreakAppend("\"" + DoubleQuotes(x), "\"");
      }
    }
  }

  /** Values whose texts hold no line break. */
  ghost predicate SingleLineValues(rows: seq<Json.Dict>, columns: seq<string>, show: Json.Json -> string) {
    forall k, i :: 0 <= k < |rows| && 0 <= i < |columns| ==> Text.NoLineBreak(RowTexts(rows[k], columns, show)[i])
  }

  /** Read back line by line, `summary.csv` has the header line and then one line per row, and
      each row's line has one field per column holding the text of that column's value. A value
      with a line break is not quoted and would split its line, hence the precondition. */
  lemma SummaryCsvReadBack(rows: seq<Json.Dict>, columns: seq<string>, show: Json.Json -> string)
    requires columns != [] && forall i :: 0 <= i < |columns| ==> Text.NoLineBreak(columns[i])
    requires SingleLineValues(rows, columns, show)
    ensures var lines := Text.SplitLines(SummaryCsv(rows, columns, show));
      && |lines| == 1 + |rows|
      && lines[0] == Text.Join(",", columns)
      && forall k :: 0 <= k < |rows| ==> CsvRecord(lines[k + 1]) == RowTexts(rows[k], columns, show)
  {
    var body := CsvLines(rows, columns, show);
    var all := [Text.Join(",", columns)] + body;
    JoinNoLineBreak(",", columns);
    forall k | 0 <= k < |rows| ensures Text.NoLineBreak(body[k]) && CsvRecord(body[k]) == RowTexts(rows[k], columns, show) {
      var texts := RowTexts(rows[k], columns, show);
      EscapeAllNoLineBreak(texts);
      JoinNoLineBreak(",", EscapeAll(texts));
      CsvLineFields(rows[k], columns, show);
    }
    assert forall j :: 0 <= j < |all| ==> Text.NoLineBreak(all[j]) by {
      forall j | 0 <= j < |all| ensures Text.NoLineBreak(all[j]) {
        if j > 0 { assert all[j] == body[j - 1]; }
      }
    }
    Text.SplitLinesUnlines(all);
  }

  // ---------------------------------------------------------------------------
  // Markdown tables: `_format_md_table`

  /** `fmt(v)`: empty for None, a float through the supplied rendering (`%.3e` below 1e-4,
      otherwise `%.6f` with trailing zeros and point stripped), anything else `str(v)`. */
  function MdText(v: Json.Json, show: Json.Json -> string, fmtFloat: real -> string): string {
    match v
    case Null => ""
    case Real(x) => fmtFloat(x)
    case _ => Json.ToStr(v, show)
  }

  /** One table line: `| a | b | c |`. */
  function MdLine(cells: seq<string>): string {
    "| " + Text.Join(" | ", cells) + " |"
  }

  function Dashes(n: nat): (d: seq<string>)
    ensures |d| == n && forall i :: 0 <= i < n ==> d[i] == "---"
  {
    seq(n, i => "---")
  }

  function MdCells(row: seq<Json.Json>, show: Json.Json -> string, fmtFloat: real -> string): (cells: seq<string>)
    ensures |cells| == |row| && forall i :: 0 <= i < |row| ==> cells[i] == MdText(row[i], show, fmtFloat)
  {
    seq(|row|, i requires 0 <= i < |row| => MdText(row[i], show, fmtFloat))
  }

  /** The lines of a table: header, separator, one line per row. */
  function MdTableLines(headers: seq<string>, rows: seq<seq<Json.Json>>, show: Json.Json -> string, fmtFloat: real -> string): (lines: seq<string>)
    ensures |lines| == 2 + |rows|
    ensures lines[0] == MdLine(headers) && lines[1] == MdLine(Dashes(|headers|))
    ensures forall k :: 0 <= k < |rows| ==> lines[k + 2] == MdLine(MdCells(rows[k], show, fmtFloat))
  {
    [MdLine(headers), MdLine(Dashes(|headers|))] + seq(|rows|, k requires 0 <= k < |rows| => MdLine(MdCells(rows[k], show, fmtFloat)))
  }

  /** `_format_md_table(headers, rows)`: the lines joined by newlines. */
  function MdTable(headers: seq<string>, rows: seq<seq<Json.Json>>, show: Json.Json -> string, fmtFloat: real -> string): string {
    Text.Join("\n", MdTableLines(headers, rows, show, fmtFloat))
  }

  /** Headers and rendered cells without line breaks. */
  ghost predicate SingleLineTable(headers: seq<string>, rows: seq<seq<Json.Json>>, show: Json.Json -> string, fmtFloat: real -> string) {
    && (forall i :: 0 <= i < |headers| ==> Text.NoLineBreak(headers[i]))
    && (forall k, i :: 0 <= k < |rows| && 0 <= i < |rows[k]| ==> Text.NoLineBreak(MdText(rows[k][i], show, fmtFloat)))
  }

  /** Every line of a table holds no line break. */
  lemma MdTableSingleLines(headers: seq<string>, rows: seq<seq<Json.Json>>, show: Json.Json -> string, fmtFloat: real -> string)
    requires SingleLineTable(headers, rows, show, fmtFloat)
    ensures forall j :: 0 <= j < 2 + |rows| ==> Text.NoLineBreak(MdTableLines(headers, rows, show, fmtFloat)[j])
  {
    var lines := MdTableLines(headers, rows, show, fmtFloat);
    forall j | 0 <= j < 2 + |rows| ensures Text.NoLineBreak(lines[j]) {
      var cells := if j == 0 then headers else if j == 1 then Dashes(|headers|) else MdCells(rows[j - 2], show, fmtFloat);
      assert lines[j] == MdLine(cells);
      JoinNoLineBreak(" | ", cells);
      NoLineBreakAppend("| ", Text.Join(" | ", cells));
      NoLineBreakAppend("| " + Text.Join(" | ", cells), " |");
    }
  }

  /** A table written to a file and read back line by line has 2 + |rows| lines: the header,
      the separator and one line per row, in order. */
  lemma MdTableReadBack(headers: seq<string>, rows: seq<seq<Json.Json>>, show: Json.Json -> string, fmtFloat: real -> string)
    requires SingleLineTable(headers, rows, show, fmtFloat)
    ensures Text.SplitLines(MdTable(headers, rows, show, fmtFloat) + "\n") == MdTableLines(headers, rows, show, fmtFloat)
  {
    var lines := MdTableLines(headers, rows, show, fmtFloat);
    MdTableSingleLines(headers, rows, show, fmtFloat);
    Text.JoinNewlines(lines);
    Text.SplitLinesUnlines(lines);
  }

  // ---------------------------------------------------------------------------
  // Ranking: `sorted(rows, key=...)` and `ranked[:top_n]`

  /** What a row holds under `energy_like_metric`: nothing, or a value. */
  datatype Energy = Absent | Present(v: Json.Json)

  function EnergyOf(r: Json.Dict): Energy {
    match Json.Lookup(r, "energy_like_metric")
    case None => Absent
    case Some(v) => Present(v)
  }

  /** The first part of the sort key, `r.get("energy_like_metric") is None`: true for an
      absent entry and for a None value. */
  predicate Missing(e: Energy) {
    e.Absent? || e.v == Json.Null
  }

  /** Python's `<` on the sort keys `(is None, r.get("energy_like_metric", float("inf")))` of
      two rows, or None where it raises TypeError. A tuple comparison looks for the first
      parts that differ (`==` never raises) and compares only those with `<`: different
      first parts decide; two absent entries (`inf`, `inf`) or two None values are equal;
      `inf < None` raises; two values that are equal decide nothing; otherwise `<` on the
      two values decides or raises. */
  function KeyCompare(a: Energy, b: Energy): Option<bool> {
    if Missing(a) != Missing(b) then Some(!Missing(a))
    else if Missing(a) then (if a.Absent? == b.Absent? then Some(false) else None)
    else if a.v == b.v then Some(false)
    else Json.Less(a.v, b.v)
  }

  /** The pairs of energies whose keys do not compare: an absent entry and a None value, a
      number and a string, or an object and any value it is not equal to. */
  lemma KeyCompareRaises(a: Energy, b: Energy)
    ensures KeyCompare(a, b).None? <==>
      || (a.Absent? && b == Present(Json.Null)) || (b.Absent? && a == Present(Json.Null))
      || (a.Present? && b.Present? && Json.Number(a.v).Some? && b.v.Str?)
      || (a.Present? && b.Present? && a.v.Str? && Json.Number(b.v).Some?)
      || (a.Present? && b.Present? && (a.v.Obj? || b.v.Obj?) && !a.v.Null? && !b.v.Null? && a.v != b.v)
  {
  }

  /** The key the model sorts by, ordered as Python orders the keys it can compare: present
      values first, then by number, then by text; objects (which compare only when equal)
      and missing entries all share one key within their group. */
  datatype RankKey = RankKey(missing: bool, num: real, text: string)

  function KeyOf(r: Json.Dict): RankKey {
    var e := EnergyOf(r);
    if Missing(e) then RankKey(true, 0.0, "")
    else if Json.Number(e.v).Some? then RankKey(false, Json.Number(e.v).value, "")
    else if e.v.Str? then RankKey(false, 0.0, e.v.s)
    else RankKey(false, 0.0, "")
  }

  function KeyLess(a: RankKey, b: RankKey): bool {
    || (!a.missing && b.missing)
    || (a.missing == b.missing && a.num < b.num)
    || (a.missing == b.missing && a.num == b.num && Text.LexLess(a.text, b.text))
  }

  lemma KeyLessIsStrictTotal()
    ensures Sorting.StrictTotalOrder(KeyLess)
  {
    forall a: RankKey ensures !KeyLess(a, a) {
      Text.LexLessIrreflexive(a.text);
    }
    forall a: RankKey, b: RankKey, c: RankKey | KeyLess(a, b) && KeyLess(b, c) ensures KeyLess(a, c) {
      if a.missing == b.missing == c.missing && a.num == b.num == c.num {
        Text.LexLessTransitive(a.text, b.text, c.text);
      }
    }
    forall a: RankKey, b: RankKey | a != b ensures KeyLess(a, b) || KeyLess(b, a) {
      if a.missing == b.missing && a.num == b.num {
        Text.LexLessTotal(a.text, b.text);
      }
    }
  }

  /** On two rows whose keys Python can compare, the model's key order is Python's `<`. */
  lemma KeyLessAgrees(r: Json.Dict, q: Json.Dict)
    requires KeyCompare(EnergyOf(r), EnergyOf(q)).Some?
    ensures KeyLess(KeyOf(r), KeyOf(q)) == KeyCompare(EnergyOf(r), EnergyOf(q)).value
  {
    var a, b := EnergyOf(r), EnergyOf(q);
    if !Missing(a) && !Missing(b) && a.v.Str? && b.v.Str? && a.v == b.v {
      Text.LexLessIrreflexive(a.v.s);
    }
  }

  function Keys(rows: seq<Json.Dict>): (ks: seq<RankKey>)
    ensures |ks| == |rows| && forall i :: 0 <= i < |rows| ==> ks[i] == KeyOf(rows[i])
  {
    seq(|rows|, i requires 0 <= i < |rows| => KeyOf(rows[i]))
  }

  /** Rows whose keys Python can compare, pair by pair. */
  predicate Comparable(rows: seq<Json.Dict>) {
    forall i, j :: 0 <= i < |rows| && 0 <= j < |rows| ==> KeyCompare(EnergyOf(rows[i]), EnergyOf(rows[j])).Some?
  }

  /** The positions of the rows in ranked order: every position once; rows with a value
      before rows without; then by number, then by text; equal keys in their original
      order. */
  function RankOrder(rows: seq<Json.Dict>): (perm: seq<nat>)
    ensures |perm| == |rows| && forall y: nat :: y in perm <==> y < |rows|
    ensures forall i :: 0 <= i < |perm| ==> perm[i] < |rows|
    ensures forall i, j :: 0 <= i < j < |perm| ==>
      var a, b := KeyOf(rows[perm[i]]), KeyOf(rows[perm[j]]);
      && (a.missing ==> b.missing)
      && (a.missing == b.missing ==> a.num <= b.num)
      && (a.missing == b.missing && a.num == b.num ==> a.text == b.text || Text.LexLess(a.text, b.text))
      && (a == b ==> perm[i] < perm[j])
  {
    KeyLessIsStrictTotal();
    var keys := Keys(rows);
    var perm := Sorting.SortIndices(keys, KeyLess);
    assert forall i, j :: 0 <= i < j < |perm| ==> Sorting.Before(keys, KeyLess, perm[i], perm[j]);
    perm
  }

  /** `sorted(rows, key=lambda r: (r.get("energy_like_metric") is None,
      r.get("energy_like_metric", float("inf"))))`: TypeError when two keys do not compare
      (a sort has to compare the rows it leaves next to each other, so such a pair is met),
      and otherwise the stable sort by key. */
  function Ranking(rows: seq<Json.Dict>): Result<seq<Json.Dict>, Exception> {
    if !Comparable(rows) then Failure(TypeError)
    else Success(Sorting.Permute(rows, RankOrder(rows)))
  }

  /** The rows in ranked order: the rows permuted, with no row whose key Python's `<` puts
      before an earlier row's, and rows with equal keys in their original order. */
  lemma RankingSorted(rows: seq<Json.Dict>)
    requires Ranking(rows).Success?
    ensures var ranked, perm := Ranking(rows).value, RankOrder(rows);
      && |ranked| == |rows|
      && (forall i :: 0 <= i < |rows| ==> ranked[i] == rows[perm[i]])
      && (forall i, j :: 0 <= i < j < |ranked| ==> KeyCompare(EnergyOf(ranked[j]), EnergyOf(ranked[i])) == Some(false))
      && (forall i, j :: 0 <= i < j < |ranked| && KeyOf(ranked[i]) == KeyOf(ranked[j]) ==> perm[i] < perm[j])
  {
    var perm := RankOrder(rows);
    var ranked := Ranking(rows).value;
    forall i, j | 0 <= i < j < |ranked| ensures KeyCompare(EnergyOf(ranked[j]), EnergyOf(ranked[i])) == Some(false) {
      RankedPairInOrder(rows, i, j);
    }
  }

  /** A later row of the ranking never has a key Python's `<` puts before an earlier one's. */
  lemma RankedPairInOrder(rows: seq<Json.Dict>, i: nat, j: nat)
    requires Comparable(rows) && i < j < |rows|
    ensures var perm := RankOrder(rows);
      KeyCompare(EnergyOf(rows[perm[j]]), EnergyOf(rows[perm[i]])) == Some(false)
  {
    var perm := RankOrder(rows);
    var a, b := rows[perm[i]], rows[perm[j]];
    assert KeyCompare(EnergyOf(b), EnergyOf(a)).Some?;
    KeyLessAgrees(b, a);
    NotLessWhenOrdered(KeyOf(a), KeyOf(b));
  }

  /** A key that is at most another in the ranked order is not greater than it. */
  lemma NotLessWhenOrdered(x: RankKey, y: RankKey)
    requires x.missing ==> y.missing
    requires x.missing == y.missing ==> x.num <= y.num
    requires x.missing == y.missing && x.num == y.num ==> x.text == y.text || Text.LexLess(x.text, y.text)
    ensures !KeyLess(y, x)
  {
    if x.missing == y.missing && x.num == y.num {
      Text.LexLessIrreflexive(x.text);
      if x.text != y.text && Text.LexLess(y.text, x.text) {
        Text.LexLessTransitive(x.text, y.text, x.text);
      }
    }
  }

  /** A single row (or none) has nothing to be compared with, so ranking it cannot raise. */
  lemma RankingOfOne(rows: seq<Json.Dict>)
    requires |rows| <= 1
    ensures Ranking(rows) == Success(rows)
  {
    var perm := RankOrder(rows);
    if |rows| == 1 {
      assert KeyCompare(EnergyOf(rows[0]), EnergyOf(rows[0])).Some?;
      assert 0 in perm;
      assert perm == [0];
      assert Sorting.Permute(rows, perm) == rows;
    } else {
      assert Sorting.Permute(rows, perm) == rows;
    }
  }

  /** When every energy is a string or None, ranking does not raise, and the strings come
      first, in code-point order. */
  lemma TextAndNoneRank(rows: seq<Json.Dict>)
    requires forall i :: 0 <= i < |rows| ==> EnergyOf(rows[i]).Present? && (EnergyOf(rows[i]).v.Str? || EnergyOf(rows[i]).v.Null?)
    ensures Ranking(rows).Success?
    ensures var ranked := Ranking(rows).value;
      forall i, j :: 0 <= i < j < |ranked| && EnergyOf(ranked[j]).v.Str? ==>
        EnergyOf(ranked[i]).v.Str? && (EnergyOf(ranked[i]).v == EnergyOf(ranked[j]).v || Text.LexLess(EnergyOf(ranked[i]).v.s, EnergyOf(ranked[j]).v.s))
  {
    TextAndNoneComparable(rows);
    RankingSorted(rows);
    var ranked := Ranking(rows).value;
    var perm := RankOrder(rows);
    forall i, j | 0 <= i < j < |ranked| && EnergyOf(ranked[j]).v.Str?
      ensures EnergyOf(ranked[i]).v.Str? &&
        (EnergyOf(ranked[i]).v == EnergyOf(ranked[j]).v || Text.LexLess(EnergyOf(ranked[i]).v.s, EnergyOf(ranked[j]).v.s))
    {
      assert ranked[i] == rows[perm[i]] && ranked[j] == rows[perm[j]];
      TextPairInOrder(EnergyOf(ranked[i]), EnergyOf(ranked[j]));
    }
  }

  lemma TextAndNoneComparable(rows: seq<Json.Dict>)
    requires forall i :: 0 <= i < |rows| ==> EnergyOf(rows[i]).Present? && (EnergyOf(rows[i]).v.Str? || EnergyOf(rows[i]).v.Null?)
    ensures Comparable(rows)
  {
    forall i, j | 0 <= i < |rows| && 0 <= j < |rows| ensures KeyCompare(EnergyOf(rows[i]), EnergyOf(rows[j])).Some? {
      TextOrNoneCompare(EnergyOf(rows[i]), EnergyOf(rows[j]));
    }
  }

  lemma TextOrNoneCompare(a: Energy, b: Energy)
    requires a.Present? && (a.v.Str? || a.v.Null?) && b.Present? && (b.v.Str? || b.v.Null?)
    ensures KeyCompare(a, b).Some?
  {
  }

  /** A string energy ranked after another energy that does not come before it under `<`:
      the other is a string too, and no later in code-point order. */
  lemma TextPairInOrder(a: Energy, b: Energy)
    requires a.Present? && (a.v.Str? || a.v.Null?) && b.Present? && b.v.Str?
    requires KeyCompare(b, a) == Some(false)
    ensures a.v.Str? && (a.v == b.v || Text.LexLess(a.v.s, b.v.s))
  {
    if a.v != b.v {
      Text.LexLessTotal(a.v.s, b.v.s);
    }
  }

  /** The rows `collect_runs` builds always rank: each has an `energy_like_metric` that is a
      float or None, so two keys never meet an absent entry. */
  lemma CollectedRowsRank(root: Option<seq<RunDir>>, p: Json.Parsers)
    requires CollectSpec(root, p).Success?
    ensures Comparable(CollectSpec(root, p).value)
    ensures Ranking(CollectSpec(root, p).value).Success?
  {
    var ds := VisitOrder(root.value);
    CollectedRows(ds, p);
    var cs := Completes(ds);
    var rows := CollectSpec(root, p).value;
    assert rows == RowsOfDirs(cs, p);
    RowsOfDirsEnergy(cs, p);
    NumbersAndNoneComparable(rows);
  }

  lemma NumbersAndNoneComparable(rows: seq<Json.Dict>)
    requires forall i :: 0 <= i < |rows| ==> NumberOrNone(EnergyOf(rows[i]))
    ensures Comparable(rows)
  {
    forall i, j | 0 <= i < |rows| && 0 <= j < |rows| ensures KeyCompare(EnergyOf(rows[i]), EnergyOf(rows[j])).Some? {
      NumbersAndNoneCompare(EnergyOf(rows[i]), EnergyOf(rows[j]));
    }
  }

  /** Two floats or None values always compare as keys. */
  lemma NumbersAndNoneCompare(a: Energy, b: Energy)
    requires NumberOrNone(a) && NumberOrNone(b)
    ensures KeyCompare(a, b).Some?
  {
  }

  /** A float or None, the two values a collected row holds under `energy_like_metric`. */
  predicate NumberOrNone(e: Energy) {
    e.Present? && (e.v.Real? || e.v.Null?)
  }

  /** Rows built from readable directories all hold a number or None. */
  lemma RowsOfDirsEnergy(cs: seq<RunDir>, p: Json.Parsers)
    requires forall d :: d in cs ==> Readable(d)
    ensures forall i :: 0 <= i < |cs| ==> NumberOrNone(EnergyOf(RowsOfDirs(cs, p)[i]))
  {
    var rows := RowsOfDirs(cs, p);
    forall i | 0 <= i < |cs| ensures NumberOrNone(EnergyOf(rows[i])) {
      assert cs[i] in cs;
      RowOfDirEnergy(cs[i], p);
    }
  }

  /** Every collected row holds an `energy_like_metric` that is a number or None. */
  lemma RowOfDirEnergy(d: RunDir, p: Json.Parsers)
    requires Readable(d)
    ensures NumberOrNone(EnergyOf(RowOfDir(d, p)))
  {
    RowEnergy(d.name, d.path, d.meta.value.entries, d.metrics.value.entries, p);
  }

  /** `ranked[:top_n]`, negative bounds counting from the end as Python slices do. */
  function SliceTo<T>(s: seq<T>, n: int): seq<T> {
    if n >= |s| then s
    else if n >= 0 then s[..n]
    else if |s| + n > 0 then s[..|s| + n]
    else []
  }

  /** For `top_n >= 0` the top list is the first `min(top_n, len(rows))` ranked rows. */
  lemma TopIsPrefix<T>(ranked: seq<T>, n: int)
    requires n >= 0
    ensures |SliceTo(ranked, n)| == (if n < |ranked| then n else |ranked|)
    ensures SliceTo(ranked, n) <= ranked
  {
  }

  // ---------------------------------------------------------------------------
  // `write_summary_artifacts`

  const MdHeaders: seq<string> := ["run_id", "nx", "alpha", "t_max", "stability_ratio", "max_temperature", "energy_like_metric"]

  const TopHeaders: seq<string> := ["run_id", "nx", "alpha", "t_max", "energy_like_metric", "stability_ratio", "max_temperature"]

  const TopNote: string := "Note: This ranking" + " is a simple," + " generic objective" + " for demonstration."

  /** `[r.get(h) for h in headers]`. */
  function Pick(r: Json.Dict, headers: seq<string>): (vs: seq<Json.Json>)
    ensures |vs| == |headers| && forall i :: 0 <= i < |headers| ==> vs[i] == Json.Get(r, headers[i], Json.Null)
  {
    seq(|headers|, i requires 0 <= i < |headers| => Json.Get(r, headers[i], Json.Null))
  }

  function PickAll(rows: seq<Json.Dict>, headers: seq<string>): (t: seq<seq<Json.Json>>)
    ensures |t| == |rows| && forall k :: 0 <= k < |rows| ==> t[k] == Pick(rows[k], headers)
  {
    seq(|rows|, k requires 0 <= k < |rows| => Pick(rows[k], headers))
  }

  function SummaryMd(rows: seq<Json.Dict>, show: Json.Json -> string, fmtFloat: real -> string): string {
    "# Run Summary\n\n" + MdTable(MdHeaders, PickAll(rows, MdHeaders), show, fmtFloat) + "\n"
  }

  function TopTitle(topN: int): string {
    "# Top " + Text.IntToString(topN) + " Runs (by lowest" + " energy_like_metric)"
  }

  function TopRunsMd(top: seq<Json.Dict>, topN: int, show: Json.Json -> string, fmtFloat: real -> string): string {
    TopTitle(topN) + "\n\n" + MdTable(TopHeaders, PickAll(top, TopHeaders), show, fmtFloat) + "\n\n" + TopNote + "\n"
  }

  /** The three texts written: `summary.csv` and `summary.md` are written before the ranking,
      so a ranking that raises leaves them in place and `top_runs.md` unwritten. */
  datatype Artifacts = Artifacts(csv: string, summaryMd: string, topRunsMd: Result<string, Exception>)

  function SummaryArtifacts(rows: seq<Json.Dict>, topN: int, show: Json.Json -> string, fmtFloat: real -> string): Artifacts {
    Artifacts(
      SummaryCsv(rows, CsvColumns, show),
      SummaryMd(rows, show, fmtFloat),
      match Ranking(rows)
      case Failure(e) => Failure(e)
      case Success(ranked) => Success(TopRunsMd(SliceTo(ranked, topN), topN, show, fmtFloat)))
  }
}
