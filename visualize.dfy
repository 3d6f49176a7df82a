/** Reading the run ids back out of `top_runs.md` (`_extract_run_ids_from_top_runs`). The
    file's text is an input, `None` when the file does not exist. */
module Visualize {
  import opened Wrappers
  import Text
  import Json
  import Aggregate

  /** `line.startswith("|") and "run_" in line and "run_id" not in line and "---" not in line`. */
  predicate IsRunRow(line: string) {
    && Text.StartsWith(line, "|")
    && Text.Contains(line, "run_")
    && !Text.Contains(line, "run_id")
    && !Text.Contains(line, "---")
  }

  /** `[p.strip() for p in line.strip("|").split("|")]`; never empty, since `split` never is. */
  function Cells(line: string): (cells: seq<string>)
    ensures |cells| >= 1
  {
    var parts := Text.Split(Text.StripBars(line), '|');
    seq(|parts|, i requires 0 <= i < |parts| => Text.Strip(parts[i]))
  }

  /** What one line of the file contributes: the first cell of a run row, nothing otherwise. */
  function Taken(line: string): (ids: seq<string>)
    ensures |ids| <= 1
  {
    var l := Text.Strip(line);
    if IsRunRow(l) then [Cells(l)[0]] else []
  }

  /** The ids of all lines, in file order, with no bound on their number. */
  function AllIds(lines: seq<string>, take: string -> seq<string>): seq<string>
    decreases |lines|
  {
    if lines == [] then [] else take(lines[0]) + AllIds(lines[1..], take)
  }

  /** The loop from some line on, with `ids` collected so far: each line contributes first,
      then the bound is checked. */
  function Scan(lines: seq<string>, ids: seq<string>, maxN: int, take: string -> seq<string>): seq<string>
    decreases |lines|
  {
    if lines == [] then ids
    else
      var next := ids + take(lines[0]);
      if |next| >= maxN then next else Scan(lines[1..], next, maxN, take)
  }

  function ExtractSpec(file: Option<string>, maxN: int): Result<seq<string>, Exception> {
    match file
    case None => Failure(FileNotFoundError)
    case Some(text) => Success(Scan(Text.SplitLines(text), [], maxN, Taken))
  }

  /** `_extract_run_ids_from_top_runs(top_runs_md, max_n)`. */
  method ExtractRunIds(file: Option<string>, maxN: int) returns (r: Result<seq<string>, Exception>)
    ensures r == ExtractSpec(file, maxN)
  {
    if file.None? {
      return Failure(FileNotFoundError);
    }
    var lines := Text.SplitLines(file.value);
    ghost var spec := Scan(lines, [], maxN, Taken);
    var ids: seq<string> := [];
    var i := 0;
    assert lines[0..] == lines;
    while i < |lines|
      invariant 0 <= i <= |lines|
      invariant spec == Scan(lines[i..], ids, maxN, Taken)
      decreases |lines| - i
    {
      ScanStep(lines, i, ids, maxN);
      var found := LineId(lines[i]);
      ids := ids + found;
      if |ids| >= maxN {
        return Success(ids);
      }
      i := i + 1;
    }
    return Success(ids);
  }

  /** The body of the loop for one line: the trimmed line's first cell when it is a run row. */
  method LineId(raw: string) returns (found: seq<string>)
    ensures found == Taken(raw)
  {
    var line := Text.Strip(raw);
    found := [];
    if IsRunRow(line) {
      var parts := Cells(line);
      found := [parts[0]];
    }
  }

  /** One turn of the loop: line `i` contributes, then the bound is checked. */
  lemma ScanStep(lines: seq<string>, i: nat, ids: seq<string>, maxN: int)
    requires i < |lines|
    ensures var next := ids + Taken(lines[i]);
      Scan(lines[i..], ids, maxN, Taken) == if |next| >= maxN then next else Scan(lines[i + 1..], next, maxN, Taken)
  {
    assert lines[i..][0] == lines[i] && lines[i..][1..] == lines[i + 1..];
  }

  function Min(a: int, b: int): int {
    if a < b then a else b
  }

  /** While fewer than `maxN` ids are held, the loop returns them followed by the first ids
      of the remaining lines, as many as fit under the bound. */
  lemma {:induction false} ScanIsPrefix(lines: seq<string>, ids: seq<string>, maxN: int, take: string -> seq<string>)
    requires |ids| < maxN
    requires forall l :: |take(l)| <= 1
    ensures var all := AllIds(lines, take);
      Scan(lines, ids, maxN, take) == ids + all[..Min(maxN - |ids|, |all|)]
    decreases |lines|
  {
    if lines != [] {
      var t, rest := take(lines[0]), AllIds(lines[1..], take);
      var all := t + rest;
      assert AllIds(lines, take) == all;
      if |ids + t| >= maxN {
        assert all[..Min(maxN - |ids|, |all|)] == t;
      } else {
        ScanIsPrefix(lines[1..], ids + t, maxN, take);
        var n := Min(maxN - |ids + t|, |rest|);
        assert all[..Min(maxN - |ids|, |all|)] == t + rest[..n];
      }
    }
  }

  /** The loop started with no ids: the first ids of the lines, at most `maxN` of them. */
  lemma ScanFromStart(lines: seq<string>, maxN: int, take: string -> seq<string>)
    requires maxN >= 1
    requires forall l :: |take(l)| <= 1
    ensures var all := AllIds(lines, take);
      Scan(lines, [], maxN, take) == all[..Min(maxN, |all|)]
  {
    var all := AllIds(lines, take);
    var first := all[..Min(maxN, |all|)];
    ScanIsPrefix(lines, [], maxN, take);
    assert [] + first == first;
  }

  /** For `max_n >= 1` the result is the first ids of the file, in file order, at most
      `max_n` of them: fewer only when the file holds fewer. */
  lemma AtMostMaxN(text: string, maxN: int)
    requires maxN >= 1
    ensures var all := AllIds(Text.SplitLines(text), Taken);
      ExtractSpec(Some(text), maxN) == Success(all[..Min(maxN, |all|)])
  {
    var lines := Text.SplitLines(text);
    assert ExtractSpec(Some(text), maxN) == Success(Scan(lines, [], maxN, Taken));
    ScanFromStart(lines, maxN, Taken);
  }

  /** For `max_n <= 0` the bound is met after the first line, so only that line is read. */
  lemma NonPositiveBound(text: string, maxN: int)
    requires maxN <= 0
    ensures var lines := Text.SplitLines(text);
      ExtractSpec(Some(text), maxN) == Success(if lines == [] then [] else Taken(lines[0]))
  {
    var lines := Text.SplitLines(text);
    if lines != [] {
      assert [] + Taken(lines[0]) == Taken(lines[0]);
    }
  }

  // ---------------------------------------------------------------------------
  // Lines of a markdown table

  /** A cell the markdown layout keeps intact: no bar, and no surrounding whitespace. */
  predicate PlainCell(c: string) {
    '|' !in c && (c == [] || (!Text.IsSpace(c[0]) && !Text.IsSpace(c[|c| - 1])))
  }

  function Padded(cells: seq<string>): (ps: seq<string>)
    ensures |ps| == |cells| && forall i :: 0 <= i < |cells| ==> ps[i] == " " + cells[i] + " "
  {
    seq(|cells|, i requires 0 <= i < |cells| => " " + cells[i] + " ")
  }

  lemma {:induction false} PaddedJoin(cells: seq<string>)
    requires cells != []
    ensures " " + Text.Join(" | ", cells) + " " == Text.Join("|", Padded(cells))
    decreases |cells|
  {
    if |cells| > 1 {
      PaddedJoin(cells[1..]);
      assert Padded(cells)[1..] == Padded(cells[1..]);
      var j := Text.Join(" | ", cells[1..]);
      assert " " + (cells[0] + " | " + j) + " " == (" " + cells[0] + " ") + "|" + (" " + j + " ");
    }
  }

  /** A line that neither starts nor ends with whitespace is read as it stands. */
  lemma TakenUnpadded(line: string)
    requires line != [] && !Text.IsSpace(line[0]) && !Text.IsSpace(line[|line| - 1])
    ensures Taken(line) == if IsRunRow(line) then [Cells(line)[0]] else []
  {
    assert line == [] + line + [];
    Text.StripPadded([], line, [], Text.IsSpace);
  }

  /** A markdown line is read as it stands: it starts and ends with a bar. */
  lemma MdLineTaken(cells: seq<string>)
    ensures var line := Aggregate.MdLine(cells);
      Taken(line) == if IsRunRow(line) then [Cells(line)[0]] else []
  {
    TakenUnpadded(Aggregate.MdLine(cells));
  }

  /** Stripping the outer bars of a markdown line leaves its padded inside. */
  lemma StripBarsMdLine(cells: seq<string>)
    ensures Text.StripBars(Aggregate.MdLine(cells)) == " " + Text.Join(" | ", cells) + " "
  {
    var mid := " " + Text.Join(" | ", cells) + " ";
    assert Aggregate.MdLine(cells) == "|" + mid + "|";
    Text.StripPadded("|", mid, "|", Text.IsBar);
  }

  /** Splitting that inside at the bars gives the padded cells. */
  lemma SplitPadded(cells: seq<string>)
    requires cells != [] && forall i :: 0 <= i < |cells| ==> '|' !in cells[i]
    ensures Text.Split(" " + Text.Join(" | ", cells) + " ", '|') == Padded(cells)
  {
    PaddedJoin(cells);
    var ps := Padded(cells);
    assert forall i :: 0 <= i < |ps| ==> '|' !in ps[i];
    Text.SplitJoin(ps, '|');
  }

  /** Splitting a markdown line of plain cells gives back its cells. */
  lemma CellsOfMdLine(cells: seq<string>)
    requires cells != [] && forall i :: 0 <= i < |cells| ==> PlainCell(cells[i])
    ensures Cells(Aggregate.MdLine(cells)) == cells
  {
    StripBarsMdLine(cells);
    SplitPadded(cells);
    var ps := Padded(cells);
    forall i | 0 <= i < |cells| ensures Text.Strip(ps[i]) == cells[i] {
      Text.StripPadded(" ", cells[i], " ", Text.IsSpace);
    }
  }

  /** A markdown line holds a word without spaces and bars exactly when one of its cells does. */
  lemma MdLineContains(cells: seq<string>, p: string)
    requires p != [] && ' ' !in p && '|' !in p
    ensures Text.Contains(Aggregate.MdLine(cells), p) <==> exists i :: 0 <= i < |cells| && Text.Contains(cells[i], p)
  {
    var j := Text.Join(" | ", cells);
    if Text.Contains(" | ", p) { Text.ContainsFirstChar(" | ", p); }
    Text.JoinContains(" | ", cells, p);
    if Text.Contains("| ", p) { Text.ContainsFirstChar("| ", p); }
    if Text.Contains(" |", p) { Text.ContainsFirstChar(" |", p); }
    Text.ContainsAppend("| ", j, p);
    Text.ContainsAppend("| " + j, " |", p);
  }

  /** The header line of a table with a `run_id` column is never taken. */
  lemma HeaderNotTaken(headers: seq<string>)
    requires "run_id" in headers
    ensures Taken(Aggregate.MdLine(headers)) == []
  {
    assert Text.Contains(Aggregate.MdLine(headers), "run_id") by {
      var i :| 0 <= i < |headers| && headers[i] == "run_id";
      assert Text.Contains(headers[i], "run_id");
      MdLineContains(headers, "run_id");
    }
    MdLineTaken(headers);
  }

  /** The separator line of a table with at least one column is never taken. */
  lemma SeparatorNotTaken(n: nat)
    requires n >= 1
    ensures Taken(Aggregate.MdLine(Aggregate.Dashes(n))) == []
  {
    var dashes := Aggregate.Dashes(n);
    assert Text.Contains(Aggregate.MdLine(dashes), "---") by {
      assert Text.Contains(dashes[0], "---");
      MdLineContains(dashes, "---");
    }
    MdLineTaken(dashes);
  }

  /** The cells of a data row that reads back as its run id: plain single-line cells, none
      holding `run_id` or `---`, the first one starting with `run_`. */
  predicate RunRowCells(cells: seq<string>) {
    && cells != []
    && Text.StartsWith(cells[0], "run_")
    && forall i :: 0 <= i < |cells| ==>
      && PlainCell(cells[i]) && Text.NoLineBreak(cells[i])
      && !Text.Contains(cells[i], "run_id") && !Text.Contains(cells[i], "---")
  }

  /** A data row whose first cell is a run id yields exactly that id. */
  lemma RunRowTaken(cells: seq<string>)
    requires RunRowCells(cells)
    ensures Taken(Aggregate.MdLine(cells)) == [cells[0]]
  {
    var line := Aggregate.MdLine(cells);
    assert IsRunRow(line) by {
      assert Text.Contains(cells[0], "run_");
      MdLineContains(cells, "run_");
      MdLineContains(cells, "run_id");
      MdLineContains(cells, "---");
    }
    CellsOfMdLine(cells);
    MdLineTaken(cells);
  }

  // ---------------------------------------------------------------------------
  // Reading back the file `write_summary_artifacts` writes

  /** The title is a single line. */
  lemma TitleSingleLine(topN: int)
    ensures Text.NoLineBreak(Aggregate.TopTitle(topN))
  {
    var n := Text.IntToString(topN);
    var a, b, c := "# Top ", " Runs (by lowest", " energy_like_metric)";
    assert Aggregate.TopTitle(topN) == a + n + b + c;
    assert Text.NoLineBreak(n);
    Aggregate.NoLineBreakAppend(a, n);
    Aggregate.NoLineBreakAppend(a + n, b);
    Aggregate.NoLineBreakAppend(a + n + b, c);
  }

  /** The title line is not a table row. */
  lemma TitleNotTaken(topN: int)
    ensures Taken(Aggregate.TopTitle(topN)) == []
  {
    var t := Aggregate.TopTitle(topN);
    assert t[0] == '#';
    assert t[|t| - 1] == ')';
    TakenUnpadded(t);
  }

  /** The closing note is a single line. */
  lemma NoteSingleLine()
    ensures Text.NoLineBreak(Aggregate.TopNote)
  {
    var a, b, c, d := "Note: This ranking", " is a simple,", " generic objective", " for demonstration.";
    assert Aggregate.TopNote == a + b + c + d;
    Aggregate.NoLineBreakAppend(a, b);
    Aggregate.NoLineBreakAppend(a + b, c);
    Aggregate.NoLineBreakAppend(a + b + c, d);
  }

  /** The closing note is not a table row. */
  lemma NoteNotTaken()
    ensures Taken(Aggregate.TopNote) == []
  {
    var t := Aggregate.TopNote;
    assert t[0] == 'N';
    assert t[|t| - 1] == '.';
    TakenUnpadded(t);
  }

  /** The run ids of the top rows as the table renders them. */
  function RankedIds(top: seq<Json.Dict>, show: Json.Json -> string, fmtFloat: real -> string): (ids: seq<string>)
    ensures |ids| == |top|
    ensures forall k :: 0 <= k < |top| ==> ids[k] == Aggregate.MdText(Json.Get(top[k], "run_id", Json.Null), show, fmtFloat)
  {
    seq(|top|, k requires 0 <= k < |top| => Aggregate.MdText(Json.Get(top[k], "run_id", Json.Null), show, fmtFloat))
  }

  /** Rows whose rendered `top_runs.md` cells read back. */
  ghost predicate ReadableTop(top: seq<Json.Dict>, show: Json.Json -> string, fmtFloat: real -> string) {
    forall k :: 0 <= k < |top| ==> RunRowCells(Aggregate.MdCells(Aggregate.Pick(top[k], Aggregate.TopHeaders), show, fmtFloat))
  }

  lemma {:induction false} AllIdsAppend(a: seq<string>, b: seq<string>, take: string -> seq<string>)
    ensures AllIds(a + b, take) == AllIds(a, take) + AllIds(b, take)
    decreases |a|
  {
    if a != [] {
      assert (a + b)[1..] == a[1..] + b;
      AllIdsAppend(a[1..], b, take);
    } else {
      assert a + b == b;
    }
  }

  /** Lines that each yield one id yield those ids, in order. */
  lemma {:induction false} AllIdsOfRows(lines: seq<string>, ids: seq<string>, take: string -> seq<string>)
    requires |lines| == |ids| && forall k :: 0 <= k < |lines| ==> take(lines[k]) == [ids[k]]
    ensures AllIds(lines, take) == ids
    decreases |lines|
  {
    if lines != [] {
      AllIdsOfRows(lines[1..], ids[1..], take);
      assert ids == [ids[0]] + ids[1..];
    }
  }

  /** Lines that yield nothing around a block of lines yield that block's ids. */
  lemma AllIdsFramed(title: string, block: seq<string>, note: string, take: string -> seq<string>)
    requires take(title) == [] && take("") == [] && take(note) == []
    ensures AllIds([title, ""] + block + ["", note], take) == AllIds(block, take)
  {
    var head, tail := [title, ""], ["", note];
    AllIdsAppend(head + block, tail, take);
    AllIdsAppend(head, block, take);
    assert head[1..] == [""] && [""][1..] == [];
    assert AllIds(head, take) == [] + ([] + []);
    assert tail[1..] == [note] && [note][1..] == [];
    assert AllIds(tail, take) == [] + ([] + []);
    assert [] + AllIds(block, take) + [] == AllIds(block, take);
  }

  /** The header and separator lines yield nothing. */
  lemma AllIdsAfterTwo(a: string, b: string, rest: seq<string>, take: string -> seq<string>)
    requires take(a) == [] && take(b) == []
    ensures AllIds([a, b] + rest, take) == AllIds(rest, take)
  {
    AllIdsAppend([a, b], rest, take);
    assert [a, b][1..] == [b] && [b][1..] == [];
    assert AllIds([a, b], take) == [] + ([] + []);
    assert [] + AllIds(rest, take) == AllIds(rest, take);
  }

  function BodyLines(top: seq<Json.Dict>, show: Json.Json -> string, fmtFloat: real -> string): (ls: seq<string>)
    ensures |ls| == |top|
    ensures forall k :: 0 <= k < |top| ==> ls[k] == Aggregate.MdLine(Aggregate.MdCells(Aggregate.Pick(top[k], Aggregate.TopHeaders), show, fmtFloat))
  {
    seq(|top|, k requires 0 <= k < |top| => Aggregate.MdLine(Aggregate.MdCells(Aggregate.Pick(top[k], Aggregate.TopHeaders), show, fmtFloat)))
  }

  /** Each data line yields its row's run id. */
  lemma BodyLinesIds(top: seq<Json.Dict>, show: Json.Json -> string, fmtFloat: real -> string)
    requires ReadableTop(top, show, fmtFloat)
    ensures AllIds(BodyLines(top, show, fmtFloat), Taken) == RankedIds(top, show, fmtFloat)
  {
    var lines, ids := BodyLines(top, show, fmtFloat), RankedIds(top, show, fmtFloat);
    forall k | 0 <= k < |top| ensures Taken(lines[k]) == [ids[k]] {
      var cells := Aggregate.MdCells(Aggregate.Pick(top[k], Aggregate.TopHeaders), show, fmtFloat);
      assert Aggregate.TopHeaders[0] == "run_id";
      RunRowTaken(cells);
    }
    AllIdsOfRows(lines, ids, Taken);
  }

  /** The ids of a table's lines are its rows' first cells. */
  lemma TableIds(top: seq<Json.Dict>, show: Json.Json -> string, fmtFloat: real -> string)
    requires ReadableTop(top, show, fmtFloat)
    ensures AllIds(Aggregate.MdTableLines(Aggregate.TopHeaders, Aggregate.PickAll(top, Aggregate.TopHeaders), show, fmtFloat), Taken) == RankedIds(top, show, fmtFloat)
  {
    var hs := Aggregate.TopHeaders;
    var lines := Aggregate.MdTableLines(hs, Aggregate.PickAll(top, hs), show, fmtFloat);
    var body := lines[2..];
    assert lines == [lines[0], lines[1]] + body;
    assert body == BodyLines(top, show, fmtFloat);
    assert hs[0] == "run_id";
    HeaderNotTaken(hs);
    SeparatorNotTaken(|hs|);
    AllIdsAfterTwo(lines[0], lines[1], body, Taken);
    BodyLinesIds(top, show, fmtFloat);
  }

  /** Every line of `top_runs.md`, in order. */
  function TopRunsLines(top: seq<Json.Dict>, topN: int, show: Json.Json -> string, fmtFloat: real -> string): seq<string> {
    [Aggregate.TopTitle(topN), ""]
      + Aggregate.MdTableLines(Aggregate.TopHeaders, Aggregate.PickAll(top, Aggregate.TopHeaders), show, fmtFloat)
      + ["", Aggregate.TopNote]
  }

  /** A title, a blank line, a table, a blank line and a note, written as `top_runs.md`
      writes them, are those lines written one per line. */
  lemma FramedText(title: string, table: seq<string>, note: string)
    requires table != []
    ensures title + "\n\n" + Text.Join("\n", table) + "\n\n" + note + "\n" == Text.Unlines([title, ""] + table + ["", note])
  {
    var head, tail := [title, ""], ["", note];
    Text.JoinNewlines(table);
    Text.UnlinesAppend(head + table, tail);
    Text.UnlinesAppend(head, table);
    assert head[1..] == [""] && [""][1..] == [];
    assert Text.Unlines(head) == title + "\n\n";
    assert tail[1..] == [note] && [note][1..] == [];
    assert Text.Unlines(tail) == "\n" + note + "\n";
  }

  /** `top_runs.md` is its lines written one per line. */
  lemma TopRunsText(top: seq<Json.Dict>, topN: int, show: Json.Json -> string, fmtFloat: real -> string)
    ensures Aggregate.TopRunsMd(top, topN, show, fmtFloat) == Text.Unlines(TopRunsLines(top, topN, show, fmtFloat))
  {
    var table := Aggregate.MdTableLines(Aggregate.TopHeaders, Aggregate.PickAll(top, Aggregate.TopHeaders), show, fmtFloat);
    FramedText(Aggregate.TopTitle(topN), table, Aggregate.TopNote);
  }

  /** Framed lines without line breaks read back as written. */
  lemma FramedSplit(title: string, table: seq<string>, note: string)
    requires Text.NoLineBreak(title) && Text.NoLineBreak(note)
    requires forall j :: 0 <= j < |table| ==> Text.NoLineBreak(table[j])
    ensures var lines := [title, ""] + table + ["", note];
      Text.SplitLines(Text.Unlines(lines)) == lines
  {
    var lines := [title, ""] + table + ["", note];
    forall j | 0 <= j < |lines| ensures Text.NoLineBreak(lines[j]) {
      if 2 <= j < 2 + |table| { assert lines[j] == table[j - 2]; }
    }
    Text.SplitLinesUnlines(lines);
  }

  /** The headers are plain words. */
  lemma TopHeadersSingleLine()
    ensures forall i :: 0 <= i < |Aggregate.TopHeaders| ==> Text.NoLineBreak(Aggregate.TopHeaders[i])
  {
    ShortHeadersSingleLine();
    LongHeadersSingleLine();
  }

  /** The first four headers, the run and its parameters, are plain words. */
  lemma ShortHeadersSingleLine()
    ensures forall i :: 0 <= i < 4 ==> Text.NoLineBreak(Aggregate.TopHeaders[i])
  {
    var hs := Aggregate.TopHeaders;
    assert Text.NoLineBreak(hs[0]) && Text.NoLineBreak(hs[1]) && Text.NoLineBreak(hs[2]) && Text.NoLineBreak(hs[3]);
  }

  /** The last three headers, the metrics, are plain words. */
  lemma LongHeadersSingleLine()
    ensures forall i :: 4 <= i < 7 ==> Text.NoLineBreak(Aggregate.TopHeaders[i])
  {
    var hs := Aggregate.TopHeaders;
    assert Text.NoLineBreak(hs[4]);
    assert Text.NoLineBreak(hs[5]);
    assert Text.NoLineBreak(hs[6]);
  }

  /** The top table of readable rows holds no line break. */
  lemma TopTableSingleLine(top: seq<Json.Dict>, show: Json.Json -> string, fmtFloat: real -> string)
    requires ReadableTop(top, show, fmtFloat)
    ensures Aggregate.SingleLineTable(Aggregate.TopHeaders, Aggregate.PickAll(top, Aggregate.TopHeaders), show, fmtFloat)
  {
    TopHeadersSingleLine();
    var rows := Aggregate.PickAll(top, Aggregate.TopHeaders);
    forall k, i | 0 <= k < |rows| && 0 <= i < |rows[k]| ensures Text.NoLineBreak(Aggregate.MdText(rows[k][i], show, fmtFloat)) {
      var cells := Aggregate.MdCells(Aggregate.Pick(top[k], Aggregate.TopHeaders), show, fmtFloat);
      assert RunRowCells(cells);
      assert cells[i] == Aggregate.MdText(rows[k][i], show, fmtFloat);
    }
  }

  /** Read line by line, `top_runs.md` gives back its lines. */
  lemma TopRunsSplit(top: seq<Json.Dict>, topN: int, show: Json.Json -> string, fmtFloat: real -> string)
    requires ReadableTop(top, show, fmtFloat)
    ensures Text.SplitLines(Aggregate.TopRunsMd(top, topN, show, fmtFloat)) == TopRunsLines(top, topN, show, fmtFloat)
  {
    var rows := Aggregate.PickAll(top, Aggregate.TopHeaders);
    TopRunsText(top, topN, show, fmtFloat);
    TitleSingleLine(topN);
    NoteSingleLine();
    TopTableSingleLine(top, show, fmtFloat);
    Aggregate.MdTableSingleLines(Aggregate.TopHeaders, rows, show, fmtFloat);
    FramedSplit(Aggregate.TopTitle(topN), Aggregate.MdTableLines(Aggregate.TopHeaders, rows, show, fmtFloat), Aggregate.TopNote);
  }

  /** The lines of `top_runs.md` yield the run ids of its rows, in order. */
  lemma TopRunsIds(top: seq<Json.Dict>, topN: int, show: Json.Json -> string, fmtFloat: real -> string)
    requires ReadableTop(top, show, fmtFloat)
    ensures AllIds(TopRunsLines(top, topN, show, fmtFloat), Taken) == RankedIds(top, show, fmtFloat)
  {
    var table := Aggregate.MdTableLines(Aggregate.TopHeaders, Aggregate.PickAll(top, Aggregate.TopHeaders), show, fmtFloat);
    TitleNotTaken(topN);
    NoteNotTaken();
    assert Taken("") == [];
    AllIdsFramed(Aggregate.TopTitle(topN), table, Aggregate.TopNote, Taken);
    TableIds(top, show, fmtFloat);
  }

  /** Reading a `top_runs.md` written for the top rows returns their run ids, in rank order,
      at most `max_n` of them. */
  lemma TopRunsReadBack(top: seq<Json.Dict>, topN: int, show: Json.Json -> string, fmtFloat: real -> string, maxN: int)
    requires maxN >= 1
    requires ReadableTop(top, show, fmtFloat)
    ensures var ids := RankedIds(top, show, fmtFloat);
      ExtractSpec(Some(Aggregate.TopRunsMd(top, topN, show, fmtFloat)), maxN) == Success(ids[..Min(maxN, |ids|)])
  {
    TopRunsSplit(top, topN, show, fmtFloat);
    TopRunsIds(top, topN, show, fmtFloat);
    AtMostMaxN(Aggregate.TopRunsMd(top, topN, show, fmtFloat), maxN);
  }

  /** The first ids of the top list are the ids of the first ranked rows. */
  lemma TopIdsPrefix(ranked: seq<Json.Dict>, topN: int, maxN: int, show: Json.Json -> string, fmtFloat: real -> string)
    requires topN >= 0 && maxN >= 1
    ensures var top := Aggregate.SliceTo(ranked, topN);
      RankedIds(top, show, fmtFloat)[..Min(maxN, |top|)] == RankedIds(ranked[..Min(Min(maxN, topN), |ranked|)], show, fmtFloat)
  {
    var top := Aggregate.SliceTo(ranked, topN);
    Aggregate.TopIsPrefix(ranked, topN);
    var m := Min(Min(maxN, topN), |ranked|);
    assert top[..Min(maxN, |top|)] == ranked[..m];
  }

  /** End to end: after `write_summary_artifacts(rows, top_n=topN)` with `topN >= 0`, reading
      `top_runs.md` with `max_n >= 1` returns the run ids of the first
      `min(max_n, top_n, len(rows))` ranked rows, in rank order. */
  lemma ArtifactsReadBack(rows: seq<Json.Dict>, topN: int, show: Json.Json -> string, fmtFloat: real -> string, maxN: int)
    requires topN >= 0 && maxN >= 1
    requires Aggregate.Ranking(rows).Success?
    requires ReadableTop(Aggregate.SliceTo(Aggregate.Ranking(rows).value, topN), show, fmtFloat)
    ensures var ranked := Aggregate.Ranking(rows).value;
      var md := Aggregate.SummaryArtifacts(rows, topN, show, fmtFloat).topRunsMd;
      && md.Success?
      && ExtractSpec(Some(md.value), maxN) == Success(RankedIds(ranked[..Min(Min(maxN, topN), |rows|)], show, fmtFloat))
  {
    var ranked := Aggregate.Ranking(rows).value;
    var top := Aggregate.SliceTo(ranked, topN);
    assert Aggregate.SummaryArtifacts(rows, topN, show, fmtFloat).topRunsMd == Success(Aggregate.TopRunsMd(top, topN, show, fmtFloat));
    TopRunsReadBack(top, topN, show, fmtFloat, maxN);
    TopIdsPrefix(ranked, topN, maxN, show, fmtFloat);
  }
}
