/** The parameter sweep (`simulations/sweep.py`): the Cartesian product of the sweep axes, the
    per-combination override of the base parameters, the content-addressed run id, and one
    simulation run per combination with the artifacts it leaves behind. The md5 digest and
    `json.dumps` are supplied functions; directory creation and file writing are not modelled
    beyond the content each file receives. */
module Sweep {
  import opened Wrappers
  import Text
  import Json
  import Sorting
  import Columns
  import Reductions
  import Solver
  import Metrics
  import Extract

  // ---------------------------------------------------------------------------
  // The run id: `"run_" + md5(json.dumps(params, sort_keys=True)).hexdigest()[:8]`

  /** The serialiser and the hex digest, supplied. */
  datatype Hashing = Hashing(dumps: Json.Dict -> string, md5: string -> string)

  function KeyOrder(a: string, b: string): bool {
    Text.LexLess(a, b)
  }

  lemma KeyOrderIsStrictTotal()
    ensures Sorting.StrictTotalOrder(KeyOrder)
  {
    forall a ensures !KeyOrder(a, a) {
      Text.LexLessIrreflexive(a);
    }
    forall a, b, c | KeyOrder(a, b) && KeyOrder(b, c) ensures KeyOrder(a, c) {
      Text.LexLessTransitive(a, b, c);
    }
    forall a, b | a != b ensures KeyOrder(a, b) || KeyOrder(b, a) {
      Text.LexLessTotal(a, b);
    }
  }

  /** The entries of `d` in increasing key order (`sort_keys=True`). */
  function SortedByKey(d: Json.Dict): (r: Json.Dict)
    ensures |r| == |d| && forall e :: e in r <==> e in d
    ensures Json.DistinctKeys(d) ==> forall i, j :: 0 <= i < j < |r| ==> Text.LexLess(r[i].0, r[j].0)
  {
    KeyOrderIsStrictTotal();
    var keys := Json.Keys(d);
    var perm := Sorting.SortIndices(keys, KeyOrder);
    var r := Sorting.Permute(d, perm);
    assert forall e :: e in r <==> e in d by {
      forall e ensures e in r <==> e in d {
        if e in d {
          var i :| 0 <= i < |d| && d[i] == e;
          assert i in perm;
          var j :| 0 <= j < |perm| && perm[j] == i;
          assert r[j] == e;
        }
      }
    }
    assert Json.DistinctKeys(d) ==> forall i, j :: 0 <= i < j < |r| ==> Text.LexLess(r[i].0, r[j].0) by {
      if Json.DistinctKeys(d) {
        forall i, j | 0 <= i < j < |r| ensures Text.LexLess(r[i].0, r[j].0) {
          assert Sorting.Before(keys, KeyOrder, perm[i], perm[j]);
          Sorting.BeforeProperties(keys, KeyOrder, perm[i], perm[i], perm[i]);
        }
      }
    }
    r
  }

  function EntryOrder(a: (string, Json.Json), b: (string, Json.Json)): bool {
    Text.LexLess(a.0, b.0)
  }

  /** Two dicts with the same entries, inserted in any order, serialise the same way once
      sorted by key. */
  lemma SortedByKeyIgnoresInsertionOrder(d1: Json.Dict, d2: Json.Dict)
    requires Json.DistinctKeys(d1) && Json.DistinctKeys(d2)
    requires forall e :: e in d1 <==> e in d2
    ensures SortedByKey(d1) == SortedByKey(d2)
  {
    var r1, r2 := SortedByKey(d1), SortedByKey(d2);
    forall x | x in r1 ensures !EntryOrder(x, x) {
      Text.LexLessIrreflexive(x.0);
    }
    forall x, y, z | x in r1 && y in r1 && z in r1 && EntryOrder(x, y) && EntryOrder(y, z)
      ensures EntryOrder(x, z)
    {
      Text.LexLessTransitive(x.0, y.0, z.0);
    }
    Sorting.StrictlyIncreasingUnique(r1, r2, EntryOrder);
  }

  /** `s[:n]`. */
  function Take(s: string, n: nat): (r: string)
    ensures |r| == if |s| <= n then |s| else n
    ensures r <= s
  {
    if |s| <= n then s else s[..n]
  }

  /** `f"run_{get_stable_id(params)}"`. */
  function RunId(params: Json.Dict, h: Hashing): string {
    "run_" + Take(h.md5(h.dumps(SortedByKey(params))), 8)
  }

  /** With a 32-character hex digest the id is `run_` and 8 characters, and it does not
      depend on the order in which the parameters were inserted. */
  lemma RunIdShape(params: Json.Dict, other: Json.Dict, h: Hashing)
    requires |h.md5(h.dumps(SortedByKey(params)))| == 32
    ensures |RunId(params, h)| == 12 && Text.StartsWith(RunId(params, h), "run_")
    ensures Json.DistinctKeys(params) && Json.DistinctKeys(other) && (forall e :: e in params <==> e in other) ==>
      RunId(other, h) == RunId(params, h)
  {
    if Json.DistinctKeys(params) && Json.DistinctKeys(other) && (forall e :: e in params <==> e in other) {
      SortedByKeyIgnoresInsertionOrder(params, other);
    }
  }

  // ---------------------------------------------------------------------------
  // The combinations: `itertools.product(*values)`

  function Prefixed(x: Json.Json, cs: seq<seq<Json.Json>>): (r: seq<seq<Json.Json>>)
    ensures |r| == |cs| && forall i :: 0 <= i < |cs| ==> r[i] == [x] + cs[i]
  {
    seq(|cs|, i requires 0 <= i < |cs| => [x] + cs[i])
  }

  /** Every value of `xs` followed by every continuation in `cs`, the continuation varying
      fastest. */
  function Expand(xs: seq<Json.Json>, cs: seq<seq<Json.Json>>): (r: seq<seq<Json.Json>>)
    ensures |r| == |xs| * |cs|
  {
    if xs == [] then []
    else
      var rest := Expand(xs[1..], cs);
      assert |xs| * |cs| == |cs| + (|xs| - 1) * |cs|;
      Prefixed(xs[0], cs) + rest
  }

  /** The number of combinations: the product of the axis lengths. */
  function Count(axes: seq<seq<Json.Json>>): nat {
    if axes == [] then 1 else |axes[0]| * Count(axes[1..])
  }

  function Product(axes: seq<seq<Json.Json>>): (r: seq<seq<Json.Json>>)
    ensures |r| == Count(axes)
  {
    if axes == [] then [[]] else Expand(axes[0], Product(axes[1..]))
  }

  /** Every value of `xs` followed by every continuation is among the expansions. */
  lemma ExpandHas(xs: seq<Json.Json>, cs: seq<seq<Json.Json>>, a: nat, b: nat)
    requires a < |xs| && b < |cs|
    ensures [xs[a]] + cs[b] in Expand(xs, cs)
  {
    var i := ExpandIndex(xs, cs, a, b);
  }

  /** A position of value `a` of `xs` with continuation `b` among the expansions. */
  lemma ExpandIndex(xs: seq<Json.Json>, cs: seq<seq<Json.Json>>, a: nat, b: nat) returns (i: nat)
    requires a < |xs| && b < |cs|
    ensures i < |Expand(xs, cs)| && Expand(xs, cs)[i] == [xs[a]] + cs[b]
  {
    ExpandAt(xs, cs, a, b);
    i := a * |cs| + b;
  }

  /** Value `a` of `xs` with continuation `b` sits at position `a * |cs| + b`: lexicographic
      order, the continuation varying fastest. */
  lemma {:induction false} ExpandAt(xs: seq<Json.Json>, cs: seq<seq<Json.Json>>, a: nat, b: nat)
    requires a < |xs| && b < |cs|
    ensures a * |cs| + b < |Expand(xs, cs)|
    ensures Expand(xs, cs)[a * |cs| + b] == [xs[a]] + cs[b]
    decreases a
  {
    var n := |cs|;
    ProductIndexBound(a, b, |xs|, n);
    if a > 0 {
      ExpandAt(xs[1..], cs, a - 1, b);
      var j := a * n + b;
      MulPred(a, n);
      assert j - n == (a - 1) * n + b;
      assert Expand(xs, cs)[j] == Expand(xs[1..], cs)[j - n];
    }
  }

  /** The combinations in order: the first axis varies slowest, the rest follow in their own
      order. */
  lemma ProductOrder(axes: seq<seq<Json.Json>>, a: nat, b: nat)
    requires axes != [] && a < |axes[0]| && b < Count(axes[1..])
    ensures a * Count(axes[1..]) + b < Count(axes)
    ensures Product(axes)[a * Count(axes[1..]) + b] == [axes[0][a]] + Product(axes[1..])[b]
  {
    ExpandAt(axes[0], Product(axes[1..]), a, b);
  }

  lemma MulPred(a: int, n: int)
    ensures a * n == (a - 1) * n + n
  {
  }

  /** A combination is exactly a choice of one value per axis. */
  lemma ProductMembers(axes: seq<seq<Json.Json>>, c: seq<Json.Json>)
    ensures c in Product(axes) <==> Choice(axes, c)
  {
    if c in Product(axes) {
      ProductOnlyChoices(axes, c);
    }
    if Choice(axes, c) {
      ProductAllChoices(axes, c);
    }
  }

  ghost predicate Choice(axes: seq<seq<Json.Json>>, c: seq<Json.Json>) {
    |c| == |axes| && forall i :: 0 <= i < |axes| ==> c[i] in axes[i]
  }

  lemma {:induction false} ProductOnlyChoices(axes: seq<seq<Json.Json>>, c: seq<Json.Json>)
    requires c in Product(axes)
    ensures Choice(axes, c)
    decreases |axes|
  {
    if axes != [] {
      var tail := ExpandMemberOf(axes[0], Product(axes[1..]), c);
      ProductOnlyChoices(axes[1..], tail);
      forall i | 0 <= i < |axes| ensures c[i] in axes[i] {
        if i > 0 { assert c[i] == tail[i - 1] && axes[1..][i - 1] == axes[i]; }
      }
    }
  }

  lemma {:induction false} ProductAllChoices(axes: seq<seq<Json.Json>>, c: seq<Json.Json>)
    requires Choice(axes, c)
    ensures c in Product(axes)
    decreases |axes|
  {
    if axes != [] {
      var rest := Product(axes[1..]);
      var tail := c[1..];
      forall i | 0 <= i < |axes| - 1 ensures tail[i] in axes[1..][i] {
        assert tail[i] == c[i + 1];
      }
      ProductAllChoices(axes[1..], tail);
      var b :| 0 <= b < |rest| && rest[b] == tail;
      var a :| 0 <= a < |axes[0]| && axes[0][a] == c[0];
      ExpandHas(axes[0], rest, a, b);
      assert c == [axes[0][a]] + rest[b];
    } else {
      assert c == [];
    }
  }

  /** Every entry of an expansion is a value of `xs` followed by a continuation in `cs`. */
  /** Every expansion is a value of `xs` followed by a continuation. */
  lemma ExpandMemberOf(xs: seq<Json.Json>, cs: seq<seq<Json.Json>>, c: seq<Json.Json>) returns (tail: seq<Json.Json>)
    requires c in Expand(xs, cs)
    ensures tail in cs && |c| >= 1 && c == [c[0]] + tail && c[0] in xs
  {
    var r := Expand(xs, cs);
    var j :| 0 <= j < |r| && r[j] == c;
    tail := ExpandMember(xs, cs, j);
  }

  lemma {:induction false} ExpandMember(xs: seq<Json.Json>, cs: seq<seq<Json.Json>>, j: int) returns (tail: seq<Json.Json>)
    requires 0 <= j < |Expand(xs, cs)|
    ensures tail in cs && |Expand(xs, cs)[j]| >= 1
    ensures Expand(xs, cs)[j] == [Expand(xs, cs)[j][0]] + tail && Expand(xs, cs)[j][0] in xs
    decreases |xs|
  {
    if j < |cs| {
      tail := cs[j];
    } else {
      tail := ExpandMember(xs[1..], cs, j - |cs|);
      assert Expand(xs, cs)[j] == Expand(xs[1..], cs)[j - |cs|];
    }
  }

  lemma ProductIndexBound(a: nat, b: nat, n: nat, m: nat)
    requires a < n && b < m
    ensures a * m + b < n * m
  {
    MulPred(a + 1, m);
    assert (a + 1) * m <= n * m by {
      Solver.MulMonotone((a + 1) as real, n as real, m as real);
    }
  }

  // ---------------------------------------------------------------------------
  // The override of the base parameters: `current_params[key] = combo[i]`

  /** The base parameters after assigning the first `|keys|` combination values in order. */
  function Override(base: Json.Dict, keys: seq<string>, combo: seq<Json.Json>): Json.Dict
    requires |keys| <= |combo|
  {
    if keys == [] then base
    else
      var n := |keys| - 1;
      Json.Set(Override(base, keys[..n], combo), keys[n], combo[n])
  }

  /** Every swept key holds its combination value, every other key keeps its base value, and
      no key is repeated. */
  lemma OverrideLookup(base: Json.Dict, keys: seq<string>, combo: seq<Json.Json>)
    requires |keys| <= |combo|
    requires forall i, j :: 0 <= i < j < |keys| ==> keys[i] != keys[j]
    ensures forall i :: 0 <= i < |keys| ==> Json.Lookup(Override(base, keys, combo), keys[i]) == Some(combo[i])
    ensures forall k :: k !in keys ==> Json.Lookup(Override(base, keys, combo), k) == Json.Lookup(base, k)
    ensures Json.DistinctKeys(base) ==> Json.DistinctKeys(Override(base, keys, combo))
  {
    OverrideSets(base, keys, combo);
    OverrideKeeps(base, keys, combo);
    OverrideDistinct(base, keys, combo);
  }

  lemma {:induction false} OverrideSets(base: Json.Dict, keys: seq<string>, combo: seq<Json.Json>)
    requires |keys| <= |combo|
    requires forall i, j :: 0 <= i < j < |keys| ==> keys[i] != keys[j]
    ensures forall i :: 0 <= i < |keys| ==> Json.Lookup(Override(base, keys, combo), keys[i]) == Some(combo[i])
    decreases |keys|
  {
    if keys != [] {
      var n := |keys| - 1;
      var prev := Override(base, keys[..n], combo);
      var cur := Override(base, keys, combo);
      assert cur == Json.Set(prev, keys[n], combo[n]);
      var front := keys[..n];
      assert forall i :: 0 <= i < n ==> front[i] == keys[i];
      OverrideSets(base, front, combo);
      Json.SetLookup(prev, keys[n], combo[n]);
      forall i | 0 <= i < |keys| ensures Json.Lookup(cur, keys[i]) == Some(combo[i]) {
        if i < n {
          assert Json.Lookup(prev, front[i]) == Some(combo[i]);
          assert keys[i] != keys[n];
        }
      }
    }
  }

  lemma {:induction false} OverrideKeeps(base: Json.Dict, keys: seq<string>, combo: seq<Json.Json>)
    requires |keys| <= |combo|
    ensures forall k :: k !in keys ==> Json.Lookup(Override(base, keys, combo), k) == Json.Lookup(base, k)
    decreases |keys|
  {
    if keys != [] {
      var n := |keys| - 1;
      var prev := Override(base, keys[..n], combo);
      var cur := Override(base, keys, combo);
      assert cur == Json.Set(prev, keys[n], combo[n]);
      OverrideKeeps(base, keys[..n], combo);
      Json.SetLookup(prev, keys[n], combo[n]);
      forall k | k !in keys ensures Json.Lookup(cur, k) == Json.Lookup(base, k) {
        assert k !in keys[..n] && k != keys[n];
      }
    }
  }

  lemma {:induction false} OverrideDistinct(base: Json.Dict, keys: seq<string>, combo: seq<Json.Json>)
    requires |keys| <= |combo|
    ensures Json.DistinctKeys(base) ==> Json.DistinctKeys(Override(base, keys, combo))
    decreases |keys|
  {
    if keys != [] {
      var n := |keys| - 1;
      var prev := Override(base, keys[..n], combo);
      assert Override(base, keys, combo) == Json.Set(prev, keys[n], combo[n]);
      OverrideDistinct(base, keys[..n], combo);
      Json.SetLookup(prev, keys[n], combo[n]);
    }
  }

  /** `for i, key in enumerate(keys): current_params[key] = combo[i]` on a copy of the base. */
  method MergeOverrides(base: Json.Dict, keys: seq<string>, combo: seq<Json.Json>) returns (current: Json.Dict)
    requires |keys| <= |combo|
    ensures current == Override(base, keys, combo)
  {
    current := base;
    var i := 0;
    while i < |keys|
      invariant 0 <= i <= |keys|
      invariant current == Override(base, keys[..i], combo)
    {
      assert keys[..i + 1][..i] == keys[..i];
      current := Json.Set(current, keys[i], combo[i]);
      i := i + 1;
    }
    assert keys[..|keys|] == keys;
  }

  // ---------------------------------------------------------------------------
  // One run: `run_simulation(params, output_base_dir)`

  /** The timeseries rows the run collects: `{'time': t, 'p0': u[0], ...}` per history entry. */
  function RowOf(e: Solver.Snapshot): Json.Dict {
    [("time", Json.Real(e.time))] + seq(|e.field|, i requires 0 <= i < |e.field| => (Columns.PName(i), Json.Real(e.field[i])))
  }

  function Rows(history: seq<Solver.Snapshot>): (data: seq<Json.Dict>)
    ensures |data| == |history|
  {
    seq(|history|, j requires 0 <= j < |history| => RowOf(history[j]))
  }

  function RowPrefix(t: real, u: seq<real>, i: nat): Json.Dict
    requires i <= |u|
  {
    [("time", Json.Real(t))] + seq(i, k requires 0 <= k < i => (Columns.PName(k), Json.Real(u[k])))
  }

  /** The loop of `run_simulation` that lays out the rows, one dict assignment at a time. */
  method CollectRows(results: seq<Solver.Snapshot>) returns (data: seq<Json.Dict>)
    ensures data == Rows(results)
  {
    data := [];
    var j := 0;
    while j < |results|
      invariant 0 <= j <= |results|
      invariant data == Rows(results)[..j]
    {
      var t, u := results[j].time, results[j].field;
      var row: Json.Dict := [("time", Json.Real(t))];
      var i := 0;
      while i < |u|
        invariant 0 <= i <= |u|
        invariant row == RowPrefix(t, u, i)
      {
        NewColumn(t, u, i);
        row := Json.Set(row, Columns.PName(i), Json.Real(u[i]));
        assert row == RowPrefix(t, u, i + 1);
        i := i + 1;
      }
      assert row == RowOf(results[j]);
      data := data + [row];
      assert data == Rows(results)[..j + 1];
      j := j + 1;
    }
  }

  /** Column `p{i}` is not yet in a row holding the time and `p0 .. p{i-1}`. */
  lemma NewColumn(t: real, u: seq<real>, i: nat)
    requires i < |u|
    ensures Json.IndexOf(RowPrefix(t, u, i), Columns.PName(i)).None?
  {
    var row := RowPrefix(t, u, i);
    forall j | 0 <= j < |row| ensures row[j].0 != Columns.PName(i) {
      if j == 0 {
        assert Columns.PName(i)[0] == 'p';
      } else {
        Columns.PNameInjective(j - 1, i);
      }
    }
  }

  function Values(d: Json.Dict): seq<Json.Json> {
    seq(|d|, i requires 0 <= i < |d| => d[i].1)
  }

  function Reals(xs: seq<real>): seq<Json.Json> {
    seq(|xs|, i requires 0 <= i < |xs| => Json.Real(xs[i]))
  }

  /** Every row has the columns `time, p0, ..., p{m-1}` in that order, and its values are the
      row of the table the metrics engine reads. */
  lemma RowsLayout(history: seq<Solver.Snapshot>, m: nat)
    requires forall e :: e in history ==> |e.field| == m
    ensures forall j :: 0 <= j < |history| ==> Json.Keys(Rows(history)[j]) == Columns.Header(m)
    ensures forall j :: 0 <= j < |history| ==>
      Values(Rows(history)[j]) == Reals(Metrics.SweepFrame(history, m).rows[j])
  {
    var f := Metrics.SweepFrame(history, m);
    forall j | 0 <= j < |history|
      ensures Json.Keys(Rows(history)[j]) == Columns.Header(m)
      ensures Values(Rows(history)[j]) == Reals(f.rows[j])
    {
      assert history[j] in history;
      var row := Rows(history)[j];
      assert f.rows[j] == [history[j].time] + history[j].field;
      assert Json.Keys(row) == Columns.Header(m);
      assert Values(row) == Reals(f.rows[j]);
    }
  }

  /** `run_metadata`: a copy of the parameters with `actual_dt`, `steps` and `run_id` set. */
  function Metadata(params: Json.Dict, s: Solver.Setup, runId: string): Json.Dict {
    Json.Set(Json.Set(Json.Set(params, "actual_dt", Json.Real(s.dt)), "steps", Json.Int(s.nt)), "run_id", Json.Str(runId))
  }

  /** The metadata holds the solver's `dt` and `nt` and the run id, every other parameter
      unchanged, and no key twice. */
  lemma MetadataLookup(params: Json.Dict, s: Solver.Setup, runId: string)
    ensures var md := Metadata(params, s, runId);
      && Json.Lookup(md, "actual_dt") == Some(Json.Real(s.dt))
      && Json.Lookup(md, "steps") == Some(Json.Int(s.nt))
      && Json.Lookup(md, "run_id") == Some(Json.Str(runId))
      && (forall k :: k !in ["actual_dt", "steps", "run_id"] ==> Json.Lookup(md, k) == Json.Lookup(params, k))
      && (Json.DistinctKeys(params) ==> Json.DistinctKeys(md))
  {
    var m1 := Json.Set(params, "actual_dt", Json.Real(s.dt));
    var m2 := Json.Set(m1, "steps", Json.Int(s.nt));
    Json.SetLookup(params, "actual_dt", Json.Real(s.dt));
    Json.SetLookup(m1, "steps", Json.Int(s.nt));
    Json.SetLookup(m2, "run_id", Json.Str(runId));
  }

  /** The largest temperature over the whole history: `max(np.max(u) for _, u in results)`. */
  function GlobalMax(history: seq<Solver.Snapshot>): (m: real)
    requires history != [] && forall e :: e in history ==> e.field != []
    ensures forall e :: e in history ==> Reductions.Max(e.field) <= m
    ensures exists e :: e in history && Reductions.Max(e.field) == m
  {
    var here := Reductions.Max(history[0].field);
    if |history| == 1 then here
    else
      var rest := GlobalMax(history[1..]);
      assert forall e :: e in history ==> e == history[0] || e in history[1..];
      if here >= rest then here else rest
  }

  /** The metrics file of a sweep run. */
  datatype SweepMetrics = SweepMetrics(
    maxTempGlobal: real,
    maxTempFinal: real,
    avgTempFinal: real,
    totalEnergyFinal: real,
    convergenceSteps: int,
    finalTime: real,
    dx: real,
    dt: real)

  function MetricsOf(history: seq<Solver.Snapshot>, s: Solver.Setup): SweepMetrics
    requires history != [] && forall e :: e in history ==> e.field != []
  {
    var final := history[|history| - 1];
    SweepMetrics(
      GlobalMax(history),
      Reductions.Max(final.field),
      Reductions.Mean(final.field),
      Reductions.Sum(final.field) * s.dx,
      s.nt,
      final.time,
      s.dx,
      s.dt)
  }

  function MetricsDict(m: SweepMetrics): Json.Dict {
    [ ("max_temp_global", Json.Real(m.maxTempGlobal)),
      ("max_temp_final", Json.Real(m.maxTempFinal)),
      ("avg_temp_final", Json.Real(m.avgTempFinal)),
      ("total_energy_final", Json.Real(m.totalEnergyFinal)),
      ("convergence_steps", Json.Int(m.convergenceSteps)),
      ("final_time", Json.Real(m.finalTime)),
      ("dx", Json.Real(m.dx)),
      ("dt", Json.Real(m.dt)) ]
  }

  /** Every profile of a history has the length of the initial one. */
  lemma HistoryFields(u: seq<real>, r: real, dt: real, nt: int, k: int)
    requires k != 0
    ensures forall e :: e in Solver.History(u, r, dt, nt, k) ==> |e.field| == |u|
  {
    var h := Solver.History(u, r, dt, nt, k);
    Solver.HistoryEntries(u, r, dt, nt, k);
    forall e | e in h ensures |e.field| == |u| {
      var i :| 0 <= i < |h| && h[i] == e;
    }
  }

  /** The sweep's metrics of a solver history: the global maximum is at least the final one,
      the final time is `nt * dt` (0 with no step) and the step count is `nt`. */
  lemma MetricsOfHistory(u: seq<real>, r: real, s: Solver.Setup, k: int)
    requires u != [] && k != 0
    requires forall e :: e in Solver.History(u, r, s.dt, s.nt, k) ==> e.field != []
    ensures var m := MetricsOf(Solver.History(u, r, s.dt, s.nt, k), s);
      && m.maxTempGlobal >= m.maxTempFinal
      && m.finalTime == (if s.nt >= 1 then s.nt as real * s.dt else 0.0)
      && m.convergenceSteps == s.nt
  {
    var h := Solver.History(u, r, s.dt, s.nt, k);
    Solver.HistoryEnds(u, r, s.dt, s.nt, k);
    var final := h[|h| - 1];
    assert final in h;
    assert final.time == (if s.nt >= 1 then s.nt as real * s.dt else 0.0) by {
      if s.nt < 1 {
        assert final == h[0];
      }
    }
  }

  /** For a non-negative initial profile and a stable ratio, the global maximum of a run is
      the initial maximum: the heat equation has no interior source. */
  lemma GlobalMaxIsInitialMax(u: seq<real>, r: real, dt: real, nt: int, k: int)
    requires 0.0 <= r <= 0.5 && u != [] && k != 0
    requires forall i :: 0 <= i < |u| ==> 0.0 <= u[i]
    ensures var h := Solver.History(u, r, dt, nt, k);
      (forall e :: e in h ==> e.field != []) && GlobalMax(h) == Reductions.Max(u)
  {
    var h := Solver.History(u, r, dt, nt, k);
    HistoryMaxBelow(u, r, dt, nt, k);
    assert h[0] == Solver.Snapshot(0.0, u);
    assert h[0] in h;
  }

  /** No profile of the history has a maximum above the initial one. */
  lemma HistoryMaxBelow(u: seq<real>, r: real, dt: real, nt: int, k: int)
    requires 0.0 <= r <= 0.5 && u != [] && k != 0
    requires forall i :: 0 <= i < |u| ==> 0.0 <= u[i]
    ensures forall e :: e in Solver.History(u, r, dt, nt, k) ==>
      e.field != [] && Reductions.Max(e.field) <= Reductions.Max(u)
  {
    var h := Solver.History(u, r, dt, nt, k);
    var steps := Solver.HistorySteps(nt, k);
    Solver.HistoryEntries(u, r, dt, nt, k);
    forall e | e in h ensures e.field != [] && Reductions.Max(e.field) <= Reductions.Max(u) {
      var i :| 0 <= i < |h| && h[i] == e;
      assert e.field == Solver.Evolve(u, r, steps[i]);
      EvolvedMaxBelow(u, r, steps[i]);
    }
  }

  /** The profile after any number of steps has no maximum above the initial one. */
  lemma EvolvedMaxBelow(u: seq<real>, r: real, n: nat)
    requires 0.0 <= r <= 0.5 && u != []
    requires forall i :: 0 <= i < |u| ==> 0.0 <= u[i]
    ensures Solver.Evolve(u, r, n) != [] && Reductions.Max(Solver.Evolve(u, r, n)) <= Reductions.Max(u)
  {
    assert Solver.Within(u, 0.0, Reductions.Max(u));
    Solver.MaxNonincreasing(u, r, 0, n);
  }

  /** The sweep's metrics file has none of the keys extraction reads, so extracting a sweep
      run reports all performance metrics as 0.0. */
  lemma SweepMetricsUnreadByExtraction(m: SweepMetrics, p: Json.Parsers)
    ensures Extract.PerformanceOf(MetricsDict(m), p) == Success(Metrics.RunMetrics(0.0, 0.0, 0.0, 0.0, 0.0))
  {
    SweepKeysDisjoint();
    var d := MetricsDict(m);
    assert Json.Keys(d) == SweepMetricsKeys;
    Extract.PerformanceOfNoKeys(d, p);
  }

  /** The keys of the sweep's metrics file, in the order it writes them. */
  const SweepMetricsKeys: seq<string> := ["max_temp_global", "max_temp_final", "avg_temp_final", "total_energy_final",
                                          "convergence_steps", "final_time", "dx", "dt"]

  /** No key of the sweep's metrics file is one extraction reads. */
  lemma SweepKeysDisjoint()
    ensures forall k :: k in Extract.PerformanceKeys ==> k !in SweepMetricsKeys
  {
  }

  /** What one run leaves behind: whether it returned True, its id, and the content of each
      file it wrote (`None` for a file it never reached). */
  datatype RunRecord = RunRecord(
    ok: bool,
    runId: string,
    timeseries: Option<seq<Json.Dict>>,
    metadata: Option<Json.Dict>,
    metrics: Option<SweepMetrics>)

  function Failed(runId: string): RunRecord {
    RunRecord(false, runId, None, None, None)
  }

  /** The solver's `dt` argument: None, a number, or something its comparison with the
      limit rejects. */
  function DtArgument(v: Json.Json): Option<Option<real>> {
    if v == Json.Null then Some(None)
    else if Json.Number(v).Some? then Some(Some(Json.Number(v).value))
    else None
  }

  /** `params.get("L", 1.0)` as a number, or None when it is not one. */
  function ParamL(params: Json.Dict): Option<real> {
    Json.Number(Json.Get(params, "L", Json.Real(1.0)))
  }

  function ParamAlpha(params: Json.Dict): Option<real> {
    Json.Number(Json.Get(params, "alpha", Json.Real(0.1)))
  }

  function ParamTMax(params: Json.Dict): Option<real> {
    Json.Number(Json.Get(params, "t_max", Json.Real(0.5)))
  }

  function ParamDt(params: Json.Dict): Option<Option<real>> {
    DtArgument(Json.Get(params, "dt", Json.Null))
  }

  /** `L`, `alpha` and `t_max` are numbers and `dt` is a number or None. */
  predicate NumericParams(params: Json.Dict) {
    ParamL(params).Some? && ParamAlpha(params).Some? && ParamTMax(params).Some? && ParamDt(params).Some?
  }

  /** `HeatEquationSolver1D(L=L, nx=nx, alpha=alpha, t_max=t_max, dt=dt)` on numeric parameters. */
  function Configured(params: Json.Dict, nx: int): Result<Solver.Setup, Exception>
    requires NumericParams(params)
  {
    Solver.Configure(ParamL(params).value, nx, ParamAlpha(params).value, ParamTMax(params).value, ParamDt(params).value)
  }

  /** `set_initial_condition(initial_peak)`: the supplied peak at each grid point. */
  function InitialField(L: real, nx: nat, peak: real -> real): (u: seq<real>)
    requires nx != 1
    ensures |u| == nx
  {
    var x := Solver.Linspace(L, nx);
    seq(|x|, i requires 0 <= i < |x| => peak(x[i]))
  }

  /** The body of the `try`: every exception it raises becomes `False`. `L`, `alpha` and
      `t_max` take part in arithmetic, so anything but a number raises TypeError there. The
      initial condition is the supplied `peak` applied to each grid point. */
  function Attempt(params: Json.Dict, runId: string, nx: int, k: int, peak: real -> real): (rec: RunRecord)
    ensures rec.runId == runId
    ensures rec.ok <==> rec.metrics.Some?
    ensures rec.metrics.Some? ==> rec.metadata.Some? && rec.timeseries.Some?
    ensures rec.metadata.Some? <==> rec.timeseries.Some?
    ensures var L, alpha, tMax, dt := ParamL(params), ParamAlpha(params), ParamTMax(params), ParamDt(params);
      rec.ok <==>
        && L.Some? && alpha.Some? && tMax.Some? && dt.Some?
        && Solver.Configure(L.value, nx, alpha.value, tMax.value, dt.value).Success?
        && nx >= 2
        && Solver.SolveSpec(InitialField(L.value, nx, peak), alpha.value,
                            Solver.Configure(L.value, nx, alpha.value, tMax.value, dt.value).value, k).Success?
  {
    var L, alpha, tMax, dt := ParamL(params), ParamAlpha(params), ParamTMax(params), ParamDt(params);
    if L.None? || alpha.None? || tMax.None? || dt.None? then Failed(runId)
    else
      match Solver.Configure(L.value, nx, alpha.value, tMax.value, dt.value)
      case Failure(_) => Failed(runId)
      case Success(s) =>
        var u := InitialField(L.value, nx, peak);
        match Solver.SolveSpec(u, alpha.value, s, k)
        case Failure(_) => Failed(runId)
        case Success(history) =>
          SolvedFields(u, alpha.value, s, k);
          var written := RunRecord(false, runId, Some(Rows(history)), Some(Metadata(params, s, runId)), None);
          if u == [] then written
          else written.(ok := true, metrics := Some(MetricsOf(history, s)))
  }

  /** A history `solve` returns is not empty and keeps the length of the profile. */
  lemma SolvedFields(u: seq<real>, alpha: real, s: Solver.Setup, k: int)
    requires Solver.SolveSpec(u, alpha, s, k).Success?
    ensures Solver.SolveSpec(u, alpha, s, k).value != []
    ensures forall e :: e in Solver.SolveSpec(u, alpha, s, k).value ==> |e.field| == |u|
  {
    if k != 0 {
      HistoryFields(u, Solver.Ratio(alpha, s.dt, s.dx), s.dt, s.nt, k);
    }
  }

  /** `run_simulation(params, ...)`. The id is computed first; `int()` of `nx` and of
      `save_interval` happen before the `try`, so their ValueError or TypeError escapes. */
  function RunSimulation(params: Json.Dict, h: Hashing, peak: real -> real, p: Json.Parsers): (r: Result<RunRecord, Exception>)
    ensures r.Failure? <==>
      Json.IntOf(Json.Get(params, "nx", Json.Int(50)), p).Failure? ||
      Json.IntOf(Json.Get(params, "save_interval", Json.Int(20)), p).Failure?
    ensures r.Success? ==> r.value.runId == RunId(params, h)
  {
    var runId := RunId(params, h);
    var nx :- Json.IntOf(Json.Get(params, "nx", Json.Int(50)), p);
    var k :- Json.IntOf(Json.Get(params, "save_interval", Json.Int(20)), p);
    Success(Attempt(params, runId, nx, k, peak))
  }

  /** Without an explicit `dt`, a positive length and diffusivity and at least two points
      pass the stability gate with a positive step and a non-negative step count. */
  lemma DefaultSetup(L: real, nx: int, alpha: real, tMax: real)
    requires L > 0.0 && nx >= 2 && alpha > 0.0 && tMax >= 0.0
    ensures var c := Solver.Configure(L, nx, alpha, tMax, None);
      c.Success? && c.value.dx > 0.0 && c.value.dt > 0.0 && c.value.nt >= 0
  {
    var dx := L / (nx - 1) as real;
    assert dx > 0.0;
    Solver.SquarePositive(dx, dx * dx);
    assert Solver.Limit(dx, alpha) > 0.0;
    assert Solver.Configure(L, nx, alpha, tMax, None).Success?;
    Solver.StepCount(L, nx, alpha, tMax, None);
  }

  /** The body of the `try` for such parameters writes all three files and returns True. */
  lemma AttemptCompletes(params: Json.Dict, runId: string, nx: int, k: int, peak: real -> real,
                         L: real, alpha: real, tMax: real)
    requires L > 0.0 && nx >= 2 && alpha > 0.0 && tMax >= 0.0 && k >= 1
    requires Json.Get(params, "L", Json.Real(1.0)) == Json.Real(L)
    requires Json.Get(params, "alpha", Json.Real(0.1)) == Json.Real(alpha)
    requires Json.Get(params, "t_max", Json.Real(0.5)) == Json.Real(tMax)
    requires Json.Get(params, "dt", Json.Null) == Json.Null
    ensures var rec := Attempt(params, runId, nx, k, peak);
      && rec.ok
      && Solver.Configure(L, nx, alpha, tMax, None).Success?
      && var s := Solver.Configure(L, nx, alpha, tMax, None).value;
      && |rec.timeseries.value| == 1 + s.nt / k + (if s.nt % k != 0 then 1 else 0)
      && rec.metadata.value == Metadata(params, s, runId)
  {
    DefaultSetup(L, nx, alpha, tMax);
    var s := Solver.Configure(L, nx, alpha, tMax, None).value;
    var u := InitialField(L, nx, peak);
    var r := Solver.Ratio(alpha, s.dt, s.dx);
    assert Solver.SolveSpec(u, alpha, s, k) == Success(Solver.History(u, r, s.dt, s.nt, k));
    Solver.HistoryLength(u, r, s.dt, s.nt, k);
  }

  /** The exceptions inside the `try` make the run return False before anything is written:
      a parameter that is not a number (or a `dt` that is neither a number nor None), a
      configuration the constructor rejects — among them a `dt` above the stability limit —
      or a `solve` that raises. */
  lemma AttemptFailures(params: Json.Dict, runId: string, nx: int, k: int, peak: real -> real)
    ensures !NumericParams(params) ==> Attempt(params, runId, nx, k, peak) == Failed(runId)
    ensures NumericParams(params) && Configured(params, nx).Failure? ==> Attempt(params, runId, nx, k, peak) == Failed(runId)
    ensures (NumericParams(params) && ParamDt(params).value.Some? && nx != 1 && ParamAlpha(params).value != 0.0 &&
             ParamDt(params).value.value > Solver.Limit(ParamL(params).value / (nx - 1) as real, ParamAlpha(params).value))
            ==> Attempt(params, runId, nx, k, peak) == Failed(runId)
    ensures (NumericParams(params) && Configured(params, nx).Success? &&
             Solver.SolveSpec(InitialField(ParamL(params).value, nx, peak), ParamAlpha(params).value, Configured(params, nx).value, k).Failure?)
            ==> Attempt(params, runId, nx, k, peak) == Failed(runId)
  {
  }

  /** A run whose parameters are plain numbers of the expected kind, with a positive length
      and diffusivity, at least two grid points, no explicit `dt` and a positive save
      interval, completes and writes all three files, with as many rows as history entries
      and metadata holding the solver's `dt`. */
  lemma RunCompletes(params: Json.Dict, h: Hashing, peak: real -> real, p: Json.Parsers,
                     L: real, nx: int, alpha: real, tMax: real, k: int)
    requires L > 0.0 && nx >= 2 && alpha > 0.0 && tMax >= 0.0 && k >= 1
    requires Json.Get(params, "L", Json.Real(1.0)) == Json.Real(L)
    requires Json.Get(params, "nx", Json.Int(50)) == Json.Int(nx)
    requires Json.Get(params, "alpha", Json.Real(0.1)) == Json.Real(alpha)
    requires Json.Get(params, "t_max", Json.Real(0.5)) == Json.Real(tMax)
    requires Json.Get(params, "dt", Json.Null) == Json.Null
    requires Json.Get(params, "save_interval", Json.Int(20)) == Json.Int(k)
    ensures var r := RunSimulation(params, h, peak, p);
      && r.Success? && r.value.ok
      && var s := Solver.Configure(L, nx, alpha, tMax, None);
      && s.Success?
      && |r.value.timeseries.value| == 1 + s.value.nt / k + (if s.value.nt % k != 0 then 1 else 0)
      && Json.Lookup(r.value.metadata.value, "actual_dt") == Some(Json.Real(s.value.dt))
  {
    DefaultSetup(L, nx, alpha, tMax);
    var runId := RunId(params, h);
    assert RunSimulation(params, h, peak, p) == Success(Attempt(params, runId, nx, k, peak));
    AttemptCompletes(params, runId, nx, k, peak, L, alpha, tMax);
    MetadataLookup(params, Solver.Configure(L, nx, alpha, tMax, None).value, runId);
  }

  // ---------------------------------------------------------------------------
  // The sweep: `main()`

  /** The results of running every combination in order with `run`, or the exception that
      stopped the sweep. A run that returns False does not stop it. */
  function RunAll(base: Json.Dict, keys: seq<string>, combos: seq<seq<Json.Json>>,
                  run: Json.Dict -> Result<RunRecord, Exception>): (r: Result<seq<RunRecord>, Exception>)
    requires forall c :: c in combos ==> |keys| <= |c|
    decreases |combos|
  {
    if combos == [] then Success([])
    else
      assert forall c :: c in combos[1..] ==> c in combos;
      var rec :- run(Override(base, keys, combos[0]));
      var rest :- RunAll(base, keys, combos[1..], run);
      Success([rec] + rest)
  }

  /** Without an exception there is one record per combination, each the outcome of running
      that combination's parameters, whether the run returned True or False. */
  lemma {:induction false} RunAllRecords(base: Json.Dict, keys: seq<string>, combos: seq<seq<Json.Json>>,
                                         run: Json.Dict -> Result<RunRecord, Exception>)
    requires forall c :: c in combos ==> |keys| <= |c|
    requires RunAll(base, keys, combos, run).Success?
    ensures |RunAll(base, keys, combos, run).value| == |combos|
    ensures forall i :: 0 <= i < |combos| ==>
      run(Override(base, keys, combos[i])) == Success(RunAll(base, keys, combos, run).value[i])
    decreases |combos|
  {
    if combos != [] {
      assert forall c :: c in combos[1..] ==> c in combos;
      RunAllRecords(base, keys, combos[1..], run);
      assert forall i :: 1 <= i < |combos| ==> combos[i] == combos[1..][i - 1];
    }
  }

  /** The sweep stops with an exception whenever some combination's run raises one. */
  lemma {:induction false} RunAllFailure(base: Json.Dict, keys: seq<string>, combos: seq<seq<Json.Json>>,
                                         run: Json.Dict -> Result<RunRecord, Exception>, i: int)
    requires forall c :: c in combos ==> |keys| <= |c|
    requires 0 <= i < |combos| && run(Override(base, keys, combos[i])).Failure?
    ensures RunAll(base, keys, combos, run).Failure?
    decreases |combos|
  {
    if i > 0 {
      assert forall c :: c in combos[1..] ==> c in combos;
      assert combos[1..][i - 1] == combos[i];
      RunAllFailure(base, keys, combos[1..], run, i - 1);
    }
  }

  /** One step of the sweep: the first run's exception stops it, otherwise its record comes
      before those of the remaining combinations. */
  lemma RunAllStep(base: Json.Dict, keys: seq<string>, combos: seq<seq<Json.Json>>,
                   run: Json.Dict -> Result<RunRecord, Exception>, done: seq<RunRecord>, i: int)
    requires forall c :: c in combos ==> |keys| <= |c|
    requires 0 <= i < |combos|
    ensures forall c :: c in combos[i + 1..] ==> |keys| <= |c|
    ensures forall c :: c in combos[i..] ==> |keys| <= |c|
    ensures var first := run(Override(base, keys, combos[i]));
      Prepend(done, RunAll(base, keys, combos[i..], run)) ==
        if first.Failure? then Failure(first.error)
        else Prepend(done + [first.value], RunAll(base, keys, combos[i + 1..], run))
  {
    assert combos[i..][0] == combos[i];
    assert combos[i..][1..] == combos[i + 1..];
    assert forall c :: c in combos[i..] ==> c in combos;
    assert forall c :: c in combos[i + 1..] ==> c in combos;
    var first := run(Override(base, keys, combos[i]));
    if first.Success? {
      match RunAll(base, keys, combos[i + 1..], run)
      case Failure(_) =>
      case Success(rest) => assert done + [first.value] + rest == done + ([first.value] + rest);
    }
  }

  /** The sweep configuration: each swept key with its list of values, in file order. */
  type Axes = seq<(string, seq<Json.Json>)>

  function AxisKeys(axes: Axes): (ks: seq<string>)
    ensures |ks| == |axes| && forall i :: 0 <= i < |axes| ==> ks[i] == axes[i].0
  {
    seq(|axes|, i requires 0 <= i < |axes| => axes[i].0)
  }

  function AxisValues(axes: Axes): (vs: seq<seq<Json.Json>>)
    ensures |vs| == |axes| && forall i :: 0 <= i < |axes| ==> vs[i] == axes[i].1
  {
    seq(|axes|, i requires 0 <= i < |axes| => axes[i].1)
  }

  /** What `main()` does with the base parameters and the sweep axes. */
  function SweepSpec(base: Json.Dict, axes: Axes, h: Hashing, peak: real -> real, p: Json.Parsers): Result<seq<RunRecord>, Exception> {
    var combos := Product(AxisValues(axes));
    assert forall c :: c in combos ==> |AxisKeys(axes)| <= |c| by {
      forall c | c in combos ensures |AxisKeys(axes)| <= |c| {
        ProductMembers(AxisValues(axes), c);
      }
    }
    RunAll(base, AxisKeys(axes), combos, Runner(h, peak, p))
  }

  function Runner(h: Hashing, peak: real -> real, p: Json.Parsers): Json.Dict -> Result<RunRecord, Exception> {
    params => RunSimulation(params, h, peak, p)
  }

  /** `main()`: one run per combination, in order, each on a fresh copy of the base
      parameters. */
  method RunSweep(base: Json.Dict, axes: Axes, h: Hashing, peak: real -> real, p: Json.Parsers)
    returns (res: Result<seq<RunRecord>, Exception>)
    ensures res == SweepSpec(base, axes, h, peak, p)
  {
    var keys := AxisKeys(axes);
    var combos := Product(AxisValues(axes));
    forall c | c in combos ensures |keys| <= |c| {
      ProductMembers(AxisValues(axes), c);
    }
    res := RunCombos(base, keys, combos, Runner(h, peak, p));
  }

  /** The loop of `main()`: merge each combination into a copy of the base parameters and
      run it, stopping at the first exception. */
  method RunCombos(base: Json.Dict, keys: seq<string>, combos: seq<seq<Json.Json>>,
                   run: Json.Dict -> Result<RunRecord, Exception>)
    returns (res: Result<seq<RunRecord>, Exception>)
    requires forall c :: c in combos ==> |keys| <= |c|
    ensures res == RunAll(base, keys, combos, run)
  {
    ghost var spec := RunAll(base, keys, combos, run);
    var records: seq<RunRecord> := [];
    var i := 0;
    assert combos[0..] == combos;
    PrependNothing(spec);
    while i < |combos|
      invariant 0 <= i <= |combos|
      invariant forall c :: c in combos[i..] ==> |keys| <= |c|
      invariant spec == Prepend(records, RunAll(base, keys, combos[i..], run))
    {
      RunAllStep(base, keys, combos, run, records, i);
      ghost var rest := RunAll(base, keys, combos[i + 1..], run);
      var current := MergeOverrides(base, keys, combos[i]);
      var outcome := run(current);
      if outcome.Failure? {
        res := Failure(outcome.error);
        return;
      }
      assert spec == Prepend(records + [outcome.value], rest);
      records := records + [outcome.value];
      i := i + 1;
    }
    assert combos[i..] == [];
    assert records + [] == records;
    res := Success(records);
  }

  function Prepend(done: seq<RunRecord>, rest: Result<seq<RunRecord>, Exception>): Result<seq<RunRecord>, Exception> {
    match rest
    case Failure(e) => Failure(e)
    case Success(rs) => Success(done + rs)
  }

  lemma PrependNothing(rest: Result<seq<RunRecord>, Exception>)
    ensures Prepend([], rest) == rest
  {
    if rest.Success? {
      assert [] + rest.value == rest.value;
    }
  }

  /** A parameter set whose `nx` is not an integer (say the string "fifty") raises out of
      `run_simulation` instead of returning False, and so stops the whole sweep. */
  lemma BadGridSizeStopsSweep(base: Json.Dict, keys: seq<string>, combos: seq<seq<Json.Json>>,
                              h: Hashing, peak: real -> real, p: Json.Parsers, i: int)
    requires forall c :: c in combos ==> |keys| <= |c|
    requires 0 <= i < |combos|
    requires Json.IntOf(Json.Get(Override(base, keys, combos[i]), "nx", Json.Int(50)), p).Failure?
    ensures RunAll(base, keys, combos, Runner(h, peak, p)).Failure?
  {
    RunAllFailure(base, keys, combos, Runner(h, peak, p), i);
  }
}
