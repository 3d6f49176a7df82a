/** Canonical extraction (`extract_run_metrics`): the projection of a run's raw metadata and
    metrics onto the five-part payload the validator checks. The two files are inputs (`None`
    for a file that does not exist), and so is the current time used as the default
    timestamp. */
module Extract {
  import opened Wrappers
  import Json
  import Metrics
  import Solver

  datatype ParameterSet = ParameterSet(alpha: real, nx: int, dt: real, L: real, tMax: real)

  datatype Quality = Quality(converged: bool, steps: int, dx: real)

  datatype Execution = Execution(timestamp: Json.Json, runtimeMs: real, platform: Json.Json, gitCommit: Json.Json)

  datatype Payload = Payload(
    runId: Json.Json,
    parameters: ParameterSet,
    performance: Metrics.RunMetrics,
    quality: Quality,
    execution: Execution)

  /** The payload as the dictionary the script returns. */
  function ToJson(q: Payload): (j: Json.Json)
    ensures j.Obj? && Json.Keys(j.entries) ==
      ["run_id", "parameter_set", "performance_metrics", "quality_metrics", "execution_metrics"]
  {
    Json.Obj([
      ("run_id", q.runId),
      ("parameter_set", Json.Obj([
        ("alpha", Json.Real(q.parameters.alpha)),
        ("nx", Json.Int(q.parameters.nx)),
        ("dt", Json.Real(q.parameters.dt)),
        ("L", Json.Real(q.parameters.L)),
        ("t_max", Json.Real(q.parameters.tMax))])),
      ("performance_metrics", Json.Obj(Metrics.ToDict(q.performance))),
      ("quality_metrics", Json.Obj([
        ("converged", Json.Bool(q.quality.converged)),
        ("steps", Json.Int(q.quality.steps)),
        ("dx", Json.Real(q.quality.dx))])),
      ("execution_metrics", Json.Obj([
        ("timestamp", q.execution.timestamp),
        ("runtime_ms", Json.Real(q.execution.runtimeMs)),
        ("platform", q.execution.platform),
        ("git_commit", q.execution.gitCommit)]))])
  }

  /** `meta.get("dt")` when it is not None, else `meta.get("actual_dt", 0)`. */
  function DtField(meta: Json.Dict): Json.Json {
    var dt := Json.Get(meta, "dt", Json.Null);
    if dt != Json.Null then dt else Json.Get(meta, "actual_dt", Json.Int(0))
  }

  /** The parameter set, converted in the order of its keys; the first failed conversion
      raises. */
  function ParametersOf(meta: Json.Dict, p: Json.Parsers): Result<ParameterSet, Exception> {
    var alpha :- Json.FloatOf(Json.Get(meta, "alpha", Json.Int(0)), p);
    var nx :- Json.IntOf(Json.Get(meta, "nx", Json.Int(0)), p);
    var dt :- Json.FloatOf(DtField(meta), p);
    var L :- Json.FloatOf(Json.Get(meta, "L", Json.Real(1.0)), p);
    var tMax :- Json.FloatOf(Json.Get(meta, "t_max", Json.Real(0.5)), p);
    Success(ParameterSet(alpha, nx, dt, L, tMax))
  }

  /** The keys of the five performance metrics, in the order they are read. */
  const PerformanceKeys: seq<string> := ["max_temperature", "min_temperature", "mean_temperature", "energy_like_metric", "stability_ratio"]

  /** A metrics object holding none of the five keys reports every metric as 0.0. */
  lemma PerformanceOfNoKeys(raw: Json.Dict, p: Json.Parsers)
    requires forall k :: k in PerformanceKeys ==> k !in Json.Keys(raw)
    ensures PerformanceOf(raw, p) == Success(Metrics.RunMetrics(0.0, 0.0, 0.0, 0.0, 0.0))
  {
    forall k | k in PerformanceKeys ensures Json.Lookup(raw, k) == None {
      assert forall j :: 0 <= j < |raw| ==> raw[j].0 == Json.Keys(raw)[j];
    }
    assert forall i :: 0 <= i < 5 ==> PerformanceKeys[i] in PerformanceKeys;
  }

  /** The five performance metrics, each 0.0 when absent. */
  function PerformanceOf(raw: Json.Dict, p: Json.Parsers): Result<Metrics.RunMetrics, Exception> {
    var maxT :- Json.FloatOf(Json.Get(raw, "max_temperature", Json.Real(0.0)), p);
    var minT :- Json.FloatOf(Json.Get(raw, "min_temperature", Json.Real(0.0)), p);
    var meanT :- Json.FloatOf(Json.Get(raw, "mean_temperature", Json.Real(0.0)), p);
    var energy :- Json.FloatOf(Json.Get(raw, "energy_like_metric", Json.Real(0.0)), p);
    var ratio :- Json.FloatOf(Json.Get(raw, "stability_ratio", Json.Real(0.0)), p);
    Success(Metrics.RunMetrics(maxT, minT, meanT, energy, ratio))
  }

  /** `L / (nx - 1) if nx > 1 else 0.0`. */
  function GridSpacing(L: real, nx: int): (dx: real)
    ensures nx > 1 ==> dx * (nx - 1) as real == L
    ensures nx <= 1 ==> dx == 0.0
  {
    if nx > 1 then L / (nx - 1) as real else 0.0
  }

  /** `extract_run_metrics(run_dir)`. A missing file raises FileNotFoundError before anything
      is read; a file whose content is not an object raises AttributeError at its first
      `.get`; a value that does not convert raises at its conversion. */
  function ExtractRunMetrics(meta: Option<Json.Json>, raw: Option<Json.Json>, dirName: string, now: string, p: Json.Parsers): (r: Result<Payload, Exception>)
    ensures meta.None? || raw.None? ==> r == Failure(FileNotFoundError)
    ensures r.Success? ==> meta.Some? && meta.value.Obj? && raw.Some? && raw.value.Obj?
    ensures r.Success? ==> (r.value.quality.converged <==> r.value.performance.stabilityRatio <= 0.5)
    ensures r.Success? ==> r.value.quality.dx == GridSpacing(r.value.parameters.L, r.value.parameters.nx)
    ensures r.Success? ==>
      r.value.runId == (match Json.Lookup(meta.value.entries, "run_id")
                        case Some(v) => v
                        case None => Json.Str(dirName))
  {
    if meta.None? || raw.None? then Failure(FileNotFoundError)
    else if !meta.value.Obj? then Failure(AttributeError)
    else
      var m := meta.value.entries;
      var params :- ParametersOf(m, p);
      if !raw.value.Obj? then Failure(AttributeError)
      else
        var perf :- PerformanceOf(raw.value.entries, p);
        var converged := perf.stabilityRatio <= 0.5;
        var dx := GridSpacing(params.L, params.nx);
        var steps :- Json.IntOf(Json.Get(m, "steps", Json.Int(0)), p);
        var runtime :- Json.FloatOf(Json.Get(m, "duration_ms", Json.Real(0.0)), p);
        Success(Payload(
          Json.Get(m, "run_id", Json.Str(dirName)),
          params,
          perf,
          Quality(converged, steps, dx),
          Execution(
            Json.Get(m, "created_at", Json.Str(now)),
            runtime,
            Json.Get(m, "platform", Json.Str("unknown")),
            Json.Get(m, "git_commit_hash", Json.Null))))
  }

  /** An empty metadata object and an empty metrics object give the documented defaults. */
  lemma Defaults(dirName: string, now: string, p: Json.Parsers)
    ensures ExtractRunMetrics(Some(Json.Obj([])), Some(Json.Obj([])), dirName, now, p) ==
      Success(Payload(
        Json.Str(dirName),
        ParameterSet(0.0, 0, 0.0, 1.0, 0.5),
        Metrics.RunMetrics(0.0, 0.0, 0.0, 0.0, 0.0),
        Quality(true, 0, 0.0),
        Execution(Json.Str(now), 0.0, Json.Str("unknown"), Json.Null)))
  {
  }

  /** `dt` comes from metadata `dt` whenever that is present and not null, whatever
      `actual_dt` says, and from `actual_dt` (else 0) otherwise. */
  lemma DtPrecedence(meta: Json.Dict, p: Json.Parsers)
    requires ParametersOf(meta, p).Success?
    ensures var d := Json.Lookup(meta, "dt");
      d.Some? && d.value != Json.Null ==> ParametersOf(meta, p).value.dt == Json.ToFloat(d.value, p).value
    ensures var d := Json.Lookup(meta, "dt"); var a := Json.Lookup(meta, "actual_dt");
      (d.None? || d.value == Json.Null) && a.Some? ==> ParametersOf(meta, p).value.dt == Json.ToFloat(a.value, p).value
    ensures Json.Lookup(meta, "dt") in {None, Some(Json.Null)} && Json.Lookup(meta, "actual_dt").None? ==>
      ParametersOf(meta, p).value.dt == 0.0
  {
  }

  /** Raw metrics in the metrics engine's own format are carried over unchanged. */
  lemma PerformanceOfEngineOutput(m: Metrics.RunMetrics, p: Json.Parsers)
    ensures PerformanceOf(Metrics.ToDict(m), p) == Success(m)
  {
    var d := Metrics.ToDict(m);
    Json.LookupEntry(d, 0);
    Json.LookupEntry(d, 1);
    Json.LookupEntry(d, 2);
    Json.LookupEntry(d, 3);
    Json.LookupEntry(d, 4);
  }

  /** For `nx >= 2` the extracted `dx` is the solver's grid spacing. */
  lemma SpacingMatchesSolver(L: real, nx: int, alpha: real, tMax: real, dt: Option<real>)
    requires nx >= 2
    requires Solver.Configure(L, nx, alpha, tMax, dt).Success?
    ensures GridSpacing(L, nx) == Solver.Configure(L, nx, alpha, tMax, dt).value.dx
  {
  }

  /** Well-typed fields are carried over unchanged: a metadata object whose parameters,
      step count and duration are numbers of the expected kind, with metrics in the engine's
      own format, gives exactly those numbers, and the run counts as converged exactly when
      its ratio is at most 0.5. */
  lemma NumbersCarriedOver(meta: Json.Dict, m: Metrics.RunMetrics, alpha: real, nx: int, dt: real,
                           L: real, tMax: real, steps: int, runtime: real,
                           dirName: string, now: string, p: Json.Parsers)
    requires Json.Lookup(meta, "alpha") == Some(Json.Real(alpha))
    requires Json.Lookup(meta, "nx") == Some(Json.Int(nx))
    requires Json.Lookup(meta, "dt") == Some(Json.Real(dt))
    requires Json.Lookup(meta, "L") == Some(Json.Real(L))
    requires Json.Lookup(meta, "t_max") == Some(Json.Real(tMax))
    requires Json.Lookup(meta, "steps") == Some(Json.Int(steps))
    requires Json.Lookup(meta, "duration_ms") == Some(Json.Real(runtime))
    ensures var r := ExtractRunMetrics(Some(Json.Obj(meta)), Some(Json.Obj(Metrics.ToDict(m))), dirName, now, p);
      && r.Success?
      && r.value.parameters == ParameterSet(alpha, nx, dt, L, tMax)
      && r.value.performance == m
      && r.value.quality == Quality(m.stabilityRatio <= 0.5, steps, GridSpacing(L, nx))
      && r.value.execution.runtimeMs == runtime
  {
    PerformanceOfEngineOutput(m, p);
    ParametersCarriedOver(meta, alpha, nx, dt, L, tMax, p);
    assert Json.IntOf(Json.Get(meta, "steps", Json.Int(0)), p) == Success(steps);
    assert Json.FloatOf(Json.Get(meta, "duration_ms", Json.Real(0.0)), p) == Success(runtime);
  }

  /** Numeric parameters in the metadata are taken over unchanged. */
  lemma ParametersCarriedOver(meta: Json.Dict, alpha: real, nx: int, dt: real, L: real, tMax: real, p: Json.Parsers)
    requires Json.Lookup(meta, "alpha") == Some(Json.Real(alpha))
    requires Json.Lookup(meta, "nx") == Some(Json.Int(nx))
    requires Json.Lookup(meta, "dt") == Some(Json.Real(dt))
    requires Json.Lookup(meta, "L") == Some(Json.Real(L))
    requires Json.Lookup(meta, "t_max") == Some(Json.Real(tMax))
    ensures ParametersOf(meta, p) == Success(ParameterSet(alpha, nx, dt, L, tMax))
  {
    assert DtField(meta) == Json.Real(dt);
  }
}
