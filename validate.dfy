/** The validator (`validate_run_metrics`): a structural check against the metrics schema,
    which stops at the first violation, followed by four domain rules whose errors are
    collected in order. The schema file and the JSON Schema engine are not modelled: the
    schema is an opaque predicate together with the message of the violation it reports. */
module Validate {
  import opened Wrappers
  import Text
  import Json
  import Metrics
  import Extract

  /** The loaded schema: whether an instance conforms and, when it does not, the message of
      the ValidationError. */
  datatype Schema = Schema(conforms: Json.Json -> bool, message: Json.Json -> string)

  /** The `(bool, list_of_errors)` pair the validator returns. */
  datatype Verdict = Verdict(valid: bool, errors: seq<string>)

  // ---------------------------------------------------------------------------
  // Messages

  function SchemaMessage(detail: string): string {
    "Schema Violation: " + detail
  }

  function OrderingMessage(maxT: Json.Json, minT: Json.Json, show: Json.Json -> string): string {
    "Physics Error: " + ("max_temp (" + Json.ToStr(maxT, show) + ") < min_temp (" + Json.ToStr(minT, show) + ")")
  }

  /** The `{stability_ratio:.4f}` rendering is supplied as `fixed4`. */
  function StabilityMessage(ratio: real, fixed4: real -> string): string {
    "Logic Error: " + ("Run marked converged but " + ("stability_ratio " + fixed4(ratio) + " > 0.5"))
  }

  const StepsMessage: string := "Invalid State: " + "steps cannot be negative"

  const EnergyMessage: string := "Physics Error: " + "energy_like_metric cannot be negative"

  /** The stability message is told apart from the other three by its first character. */
  lemma StabilityMessageDiffers(maxT: Json.Json, minT: Json.Json, show: Json.Json -> string, ratio: real, fixed4: real -> string)
    ensures StabilityMessage(ratio, fixed4) != OrderingMessage(maxT, minT, show)
    ensures StabilityMessage(ratio, fixed4) != StepsMessage
    ensures StabilityMessage(ratio, fixed4) != EnergyMessage
  {
    assert StabilityMessage(ratio, fixed4)[0] == 'L';
    assert OrderingMessage(maxT, minT, show)[0] == 'P';
    assert StepsMessage[0] == 'I';
    assert EnergyMessage[0] == 'P';
  }

  lemma OrderingMessageMentionsMaxTemp(maxT: Json.Json, minT: Json.Json, show: Json.Json -> string)
    ensures Text.Contains(OrderingMessage(maxT, minT, show), "max_temp")
  {
    var tail := "max_temp (" + Json.ToStr(maxT, show) + ") < min_temp (" + Json.ToStr(minT, show) + ")";
    assert "max_temp" <= tail;
    Text.ContainsExtend("Physics Error: ", tail, "max_temp");
  }

  lemma StabilityMessageMentionsRatio(ratio: real, fixed4: real -> string)
    ensures Text.Contains(StabilityMessage(ratio, fixed4), "stability_ratio")
  {
    var tail := "stability_ratio " + fixed4(ratio) + " > 0.5";
    assert "stability_ratio" <= tail;
    Text.ContainsExtend("Run marked converged but ", tail, "stability_ratio");
    Text.ContainsExtend("Logic Error: ", "Run marked converged but " + tail, "stability_ratio");
  }

  // ---------------------------------------------------------------------------
  // The domain rules, each giving the errors it adds or the exception it raises

  /** `perf.get("max_temperature") < perf.get("min_temperature")`: an error exactly when
      the maximum is below the minimum; two numbers that are equal pass; a missing value
      (None) or a value that does not compare raises TypeError. */
  function OrderingRule(perf: Json.Dict, show: Json.Json -> string): (r: Result<seq<string>, Exception>)
    ensures r.Failure? ==> r.error == TypeError
    ensures r.Success? ==> |r.value| <= 1 && forall e :: e in r.value ==> Text.Contains(e, "max_temp")
    ensures Json.Lookup(perf, "max_temperature").None? || Json.Lookup(perf, "min_temperature").None? ==> r.Failure?
    ensures var mx := Json.Number(Json.Get(perf, "max_temperature", Json.Null));
            var mn := Json.Number(Json.Get(perf, "min_temperature", Json.Null));
      mx.Some? && mn.Some? ==> r.Success? && (r.value != [] <==> mx.value < mn.value)
  {
    var maxT := Json.Get(perf, "max_temperature", Json.Null);
    var minT := Json.Get(perf, "min_temperature", Json.Null);
    match Json.Less(maxT, minT)
    case None => Failure(TypeError)
    case Some(below) =>
      OrderingMessageMentionsMaxTemp(maxT, minT, show);
      Success(if below then [OrderingMessage(maxT, minT, show)] else [])
  }

  /** `stability_ratio > 0.5 and is_converged`, with the ratio defaulting to 0 and
      convergence to True: an error exactly when a numeric ratio exceeds 0.5 and the run
      counts as converged; a ratio of exactly 0.5 passes; a ratio that does not compare
      with 0.5 raises TypeError. */
  function StabilityRule(perf: Json.Dict, quality: Json.Dict, fixed4: real -> string): (r: Result<seq<string>, Exception>)
    ensures r.Failure? ==> r.error == TypeError
    ensures r.Success? ==> |r.value| <= 1 && forall e :: e in r.value ==> Text.Contains(e, "stability_ratio")
    ensures var ratio := Json.Number(Json.Get(perf, "stability_ratio", Json.Int(0)));
            var converged := Json.Get(quality, "converged", Json.Bool(true));
      ratio.Some? ==> r.Success? && (r.value != [] <==> ratio.value > 0.5 && Json.Truthy(converged))
    ensures r.Success? && r.value != [] ==>
      var ratio := Json.Number(Json.Get(perf, "stability_ratio", Json.Int(0)));
      ratio.Some? && r.value == [StabilityMessage(ratio.value, fixed4)]
  {
    var ratio := Json.Get(perf, "stability_ratio", Json.Int(0));
    var converged := Json.Get(quality, "converged", Json.Bool(true));
    match Json.Less(Json.Real(0.5), ratio)
    case None => Failure(TypeError)
    case Some(above) =>
      if above && Json.Truthy(converged) then
        StabilityMessageMentionsRatio(Json.Number(ratio).value, fixed4);
        Success([StabilityMessage(Json.Number(ratio).value, fixed4)])
      else Success([])
  }

  /** `d.get(key, -1) < 0` adds `message`: a missing value counts as negative; a value that
      does not compare with 0 raises TypeError. */
  function NegativeRule(d: Json.Dict, key: string, message: string): (r: Result<seq<string>, Exception>)
    ensures r.Failure? ==> r.error == TypeError
    ensures r.Success? ==> r.value in {[], [message]}
    ensures Json.Lookup(d, key).None? ==> r == Success([message])
    ensures var v := Json.Number(Json.Get(d, key, Json.Int(-1)));
      v.Some? ==> r == Success(if v.value < 0.0 then [message] else [])
  {
    match Json.Less(Json.Get(d, key, Json.Int(-1)), Json.Int(0))
    case None => Failure(TypeError)
    case Some(negative) => Success(if negative then [message] else [])
  }

  // ---------------------------------------------------------------------------
  // The validator

  /** What the validator returns for `payload`, or the exception it raises. A schema
      violation gives one error and nothing else is looked at; otherwise the four rules
      run in order, the first exception propagates, and the payload is valid exactly when
      no rule added an error. */
  function ValidateSpec(payload: Json.Json, schema: Schema, show: Json.Json -> string, fixed4: real -> string): (r: Result<Verdict, Exception>)
    ensures r.Success? ==> (r.value.valid <==> r.value.errors == [])
    ensures !schema.conforms(payload) ==> r == Success(Verdict(false, [SchemaMessage(schema.message(payload))]))
    ensures r.Success? ==> |r.value.errors| <= 4
  {
    if !schema.conforms(payload) then Success(Verdict(false, [SchemaMessage(schema.message(payload))]))
    else if !payload.Obj? then Failure(AttributeError)
    else
      var perf := Json.Get(payload.entries, "performance_metrics", Json.Obj([]));
      var quality := Json.Get(payload.entries, "quality_metrics", Json.Obj([]));
      if !perf.Obj? then Failure(AttributeError)
      else
        var ordering :- OrderingRule(perf.entries, show);
        if !quality.Obj? then Failure(AttributeError)
        else
          var stability :- StabilityRule(perf.entries, quality.entries, fixed4);
          var steps :- NegativeRule(quality.entries, "steps", StepsMessage);
          var energy :- NegativeRule(perf.entries, "energy_like_metric", EnergyMessage);
          var errors := ordering + stability + steps + energy;
          Success(Verdict(errors == [], errors))
  }

  /** `validate_run_metrics(metrics_payload)`, appending to the error list rule by rule. */
  method ValidateRunMetrics(payload: Json.Json, schema: Schema, show: Json.Json -> string, fixed4: real -> string)
    returns (r: Result<Verdict, Exception>)
    ensures r == ValidateSpec(payload, schema, show, fixed4)
  {
    var errors: seq<string> := [];
    if !schema.conforms(payload) {
      errors := errors + [SchemaMessage(schema.message(payload))];
      assert errors == [SchemaMessage(schema.message(payload))];
      return Success(Verdict(false, errors));
    }
    if !payload.Obj? {
      return Failure(AttributeError);
    }
    var perf := Json.Get(payload.entries, "performance_metrics", Json.Obj([]));
    var quality := Json.Get(payload.entries, "quality_metrics", Json.Obj([]));

    if !perf.Obj? {
      return Failure(AttributeError);
    }
    var maxT := Json.Get(perf.entries, "max_temperature", Json.Null);
    var minT := Json.Get(perf.entries, "min_temperature", Json.Null);
    var below := Json.Less(maxT, minT);
    if below.None? {
      return Failure(TypeError);
    }
    if below.value {
      errors := errors + [OrderingMessage(maxT, minT, show)];
    }
    ghost var afterOrdering := errors;
    assert afterOrdering == (if below.value then [OrderingMessage(maxT, minT, show)] else []);
    assert OrderingRule(perf.entries, show) == Success(afterOrdering);

    var ratio := Json.Get(perf.entries, "stability_ratio", Json.Int(0));
    if !quality.Obj? {
      return Failure(AttributeError);
    }
    var converged := Json.Get(quality.entries, "converged", Json.Bool(true));
    var above := Json.Less(Json.Real(0.5), ratio);
    if above.None? {
      return Failure(TypeError);
    }
    if above.value && Json.Truthy(converged) {
      errors := errors + [StabilityMessage(Json.Number(ratio).value, fixed4)];
    }
    ghost var afterStability := errors;
    assert afterStability == afterOrdering + StabilityRule(perf.entries, quality.entries, fixed4).value;

    var negativeSteps := Json.Less(Json.Get(quality.entries, "steps", Json.Int(-1)), Json.Int(0));
    if negativeSteps.None? {
      return Failure(TypeError);
    }
    if negativeSteps.value {
      errors := errors + [StepsMessage];
    }
    ghost var afterSteps := errors;
    assert afterSteps == afterStability + NegativeRule(quality.entries, "steps", StepsMessage).value;

    var negativeEnergy := Json.Less(Json.Get(perf.entries, "energy_like_metric", Json.Int(-1)), Json.Int(0));
    if negativeEnergy.None? {
      return Failure(TypeError);
    }
    if negativeEnergy.value {
      errors := errors + [EnergyMessage];
    }
    assert errors == afterSteps + NegativeRule(perf.entries, "energy_like_metric", EnergyMessage).value;
    return Success(Verdict(|errors| == 0, errors));
  }

  // ---------------------------------------------------------------------------
  // Properties

  /** A conforming payload's errors are those of the four rules, in the order ordering,
      stability, steps, energy, each rule adding at most one. */
  lemma RulesInOrder(payload: Json.Json, schema: Schema, show: Json.Json -> string, fixed4: real -> string)
    requires schema.conforms(payload)
    requires ValidateSpec(payload, schema, show, fixed4).Success?
    ensures payload.Obj?
    ensures var perf := Json.Get(payload.entries, "performance_metrics", Json.Obj([]));
            var quality := Json.Get(payload.entries, "quality_metrics", Json.Obj([]));
      && perf.Obj? && quality.Obj?
      && OrderingRule(perf.entries, show).Success?
      && StabilityRule(perf.entries, quality.entries, fixed4).Success?
      && NegativeRule(quality.entries, "steps", StepsMessage).Success?
      && NegativeRule(perf.entries, "energy_like_metric", EnergyMessage).Success?
      && ValidateSpec(payload, schema, show, fixed4).value.errors ==
           OrderingRule(perf.entries, show).value
           + StabilityRule(perf.entries, quality.entries, fixed4).value
           + NegativeRule(quality.entries, "steps", StepsMessage).value
           + NegativeRule(perf.entries, "energy_like_metric", EnergyMessage).value
  {
  }

  /** A maximum below the minimum makes the payload invalid, with an error that names
      `max_temp` first. */
  lemma OrderingViolationReported(payload: Json.Json, schema: Schema, show: Json.Json -> string, fixed4: real -> string)
    requires schema.conforms(payload) && payload.Obj?
    requires var perf := Json.Get(payload.entries, "performance_metrics", Json.Obj([]));
      && perf.Obj?
      && Json.Number(Json.Get(perf.entries, "max_temperature", Json.Null)).Some?
      && Json.Number(Json.Get(perf.entries, "min_temperature", Json.Null)).Some?
      && Json.Number(Json.Get(perf.entries, "max_temperature", Json.Null)).value
         < Json.Number(Json.Get(perf.entries, "min_temperature", Json.Null)).value
    requires ValidateSpec(payload, schema, show, fixed4).Success?
    ensures var v := ValidateSpec(payload, schema, show, fixed4).value;
      !v.valid && v.errors != [] && Text.Contains(v.errors[0], "max_temp")
  {
    RulesInOrder(payload, schema, show, fixed4);
  }

  /** A numeric ratio above 0.5 on a run that counts as converged (a missing `converged`
      counts) makes the payload invalid, with the stability error. */
  lemma StabilityViolationReported(payload: Json.Json, schema: Schema, show: Json.Json -> string, fixed4: real -> string)
    requires schema.conforms(payload) && payload.Obj?
    requires var perf := Json.Get(payload.entries, "performance_metrics", Json.Obj([]));
             var quality := Json.Get(payload.entries, "quality_metrics", Json.Obj([]));
      && perf.Obj? && quality.Obj?
      && Json.Number(Json.Get(perf.entries, "stability_ratio", Json.Int(0))).Some?
      && Json.Number(Json.Get(perf.entries, "stability_ratio", Json.Int(0))).value > 0.5
      && Json.Truthy(Json.Get(quality.entries, "converged", Json.Bool(true)))
    requires ValidateSpec(payload, schema, show, fixed4).Success?
    ensures var v := ValidateSpec(payload, schema, show, fixed4).value;
            var perf := Json.Get(payload.entries, "performance_metrics", Json.Obj([]));
      && !v.valid
      && StabilityMessage(Json.Number(Json.Get(perf.entries, "stability_ratio", Json.Int(0))).value, fixed4) in v.errors
      && exists e :: e in v.errors && Text.Contains(e, "stability_ratio")
  {
    RulesInOrder(payload, schema, show, fixed4);
    var perf := Json.Get(payload.entries, "performance_metrics", Json.Obj([]));
    var x := Json.Number(Json.Get(perf.entries, "stability_ratio", Json.Int(0))).value;
    StabilityMessageMentionsRatio(x, fixed4);
  }

  /** A ratio of exactly 0.5 never raises the stability error, whatever `converged` says. */
  lemma HalfRatioPasses(payload: Json.Json, schema: Schema, show: Json.Json -> string, fixed4: real -> string)
    requires schema.conforms(payload) && payload.Obj?
    requires var perf := Json.Get(payload.entries, "performance_metrics", Json.Obj([]));
      perf.Obj? && Json.Lookup(perf.entries, "stability_ratio") == Some(Json.Real(0.5))
    requires ValidateSpec(payload, schema, show, fixed4).Success?
    ensures forall x :: StabilityMessage(x, fixed4) !in ValidateSpec(payload, schema, show, fixed4).value.errors
  {
    RulesInOrder(payload, schema, show, fixed4);
    var perf := Json.Get(payload.entries, "performance_metrics", Json.Obj([]));
    var quality := Json.Get(payload.entries, "quality_metrics", Json.Obj([]));
    StabilityAtHalf(perf.entries, quality.entries, fixed4);
    OrderingShape(perf.entries, show);
    var maxT := Json.Get(perf.entries, "max_temperature", Json.Null);
    var minT := Json.Get(perf.entries, "min_temperature", Json.Null);
    OtherRulesOnly(OrderingRule(perf.entries, show).value, StabilityRule(perf.entries, quality.entries, fixed4).value,
                   NegativeRule(quality.entries, "steps", StepsMessage).value,
                   NegativeRule(perf.entries, "energy_like_metric", EnergyMessage).value, maxT, minT, show, fixed4);
  }

  /** The ordering rule adds nothing or the one ordering message for the two values it read. */
  lemma OrderingShape(perf: Json.Dict, show: Json.Json -> string)
    requires OrderingRule(perf, show).Success?
    ensures var maxT, minT := Json.Get(perf, "max_temperature", Json.Null), Json.Get(perf, "min_temperature", Json.Null);
      OrderingRule(perf, show).value in {[], [OrderingMessage(maxT, minT, show)]}
  {
  }

  /** Errors from the ordering, steps and energy rules alone never include the stability error. */
  lemma OtherRulesOnly(ordering: seq<string>, stability: seq<string>, steps: seq<string>, energy: seq<string>,
                       maxT: Json.Json, minT: Json.Json, show: Json.Json -> string, fixed4: real -> string)
    requires ordering in {[], [OrderingMessage(maxT, minT, show)]} && stability == []
    requires steps in {[], [StepsMessage]} && energy in {[], [EnergyMessage]}
    ensures forall x :: StabilityMessage(x, fixed4) !in ordering + stability + steps + energy
  {
    forall x ensures StabilityMessage(x, fixed4) !in ordering + stability + steps + energy {
      StabilityMessageDiffers(maxT, minT, show, x, fixed4);
    }
  }

  /** A ratio of exactly 0.5 passes the stability rule: the comparison is strict. */
  lemma StabilityAtHalf(perf: Json.Dict, quality: Json.Dict, fixed4: real -> string)
    requires Json.Lookup(perf, "stability_ratio") == Some(Json.Real(0.5))
    ensures StabilityRule(perf, quality, fixed4) == Success([])
  {
    assert Json.Number(Json.Get(perf, "stability_ratio", Json.Int(0))) == Some(0.5);
  }

  /** A missing or negative step count, and a missing or negative energy, each make the
      payload invalid with their own error. */
  lemma NegativeCountsReported(payload: Json.Json, schema: Schema, show: Json.Json -> string, fixed4: real -> string)
    requires schema.conforms(payload)
    requires ValidateSpec(payload, schema, show, fixed4).Success?
    ensures payload.Obj?
    ensures var quality := Json.Get(payload.entries, "quality_metrics", Json.Obj([]));
            var steps := Json.Lookup(quality.entries, "steps");
      steps.None? || (Json.Number(steps.value).Some? && Json.Number(steps.value).value < 0.0) ==>
        StepsMessage in ValidateSpec(payload, schema, show, fixed4).value.errors
    ensures var perf := Json.Get(payload.entries, "performance_metrics", Json.Obj([]));
            var energy := Json.Lookup(perf.entries, "energy_like_metric");
      energy.None? || (Json.Number(energy.value).Some? && Json.Number(energy.value).value < 0.0) ==>
        EnergyMessage in ValidateSpec(payload, schema, show, fixed4).value.errors
  {
    RulesInOrder(payload, schema, show, fixed4);
  }

  /** The quality object the extraction builds. */
  lemma PayloadFields(q: Extract.Payload)
    ensures var e := Extract.ToJson(q).entries;
            var perf := Json.Get(e, "performance_metrics", Json.Obj([]));
            var quality := Json.Get(e, "quality_metrics", Json.Obj([]));
      && perf == Json.Obj(Metrics.ToDict(q.performance))
      && quality.Obj?
      && Json.Get(quality.entries, "converged", Json.Bool(true)) == Json.Bool(q.quality.converged)
      && Json.Get(quality.entries, "steps", Json.Int(-1)) == Json.Int(q.quality.steps)
  {
    var e := Extract.ToJson(q).entries;
    Json.LookupFirst(e, 2);
    Json.LookupFirst(e, 3);
    var qd := e[3].1.entries;
    Json.LookupFirst(qd, 0);
    Json.LookupFirst(qd, 1);
  }

  /** The metric values the rules read from the engine's dictionary. */
  lemma MetricFields(m: Metrics.RunMetrics)
    ensures var d := Metrics.ToDict(m);
      && Json.Get(d, "max_temperature", Json.Null) == Json.Real(m.maxTemperature)
      && Json.Get(d, "min_temperature", Json.Null) == Json.Real(m.minTemperature)
      && Json.Get(d, "energy_like_metric", Json.Int(-1)) == Json.Real(m.energyLikeMetric)
      && Json.Get(d, "stability_ratio", Json.Int(0)) == Json.Real(m.stabilityRatio)
  {
    var d := Metrics.ToDict(m);
    Json.LookupEntry(d, 0);
    Json.LookupEntry(d, 1);
    Json.LookupEntry(d, 3);
    Json.LookupEntry(d, 4);
  }

  /** A conforming payload in the extraction's shape validates without raising, and each
      rule fires exactly when its condition holds on the payload's numbers. */
  lemma ValidateExtractedShape(q: Extract.Payload, schema: Schema, show: Json.Json -> string, fixed4: real -> string)
    requires schema.conforms(Extract.ToJson(q))
    ensures var r := ValidateSpec(Extract.ToJson(q), schema, show, fixed4);
            var m := q.performance;
      && r.Success?
      && r.value.errors ==
           (if m.maxTemperature < m.minTemperature
            then [OrderingMessage(Json.Real(m.maxTemperature), Json.Real(m.minTemperature), show)] else [])
           + (if m.stabilityRatio > 0.5 && q.quality.converged then [StabilityMessage(m.stabilityRatio, fixed4)] else [])
           + (if q.quality.steps < 0 then [StepsMessage] else [])
           + (if m.energyLikeMetric < 0.0 then [EnergyMessage] else [])
  {
    PayloadFields(q);
    var m := q.performance;
    var quality := Json.Get(Extract.ToJson(q).entries, "quality_metrics", Json.Obj([])).entries;
    OrderingOfMetrics(m, show);
    StabilityOfMetrics(m, quality, q.quality.converged, fixed4);
    StepsOfQuality(quality, q.quality.steps);
    EnergyOfMetrics(m);
  }

  /** The ordering rule on the engine's metrics reports exactly a maximum below the minimum. */
  lemma OrderingOfMetrics(m: Metrics.RunMetrics, show: Json.Json -> string)
    ensures OrderingRule(Metrics.ToDict(m), show) ==
      Success(if m.maxTemperature < m.minTemperature
              then [OrderingMessage(Json.Real(m.maxTemperature), Json.Real(m.minTemperature), show)] else [])
  {
    MetricFields(m);
  }

  /** The stability rule on the engine's metrics reports exactly a ratio above 0.5 on a run
      marked converged. */
  lemma StabilityOfMetrics(m: Metrics.RunMetrics, quality: Json.Dict, converged: bool, fixed4: real -> string)
    requires Json.Get(quality, "converged", Json.Bool(true)) == Json.Bool(converged)
    ensures StabilityRule(Metrics.ToDict(m), quality, fixed4) ==
      Success(if m.stabilityRatio > 0.5 && converged then [StabilityMessage(m.stabilityRatio, fixed4)] else [])
  {
    MetricFields(m);
  }

  /** The steps rule on an integer step count reports exactly a negative count. */
  lemma StepsOfQuality(quality: Json.Dict, steps: int)
    requires Json.Get(quality, "steps", Json.Int(-1)) == Json.Int(steps)
    ensures NegativeRule(quality, "steps", StepsMessage) == Success(if steps < 0 then [StepsMessage] else [])
  {
  }

  /** The energy rule on the engine's metrics reports exactly a negative energy. */
  lemma EnergyOfMetrics(m: Metrics.RunMetrics)
    ensures NegativeRule(Metrics.ToDict(m), "energy_like_metric", EnergyMessage) ==
      Success(if m.energyLikeMetric < 0.0 then [EnergyMessage] else [])
  {
    MetricFields(m);
  }

  /** A payload that marks a run converged exactly when its ratio is at most 0.5 never
      carries the stability error. */
  lemma ConsistentPayloadNeverUnstable(q: Extract.Payload, schema: Schema, show: Json.Json -> string, fixed4: real -> string)
    requires q.quality.converged <==> q.performance.stabilityRatio <= 0.5
    requires schema.conforms(Extract.ToJson(q))
    ensures var r := ValidateSpec(Extract.ToJson(q), schema, show, fixed4);
      r.Success? && forall x :: StabilityMessage(x, fixed4) !in r.value.errors
  {
    var m := q.performance;
    ValidateExtractedShape(q, schema, show, fixed4);
    forall x ensures StabilityMessage(x, fixed4) !in ValidateSpec(Extract.ToJson(q), schema, show, fixed4).value.errors {
      StabilityMessageDiffers(Json.Real(m.maxTemperature), Json.Real(m.minTemperature), show, x, fixed4);
    }
  }

  /** A payload produced by extraction never carries the stability error. */
  lemma ExtractedNeverUnstable(meta: Option<Json.Json>, raw: Option<Json.Json>, dirName: string, now: string,
                               p: Json.Parsers, schema: Schema, show: Json.Json -> string, fixed4: real -> string)
    requires Extract.ExtractRunMetrics(meta, raw, dirName, now, p).Success?
    requires schema.conforms(Extract.ToJson(Extract.ExtractRunMetrics(meta, raw, dirName, now, p).value))
    ensures var q := Extract.ExtractRunMetrics(meta, raw, dirName, now, p).value;
            var r := ValidateSpec(Extract.ToJson(q), schema, show, fixed4);
      r.Success? && forall x :: StabilityMessage(x, fixed4) !in r.value.errors
  {
    var q := Extract.ExtractRunMetrics(meta, raw, dirName, now, p).value;
    ConsistentPayloadNeverUnstable(q, schema, show, fixed4);
  }

  /** The payload of a run whose metrics the engine measured on a grid with positive
      spacing, with a non-negative step count and the extraction's convergence flag, is
      valid once it conforms to the schema. */
  lemma MeasuredRunIsValid(q: Extract.Payload, u: seq<real>, dx: real, dt: real, alpha: real,
                           schema: Schema, show: Json.Json -> string, fixed4: real -> string)
    requires u != [] && dx > 0.0
    requires q.performance == Metrics.Measure(u, dx, dt, alpha)
    requires q.quality.steps >= 0
    requires q.quality.converged <==> q.performance.stabilityRatio <= 0.5
    requires schema.conforms(Extract.ToJson(q))
    ensures ValidateSpec(Extract.ToJson(q), schema, show, fixed4) == Success(Verdict(true, []))
  {
    ValidateExtractedShape(q, schema, show, fixed4);
  }
}
