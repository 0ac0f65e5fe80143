/** GraphCompiler (src/graph/compiler.cpp): turns a GraphSpec into a compiled
    program of edges, thermal-mass models and rules, interning every path,
    device and function name on the way. */
module Compiler {
  import opened Types
  import opened GraphSpecs
  import opened Graphs
  import opened Namespaces
  import opened Transforms
  import opened CycleDetection
  import opened TopologicalOrder

  // ---------------------------------------------------------------------------
  // Typed parameter access

  /** The name of the alternative a Variant holds, as used in type errors. */
  function VariantTypeName(v: Variant): (name: string)
    ensures name == "double" <==> v.VDouble?
    ensures name == "int64" <==> v.VInt64?
    ensures name == "bool" <==> v.VBool?
    ensures name == "string" <==> v.VString?
  {
    match v
    case VDouble(_) => "double"
    case VInt64(_) => "int64"
    case VBool(_) => "bool"
    case VString(_) => "string"
  }

  /** The parameter `name`, or a missing-parameter error located at `context`. */
  function RequireParam(params: Params, name: string, context: string): (r: Result<Variant, CompileError>)
    ensures r.Ok? <==> name in params
    ensures r.Ok? ==> r.value == params[name]
    ensures r.Err? ==> r.error == MissingParameter(context, name)
  {
    if name in params then Ok(params[name]) else Err(MissingParameter(context, name))
  }

  /** A number: a double as is, an int64 widened; bool and string are refused. */
  function AsDouble(v: Variant, path: string): (r: Result<real, CompileError>)
    ensures r.Ok? <==> v.VDouble? || v.VInt64?
    ensures v.VDouble? ==> r == Ok(v.d)
    ensures v.VInt64? ==> r == Ok(v.i as real)
    ensures r.Err? ==> r.error == TypeMismatch(path, "number", VariantTypeName(v))
  {
    match v
    case VDouble(d) => Ok(d)
    case VInt64(i) => Ok(i as real)
    case _ => Err(TypeMismatch(path, "number", VariantTypeName(v)))
  }

  /** Only an int64 is accepted; a double is not narrowed. */
  function AsInt64(v: Variant, path: string): (r: Result<int, CompileError>)
    ensures r.Ok? <==> v.VInt64?
    ensures r.Ok? ==> r.value == v.i
    ensures r.Err? ==> r.error == TypeMismatch(path, "int64", VariantTypeName(v))
  {
    if v.VInt64? then Ok(v.i) else Err(TypeMismatch(path, "int64", VariantTypeName(v)))
  }

  /** Only a string is accepted. */
  function AsString(v: Variant, path: string): (r: Result<string, CompileError>)
    ensures r.Ok? <==> v.VString?
    ensures r.Ok? ==> r.value == v.s
    ensures r.Err? ==> r.error == TypeMismatch(path, "string", VariantTypeName(v))
  {
    if v.VString? then Ok(v.s) else Err(TypeMismatch(path, "string", VariantTypeName(v)))
  }

  /** A required numeric parameter, its type error located at `context/name`. */
  function NumberParam(params: Params, name: string, context: string): (r: Result<real, CompileError>)
    ensures r.Ok? <==> name in params && (params[name].VDouble? || params[name].VInt64?)
    ensures name !in params ==> r == Err(MissingParameter(context, name))
    ensures name in params && r.Err? ==> r.error == TypeMismatch(context + "/" + name, "number", VariantTypeName(params[name]))
  {
    var v :- RequireParam(params, name, context);
    AsDouble(v, context + "/" + name)
  }

  /** A required string parameter. */
  function StringParam(params: Params, name: string, context: string): (r: Result<string, CompileError>)
    ensures r.Ok? <==> name in params && params[name].VString?
    ensures r.Ok? ==> r.value == params[name].s
    ensures name !in params ==> r == Err(MissingParameter(context, name))
    ensures name in params && r.Err? ==> r.error == TypeMismatch(context + "/" + name, "string", VariantTypeName(params[name]))
  {
    var v :- RequireParam(params, name, context);
    AsString(v, context + "/" + name)
  }

  /** A number under `key` when present, otherwise the required `fallback`. */
  function PreferredNumber(params: Params, key: string, fallback: string, context: string): Result<real, CompileError> {
    if key in params then AsDouble(params[key], context + "/" + key)
    else NumberParam(params, fallback, context)
  }

  /** An optional bound: absent means unbounded. */
  function OptionalBound(params: Params, key: string, context: string): (r: Result<Option<real>, CompileError>)
    ensures key !in params ==> r == Ok(None)
    ensures r.Ok? && r.value.Some? <==> key in params && (params[key].VDouble? || params[key].VInt64?)
    ensures r.Err? ==> key in params && r.error == TypeMismatch(context + "/" + key, "number", VariantTypeName(params[key]))
  {
    if key in params then
      var x :- AsDouble(params[key], context + "/" + key);
      Ok(Some(x))
    else Ok(None)
  }

  /** The parameters are the same apart from `key`, and `key` is a number. */
  lemma ParamRoundTrip(params: Params, name: string, context: string, x: real)
    ensures NumberParam(params[name := VDouble(x)], name, context) == Ok(x)
    ensures name !in params ==> NumberParam(params, name, context) == Err(MissingParameter(context, name))
  {
  }

  /** The errors raised while reading parameters and type names. */
  predicate IsParseError(e: CompileError) {
    e.MissingParameter? || e.TypeMismatch? || e.InvalidParameter? || e.UnknownTransformType? || e.UnknownModelType?
  }

  // ---------------------------------------------------------------------------
  // Transforms

  const TRANSFORM_TYPES: set<string> :=
    {"linear", "first_order_lag", "delay", "noise", "saturation", "deadband", "rate_limiter", "moving_average"}

  /** The spec type name each transform kind is built from. */
  function TransformTypeName(t: Transform): (name: string)
    ensures name in TRANSFORM_TYPES
  {
    match t
    case LinearT(_, _, _, _) => "linear"
    case FirstOrderLagT(_, _, _) => "first_order_lag"
    case DelayT(_, _) => "delay"
    case NoiseT(_, _, _) => "noise"
    case SaturationT(_, _) => "saturation"
    case DeadbandT(_) => "deadband"
    case RateLimiterT(_, _, _) => "rate_limiter"
    case MovingAverageT(_, _) => "moving_average"
  }

  const UINT32_RANGE: int := 0x1_0000_0000

  /** Builds the transform a spec names, in its initial state. An unknown
      type, a missing or ill-typed parameter and a moving-average window
      below 1 are errors. */
  function ParseTransform(spec: TransformSpec): (r: Result<Transform, CompileError>)
    ensures spec.typeName !in TRANSFORM_TYPES ==> r == Err(UnknownTransformType(spec.typeName))
    ensures r.Ok? ==> TransformTypeName(r.value) == spec.typeName
    ensures r.Ok? ==> ResetTransform(r.value) == r.value
    ensures r.Ok? && r.value.MovingAverageT? ==> r.value.windowSize >= 1
    ensures r.Err? ==> IsParseError(r.error)
  {
    var params := spec.params;
    var context := "transform[" + spec.typeName + "]";
    match spec.typeName
    case "linear" =>
      var scale :- NumberParam(params, "scale", context);
      var offset :- NumberParam(params, "offset", context);
      var lo :- OptionalBound(params, "clamp_min", context);
      var hi :- OptionalBound(params, "clamp_max", context);
      Ok(LinearT(scale, offset, lo, hi))
    case "first_order_lag" =>
      var tau :- NumberParam(params, "tau_s", context);
      Ok(FirstOrderLagT(tau, 0.0, false))
    case "delay" =>
      var d :- NumberParam(params, "delay_sec", context);
      Ok(DelayT(d, []))
    case "noise" =>
      var amplitude :- NumberParam(params, "amplitude", context);
      var seed :- if "seed" in params then AsInt64(params["seed"], context + "/seed") else Ok(0);
      Ok(NoiseT(amplitude, seed % UINT32_RANGE, 0))
    case "saturation" =>
      var lo :- PreferredNumber(params, "min", "min_value", context);
      var hi :- PreferredNumber(params, "max", "max_value", context);
      Ok(SaturationT(lo, hi))
    case "deadband" =>
      var threshold :- NumberParam(params, "threshold", context);
      Ok(DeadbandT(threshold))
    case "rate_limiter" =>
      var maxRate :- PreferredNumber(params, "max_rate_per_sec", "max_rate", context);
      Ok(RateLimiterT(maxRate, 0.0, false))
    case "moving_average" =>
      var w :- AsInt64Param(params, "window_size", context);
      if w <= 0 then Err(InvalidParameter(context + "/window_size"))
      else Ok(MovingAverageT(w, []))
    case _ => Err(UnknownTransformType(spec.typeName))
  }

  /** A required int64 parameter; a double is refused, not narrowed. */
  function AsInt64Param(params: Params, name: string, context: string): (r: Result<int, CompileError>)
    ensures r.Ok? <==> name in params && params[name].VInt64?
    ensures r.Ok? ==> r.value == params[name].i
    ensures name !in params ==> r == Err(MissingParameter(context, name))
    ensures name in params && r.Err? ==> r.error == TypeMismatch(context + "/" + name, "int64", VariantTypeName(params[name]))
  {
    var v :- RequireParam(params, name, context);
    AsInt64(v, context + "/" + name)
  }

  /** A moving average is built exactly when `window_size` is an int64 of at
      least 1, and then with that window. */
  lemma MovingAverageWindow(params: Params, w: int)
    requires "window_size" in params && params["window_size"] == VInt64(w)
    ensures var r := ParseTransform(TransformSpec("moving_average", params));
      && (r.Ok? <==> w >= 1)
      && (r.Ok? ==> r.value == MovingAverageT(w, []))
      && (r.Err? ==> r.error == InvalidParameter("transform[moving_average]/window_size"))
  {
    assert "transform[" + "moving_average" + "]" + "/window_size" == "transform[moving_average]/window_size";
  }

  /** "min"/"max" win over "min_value"/"max_value", which are required only
      when the short keys are absent. */
  lemma SaturationKeys(params: Params, lo: real, hi: real)
    requires "min" in params && params["min"] == VDouble(lo)
    requires "max" in params && params["max"] == VDouble(hi)
    ensures ParseTransform(TransformSpec("saturation", params)) == Ok(SaturationT(lo, hi))
    ensures ParseTransform(TransformSpec("saturation", params - {"min"} - {"min_value"})) ==
      Err(MissingParameter("transform[saturation]", "min_value"))
  {
    assert "transform[" + "saturation" + "]" == "transform[saturation]";
  }

  /** "max_rate_per_sec" wins over "max_rate". */
  lemma RateLimiterKeys(params: Params, rate: real)
    requires "max_rate_per_sec" in params && params["max_rate_per_sec"] == VDouble(rate)
    ensures ParseTransform(TransformSpec("rate_limiter", params)) == Ok(RateLimiterT(rate, 0.0, false))
  {
  }

  /** The noise seed defaults to 0 and is otherwise truncated to 32 bits. */
  lemma NoiseSeed(params: Params, amplitude: real)
    requires "amplitude" in params && params["amplitude"] == VDouble(amplitude)
    ensures "seed" !in params ==> ParseTransform(TransformSpec("noise", params)) == Ok(NoiseT(amplitude, 0, 0))
    ensures "seed" in params && params["seed"].VInt64? ==>
      var r := ParseTransform(TransformSpec("noise", params));
      r.Ok? && r.value.seed < UINT32_RANGE && (r.value.seed - params["seed"].i) % UINT32_RANGE == 0
  {
  }

  /** Without clamp parameters a linear transform is the bare affine map. */
  lemma LinearUnclamped(params: Params, scale: real, offset: real, x: real)
    requires "scale" in params && params["scale"] == VDouble(scale)
    requires "offset" in params && params["offset"] == VDouble(offset)
    requires "clamp_min" !in params && "clamp_max" !in params
    ensures var r := ParseTransform(TransformSpec("linear", params));
      r.Ok? && ApplyTransform(r.value, x, 0.0, Numerics((a, b) => 0.0, (a, b, c) => 0.0)).1 == scale * x + offset
  {
  }

  // ---------------------------------------------------------------------------
  // Models

  /** ThermalMassModel: its parameters, the three signals it uses and its
      current temperature. */
  datatype ThermalMass = ThermalMass(
    id: string, thermalMass: real, heatTransferCoeff: real, initialTemp: real, temperature: real,
    tempSignal: SignalId, powerSignal: SignalId, ambientSignal: SignalId)

  datatype ThermalParams = ThermalParams(
    thermalMass: real, heatTransferCoeff: real, initialTemp: real,
    tempPath: string, powerPath: string, ambientPath: string)

  function ModelContext(spec: ModelSpec): string {
    "model[" + spec.id + ":" + spec.typeName + "]"
  }

  /** The six required thermal-mass parameters, checked in source order. */
  function ParseThermalParams(spec: ModelSpec): (r: Result<ThermalParams, CompileError>)
    ensures r.Ok? ==> forall k :: (k in {"thermal_mass", "heat_transfer_coeff", "initial_temp",
                                          "temp_signal", "power_signal", "ambient_signal"}) ==> k in spec.params
    ensures r.Err? ==> IsParseError(r.error)
  {
    var context := ModelContext(spec);
    var c :- NumberParam(spec.params, "thermal_mass", context);
    var h :- NumberParam(spec.params, "heat_transfer_coeff", context);
    var t0 :- NumberParam(spec.params, "initial_temp", context);
    var temp :- StringParam(spec.params, "temp_signal", context);
    var power :- StringParam(spec.params, "power_signal", context);
    var ambient :- StringParam(spec.params, "ambient_signal", context);
    Ok(ThermalParams(c, h, t0, temp, power, ambient))
  }

  /** The error `parse_model` raises for a spec: an unknown type, else the
      first missing or ill-typed parameter; None when the spec parses. */
  function ModelError(spec: ModelSpec): (r: Option<CompileError>)
    ensures r.None? <==> spec.typeName == "thermal_mass" && ParseThermalParams(spec).Ok?
    ensures r.Some? ==> IsParseError(r.value)
  {
    if spec.typeName != "thermal_mass" then Some(UnknownModelType(spec.typeName))
    else if ParseThermalParams(spec).Err? then Some(ParseThermalParams(spec).error)
    else None
  }

  /** The spec parses and its three signal paths have ids in `ids`. */
  ghost predicate ModelCompiles(spec: ModelSpec, ids: map<string, SignalId>) {
    && ModelError(spec).None?
    && var p := ParseThermalParams(spec).value;
       p.tempPath in ids && p.powerPath in ids && p.ambientPath in ids
  }

  /** The model `parse_model` builds from the spec, its paths resolved in
      `ids`; its temperature starts at the initial temperature. */
  ghost function ModelOf(spec: ModelSpec, ids: map<string, SignalId>): ThermalMass
    requires ModelCompiles(spec, ids)
  {
    var p := ParseThermalParams(spec).value;
    ThermalMass(spec.id, p.thermalMass, p.heatTransferCoeff, p.initialTemp, p.initialTemp,
                ids[p.tempPath], ids[p.powerPath], ids[p.ambientPath])
  }

  /** Interning more paths leaves a compiled model as it was. */
  lemma ModelOfGrows(spec: ModelSpec, a: map<string, SignalId>, b: map<string, SignalId>)
    requires ModelCompiles(spec, a) && Grows(a, b)
    ensures ModelCompiles(spec, b) && ModelOf(spec, b) == ModelOf(spec, a)
  {
  }

  /** Builds a thermal-mass model, interning its temperature, power and
      ambient paths in that order; on error nothing is interned. */
  method ParseModel(spec: ModelSpec, ns: SignalNamespace) returns (r: Result<ThermalMass, CompileError>)
    requires ns.Valid()
    modifies ns
    ensures ns.Valid() && Grows(old(ns.pathToId), ns.pathToId)
    ensures r.Err? <==> ModelError(spec).Some?
    ensures r.Err? ==> r.error == ModelError(spec).value && unchanged(ns)
    ensures r.Ok? ==> ModelCompiles(spec, ns.pathToId) && r.value == ModelOf(spec, ns.pathToId)
  {
    if spec.typeName != "thermal_mass" {
      return Err(UnknownModelType(spec.typeName));
    }
    var parsed := ParseThermalParams(spec);
    if parsed.Err? {
      return parsed.PropagateFailure();
    }
    var p := parsed.value;
    var temp := ns.Intern(p.tempPath);
    var power := ns.Intern(p.powerPath);
    var ambient := ns.Intern(p.ambientPath);
    r := Ok(ThermalMass(spec.id, p.thermalMass, p.heatTransferCoeff, p.initialTemp, p.initialTemp,
                        temp, power, ambient));
  }

  /** ThermalMassModel::compute_stability_limit: forward Euler is stable for
      dt < 2C/h; without cooling (h <= 0) there is no limit. */
  function StabilityLimit(m: ThermalMass): (limit: Option<real>)
    ensures limit.None? <==> m.heatTransferCoeff <= 0.0
    ensures limit.Some? ==> limit.value * m.heatTransferCoeff == 2.0 * m.thermalMass
  {
    if m.heatTransferCoeff <= 0.0 then None else Some(2.0 * m.thermalMass / m.heatTransferCoeff)
  }

  /** A step of `dt` exceeds the model's stability limit. */
  predicate Unstable(m: ThermalMass, dt: real): (u: bool)
    ensures u <==> m.heatTransferCoeff > 0.0 && dt * m.heatTransferCoeff > 2.0 * m.thermalMass
  {
    StabilityLimit(m).Some? && dt > StabilityLimit(m).value
  }

  /** `e` reports the first model that is unstable at `dt`. */
  ghost predicate FirstUnstable(models: seq<ThermalMass>, dt: real, e: CompileError) {
    exists i :: && 0 <= i < |models| && Unstable(models[i], dt)
                && (forall j :: 0 <= j < i ==> !Unstable(models[j], dt))
                && e == StabilityViolation(models[i].id, StabilityLimit(models[i]).value, dt)
  }

  /** Rejects the first model whose stability limit `dt` exceeds. */
  method ValidateStability(models: seq<ThermalMass>, dt: real) returns (outcome: Outcome<CompileError>)
    ensures outcome.Pass? <==> forall i :: 0 <= i < |models| ==> !Unstable(models[i], dt)
    ensures outcome.Fail? ==> outcome.error.StabilityViolation? && FirstUnstable(models, dt, outcome.error)
  {
    var i := 0;
    while i < |models|
      invariant 0 <= i <= |models|
      invariant forall j :: 0 <= j < i ==> !Unstable(models[j], dt)
    {
      var limit := StabilityLimit(models[i]);
      if limit.Some? && dt > limit.value {
        return Fail(StabilityViolation(models[i].id, limit.value, dt));
      }
      i := i + 1;
    }
    return Pass;
  }

  // ---------------------------------------------------------------------------
  // Single-writer ownership

  /** No signal id appears twice among the writers. */
  predicate UniqueWriters(writers: seq<(SignalId, string)>) {
    forall i, j :: 0 <= i < j < |writers| ==> writers[i].0 != writers[j].0
  }

  /** `e` names the first writer whose signal an earlier writer already
      owns, and that owner. */
  ghost predicate FirstDuplicate(writers: seq<(SignalId, string)>, e: CompileError) {
    exists i, j :: && 0 <= i < j < |writers| && writers[i].0 == writers[j].0
                   && UniqueWriters(writers[..j])
                   && e == MultipleWriters(writers[j].0, writers[i].1, writers[j].1)
  }

  /** Registers each writer in turn in an owner map and rejects the first one
      whose signal already has an owner, naming both. */
  method RegisterWriters(writers: seq<(SignalId, string)>) returns (outcome: Outcome<CompileError>)
    ensures outcome.Pass? <==> UniqueWriters(writers)
    ensures outcome.Fail? ==> FirstDuplicate(writers, outcome.error)
  {
    var owner: map<SignalId, string> := map[];
    ghost var first: map<SignalId, nat> := map[];
    var k := 0;
    while k < |writers|
      invariant 0 <= k <= |writers|
      invariant UniqueWriters(writers[..k])
      invariant owner.Keys == first.Keys
      invariant forall i :: 0 <= i < k ==> writers[i].0 in first
      invariant forall id :: id in first ==> first[id] < k && writers[first[id]].0 == id && owner[id] == writers[first[id]].1
    {
      var (id, desc) := writers[k];
      if id in owner {
        var i := first[id];
        assert writers[..k + 1][..k] == writers[..k];
        return Fail(MultipleWriters(id, owner[id], desc));
      }
      owner := owner[id := desc];
      first := first[id := k];
      k := k + 1;
    }
    assert writers[..k] == writers;
    return Pass;
  }

  // ---------------------------------------------------------------------------
  // Rules

  /** The six comparisons a rule condition may use. */
  datatype Comparator = Lt | Le | Gt | Ge | Eq | Ne

  /** A condition of the form `<signal_path> <op> <number>`, as parsed from
      its text. */
  datatype Condition = Condition(path: string, op: Comparator, rhs: real)

  /** The condition texts of the supported form (after trimming, a signal
      path, one of the six operators and a decimal number) with what they
      parse to. */
  type ConditionSyntax = imap<string, Condition>

  datatype CompiledCondition = CompiledCondition(signal: SignalId, op: Comparator, rhs: real)

  /** The closure built for a compiled condition, applied to the signal's
      current value. */
  function Holds(c: CompiledCondition, value: real): bool {
    match c.op
    case Lt => value < c.rhs
    case Le => value <= c.rhs
    case Gt => value > c.rhs
    case Ge => value >= c.rhs
    case Eq => value == c.rhs
    case Ne => value != c.rhs
  }

  /** `!=`, `>=` and `<=` are the negations of `==`, `<` and `>`, and
      exactly one of `<`, `==`, `>` holds. */
  lemma ComparatorsComplement(signal: SignalId, rhs: real, value: real)
    ensures Holds(CompiledCondition(signal, Ne, rhs), value) == !Holds(CompiledCondition(signal, Eq, rhs), value)
    ensures Holds(CompiledCondition(signal, Ge, rhs), value) == !Holds(CompiledCondition(signal, Lt, rhs), value)
    ensures Holds(CompiledCondition(signal, Le, rhs), value) == !Holds(CompiledCondition(signal, Gt, rhs), value)
    ensures Holds(CompiledCondition(signal, Lt, rhs), value) || Holds(CompiledCondition(signal, Eq, rhs), value)
      || Holds(CompiledCondition(signal, Gt, rhs), value)
  {
  }

  datatype CompiledRule = CompiledRule(
    id: string, condition: CompiledCondition, deviceFunctions: seq<(DeviceId, FunctionId)>,
    argsList: seq<Params>, onError: string)

  /** The device and function ids of each action and its arguments, in
      action order. */
  ghost predicate ActionsCompiled(actions: seq<ActionSpec>, funcNs: FunctionNamespace,
                                  deviceFunctions: seq<(DeviceId, FunctionId)>, argsList: seq<Params>)
    reads funcNs
  {
    ActionsIn(actions, funcNs.deviceMap, funcNs.functionMap, deviceFunctions, argsList)
  }

  ghost predicate ActionsIn(actions: seq<ActionSpec>, devices: map<string, nat>, functions: map<string, nat>,
                            deviceFunctions: seq<(DeviceId, FunctionId)>, argsList: seq<Params>)
  {
    && |deviceFunctions| == |actions| && |argsList| == |actions|
    && forall i :: 0 <= i < |actions| ==>
         && actions[i].device in devices && actions[i].functionName in functions
         && deviceFunctions[i] == (devices[actions[i].device], functions[actions[i].functionName])
         && argsList[i] == actions[i].args
  }

  /** One more action compiled, against tables that only grew. */
  lemma ActionsSnoc(actions: seq<ActionSpec>, i: nat, devices: map<string, nat>, functions: map<string, nat>,
                    funcNs: FunctionNamespace, deviceFunctions: seq<(DeviceId, FunctionId)>, argsList: seq<Params>,
                    ids: (DeviceId, FunctionId))
    requires i < |actions|
    requires ActionsIn(actions[..i], devices, functions, deviceFunctions, argsList)
    requires Grows(devices, funcNs.deviceMap) && Grows(functions, funcNs.functionMap)
    requires actions[i].device in funcNs.deviceMap && actions[i].functionName in funcNs.functionMap
    requires ids == (funcNs.deviceMap[actions[i].device], funcNs.functionMap[actions[i].functionName])
    ensures ActionsCompiled(actions[..i + 1], funcNs, deviceFunctions + [ids], argsList + [actions[i].args])
  {
    assert forall j :: 0 <= j < i ==> actions[..i + 1][j] == actions[..i][j];
  }

  /** Compiles one rule: its condition (text outside `syntax` is an error) and, for each
      action, interned device and function ids and its arguments. */
  method CompileRule(spec: RuleSpec, signalNs: SignalNamespace, funcNs: FunctionNamespace,
                     syntax: ConditionSyntax) returns (r: Result<CompiledRule, CompileError>)
    requires signalNs.Valid() && funcNs.Valid()
    modifies signalNs, funcNs
    ensures signalNs.Valid() && funcNs.Valid()
    ensures Grows(old(signalNs.pathToId), signalNs.pathToId)
    ensures Grows(old(funcNs.deviceMap), funcNs.deviceMap) && Grows(old(funcNs.functionMap), funcNs.functionMap)
    ensures spec.condition !in syntax <==> r.Err?
    ensures r.Err? ==> r.error == UnsupportedCondition(spec.id) && unchanged(signalNs) && unchanged(funcNs)
    ensures r.Ok? ==>
      var c := syntax[spec.condition];
      && r.value.id == spec.id && r.value.onError == spec.onError
      && c.path in signalNs.pathToId
      && r.value.condition == CompiledCondition(signalNs.pathToId[c.path], c.op, c.rhs)
      && ActionsCompiled(spec.actions, funcNs, r.value.deviceFunctions, r.value.argsList)
  {
    if spec.condition !in syntax {
      return Err(UnsupportedCondition(spec.id));
    }
    var c := syntax[spec.condition];
    var signal := signalNs.Intern(c.path);
    ghost var pathsAfterCondition := signalNs.pathToId;
    var deviceFunctions: seq<(DeviceId, FunctionId)> := [];
    var argsList: seq<Params> := [];
    var i := 0;
    while i < |spec.actions|
      invariant 0 <= i <= |spec.actions|
      invariant funcNs.Valid() && signalNs.Valid() && signalNs.pathToId == pathsAfterCondition
      invariant Grows(old(funcNs.deviceMap), funcNs.deviceMap) && Grows(old(funcNs.functionMap), funcNs.functionMap)
      invariant ActionsCompiled(spec.actions[..i], funcNs, deviceFunctions, argsList)
    {
      var action := spec.actions[i];
      ghost var devices, functions := funcNs.deviceMap, funcNs.functionMap;
      var dev := funcNs.InternDevice(action.device);
      var fn := funcNs.InternFunction(action.functionName);
      ActionsSnoc(spec.actions, i, devices, functions, funcNs, deviceFunctions, argsList, (dev, fn));
      GrowsTransitive(old(funcNs.deviceMap), devices, funcNs.deviceMap);
      GrowsTransitive(old(funcNs.functionMap), functions, funcNs.functionMap);
      deviceFunctions := deviceFunctions + [(dev, fn)];
      argsList := argsList + [action.args];
      i := i + 1;
    }
    assert spec.actions[..i] == spec.actions;
    r := Ok(CompiledRule(spec.id, CompiledCondition(signal, c.op, c.rhs), deviceFunctions, argsList, spec.onError));
  }

  // ---------------------------------------------------------------------------
  // Edges and the whole program

  /** A compiled edge; `snapshot` is the source value the engine caches at
      the start of each tick. */
  datatype CompiledEdge = CompiledEdge(source: SignalId, target: SignalId, transform: Transform, isDelay: bool, snapshot: real)

  datatype Program = Program(edges: seq<CompiledEdge>, models: seq<ThermalMass>, rules: seq<CompiledRule>)

  /** Both paths of the edge are interned and its transform parses. */
  ghost predicate EdgeCompiles(e: EdgeSpec, ids: map<string, SignalId>) {
    e.sourcePath in ids && e.targetPath in ids && ParseTransform(e.transform).Ok?
  }

  ghost function CompiledFrom(e: EdgeSpec, ids: map<string, SignalId>): CompiledEdge
    requires EdgeCompiles(e, ids)
  {
    CompiledEdge(ids[e.sourcePath], ids[e.targetPath], ParseTransform(e.transform).value,
                 e.transform.typeName == "delay", 0.0)
  }

  ghost predicate EdgesCompiled(specs: seq<EdgeSpec>, ids: map<string, SignalId>, edges: seq<CompiledEdge>) {
    && |edges| == |specs|
    && forall i :: 0 <= i < |specs| ==> EdgeCompiles(specs[i], ids) && edges[i] == CompiledFrom(specs[i], ids)
  }

  /** The ordering view of compiled edges. */
  function Shape(edges: seq<CompiledEdge>): (es: seq<Edge>)
    ensures |es| == |edges|
    ensures forall i :: 0 <= i < |edges| ==> es[i] == Edge(edges[i].source, edges[i].target, edges[i].isDelay)
  {
    seq(|edges|, i requires 0 <= i < |edges| => Edge(edges[i].source, edges[i].target, edges[i].isDelay))
  }

  /** Who writes what: every edge target, then every model's temperature. */
  function Writers(edges: seq<CompiledEdge>, models: seq<ThermalMass>): (w: seq<(SignalId, string)>)
    ensures |w| == |edges| + |models|
    ensures forall i :: 0 <= i < |edges| ==> w[i] == (edges[i].target, "edge_target")
    ensures forall i :: 0 <= i < |models| ==> w[|edges| + i] == (models[i].tempSignal, "model_output")
  {
    seq(|edges|, i requires 0 <= i < |edges| => (edges[i].target, "edge_target")) +
    seq(|models|, i requires 0 <= i < |models| => (models[i].tempSignal, "model_output"))
  }

  /** Interns the edge's source path, then its target path, and builds its
      transform. */
  method CompileEdge(e: EdgeSpec, ns: SignalNamespace) returns (r: Result<CompiledEdge, CompileError>)
    requires ns.Valid()
    modifies ns
    ensures ns.Valid() && Grows(old(ns.pathToId), ns.pathToId)
    ensures r.Ok? ==> EdgeCompiles(e, ns.pathToId) && r.value == CompiledFrom(e, ns.pathToId)
    ensures r.Err? ==> ParseTransform(e.transform) == Err(r.error) && IsParseError(r.error)
  {
    var src := ns.Intern(e.sourcePath);
    ghost var afterSource := ns.pathToId;
    var tgt := ns.Intern(e.targetPath);
    GrowsTransitive(old(ns.pathToId), afterSource, ns.pathToId);
    var tf := ParseTransform(e.transform);
    if tf.Err? {
      return Err(tf.error);
    }
    r := Ok(CompiledEdge(src, tgt, tf.value, e.transform.typeName == "delay", 0.0));
  }

  lemma EdgesSnoc(specs: seq<EdgeSpec>, i: nat, before: map<string, SignalId>, after: map<string, SignalId>,
                  edges: seq<CompiledEdge>, e: CompiledEdge)
    requires i < |specs|
    requires EdgesCompiled(specs[..i], before, edges) && Grows(before, after)
    requires EdgeCompiles(specs[i], after) && e == CompiledFrom(specs[i], after)
    ensures EdgesCompiled(specs[..i + 1], after, edges + [e])
  {
    assert forall j :: 0 <= j < i ==> specs[..i + 1][j] == specs[..i][j];
  }

  /** `e` is the error of the first edge whose transform does not parse. */
  ghost predicate FirstTransformError(specs: seq<EdgeSpec>, e: CompileError) {
    exists i :: && 0 <= i < |specs| && ParseTransform(specs[i].transform) == Err(e)
                && forall j :: 0 <= j < i ==> ParseTransform(specs[j].transform).Ok?
  }

  /** Compiles every edge in spec order. */
  method CompileEdges(specs: seq<EdgeSpec>, ns: SignalNamespace) returns (r: Result<seq<CompiledEdge>, CompileError>)
    requires ns.Valid()
    modifies ns
    ensures ns.Valid() && Grows(old(ns.pathToId), ns.pathToId)
    ensures r.Ok? ==> EdgesCompiled(specs, ns.pathToId, r.value)
    ensures r.Err? ==> IsParseError(r.error) && FirstTransformError(specs, r.error)
  {
    var edges: seq<CompiledEdge> := [];
    var i := 0;
    while i < |specs|
      invariant 0 <= i <= |specs|
      invariant ns.Valid() && Grows(old(ns.pathToId), ns.pathToId)
      invariant EdgesCompiled(specs[..i], ns.pathToId, edges)
    {
      ghost var before := ns.pathToId;
      var e := CompileEdge(specs[i], ns);
      if e.Err? {
        assert forall j :: 0 <= j < i ==> specs[..i][j] == specs[j];
        return Err(e.error);
      }
      EdgesSnoc(specs, i, before, ns.pathToId, edges, e.value);
      GrowsTransitive(old(ns.pathToId), before, ns.pathToId);
      edges := edges + [e.value];
      i := i + 1;
    }
    assert specs[..i] == specs;
    r := Ok(edges);
  }

  /** Every edge spec compiles against `ids`. */
  ghost predicate EdgesCompile(specs: seq<EdgeSpec>, ids: map<string, SignalId>) {
    forall j :: 0 <= j < |specs| ==> EdgeCompiles(specs[j], ids)
  }

  /** The edges `compile` builds from the specs against `ids`, in spec order. */
  ghost function EdgesOf(specs: seq<EdgeSpec>, ids: map<string, SignalId>): seq<CompiledEdge>
    requires EdgesCompile(specs, ids)
  {
    seq(|specs|, j requires 0 <= j < |specs| => CompiledFrom(specs[j], ids))
  }

  lemma EdgesCompiledOf(specs: seq<EdgeSpec>, ids: map<string, SignalId>, edges: seq<CompiledEdge>)
    requires EdgesCompiled(specs, ids, edges)
    ensures EdgesCompile(specs, ids) && edges == EdgesOf(specs, ids)
  {
  }

  /** Interning more paths leaves the compiled edges as they were. */
  lemma EdgesOfGrows(specs: seq<EdgeSpec>, a: map<string, SignalId>, b: map<string, SignalId>)
    requires EdgesCompile(specs, a) && Grows(a, b)
    ensures EdgesCompile(specs, b) && EdgesOf(specs, b) == EdgesOf(specs, a)
  {
  }

  /** Every model spec compiles against `ids`. */
  ghost predicate ModelsCompile(specs: seq<ModelSpec>, ids: map<string, SignalId>) {
    forall j :: 0 <= j < |specs| ==> ModelCompiles(specs[j], ids)
  }

  /** The models `compile` builds from the specs against `ids`, in spec order. */
  ghost function ModelsOf(specs: seq<ModelSpec>, ids: map<string, SignalId>): seq<ThermalMass>
    requires ModelsCompile(specs, ids)
  {
    seq(|specs|, j requires 0 <= j < |specs| => ModelOf(specs[j], ids))
  }

  /** One model per spec, in spec order, each as `parse_model` builds it
      against `ids`. */
  ghost predicate ModelsFrom(specs: seq<ModelSpec>, ids: map<string, SignalId>, models: seq<ThermalMass>) {
    && |models| == |specs|
    && forall j :: 0 <= j < |specs| ==> ModelCompiles(specs[j], ids) && models[j] == ModelOf(specs[j], ids)
  }

  lemma ModelsFromOf(specs: seq<ModelSpec>, ids: map<string, SignalId>, models: seq<ThermalMass>)
    requires ModelsFrom(specs, ids, models)
    ensures ModelsCompile(specs, ids) && models == ModelsOf(specs, ids)
  {
  }

  /** Interning more paths leaves the compiled models as they were. */
  lemma ModelsFromGrows(specs: seq<ModelSpec>, a: map<string, SignalId>, b: map<string, SignalId>, models: seq<ThermalMass>)
    requires ModelsFrom(specs, a, models) && Grows(a, b)
    ensures ModelsFrom(specs, b, models)
  {
    forall j | 0 <= j < |specs|
      ensures ModelCompiles(specs[j], b) && models[j] == ModelOf(specs[j], b)
    {
      ModelOfGrows(specs[j], a, b);
    }
  }

  lemma ModelsSnoc(specs: seq<ModelSpec>, i: nat, before: map<string, SignalId>, after: map<string, SignalId>,
                   models: seq<ThermalMass>, m: ThermalMass)
    requires i < |specs| && ModelsFrom(specs[..i], before, models) && Grows(before, after)
    requires ModelCompiles(specs[i], after) && m == ModelOf(specs[i], after)
    ensures ModelsFrom(specs[..i + 1], after, models + [m])
  {
    ModelsFromGrows(specs[..i], before, after, models);
    assert forall j :: 0 <= j < i ==> specs[..i + 1][j] == specs[..i][j];
  }

  /** `e` is the error of the first model spec that does not parse. */
  ghost predicate FirstModelError(specs: seq<ModelSpec>, e: CompileError) {
    exists i :: && 0 <= i < |specs| && ModelError(specs[i]) == Some(e)
                && forall j :: 0 <= j < i ==> ModelError(specs[j]).None?
  }

  /** Parses every model in spec order. */
  method CompileModels(specs: seq<ModelSpec>, ns: SignalNamespace) returns (r: Result<seq<ThermalMass>, CompileError>)
    requires ns.Valid()
    modifies ns
    ensures ns.Valid() && Grows(old(ns.pathToId), ns.pathToId)
    ensures r.Ok? ==> ModelsFrom(specs, ns.pathToId, r.value)
    ensures r.Err? ==> IsParseError(r.error) && FirstModelError(specs, r.error)
  {
    var models: seq<ThermalMass> := [];
    var i := 0;
    while i < |specs|
      invariant 0 <= i <= |specs|
      invariant ns.Valid() && Grows(old(ns.pathToId), ns.pathToId)
      invariant ModelsFrom(specs[..i], ns.pathToId, models)
    {
      ghost var before := ns.pathToId;
      var m := ParseModel(specs[i], ns);
      if m.Err? {
        assert forall j :: 0 <= j < i ==> specs[..i][j] == specs[j];
        return Err(m.error);
      }
      GrowsTransitive(old(ns.pathToId), before, ns.pathToId);
      ModelsSnoc(specs, i, before, ns.pathToId, models, m.value);
      models := models + [m.value];
      i := i + 1;
    }
    assert specs[..i] == specs;
    r := Ok(models);
  }

  /** The rule `compile` builds from `spec`: its condition parsed by
      `syntax` with the signal resolved in `ids`, and per action the device
      and function ids from `devices` and `functions` and the arguments. */
  ghost predicate RuleCompiled(spec: RuleSpec, ids: map<string, SignalId>, devices: map<string, nat>,
                               functions: map<string, nat>, syntax: ConditionSyntax, rule: CompiledRule) {
    && spec.condition in syntax && syntax[spec.condition].path in ids
    && rule.id == spec.id && rule.onError == spec.onError
    && rule.condition == CompiledCondition(ids[syntax[spec.condition].path], syntax[spec.condition].op,
                                           syntax[spec.condition].rhs)
    && ActionsIn(spec.actions, devices, functions, rule.deviceFunctions, rule.argsList)
  }

  /** One compiled rule per spec, in spec order. */
  ghost predicate RulesFrom(specs: seq<RuleSpec>, ids: map<string, SignalId>, devices: map<string, nat>,
                            functions: map<string, nat>, syntax: ConditionSyntax, rules: seq<CompiledRule>) {
    && |rules| == |specs|
    && forall j :: 0 <= j < |specs| ==> RuleCompiled(specs[j], ids, devices, functions, syntax, rules[j])
  }

  /** Interning more names leaves a compiled rule as it was. */
  lemma RuleCompiledGrows(spec: RuleSpec, syntax: ConditionSyntax, rule: CompiledRule,
                          ids: map<string, SignalId>, devices: map<string, nat>, functions: map<string, nat>,
                          ids': map<string, SignalId>, devices': map<string, nat>, functions': map<string, nat>)
    requires RuleCompiled(spec, ids, devices, functions, syntax, rule)
    requires Grows(ids, ids') && Grows(devices, devices') && Grows(functions, functions')
    ensures RuleCompiled(spec, ids', devices', functions', syntax, rule)
  {
  }

  lemma RulesSnoc(specs: seq<RuleSpec>, i: nat, syntax: ConditionSyntax, rules: seq<CompiledRule>, rule: CompiledRule,
                  ids: map<string, SignalId>, devices: map<string, nat>, functions: map<string, nat>,
                  ids': map<string, SignalId>, devices': map<string, nat>, functions': map<string, nat>)
    requires i < |specs| && RulesFrom(specs[..i], ids, devices, functions, syntax, rules)
    requires Grows(ids, ids') && Grows(devices, devices') && Grows(functions, functions')
    requires RuleCompiled(specs[i], ids', devices', functions', syntax, rule)
    ensures RulesFrom(specs[..i + 1], ids', devices', functions', syntax, rules + [rule])
  {
    forall j | 0 <= j < i
      ensures RuleCompiled(specs[..i + 1][j], ids', devices', functions', syntax, (rules + [rule])[j])
    {
      assert specs[..i + 1][j] == specs[..i][j];
      RuleCompiledGrows(specs[..i][j], syntax, rules[j], ids, devices, functions, ids', devices', functions');
    }
  }

  /** Every rule's condition has the supported form. */
  ghost predicate Supported(specs: seq<RuleSpec>, syntax: ConditionSyntax) {
    forall j :: 0 <= j < |specs| ==> specs[j].condition in syntax
  }

  /** `e` names the first rule whose condition is not of the supported form. */
  ghost predicate FirstUnsupported(specs: seq<RuleSpec>, syntax: ConditionSyntax, e: CompileError) {
    exists i :: && 0 <= i < |specs| && specs[i].condition !in syntax
                && (forall j :: 0 <= j < i ==> specs[j].condition in syntax)
                && e == UnsupportedCondition(specs[i].id)
  }

  /** Compiles every rule in spec order. */
  method CompileRules(specs: seq<RuleSpec>, signalNs: SignalNamespace, funcNs: FunctionNamespace,
                      syntax: ConditionSyntax) returns (r: Result<seq<CompiledRule>, CompileError>)
    requires signalNs.Valid() && funcNs.Valid()
    modifies signalNs, funcNs
    ensures signalNs.Valid() && funcNs.Valid() && Grows(old(signalNs.pathToId), signalNs.pathToId)
    ensures Grows(old(funcNs.deviceMap), funcNs.deviceMap) && Grows(old(funcNs.functionMap), funcNs.functionMap)
    ensures r.Ok? ==> RulesFrom(specs, signalNs.pathToId, funcNs.deviceMap, funcNs.functionMap, syntax, r.value)
    ensures r.Err? <==> !Supported(specs, syntax)
    ensures r.Err? ==> FirstUnsupported(specs, syntax, r.error)
  {
    var rules: seq<CompiledRule> := [];
    var i := 0;
    while i < |specs|
      invariant 0 <= i <= |specs|
      invariant signalNs.Valid() && funcNs.Valid() && Grows(old(signalNs.pathToId), signalNs.pathToId)
      invariant Grows(old(funcNs.deviceMap), funcNs.deviceMap) && Grows(old(funcNs.functionMap), funcNs.functionMap)
      invariant RulesFrom(specs[..i], signalNs.pathToId, funcNs.deviceMap, funcNs.functionMap, syntax, rules)
      invariant forall j :: 0 <= j < i ==> specs[j].condition in syntax
    {
      ghost var ids, devices, functions := signalNs.pathToId, funcNs.deviceMap, funcNs.functionMap;
      var rule := CompileRule(specs[i], signalNs, funcNs, syntax);
      if rule.Err? {
        return Err(rule.error);
      }
      GrowsTransitive(old(signalNs.pathToId), ids, signalNs.pathToId);
      GrowsTransitive(old(funcNs.deviceMap), devices, funcNs.deviceMap);
      GrowsTransitive(old(funcNs.functionMap), functions, funcNs.functionMap);
      RulesSnoc(specs, i, syntax, rules, rule.value, ids, devices, functions,
                signalNs.pathToId, funcNs.deviceMap, funcNs.functionMap);
      rules := rules + [rule.value];
      i := i + 1;
    }
    r := Ok(rules);
  }

  function ArgsOf(actions: seq<ActionSpec>): (args: seq<Params>)
    ensures |args| == |actions| && forall i :: 0 <= i < |actions| ==> args[i] == actions[i].args
  {
    seq(|actions|, i requires 0 <= i < |actions| => actions[i].args)
  }

  /** A compiled rule's argument list is its actions' arguments, one per
      action, as is its device/function list. */
  lemma ArgsOfCompiled(spec: RuleSpec, ids: map<string, SignalId>, devices: map<string, nat>,
                       functions: map<string, nat>, syntax: ConditionSyntax, rule: CompiledRule)
    requires RuleCompiled(spec, ids, devices, functions, syntax, rule)
    ensures rule.argsList == ArgsOf(spec.actions) && |rule.deviceFunctions| == |rule.argsList|
  {
  }

  /** A ranking of a graph ranks every reordering of it. */
  lemma RankingReorder(es: seq<Edge>, order: seq<nat>, rank: map<SignalId, nat>)
    requires IsRanking(es, rank)
    requires forall k :: 0 <= k < |order| ==> order[k] < |es|
    ensures IsRanking(Reorder(es, order), rank)
  {
    var rs := Reorder(es, order);
    forall i | 0 <= i < |rs| && !rs[i].isDelay
      ensures rs[i].source in rank && rs[i].target in rank && rank[rs[i].target] < rank[rs[i].source]
    {
      assert rs[i] == es[order[i]];
    }
  }

  lemma ShapeReorder(edges: seq<CompiledEdge>, order: seq<nat>)
    requires forall k :: 0 <= k < |order| ==> order[k] < |edges|
    ensures Shape(Reorder(edges, order)) == Reorder(Shape(edges), order)
  {
  }

  /** The compiled edges are the spec's edges, each compiled against `ids`,
      in some order. */
  ghost predicate OrderedFrom(specs: seq<EdgeSpec>, ids: map<string, SignalId>, edges: seq<CompiledEdge>) {
    exists unsorted, order ::
      && EdgesCompiled(specs, ids, unsorted)
      && IsPermutation(order, |specs|) && edges == Reorder(unsorted, order)
  }

  /** What the compiler guarantees the engine about the edge list: one writer
      per signal (edge targets and model temperatures), no cycle through
      non-delay edges, delay edges first, and every non-delay writer of a
      signal before its non-delay readers. */
  ghost predicate Scheduled(edges: seq<CompiledEdge>, models: seq<ThermalMass>) {
    && UniqueWriters(Writers(edges, models))
    && !HasCycle(Shape(edges))
    && DelayFirst(Shape(edges)) && ImmediateWritersFirst(Shape(edges))
  }

  /** Edges, single-writer ownership, cycle detection and the topological
      order. A cycle is reported only when the compiled edges have one, and
      the sort never fails once no cycle was found. */
  method CompileOrderedEdges(specs: seq<EdgeSpec>, models: seq<ThermalMass>, ns: SignalNamespace)
      returns (r: Result<seq<CompiledEdge>, CompileError>)
    requires ns.Valid()
    modifies ns
    ensures ns.Valid() && Grows(old(ns.pathToId), ns.pathToId)
    ensures r.Ok? ==> OrderedFrom(specs, ns.pathToId, r.value) && Scheduled(r.value, models)
    ensures r.Ok? ==>
      && EdgesCompile(specs, ns.pathToId)
      && UniqueWriters(Writers(EdgesOf(specs, ns.pathToId), models)) && !HasCycle(Shape(EdgesOf(specs, ns.pathToId)))
    ensures r.Err? ==> IsParseError(r.error) || r.error.MultipleWriters? || r.error.CycleDetected?
    ensures r.Err? && IsParseError(r.error) ==> FirstTransformError(specs, r.error)
    ensures r.Err? && r.error.MultipleWriters? ==>
      EdgesCompile(specs, ns.pathToId) && FirstDuplicate(Writers(EdgesOf(specs, ns.pathToId), models), r.error)
    ensures r.Err? && r.error.CycleDetected? ==>
      && EdgesCompile(specs, ns.pathToId) && UniqueWriters(Writers(EdgesOf(specs, ns.pathToId), models))
      && IsCycle(Shape(EdgesOf(specs, ns.pathToId)), r.error.cycle)
  {
    var compiled := CompileEdges(specs, ns);
    if compiled.Err? {
      return Err(compiled.error);
    }
    var unsorted := compiled.value;
    EdgesCompiledOf(specs, ns.pathToId, unsorted);
    var owners := RegisterWriters(Writers(unsorted, models));
    if owners.Fail? {
      return Err(owners.error);
    }
    var cycles, rank := DetectCycles(Shape(unsorted));
    if cycles.Fail? {
      return Err(cycles.error);
    }
    var sorted := TopologicalSort(Shape(unsorted));
    if sorted.Err? {
      assert false;
    }
    var order := sorted.value;
    var edges := Reorder(unsorted, order);
    ShapeReorder(unsorted, order);
    RankingReorder(Shape(unsorted), order, rank);
    RankingExcludesCycle(Shape(edges), rank);
    RankingExcludesCycle(Shape(unsorted), rank);
    WritersReorder(unsorted, models, order);
    r := Ok(edges);
  }

  /** What `compile` accepts, judged against the signal ids it ends with:
      the models and edges compile, and every rule condition has the
      supported form. */
  ghost predicate Accepts(spec: GraphSpec, ids: map<string, SignalId>, dt: real, syntax: ConditionSyntax) {
    GraphAccepts(spec, ids, dt) && Supported(spec.rules, syntax)
  }

  /** The models and edges of `spec` compile against `ids`: every model
      parses and binds, each model is stable for a positive step, every
      transform parses and both endpoints bind, each signal has at most one
      writer and the non-delay edges have no cycle. */
  ghost predicate GraphAccepts(spec: GraphSpec, ids: map<string, SignalId>, dt: real) {
    && ModelsAccepted(spec.models, ids, dt)
    && EdgesCompile(spec.edges, ids)
    && UniqueWriters(Writers(EdgesOf(spec.edges, ids), ModelsOf(spec.models, ids)))
    && !HasCycle(Shape(EdgesOf(spec.edges, ids)))
  }

  /** `e` is an error `compile` may raise for `spec`: the error of the first
      stage that fails, with its cause, every earlier stage having passed.
      The stages, in order: the models (the first that does not parse), for
      a positive step their stability (the first unstable model), the
      transforms (the first that does not parse), single writers (the first
      duplicate), the non-delay cycle check (a real cycle), and the rules
      (the first of an unsupported form). The sort itself never fails. */
  ghost predicate Rejects(spec: GraphSpec, ids: map<string, SignalId>, dt: real, syntax: ConditionSyntax, e: CompileError) {
    && (IsParseError(e) ==>
          || FirstModelError(spec.models, e)
          || (ModelsAccepted(spec.models, ids, dt) && FirstTransformError(spec.edges, e)))
    && (e.StabilityViolation? ==>
          dt > 0.0 && ModelsCompile(spec.models, ids) && FirstUnstable(ModelsOf(spec.models, ids), dt, e))
    && (e.MultipleWriters? ==>
          && ModelsAccepted(spec.models, ids, dt) && EdgesCompile(spec.edges, ids)
          && FirstDuplicate(Writers(EdgesOf(spec.edges, ids), ModelsOf(spec.models, ids)), e))
    && (e.CycleDetected? ==>
          && ModelsAccepted(spec.models, ids, dt) && EdgesCompile(spec.edges, ids)
          && UniqueWriters(Writers(EdgesOf(spec.edges, ids), ModelsOf(spec.models, ids)))
          && IsCycle(Shape(EdgesOf(spec.edges, ids)), e.cycle))
    && (e.UnsupportedCondition? ==> GraphAccepts(spec, ids, dt) && FirstUnsupported(spec.rules, syntax, e))
    && !e.TopologicalSortFailed?
  }

  /** Whatever the compiler may reject, it does not accept: every reported
      error has a cause that the acceptance conditions exclude. */
  lemma RejectsExcludesAccepts(spec: GraphSpec, ids: map<string, SignalId>, dt: real, syntax: ConditionSyntax,
                               e: CompileError)
    requires Rejects(spec, ids, dt, syntax, e)
    ensures !Accepts(spec, ids, dt, syntax)
  {
  }

  /** A model that does not parse is always the reported cause: no later
      stage's error is possible for such a spec. */
  lemma ModelErrorComesFirst(spec: GraphSpec, ids: map<string, SignalId>, dt: real, syntax: ConditionSyntax,
                             e: CompileError, i: nat)
    requires Rejects(spec, ids, dt, syntax, e)
    requires i < |spec.models| && ModelError(spec.models[i]).Some?
    ensures IsParseError(e) && FirstModelError(spec.models, e)
  {
    assert !ModelCompiles(spec.models[i], ids);
  }

  /** The error `compile` reports is determined by the spec: any two errors
      it may report are the same, except that of several cycles any may be
      named. */
  lemma RejectsDetermined(spec: GraphSpec, ids: map<string, SignalId>, dt: real, syntax: ConditionSyntax,
                          e1: CompileError, e2: CompileError)
    requires Rejects(spec, ids, dt, syntax, e1) && Rejects(spec, ids, dt, syntax, e2)
    ensures e1.CycleDetected? <==> e2.CycleDetected?
    ensures !e1.CycleDetected? ==> e1 == e2
  {
    RejectsStage(spec, ids, dt, syntax, e1, e2);
    RejectsStage(spec, ids, dt, syntax, e2, e1);
    if IsParseError(e1) && IsParseError(e2) {
      if FirstModelError(spec.models, e1) && FirstModelError(spec.models, e2) {
        FirstModelErrorUnique(spec.models, e1, e2);
      } else if FirstModelError(spec.models, e1) {
        FirstModelExcludesAccepted(spec.models, ids, dt, e1);
      } else if FirstModelError(spec.models, e2) {
        FirstModelExcludesAccepted(spec.models, ids, dt, e2);
      } else {
        FirstTransformErrorUnique(spec.edges, e1, e2);
      }
    } else if e1.StabilityViolation? {
      FirstUnstableUnique(ModelsOf(spec.models, ids), dt, e1, e2);
    } else if e1.MultipleWriters? {
      FirstDuplicateUnique(Writers(EdgesOf(spec.edges, ids), ModelsOf(spec.models, ids)), e1, e2);
    } else if e1.UnsupportedCondition? {
      FirstUnsupportedUnique(spec.rules, syntax, e1, e2);
    }
  }

  /** Errors of different stages are never both possible: `e2` is of the
      same kind as `e1`, counting all parse errors as one kind. */
  lemma RejectsStage(spec: GraphSpec, ids: map<string, SignalId>, dt: real, syntax: ConditionSyntax,
                     e1: CompileError, e2: CompileError)
    requires Rejects(spec, ids, dt, syntax, e1) && Rejects(spec, ids, dt, syntax, e2)
    ensures IsParseError(e1) ==> IsParseError(e2)
    ensures e1.StabilityViolation? ==> e2.StabilityViolation?
    ensures e1.MultipleWriters? ==> e2.MultipleWriters?
    ensures e1.CycleDetected? ==> e2.CycleDetected?
    ensures e1.UnsupportedCondition? ==> e2.UnsupportedCondition?
  {
    if IsParseError(e1) {
      if FirstModelError(spec.models, e1) {
        FirstModelExcludesAccepted(spec.models, ids, dt, e1);
      } else {
        FirstTransformExcludesCompile(spec.edges, ids, e1);
      }
    } else if e1.StabilityViolation? {
      FirstUnstableExcludesAccepted(spec.models, ids, dt, e1);
    } else if e1.MultipleWriters? {
      FirstDuplicateExcludesUnique(Writers(EdgesOf(spec.edges, ids), ModelsOf(spec.models, ids)), e1);
    } else if e1.CycleDetected? {
      assert HasCycle(Shape(EdgesOf(spec.edges, ids)));
    }
  }

  lemma FirstModelExcludesAccepted(specs: seq<ModelSpec>, ids: map<string, SignalId>, dt: real, e: CompileError)
    requires FirstModelError(specs, e)
    ensures !ModelsCompile(specs, ids) && !ModelsAccepted(specs, ids, dt)
  {
    var i :| 0 <= i < |specs| && ModelError(specs[i]) == Some(e);
    assert !ModelCompiles(specs[i], ids);
  }

  lemma FirstTransformExcludesCompile(specs: seq<EdgeSpec>, ids: map<string, SignalId>, e: CompileError)
    requires FirstTransformError(specs, e)
    ensures !EdgesCompile(specs, ids)
  {
    var i :| 0 <= i < |specs| && ParseTransform(specs[i].transform) == Err(e);
    assert !EdgeCompiles(specs[i], ids);
  }

  lemma FirstUnstableExcludesAccepted(specs: seq<ModelSpec>, ids: map<string, SignalId>, dt: real, e: CompileError)
    requires dt > 0.0 && ModelsCompile(specs, ids) && FirstUnstable(ModelsOf(specs, ids), dt, e)
    ensures !ModelsAccepted(specs, ids, dt)
  {
    var i :| 0 <= i < |ModelsOf(specs, ids)| && Unstable(ModelsOf(specs, ids)[i], dt);
  }

  lemma FirstDuplicateExcludesUnique(writers: seq<(SignalId, string)>, e: CompileError)
    requires FirstDuplicate(writers, e)
    ensures !UniqueWriters(writers)
  {
    var i, j :| 0 <= i < j < |writers| && writers[i].0 == writers[j].0;
  }

  lemma FirstModelErrorUnique(specs: seq<ModelSpec>, e1: CompileError, e2: CompileError)
    requires FirstModelError(specs, e1) && FirstModelError(specs, e2)
    ensures e1 == e2
  {
    var i1 :| 0 <= i1 < |specs| && ModelError(specs[i1]) == Some(e1) && forall j :: 0 <= j < i1 ==> ModelError(specs[j]).None?;
    var i2 :| 0 <= i2 < |specs| && ModelError(specs[i2]) == Some(e2) && forall j :: 0 <= j < i2 ==> ModelError(specs[j]).None?;
    assert !(i1 < i2) && !(i2 < i1);
  }

  lemma FirstTransformErrorUnique(specs: seq<EdgeSpec>, e1: CompileError, e2: CompileError)
    requires FirstTransformError(specs, e1) && FirstTransformError(specs, e2)
    ensures e1 == e2
  {
    var i1 :| 0 <= i1 < |specs| && ParseTransform(specs[i1].transform) == Err(e1)
              && forall j :: 0 <= j < i1 ==> ParseTransform(specs[j].transform).Ok?;
    var i2 :| 0 <= i2 < |specs| && ParseTransform(specs[i2].transform) == Err(e2)
              && forall j :: 0 <= j < i2 ==> ParseTransform(specs[j].transform).Ok?;
    FirstIndexUnique(seq(|specs|, j requires 0 <= j < |specs| => ParseTransform(specs[j].transform).Ok?), i1, i2);
  }

  /** At most one index is the first at which a flag is false. */
  lemma FirstIndexUnique(ok: seq<bool>, i1: nat, i2: nat)
    requires i1 < |ok| && i2 < |ok| && !ok[i1] && !ok[i2]
    requires forall j :: 0 <= j < i1 ==> ok[j]
    requires forall j :: 0 <= j < i2 ==> ok[j]
    ensures i1 == i2
  {
  }

  lemma FirstUnstableUnique(models: seq<ThermalMass>, dt: real, e1: CompileError, e2: CompileError)
    requires FirstUnstable(models, dt, e1) && FirstUnstable(models, dt, e2)
    ensures e1 == e2
  {
    var i1 :| 0 <= i1 < |models| && Unstable(models[i1], dt) && (forall j :: 0 <= j < i1 ==> !Unstable(models[j], dt))
              && e1 == StabilityViolation(models[i1].id, StabilityLimit(models[i1]).value, dt);
    var i2 :| 0 <= i2 < |models| && Unstable(models[i2], dt) && (forall j :: 0 <= j < i2 ==> !Unstable(models[j], dt))
              && e2 == StabilityViolation(models[i2].id, StabilityLimit(models[i2]).value, dt);
    assert !(i1 < i2) && !(i2 < i1);
  }

  lemma FirstDuplicateUnique(writers: seq<(SignalId, string)>, e1: CompileError, e2: CompileError)
    requires FirstDuplicate(writers, e1) && FirstDuplicate(writers, e2)
    ensures e1 == e2
  {
    var i1, j1 :| 0 <= i1 < j1 < |writers| && writers[i1].0 == writers[j1].0 && UniqueWriters(writers[..j1])
                  && e1 == MultipleWriters(writers[j1].0, writers[i1].1, writers[j1].1);
    var i2, j2 :| 0 <= i2 < j2 < |writers| && writers[i2].0 == writers[j2].0 && UniqueWriters(writers[..j2])
                  && e2 == MultipleWriters(writers[j2].0, writers[i2].1, writers[j2].1);
    if j1 < j2 {
      UniquePrefix(writers, j2, i1, j1);
    } else if j2 < j1 {
      UniquePrefix(writers, j1, i2, j2);
    } else if i1 != i2 {
      UniquePrefix(writers, j1, if i1 < i2 then i1 else i2, if i1 < i2 then i2 else i1);
    }
  }

  /** Writers of a prefix with unique signals have distinct signals. */
  lemma UniquePrefix(writers: seq<(SignalId, string)>, n: nat, a: nat, b: nat)
    requires n <= |writers| && UniqueWriters(writers[..n]) && a < b < n
    ensures writers[a].0 != writers[b].0
  {
    assert writers[..n][a] == writers[a] && writers[..n][b] == writers[b];
  }

  lemma FirstUnsupportedUnique(specs: seq<RuleSpec>, syntax: ConditionSyntax, e1: CompileError, e2: CompileError)
    requires FirstUnsupported(specs, syntax, e1) && FirstUnsupported(specs, syntax, e2)
    ensures e1 == e2
  {
    var i1 :| 0 <= i1 < |specs| && specs[i1].condition !in syntax && (forall j :: 0 <= j < i1 ==> specs[j].condition in syntax)
              && e1 == UnsupportedCondition(specs[i1].id);
    var i2 :| 0 <= i2 < |specs| && specs[i2].condition !in syntax && (forall j :: 0 <= j < i2 ==> specs[j].condition in syntax)
              && e2 == UnsupportedCondition(specs[i2].id);
    assert !(i1 < i2) && !(i2 < i1);
  }

  /** Every model parses and binds against `ids`, and none is unstable for
      a positive step. */
  ghost predicate ModelsAccepted(specs: seq<ModelSpec>, ids: map<string, SignalId>, dt: real) {
    && ModelsCompile(specs, ids)
    && (dt > 0.0 ==> forall i :: 0 <= i < |specs| ==> !Unstable(ModelsOf(specs, ids)[i], dt))
  }

  /** Binding more signals keeps accepted models accepted, and the same. */
  lemma ModelsAcceptedGrows(specs: seq<ModelSpec>, a: map<string, SignalId>, b: map<string, SignalId>, dt: real,
                            models: seq<ThermalMass>)
    requires ModelsFrom(specs, a, models) && ModelsAccepted(specs, a, dt) && Grows(a, b)
    ensures ModelsFrom(specs, b, models) && ModelsAccepted(specs, b, dt) && models == ModelsOf(specs, b)
  {
    ModelsFromGrows(specs, a, b, models);
    ModelsFromOf(specs, a, models);
    ModelsFromOf(specs, b, models);
  }

  /** `e` is the error of the model stage: the first model that does not
      parse, or for a positive step the first unstable model. */
  ghost predicate ModelsRejected(specs: seq<ModelSpec>, ids: map<string, SignalId>, dt: real, e: CompileError) {
    || (IsParseError(e) && FirstModelError(specs, e))
    || (dt > 0.0 && e.StabilityViolation? && ModelsCompile(specs, ids) && FirstUnstable(ModelsOf(specs, ids), dt, e))
  }

  /** The models, then for a positive expected step their stability. */
  method CompileStableModels(specs: seq<ModelSpec>, ns: SignalNamespace, expectedDt: real)
      returns (r: Result<seq<ThermalMass>, CompileError>)
    requires ns.Valid()
    modifies ns
    ensures ns.Valid() && Grows(old(ns.pathToId), ns.pathToId)
    ensures r.Ok? ==> ModelsFrom(specs, ns.pathToId, r.value)
    ensures r.Ok? <==> ModelsAccepted(specs, ns.pathToId, expectedDt)
    ensures r.Err? ==> ModelsRejected(specs, ns.pathToId, expectedDt, r.error)
  {
    var models := CompileModels(specs, ns);
    if models.Err? {
      return Err(models.error);
    }
    ModelsFromOf(specs, ns.pathToId, models.value);
    if expectedDt > 0.0 {
      var stable := ValidateStability(models.value, expectedDt);
      if stable.Fail? {
        return Err(stable.error);
      }
    }
    r := Ok(models.value);
  }

  /** GraphCompiler::compile: models (then, for a positive expected step,
      their stability), the ordered edges and the rules, failing at the first
      error. It succeeds exactly on the specs it accepts; every error it
      reports has its cause in the spec. */
  method Compile(spec: GraphSpec, signalNs: SignalNamespace, funcNs: FunctionNamespace, expectedDt: real,
                 syntax: ConditionSyntax) returns (r: Result<Program, CompileError>)
    requires signalNs.Valid() && funcNs.Valid()
    modifies signalNs, funcNs
    ensures signalNs.Valid() && funcNs.Valid() && Grows(old(signalNs.pathToId), signalNs.pathToId)
    ensures Grows(old(funcNs.deviceMap), funcNs.deviceMap) && Grows(old(funcNs.functionMap), funcNs.functionMap)
    ensures r.Ok? ==> ModelsFrom(spec.models, signalNs.pathToId, r.value.models)
    ensures r.Ok? ==> RulesFrom(spec.rules, signalNs.pathToId, funcNs.deviceMap, funcNs.functionMap, syntax, r.value.rules)
    ensures r.Ok? ==> OrderedFrom(spec.edges, signalNs.pathToId, r.value.edges) && Scheduled(r.value.edges, r.value.models)
    ensures r.Ok? <==> Accepts(spec, signalNs.pathToId, expectedDt, syntax)
    ensures r.Err? ==> Rejects(spec, signalNs.pathToId, expectedDt, syntax, r.error)
  {
    var graph := CompileGraph(spec, signalNs, expectedDt, syntax);
    if graph.Err? {
      return Err(graph.error);
    }
    var (models, edges) := graph.value;
    ghost var ids := signalNs.pathToId;
    var rules := CompileRules(spec.rules, signalNs, funcNs, syntax);
    GrowsTransitive(old(signalNs.pathToId), ids, signalNs.pathToId);
    ModelsFromGrows(spec.models, ids, signalNs.pathToId, models);
    ModelsFromOf(spec.models, ids, models);
    ModelsFromOf(spec.models, signalNs.pathToId, models);
    EdgesOfGrows(spec.edges, ids, signalNs.pathToId);
    if rules.Err? {
      RejectsExcludesAccepts(spec, signalNs.pathToId, expectedDt, syntax, rules.error);
      return Err(rules.error);
    }
    OrderedFromGrows(spec.edges, ids, signalNs.pathToId, edges);
    r := Ok(Program(edges, models, rules.value));
  }

  /** The first three stages of `compile`: the models, the stability check
      for a positive step, and the edges in their execution order. */
  method CompileGraph(spec: GraphSpec, signalNs: SignalNamespace, expectedDt: real, ghost syntax: ConditionSyntax)
      returns (r: Result<(seq<ThermalMass>, seq<CompiledEdge>), CompileError>)
    requires signalNs.Valid()
    modifies signalNs
    ensures signalNs.Valid() && Grows(old(signalNs.pathToId), signalNs.pathToId)
    ensures r.Ok? ==> ModelsFrom(spec.models, signalNs.pathToId, r.value.0)
    ensures r.Ok? ==> OrderedFrom(spec.edges, signalNs.pathToId, r.value.1) && Scheduled(r.value.1, r.value.0)
    ensures r.Ok? <==> GraphAccepts(spec, signalNs.pathToId, expectedDt)
    ensures r.Err? ==> Rejects(spec, signalNs.pathToId, expectedDt, syntax, r.error)
  {
    var models := CompileStableModels(spec.models, signalNs, expectedDt);
    if models.Err? {
      return Err(models.error);
    }
    ghost var afterModels := signalNs.pathToId;
    var edges := CompileOrderedEdges(spec.edges, models.value, signalNs);
    GrowsTransitive(old(signalNs.pathToId), afterModels, signalNs.pathToId);
    ModelsAcceptedGrows(spec.models, afterModels, signalNs.pathToId, expectedDt, models.value);
    if edges.Err? {
      RejectsExcludesAccepts(spec, signalNs.pathToId, expectedDt, syntax, edges.error);
      return Err(edges.error);
    }
    r := Ok((models.value, edges.value));
  }

  /** Reordering the edges keeps the writers unique. */
  lemma WritersReorder(edges: seq<CompiledEdge>, models: seq<ThermalMass>, order: seq<nat>)
    requires IsPermutation(order, |edges|)
    requires UniqueWriters(Writers(edges, models))
    ensures UniqueWriters(Writers(Reorder(edges, order), models))
  {
    var w := Writers(edges, models);
    var es := Reorder(edges, order);
    var w' := Writers(es, models);
    var n := |edges|;
    forall i, j | 0 <= i < j < |w'| ensures w'[i].0 != w'[j].0 {
      var a := if i < n then order[i] else i;
      var b := if j < n then order[j] else j;
      WriterMoves(edges, models, order, i);
      WriterMoves(edges, models, order, j);
      assert a != b;
      if a < b {
        assert w[a].0 != w[b].0;
      } else {
        assert w[b].0 != w[a].0;
      }
    }
  }

  lemma WriterMoves(edges: seq<CompiledEdge>, models: seq<ThermalMass>, order: seq<nat>, i: nat)
    requires IsPermutation(order, |edges|)
    requires i < |edges| + |models|
    ensures var a := if i < |edges| then order[i] else i;
      Writers(Reorder(edges, order), models)[i].0 == Writers(edges, models)[a].0
  {
    var n := |edges|;
    if i < n {
      assert Reorder(edges, order)[i] == edges[order[i]];
    } else {
      assert Writers(Reorder(edges, order), models)[n + (i - n)].0 == models[i - n].tempSignal;
      assert Writers(edges, models)[n + (i - n)].0 == models[i - n].tempSignal;
    }
  }

  /** Interning more paths leaves compiled edges as they were. */
  lemma OrderedFromGrows(specs: seq<EdgeSpec>, a: map<string, SignalId>, b: map<string, SignalId>, edges: seq<CompiledEdge>)
    requires OrderedFrom(specs, a, edges) && Grows(a, b)
    ensures OrderedFrom(specs, b, edges)
  {
    var unsorted, order :| EdgesCompiled(specs, a, unsorted) && IsPermutation(order, |specs|) && edges == Reorder(unsorted, order);
    assert EdgesCompiled(specs, b, unsorted);
  }
}
