/** The tick pipeline and command queue of the simulation engine
    (src/engine.cpp): snapshot every edge source, run the edges in compiled
    order, step the physics models, then evaluate the rules into the queue. */
module Engines {
  import opened Types
  import opened SignalStores
  import opened Transforms
  import opened Compiler

  /** A device command routed to a provider. */
  datatype Command = Command(device: DeviceId, functionId: FunctionId, args: Params)

  /** Why a tick stops: no program was loaded, or a store write was refused. */
  datatype EngineError = NoProgramLoaded | StoreFailure(error: StoreError)

  /** The three tables of a signal store, as values. */
  datatype Tables = Tables(signals: map<SignalId, Signal>, declared: map<SignalId, string>, driven: set<SignalId>)

  function TablesOf(store: SignalStore): Tables
    reads store
  {
    Tables(store.signals, store.declaredUnits, store.physicsDriven)
  }

  /** The value `read_value` returns from a store holding `signals`. */
  function ValueIn(signals: map<SignalId, Signal>, id: SignalId): real {
    if id != INVALID_SIGNAL && id in signals then signals[id].value else 0.0
  }

  /** The tables after `write(id, value, unit)`, or the mismatch it raises. */
  function Written(t: Tables, id: SignalId, value: real, unit: string): (r: Result<Tables, StoreError>)
    ensures r.Ok? ==> r.value.driven == t.driven
    ensures r.Err? <==> id != INVALID_SIGNAL && id in t.declared && t.declared[id] != NormalizeUnit(unit)
    ensures r.Ok? && id != INVALID_SIGNAL ==> id in r.value.signals && r.value.signals[id] == Signal(value, NormalizeUnit(unit))
    ensures r.Ok? ==> forall other :: other != id ==>
      && (other in r.value.signals <==> other in t.signals)
      && (other in t.signals ==> r.value.signals[other] == t.signals[other])
  {
    if id == INVALID_SIGNAL then Ok(t)
    else
      var u := NormalizeUnit(unit);
      if id in t.declared && t.declared[id] != u then Err(UnitMismatch(id, t.declared[id], u))
      else Ok(t.(signals := t.signals[id := Signal(value, u)], declared := DeclareOnWrite(t.declared, id, unit)))
  }

  /** A store's `write` changes its tables exactly as `Written` says. */
  method WriteStore(store: SignalStore, id: SignalId, value: real, unit: string) returns (outcome: Outcome<StoreError>)
    requires store.Valid()
    modifies store
    ensures store.Valid()
    ensures var r := Written(old(TablesOf(store)), id, value, unit);
      && (r.Ok? ==> outcome.Pass? && TablesOf(store) == r.value)
      && (r.Err? ==> outcome == Fail(r.error) && TablesOf(store) == old(TablesOf(store)))
  {
    outcome := store.Write(id, value, unit);
  }

  // ---------------------------------------------------------------------------
  // One tick, stage by stage, as functions of the engine's and the store's state

  /** Stage 1 (snapshot_inputs): every edge caches its source's current value. */
  function Snapshots(edges: seq<CompiledEdge>, signals: map<SignalId, Signal>): (r: seq<CompiledEdge>)
    ensures |r| == |edges|
  {
    seq(|edges|, i requires 0 <= i < |edges| => edges[i].(snapshot := ValueIn(signals, edges[i].source)))
  }

  /** An edge after applying its transform to its snapshot, with the output. */
  function EdgeStep(e: CompiledEdge, dt: real, num: Numerics): (r: (CompiledEdge, real))
    ensures r.0.(transform := e.transform) == e
  {
    var (tr, y) := ApplyTransform(e.transform, e.snapshot, dt, num);
    (e.(transform := tr), y)
  }

  /** What a run of one stage has produced so far: the updated items, the
      store tables and whether a write was refused. */
  datatype Run<T> = Run(items: seq<T>, tables: Tables, outcome: Outcome<StoreError>)

  /** Stage 2 (process_edges) over the first `k` edges: each applies its
      transform to its snapshot and writes the output, dimensionless, to its
      target; a refused write ends the stage after its transform has stepped. */
  function EdgesRun(edges: seq<CompiledEdge>, k: nat, t: Tables, dt: real, num: Numerics): (r: Run<CompiledEdge>)
    requires k <= |edges|
    ensures |r.items| == |edges|
    ensures r.tables.declared == t.declared && r.tables.driven == t.driven
    decreases k
  {
    if k == 0 then Run(edges, t, Pass)
    else
      var prev := EdgesRun(edges, k - 1, t, dt, num);
      if prev.outcome.Fail? then prev
      else
        var (e, y) := EdgeStep(prev.items[k - 1], dt, num);
        var items := prev.items[k - 1 := e];
        match Written(prev.tables, e.target, y, DIMENSIONLESS)
        case Err(err) => Run(items, prev.tables, Fail(err))
        case Ok(t') => Run(items, t', Pass)
  }

  /** One more edge of stage 2 after a run that has not failed. */
  lemma EdgesRunNext(edges: seq<CompiledEdge>, k: nat, t: Tables, dt: real, num: Numerics)
    requires k < |edges| && EdgesRun(edges, k, t, dt, num).outcome.Pass?
    ensures var prev := EdgesRun(edges, k, t, dt, num);
      var (e, y) := EdgeStep(prev.items[k], dt, num);
      EdgesRun(edges, k + 1, t, dt, num) ==
        match Written(prev.tables, e.target, y, DIMENSIONLESS)
        case Err(err) => Run(prev.items[k := e], prev.tables, Fail(err))
        case Ok(t') => Run(prev.items[k := e], t', Pass)
  {
  }

  /** A model after one forward-Euler step from the given power and ambient
      values; the integration itself is the parameter `heat`. */
  function ModelStep(m: ThermalMass, signals: map<SignalId, Signal>, dt: real,
                     heat: (ThermalMass, real, real, real) -> real): (r: ThermalMass)
    ensures r.(temperature := m.temperature) == m
  {
    m.(temperature := heat(m, ValueIn(signals, m.powerSignal), ValueIn(signals, m.ambientSignal), dt))
  }

  /** Stage 3 (update_models) over the first `k` models: each reads its power
      and ambient signals, steps its temperature, writes it in degC and marks
      it physics-driven; a refused write ends the stage after the step. */
  function ModelsRun(models: seq<ThermalMass>, k: nat, t: Tables, dt: real,
                     heat: (ThermalMass, real, real, real) -> real): (r: Run<ThermalMass>)
    requires k <= |models|
    ensures |r.items| == |models|
    decreases k
  {
    if k == 0 then Run(models, t, Pass)
    else
      var prev := ModelsRun(models, k - 1, t, dt, heat);
      if prev.outcome.Fail? then prev
      else
        var m := ModelStep(prev.items[k - 1], prev.tables.signals, dt, heat);
        var items := prev.items[k - 1 := m];
        match Written(prev.tables, m.tempSignal, m.temperature, "degC")
        case Err(err) => Run(items, prev.tables, Fail(err))
        case Ok(t') => Run(items, t'.(driven := t'.driven + {m.tempSignal}), Pass)
  }

  /** One edge of stage 2 against the store: the step of `EdgesRun`. */
  method TickEdge(e: CompiledEdge, dt: real, num: Numerics, store: SignalStore)
    returns (e': CompiledEdge, outcome: Outcome<StoreError>)
    requires store.Valid()
    modifies store
    ensures store.Valid()
    ensures var (stepped, y) := EdgeStep(e, dt, num);
      && e' == stepped
      && match Written(old(TablesOf(store)), e.target, y, DIMENSIONLESS)
         case Err(err) => outcome == Fail(err) && TablesOf(store) == old(TablesOf(store))
         case Ok(t') => outcome == Pass && TablesOf(store) == t'
  {
    var step := EdgeStep(e, dt, num);
    e' := step.0;
    outcome := WriteStore(store, e.target, step.1, DIMENSIONLESS);
  }

  /** One model of stage 3 against the store: the step of `ModelsRun`. */
  method TickModel(m: ThermalMass, dt: real, heat: (ThermalMass, real, real, real) -> real, store: SignalStore)
    returns (m': ThermalMass, outcome: Outcome<StoreError>)
    requires store.Valid()
    modifies store
    ensures store.Valid()
    ensures m' == ModelStep(m, old(store.signals), dt, heat)
    ensures match Written(old(TablesOf(store)), m'.tempSignal, m'.temperature, "degC")
      case Err(err) => outcome == Fail(err) && TablesOf(store) == old(TablesOf(store))
      case Ok(t') => outcome == Pass && TablesOf(store) == t'.(driven := t'.driven + {m'.tempSignal})
  {
    var power := store.ReadValue(m.powerSignal);
    var ambient := store.ReadValue(m.ambientSignal);
    m' := m.(temperature := heat(m, power, ambient, dt));
    outcome := WriteStore(store, m'.tempSignal, m'.temperature, "degC");
    if outcome.Pass? {
      store.MarkPhysicsDriven(m'.tempSignal, true);
    }
  }

  /** Every action of a rule has its argument map. */
  predicate WellFormed(rules: seq<CompiledRule>) {
    forall i :: 0 <= i < |rules| ==> |rules[i].deviceFunctions| == |rules[i].argsList|
  }

  /** The command for action `j` of `rule`. */
  function ActionCommand(rule: CompiledRule, j: nat): Command
    requires j < |rule.deviceFunctions| == |rule.argsList|
  {
    Command(rule.deviceFunctions[j].0, rule.deviceFunctions[j].1, rule.argsList[j])
  }

  /** The commands a rule emits when its condition holds: one per action. */
  function Fired(rule: CompiledRule): (cs: seq<Command>)
    requires |rule.deviceFunctions| == |rule.argsList|
    ensures |cs| == |rule.deviceFunctions|
    ensures forall j :: 0 <= j < |cs| ==> cs[j] == ActionCommand(rule, j)
  {
    seq(|rule.deviceFunctions|, j requires 0 <= j < |rule.deviceFunctions| => ActionCommand(rule, j))
  }

  predicate Fires(rule: CompiledRule, signals: map<SignalId, Signal>) {
    Holds(rule.condition, ValueIn(signals, rule.condition.signal))
  }

  /** Stage 5 (evaluate_rules): the commands of every rule whose condition
      holds, rule by rule. */
  function RuleCommands(rules: seq<CompiledRule>, signals: map<SignalId, Signal>): seq<Command>
    requires WellFormed(rules)
  {
    if rules == [] then []
    else
      var last := rules[|rules| - 1];
      RuleCommands(rules[..|rules| - 1], signals) + (if Fires(last, signals) then Fired(last) else [])
  }

  /** The engine's state after a tick of a loaded program. */
  datatype TickState = TickState(
    edges: seq<CompiledEdge>, models: seq<ThermalMass>, queue: seq<Command>,
    tables: Tables, outcome: Outcome<EngineError>)

  /** tick: snapshot, edges, models, the (empty) commit stage, then rules;
      a refused write ends the tick with everything done up to it. */
  function TickResult(edges: seq<CompiledEdge>, models: seq<ThermalMass>, rules: seq<CompiledRule>,
                      queue: seq<Command>, t: Tables, dt: real, num: Numerics,
                      heat: (ThermalMass, real, real, real) -> real): (r: TickState)
    requires WellFormed(rules)
    ensures |r.edges| == |edges| && |r.models| == |models|
    ensures |queue| <= |r.queue| && r.queue[..|queue|] == queue
    ensures r.outcome.Fail? ==> r.queue == queue && r.outcome.error.StoreFailure?
  {
    var snap := Snapshots(edges, t.signals);
    var er := EdgesRun(snap, |snap|, t, dt, num);
    if er.outcome.Fail? then TickState(er.items, models, queue, er.tables, Fail(StoreFailure(er.outcome.error)))
    else
      var mr := ModelsRun(models, |models|, er.tables, dt, heat);
      if mr.outcome.Fail? then TickState(er.items, mr.items, queue, mr.tables, Fail(StoreFailure(mr.outcome.error)))
      else TickState(er.items, mr.items, queue + RuleCommands(rules, mr.tables.signals), mr.tables, Pass)
  }

  /** reset on one edge: the transform is reset and the snapshot zeroed. */
  function ResetEdge(e: CompiledEdge): CompiledEdge {
    e.(transform := ResetTransform(e.transform), snapshot := 0.0)
  }

  /** reset on one model: back to its initial temperature. */
  function ResetModel(m: ThermalMass): ThermalMass {
    m.(temperature := m.initialTemp)
  }

  // ---------------------------------------------------------------------------
  // The engine

  class Engine {
    var loaded: bool
    var edges: seq<CompiledEdge>
    var models: seq<ThermalMass>
    var rules: seq<CompiledRule>
    var commandQueue: seq<Command>

    /** A fresh engine has no program and an empty queue. */
    constructor ()
      ensures !loaded && edges == [] && models == [] && rules == [] && commandQueue == []
    {
      loaded, edges, models, rules, commandQueue := false, [], [], [], [];
    }

    /** Replaces the edges, models and rules by the program's; the queue is kept. */
    method Load(program: Program)
      requires WellFormed(program.rules)
      modifies this
      ensures loaded
      ensures edges == program.edges && models == program.models && rules == program.rules
      ensures commandQueue == old(commandQueue)
    {
      edges := program.edges;
      models := program.models;
      rules := program.rules;
      loaded := true;
    }

    /** snapshot_inputs: every edge caches its source's current value. */
    method SnapshotInputs(store: SignalStore)
      requires store.Valid()
      modifies this
      ensures edges == Snapshots(old(edges), store.signals)
      ensures loaded == old(loaded) && models == old(models) && rules == old(rules)
      ensures commandQueue == old(commandQueue)
    {
      var i := 0;
      while i < |edges|
        invariant 0 <= i <= |edges| == |old(edges)|
        invariant forall j :: 0 <= j < i ==> edges[j] == old(edges)[j].(snapshot := ValueIn(store.signals, old(edges)[j].source))
        invariant forall j :: i <= j < |edges| ==> edges[j] == old(edges)[j]
        invariant loaded == old(loaded) && models == old(models) && rules == old(rules)
        invariant commandQueue == old(commandQueue)
      {
        edges := edges[i := edges[i].(snapshot := store.ReadValue(edges[i].source))];
        i := i + 1;
      }
    }

    /** process_edges: each edge in order steps its transform on its snapshot
        and writes the output, dimensionless, to its target. */
    method ProcessEdges(dt: real, num: Numerics, store: SignalStore) returns (outcome: Outcome<StoreError>)
      requires store.Valid()
      modifies this, store
      ensures store.Valid()
      ensures var r := EdgesRun(old(edges), |old(edges)|, old(TablesOf(store)), dt, num);
        edges == r.items && TablesOf(store) == r.tables && outcome == r.outcome
      ensures loaded == old(loaded) && models == old(models) && rules == old(rules)
      ensures commandQueue == old(commandQueue)
    {
      ghost var start, t0 := edges, TablesOf(store);
      var i := 0;
      while i < |edges|
        invariant 0 <= i <= |edges| == |start|
        invariant store.Valid()
        invariant var r := EdgesRun(start, i, t0, dt, num);
          r.outcome.Pass? && edges == r.items && TablesOf(store) == r.tables
        invariant loaded == old(loaded) && models == old(models) && rules == old(rules)
        invariant commandQueue == old(commandQueue)
      {
        EdgesRunNext(start, i, t0, dt, num);
        var e;
        e, outcome := TickEdge(edges[i], dt, num, store);
        edges := edges[i := e];
        if outcome.Fail? {
          EdgesRunStops(start, i + 1, |start|, t0, dt, num);
          return;
        }
        i := i + 1;
      }
      outcome := Pass;
    }

    /** update_models: each model in order reads its inputs, steps and writes
        its temperature in degC, and marks that signal physics-driven. */
    method UpdateModels(dt: real, heat: (ThermalMass, real, real, real) -> real, store: SignalStore)
      returns (outcome: Outcome<StoreError>)
      requires store.Valid()
      modifies this, store
      ensures store.Valid()
      ensures var r := ModelsRun(old(models), |old(models)|, old(TablesOf(store)), dt, heat);
        models == r.items && TablesOf(store) == r.tables && outcome == r.outcome
      ensures loaded == old(loaded) && edges == old(edges) && rules == old(rules)
      ensures commandQueue == old(commandQueue)
    {
      ghost var start, t0 := models, TablesOf(store);
      var i := 0;
      while i < |models|
        invariant 0 <= i <= |models| == |start|
        invariant store.Valid()
        invariant var r := ModelsRun(start, i, t0, dt, heat);
          r.outcome.Pass? && models == r.items && TablesOf(store) == r.tables
        invariant loaded == old(loaded) && edges == old(edges) && rules == old(rules)
        invariant commandQueue == old(commandQueue)
      {
        var m;
        m, outcome := TickModel(models[i], dt, heat, store);
        models := models[i := m];
        if outcome.Fail? {
          ModelsRunStops(start, i + 1, |start|, t0, dt, heat);
          return;
        }
        i := i + 1;
      }
      outcome := Pass;
    }

    /** evaluate_rules: appends the commands of every rule whose condition holds. */
    method EvaluateRules(store: SignalStore)
      requires WellFormed(rules) && store.Valid()
      modifies this
      ensures loaded == old(loaded) && edges == old(edges) && models == old(models) && rules == old(rules)
      ensures commandQueue == old(commandQueue) + RuleCommands(rules, store.signals)
    {
      ghost var signals := store.signals;
      var i := 0;
      while i < |rules|
        invariant 0 <= i <= |rules|
        invariant loaded == old(loaded) && edges == old(edges) && models == old(models) && rules == old(rules)
        invariant commandQueue == old(commandQueue) + RuleCommands(rules[..i], signals)
      {
        var rule := rules[i];
        RuleCommandsStep(rules, i, signals);
        var value := store.ReadValue(rule.condition.signal);
        assert value == ValueIn(signals, rule.condition.signal);
        if Holds(rule.condition, value) {
          Emit(rule);
        }
        i := i + 1;
      }
      assert rules[..|rules|] == rules;
    }

    /** The inner loop of evaluate_rules: one command per action of a firing rule. */
    method Emit(rule: CompiledRule)
      requires |rule.deviceFunctions| == |rule.argsList|
      modifies this
      ensures loaded == old(loaded) && edges == old(edges) && models == old(models) && rules == old(rules)
      ensures commandQueue == old(commandQueue) + Fired(rule)
    {
      var j := 0;
      while j < |rule.deviceFunctions|
        invariant 0 <= j <= |rule.deviceFunctions|
        invariant loaded == old(loaded) && edges == old(edges) && models == old(models) && rules == old(rules)
        invariant commandQueue == old(commandQueue) + Fired(rule)[..j]
      {
        commandQueue := commandQueue + [Command(rule.deviceFunctions[j].0, rule.deviceFunctions[j].1, rule.argsList[j])];
        assert Fired(rule)[..j + 1] == Fired(rule)[..j] + [ActionCommand(rule, j)];
        j := j + 1;
      }
      assert Fired(rule)[..j] == Fired(rule);
    }

    /** tick: refused without a loaded program; otherwise snapshot, edges,
        models, the commit stage (which does nothing) and rules, stopping at
        the first refused store write. */
    method Tick(dt: real, store: SignalStore, num: Numerics, heat: (ThermalMass, real, real, real) -> real)
      returns (outcome: Outcome<EngineError>)
      requires WellFormed(rules) && store.Valid()
      modifies this, store
      ensures store.Valid()
      ensures !old(loaded) ==> outcome == Fail(NoProgramLoaded) && unchanged(this) && unchanged(store)
      ensures old(loaded) ==>
        var res := TickResult(old(edges), old(models), old(rules), old(commandQueue), old(TablesOf(store)), dt, num, heat);
        && edges == res.edges && models == res.models && commandQueue == res.queue
        && TablesOf(store) == res.tables && outcome == res.outcome
      ensures loaded == old(loaded) && rules == old(rules)
    {
      if !loaded {
        return Fail(NoProgramLoaded);
      }
      SnapshotInputs(store);
      var written := ProcessEdges(dt, num, store);
      if written.Fail? {
        return Fail(StoreFailure(written.error));
      }
      written := UpdateModels(dt, heat, store);
      if written.Fail? {
        return Fail(StoreFailure(written.error));
      }
      EvaluateRules(store);
      outcome := Pass;
    }

    /** drain_commands: hands over the queue and leaves it empty. */
    method DrainCommands() returns (drained: seq<Command>)
      modifies this
      ensures drained == old(commandQueue) && commandQueue == []
      ensures loaded == old(loaded) && edges == old(edges) && models == old(models) && rules == old(rules)
    {
      drained := commandQueue;
      commandQueue := [];
    }

    /** reset: every model and transform back to its initial state, every
        snapshot zeroed, the queue emptied; the program stays loaded. */
    method Reset()
      modifies this
      ensures |models| == |old(models)| && forall i :: 0 <= i < |models| ==> models[i] == ResetModel(old(models)[i])
      ensures |edges| == |old(edges)| && forall i :: 0 <= i < |edges| ==> edges[i] == ResetEdge(old(edges)[i])
      ensures commandQueue == []
      ensures loaded == old(loaded) && rules == old(rules)
    {
      var i := 0;
      while i < |models|
        invariant 0 <= i <= |models| == |old(models)|
        invariant forall j :: 0 <= j < i ==> models[j] == ResetModel(old(models)[j])
        invariant forall j :: i <= j < |models| ==> models[j] == old(models)[j]
        invariant edges == old(edges) && loaded == old(loaded) && rules == old(rules)
      {
        models := models[i := ResetModel(models[i])];
        i := i + 1;
      }
      i := 0;
      while i < |edges|
        invariant 0 <= i <= |edges| == |old(edges)|
        invariant forall j :: 0 <= j < i ==> edges[j] == ResetEdge(old(edges)[j])
        invariant forall j :: i <= j < |edges| ==> edges[j] == old(edges)[j]
        invariant |models| == |old(models)| && forall j :: 0 <= j < |models| ==> models[j] == ResetModel(old(models)[j])
        invariant loaded == old(loaded) && rules == old(rules)
      {
        edges := edges[i := ResetEdge(edges[i])];
        i := i + 1;
      }
      commandQueue := [];
    }
  }

  // ---------------------------------------------------------------------------
  // Properties of the stages

  /** Once a stage has refused a write it does nothing more. */
  lemma {:induction false} EdgesRunStops(edges: seq<CompiledEdge>, j: nat, k: nat, t: Tables, dt: real, num: Numerics)
    requires j <= k <= |edges|
    requires EdgesRun(edges, j, t, dt, num).outcome.Fail?
    ensures EdgesRun(edges, k, t, dt, num) == EdgesRun(edges, j, t, dt, num)
    decreases k
  {
    if k > j {
      EdgesRunStops(edges, j, k - 1, t, dt, num);
    }
  }

  lemma {:induction false} ModelsRunStops(models: seq<ThermalMass>, j: nat, k: nat, t: Tables, dt: real,
                                          heat: (ThermalMass, real, real, real) -> real)
    requires j <= k <= |models|
    requires ModelsRun(models, j, t, dt, heat).outcome.Fail?
    ensures ModelsRun(models, k, t, dt, heat) == ModelsRun(models, j, t, dt, heat)
    decreases k
  {
    if k > j {
      ModelsRunStops(models, j, k - 1, t, dt, heat);
    }
  }

  /** A write of `unit` to `id` is refused against these declarations. */
  predicate Refuses(declared: map<SignalId, string>, id: SignalId, unit: string) {
    id != INVALID_SIGNAL && id in declared && declared[id] != unit
  }

  predicate DistinctTargets(edges: seq<CompiledEdge>) {
    forall i, j :: 0 <= i < j < |edges| ==> edges[i].target != edges[j].target
  }

  predicate DistinctTemps(models: seq<ThermalMass>) {
    forall i, j :: 0 <= i < j < |models| ==> models[i].tempSignal != models[j].tempSignal
  }

  /** Some of the first `k` edges writes `id`. */
  predicate TargetedBy(edges: seq<CompiledEdge>, k: nat, id: SignalId) {
    exists i :: 0 <= i < k && i < |edges| && edges[i].target == id
  }

  /** Some of the first `k` models writes its temperature to `id`. */
  predicate HeatedBy(models: seq<ThermalMass>, k: nat, id: SignalId) {
    exists i :: 0 <= i < k && i < |models| && models[i].tempSignal == id
  }

  /** The edge stage steps each edge at most once, and only the first `k`. */
  lemma {:induction false} EdgesRunKeeps(edges: seq<CompiledEdge>, k: nat, t: Tables, dt: real, num: Numerics)
    requires k <= |edges|
    ensures var r := EdgesRun(edges, k, t, dt, num);
      && (forall i :: k <= i < |edges| ==> r.items[i] == edges[i])
      && (forall i :: 0 <= i < |edges| ==> r.items[i] == edges[i] || r.items[i] == EdgeStep(edges[i], dt, num).0)
    decreases k
  {
    if k > 0 {
      EdgesRunKeeps(edges, k - 1, t, dt, num);
    }
  }

  /** A stage that completes has stepped every one of the first `k` edges
      once, from its own snapshot. */
  lemma {:induction false} EdgesRunSteps(edges: seq<CompiledEdge>, k: nat, t: Tables, dt: real, num: Numerics)
    requires k <= |edges|
    ensures var r := EdgesRun(edges, k, t, dt, num);
      r.outcome.Pass? ==> forall i :: 0 <= i < k ==> r.items[i] == EdgeStep(edges[i], dt, num).0
    decreases k
  {
    if k > 0 {
      EdgesRunSteps(edges, k - 1, t, dt, num);
      EdgesRunKeeps(edges, k - 1, t, dt, num);
      var prev := EdgesRun(edges, k - 1, t, dt, num);
      if prev.outcome.Pass? {
        assert prev.items[k - 1] == edges[k - 1];
        assert EdgesRun(edges, k, t, dt, num).items == prev.items[k - 1 := EdgeStep(edges[k - 1], dt, num).0];
      }
    }
  }

  /** The edge stage fails exactly when one of the edges targets a signal
      whose declared unit is not "dimensionless", and then with the mismatch
      of the first such edge. */
  lemma {:induction false} EdgesRunFails(edges: seq<CompiledEdge>, k: nat, t: Tables, dt: real, num: Numerics)
    requires k <= |edges|
    ensures var r := EdgesRun(edges, k, t, dt, num);
      r.outcome.Fail? <==> exists i :: 0 <= i < k && Refuses(t.declared, edges[i].target, DIMENSIONLESS)
    ensures var r := EdgesRun(edges, k, t, dt, num);
      r.outcome.Fail? ==> exists i ::
        && 0 <= i < k && Refuses(t.declared, edges[i].target, DIMENSIONLESS)
        && (forall j :: 0 <= j < i ==> !Refuses(t.declared, edges[j].target, DIMENSIONLESS))
        && r.outcome.error == UnitMismatch(edges[i].target, t.declared[edges[i].target], DIMENSIONLESS)
    decreases k
  {
    if k > 0 {
      EdgesRunFails(edges, k - 1, t, dt, num);
      EdgesRunKeeps(edges, k - 1, t, dt, num);
      var prev := EdgesRun(edges, k - 1, t, dt, num);
      if prev.outcome.Pass? {
        assert prev.items[k - 1] == edges[k - 1];
        assert NormalizeUnit(DIMENSIONLESS) == DIMENSIONLESS;
        var id := edges[k - 1].target;
        assert EdgeStep(prev.items[k - 1], dt, num).0.target == id;
        if Refuses(t.declared, id, DIMENSIONLESS) {
          assert EdgesRun(edges, k, t, dt, num).outcome == Fail(UnitMismatch(id, t.declared[id], DIMENSIONLESS));
        } else {
          assert EdgesRun(edges, k, t, dt, num).outcome.Pass?;
        }
      }
    }
  }

  /** With one writer per target, a stage that completes leaves every
      processed edge's output, dimensionless, in its target, and every
      other signal as it was. */
  lemma EdgesRunWrites(edges: seq<CompiledEdge>, k: nat, t: Tables, dt: real, num: Numerics)
    requires k <= |edges| && DistinctTargets(edges)
    requires EdgesRun(edges, k, t, dt, num).outcome.Pass?
    ensures var r := EdgesRun(edges, k, t, dt, num);
      forall i :: 0 <= i < k && edges[i].target != INVALID_SIGNAL ==>
        edges[i].target in r.tables.signals && r.tables.signals[edges[i].target] == Signal(EdgeStep(edges[i], dt, num).1, DIMENSIONLESS)
    ensures var r := EdgesRun(edges, k, t, dt, num);
      forall id :: !TargetedBy(edges, k, id) ==>
        && (id in r.tables.signals <==> id in t.signals)
        && (id in t.signals ==> r.tables.signals[id] == t.signals[id])
  {
    EdgesRunWritesTargets(edges, k, t, dt, num);
    EdgesRunWritesOthers(edges, k, t, dt, num);
  }

  lemma {:induction false} EdgesRunWritesTargets(edges: seq<CompiledEdge>, k: nat, t: Tables, dt: real, num: Numerics)
    requires k <= |edges| && DistinctTargets(edges)
    requires EdgesRun(edges, k, t, dt, num).outcome.Pass?
    ensures var r := EdgesRun(edges, k, t, dt, num);
      forall i :: 0 <= i < k && edges[i].target != INVALID_SIGNAL ==>
        edges[i].target in r.tables.signals && r.tables.signals[edges[i].target] == Signal(EdgeStep(edges[i], dt, num).1, DIMENSIONLESS)
    decreases k
  {
    if k > 0 {
      EdgesRunWritesTargets(edges, k - 1, t, dt, num);
      EdgesRunKeeps(edges, k - 1, t, dt, num);
      var prev := EdgesRun(edges, k - 1, t, dt, num);
      assert prev.items[k - 1] == edges[k - 1];
      assert NormalizeUnit(DIMENSIONLESS) == DIMENSIONLESS;
      var (e, y) := EdgeStep(edges[k - 1], dt, num);
      var w := Written(prev.tables, e.target, y, DIMENSIONLESS);
      assert w.Ok? && EdgesRun(edges, k, t, dt, num).tables == w.value;
      forall i | 0 <= i < k && edges[i].target != INVALID_SIGNAL
        ensures edges[i].target in w.value.signals && w.value.signals[edges[i].target] == Signal(EdgeStep(edges[i], dt, num).1, DIMENSIONLESS)
      {
        if i < k - 1 {
          assert edges[i].target != e.target;
        }
      }
    }
  }

  lemma {:induction false} EdgesRunWritesOthers(edges: seq<CompiledEdge>, k: nat, t: Tables, dt: real, num: Numerics)
    requires k <= |edges|
    requires EdgesRun(edges, k, t, dt, num).outcome.Pass?
    ensures var r := EdgesRun(edges, k, t, dt, num);
      forall id :: !TargetedBy(edges, k, id) ==>
        && (id in r.tables.signals <==> id in t.signals)
        && (id in t.signals ==> r.tables.signals[id] == t.signals[id])
    decreases k
  {
    if k > 0 {
      EdgesRunWritesOthers(edges, k - 1, t, dt, num);
      EdgesRunKeeps(edges, k - 1, t, dt, num);
      var prev := EdgesRun(edges, k - 1, t, dt, num);
      assert prev.items[k - 1] == edges[k - 1];
      var (e, y) := EdgeStep(edges[k - 1], dt, num);
      var w := Written(prev.tables, e.target, y, DIMENSIONLESS);
      assert w.Ok? && EdgesRun(edges, k, t, dt, num).tables == w.value;
      forall id | !TargetedBy(edges, k, id)
        ensures (id in w.value.signals <==> id in t.signals) && (id in t.signals ==> w.value.signals[id] == t.signals[id])
      {
        assert !TargetedBy(edges, k - 1, id);
        assert id != e.target;
      }
    }
  }

  /** The model stage only moves temperatures: the first `k` models (all of
      them when no write was refused) step once, each from the signals as the
      models before it left them, and the others are untouched. */
  lemma {:induction false} ModelsRunSteps(models: seq<ThermalMass>, k: nat, t: Tables, dt: real,
                                          heat: (ThermalMass, real, real, real) -> real)
    requires k <= |models|
    ensures var r := ModelsRun(models, k, t, dt, heat);
      r.outcome.Pass? ==> forall i :: 0 <= i < k ==>
        r.items[i] == ModelStep(models[i], ModelsRun(models, i, t, dt, heat).tables.signals, dt, heat)
    decreases k
  {
    if k > 0 {
      ModelsRunSteps(models, k - 1, t, dt, heat);
      ModelsRunKeeps(models, k - 1, t, dt, heat);
      var r := ModelsRun(models, k, t, dt, heat);
      var prev := ModelsRun(models, k - 1, t, dt, heat);
      if r.outcome.Pass? {
        assert prev.outcome.Pass? && prev.items[k - 1] == models[k - 1];
        assert r.items == prev.items[k - 1 := ModelStep(models[k - 1], prev.tables.signals, dt, heat)];
        forall i | 0 <= i < k
          ensures r.items[i] == ModelStep(models[i], ModelsRun(models, i, t, dt, heat).tables.signals, dt, heat)
        {
          if i < k - 1 {
            assert r.items[i] == prev.items[i];
          }
        }
      }
    }
  }

  /** The model stage changes nothing but temperatures, and only those of
      the first `k` models. */
  lemma {:induction false} ModelsRunKeeps(models: seq<ThermalMass>, k: nat, t: Tables, dt: real,
                                          heat: (ThermalMass, real, real, real) -> real)
    requires k <= |models|
    ensures var r := ModelsRun(models, k, t, dt, heat);
      && (forall i :: k <= i < |models| ==> r.items[i] == models[i])
      && (forall i :: 0 <= i < |models| ==> r.items[i].(temperature := models[i].temperature) == models[i])
    decreases k
  {
    if k > 0 {
      ModelsRunKeeps(models, k - 1, t, dt, heat);
    }
  }

  /** Models only ever declare "degC": declarations made before the stage are
      kept, and every new one is "degC"; nothing leaves the physics-driven set. */
  lemma {:induction false} ModelsRunDeclares(models: seq<ThermalMass>, k: nat, t: Tables, dt: real,
                                             heat: (ThermalMass, real, real, real) -> real)
    requires k <= |models|
    ensures var r := ModelsRun(models, k, t, dt, heat);
      && (forall id :: id in t.declared ==> id in r.tables.declared && r.tables.declared[id] == t.declared[id])
      && (forall id :: id in r.tables.declared && id !in t.declared ==> r.tables.declared[id] == "degC")
      && t.driven <= r.tables.driven
    decreases k
  {
    if k > 0 {
      ModelsRunDeclares(models, k - 1, t, dt, heat);
    }
  }

  /** The model stage fails exactly when a model's temperature signal has a
      declared unit other than "degC", and then with the first such model's
      mismatch. */
  lemma {:induction false} ModelsRunFails(models: seq<ThermalMass>, k: nat, t: Tables, dt: real,
                                          heat: (ThermalMass, real, real, real) -> real)
    requires k <= |models|
    ensures var r := ModelsRun(models, k, t, dt, heat);
      r.outcome.Fail? <==> exists i :: 0 <= i < k && Refuses(t.declared, models[i].tempSignal, "degC")
    ensures var r := ModelsRun(models, k, t, dt, heat);
      r.outcome.Fail? ==> exists i ::
        && 0 <= i < k && Refuses(t.declared, models[i].tempSignal, "degC")
        && (forall j :: 0 <= j < i ==> !Refuses(t.declared, models[j].tempSignal, "degC"))
        && r.outcome.error == UnitMismatch(models[i].tempSignal, t.declared[models[i].tempSignal], "degC")
    decreases k
  {
    if k > 0 {
      ModelsRunFails(models, k - 1, t, dt, heat);
      ModelsRunKeeps(models, k - 1, t, dt, heat);
      ModelsRunDeclares(models, k - 1, t, dt, heat);
      var prev := ModelsRun(models, k - 1, t, dt, heat);
      if prev.outcome.Pass? {
        assert prev.items[k - 1] == models[k - 1];
        var id := models[k - 1].tempSignal;
        var m := ModelStep(prev.items[k - 1], prev.tables.signals, dt, heat);
        assert m.tempSignal == id;
        assert Refuses(prev.tables.declared, id, "degC") <==> Refuses(t.declared, id, "degC");
        if Refuses(t.declared, id, "degC") {
          assert t.declared[id] == prev.tables.declared[id];
          assert ModelsRun(models, k, t, dt, heat).outcome == Fail(UnitMismatch(id, t.declared[id], "degC"));
        } else {
          assert ModelsRun(models, k, t, dt, heat).outcome.Pass?;
        }
      }
    }
  }

  /** With one model per temperature signal, a stage that completes leaves
      every model's new temperature, in degC, in its signal, marks exactly
      those signals physics-driven, and leaves every other signal as it was. */
  lemma {:induction false} ModelsRunWrites(models: seq<ThermalMass>, k: nat, t: Tables, dt: real,
                                           heat: (ThermalMass, real, real, real) -> real)
    requires k <= |models| && DistinctTemps(models)
    requires ModelsRun(models, k, t, dt, heat).outcome.Pass?
    ensures var r := ModelsRun(models, k, t, dt, heat);
      forall i :: 0 <= i < k && models[i].tempSignal != INVALID_SIGNAL ==>
        && models[i].tempSignal in r.tables.signals
        && r.tables.signals[models[i].tempSignal] == Signal(r.items[i].temperature, "degC")
    ensures var r := ModelsRun(models, k, t, dt, heat);
      forall id :: !HeatedBy(models, k, id) ==>
        && (id in r.tables.signals <==> id in t.signals)
        && (id in t.signals ==> r.tables.signals[id] == t.signals[id])
    decreases k
  {
    if k > 0 {
      ModelsRunWrites(models, k - 1, t, dt, heat);
      ModelsRunKeeps(models, k - 1, t, dt, heat);
      var prev := ModelsRun(models, k - 1, t, dt, heat);
      var r := ModelsRun(models, k, t, dt, heat);
      assert prev.items[k - 1] == models[k - 1];
      var m := ModelStep(models[k - 1], prev.tables.signals, dt, heat);
      var w := Written(prev.tables, m.tempSignal, m.temperature, "degC");
      assert w.Ok? && r.tables == w.value.(driven := w.value.driven + {m.tempSignal});
      assert r.items == prev.items[k - 1 := m];
      forall i | 0 <= i < k && models[i].tempSignal != INVALID_SIGNAL
        ensures models[i].tempSignal in r.tables.signals
        ensures r.tables.signals[models[i].tempSignal] == Signal(r.items[i].temperature, "degC")
      {
        if i < k - 1 {
          assert models[i].tempSignal != m.tempSignal;
        }
      }
      forall id | !HeatedBy(models, k, id)
        ensures (id in r.tables.signals <==> id in t.signals) && (id in t.signals ==> r.tables.signals[id] == t.signals[id])
      {
        assert !HeatedBy(models, k - 1, id);
        assert id != m.tempSignal;
      }
    }
  }

  /** The model stage never clears a physics-driven mark, even when it fails. */
  lemma {:induction false} ModelsRunKeepsDriven(models: seq<ThermalMass>, k: nat, t: Tables, dt: real,
                                                heat: (ThermalMass, real, real, real) -> real)
    requires k <= |models|
    ensures t.driven <= ModelsRun(models, k, t, dt, heat).tables.driven
    decreases k
  {
    if k > 0 {
      ModelsRunKeepsDriven(models, k - 1, t, dt, heat);
    }
  }

  /** A stage that completes marks exactly the processed models' temperature
      signals physics-driven, on top of those already marked. */
  lemma {:induction false} ModelsRunMarks(models: seq<ThermalMass>, k: nat, t: Tables, dt: real,
                                          heat: (ThermalMass, real, real, real) -> real)
    requires k <= |models|
    requires ModelsRun(models, k, t, dt, heat).outcome.Pass?
    ensures var r := ModelsRun(models, k, t, dt, heat);
      forall id :: id in r.tables.driven <==> id in t.driven || HeatedBy(models, k, id)
    decreases k
  {
    if k > 0 {
      ModelsRunMarks(models, k - 1, t, dt, heat);
      ModelsRunKeeps(models, k - 1, t, dt, heat);
      var prev := ModelsRun(models, k - 1, t, dt, heat);
      var r := ModelsRun(models, k, t, dt, heat);
      assert prev.items[k - 1] == models[k - 1];
      var m := ModelStep(models[k - 1], prev.tables.signals, dt, heat);
      var w := Written(prev.tables, m.tempSignal, m.temperature, "degC");
      assert prev.outcome.Pass? && w.Ok?;
      assert r.tables.driven == w.value.driven + {m.tempSignal};
      assert w.value.driven == prev.tables.driven;
      forall id
        ensures id in r.tables.driven <==> id in t.driven || HeatedBy(models, k, id)
      {
        if HeatedBy(models, k, id) && !HeatedBy(models, k - 1, id) {
          assert id == models[k - 1].tempSignal;
        }
      }
    }
  }

  // ---------------------------------------------------------------------------
  // Properties of the rule stage

  /** One more rule adds its commands when it fires. */
  lemma RuleCommandsStep(rules: seq<CompiledRule>, i: nat, signals: map<SignalId, Signal>)
    requires WellFormed(rules) && i < |rules|
    ensures WellFormed(rules[..i]) && WellFormed(rules[..i + 1])
    ensures RuleCommands(rules[..i + 1], signals)
         == RuleCommands(rules[..i], signals) + (if Fires(rules[i], signals) then Fired(rules[i]) else [])
  {
    assert rules[..i + 1][..i] == rules[..i];
  }

  /** Rules contribute their commands segment by segment, in rule order. */
  lemma {:induction false} RuleCommandsAppend(a: seq<CompiledRule>, b: seq<CompiledRule>, signals: map<SignalId, Signal>)
    requires WellFormed(a) && WellFormed(b)
    ensures WellFormed(a + b)
    ensures RuleCommands(a + b, signals) == RuleCommands(a, signals) + RuleCommands(b, signals)
    decreases |b|
  {
    if b == [] {
      assert a + b == a;
    } else {
      var front := b[..|b| - 1];
      assert (a + b)[..|a + b| - 1] == a + front;
      assert WellFormed(front);
      RuleCommandsAppend(a, front, signals);
    }
  }

  /** A command is queued exactly when it is the command of some action of a
      rule whose condition holds. */
  lemma {:induction false} RuleCommandsMembers(rules: seq<CompiledRule>, signals: map<SignalId, Signal>, c: Command)
    requires WellFormed(rules)
    ensures c in RuleCommands(rules, signals) <==>
      exists i, j :: && 0 <= i < |rules| && Fires(rules[i], signals)
                     && 0 <= j < |rules[i].deviceFunctions| && c == ActionCommand(rules[i], j)
    decreases |rules|
  {
    if rules != [] {
      var front := rules[..|rules| - 1];
      var last := rules[|rules| - 1];
      assert WellFormed(front);
      RuleCommandsMembers(front, signals, c);
      if c in RuleCommands(rules, signals) && c !in RuleCommands(front, signals) {
        var j :| 0 <= j < |Fired(last)| && Fired(last)[j] == c;
        assert c == ActionCommand(rules[|rules| - 1], j);
      }
      if exists i, j :: && 0 <= i < |rules| && Fires(rules[i], signals)
                        && 0 <= j < |rules[i].deviceFunctions| && c == ActionCommand(rules[i], j) {
        var i, j :| && 0 <= i < |rules| && Fires(rules[i], signals)
                    && 0 <= j < |rules[i].deviceFunctions| && c == ActionCommand(rules[i], j);
        if i < |rules| - 1 {
          assert front[i] == rules[i];
        } else {
          assert Fired(last)[j] == c;
        }
      }
    }
  }

  // ---------------------------------------------------------------------------
  // Properties of a whole tick

  /** Every edge snapshots its source before any edge writes: after a tick
      each snapshot holds the source's value at the start of the tick, and
      (when the tick completes) each transform has stepped once on that value. */
  lemma TickReadsStartValues(edges: seq<CompiledEdge>, models: seq<ThermalMass>, rules: seq<CompiledRule>,
                             queue: seq<Command>, t: Tables, dt: real, num: Numerics,
                             heat: (ThermalMass, real, real, real) -> real)
    requires WellFormed(rules)
    ensures var res := TickResult(edges, models, rules, queue, t, dt, num, heat);
      && |res.edges| == |edges|
      && (forall i :: 0 <= i < |edges| ==>
            res.edges[i] == edges[i].(snapshot := ValueIn(t.signals, edges[i].source), transform := res.edges[i].transform))
      && (res.outcome.Pass? ==> forall i :: 0 <= i < |edges| ==>
            res.edges[i].transform == ApplyTransform(edges[i].transform, ValueIn(t.signals, edges[i].source), dt, num).0)
  {
    var snap := Snapshots(edges, t.signals);
    EdgesRunKeeps(snap, |snap|, t, dt, num);
    EdgesRunSteps(snap, |snap|, t, dt, num);
  }

  /** A tick fails exactly when an edge targets a signal declared with a unit
      other than "dimensionless", or a model's temperature signal is declared
      with a unit other than "degC"; a failed tick queues no command. */
  lemma TickFails(edges: seq<CompiledEdge>, models: seq<ThermalMass>, rules: seq<CompiledRule>,
                  queue: seq<Command>, t: Tables, dt: real, num: Numerics,
                  heat: (ThermalMass, real, real, real) -> real)
    requires WellFormed(rules)
    ensures var res := TickResult(edges, models, rules, queue, t, dt, num, heat);
      res.outcome.Fail? <==>
        || (exists i :: 0 <= i < |edges| && Refuses(t.declared, edges[i].target, DIMENSIONLESS))
        || (exists i :: 0 <= i < |models| && Refuses(t.declared, models[i].tempSignal, "degC"))
    ensures var res := TickResult(edges, models, rules, queue, t, dt, num, heat);
      res.outcome.Fail? ==> res.queue == queue && res.outcome.error.StoreFailure?
  {
    var snap := Snapshots(edges, t.signals);
    EdgesRunFails(snap, |snap|, t, dt, num);
    var er := EdgesRun(snap, |snap|, t, dt, num);
    ModelsRunFails(models, |models|, er.tables, dt, heat);
    if exists i :: 0 <= i < |edges| && Refuses(t.declared, edges[i].target, DIMENSIONLESS) {
      var i :| 0 <= i < |edges| && Refuses(t.declared, edges[i].target, DIMENSIONLESS);
      assert snap[i].target == edges[i].target;
    }
    if er.outcome.Fail? {
      var i :| 0 <= i < |snap| && Refuses(t.declared, snap[i].target, DIMENSIONLESS);
      assert snap[i].target == edges[i].target;
    }
  }

  /** What single-writer ownership tells the engine: edge targets are
      distinct, model temperature signals are distinct, and no edge writes a
      model's temperature. */
  lemma UniqueWritersSplit(edges: seq<CompiledEdge>, models: seq<ThermalMass>)
    requires UniqueWriters(Writers(edges, models))
    ensures DistinctTargets(edges) && DistinctTemps(models)
    ensures forall i, j :: 0 <= i < |edges| && 0 <= j < |models| ==> edges[i].target != models[j].tempSignal
  {
    var w := Writers(edges, models);
    forall i, j | 0 <= i < j < |edges| ensures edges[i].target != edges[j].target {
      assert w[i].0 != w[j].0;
    }
    forall i, j | 0 <= i < j < |models| ensures models[i].tempSignal != models[j].tempSignal {
      assert w[|edges| + i].0 != w[|edges| + j].0;
    }
    forall i, j | 0 <= i < |edges| && 0 <= j < |models| ensures edges[i].target != models[j].tempSignal {
      assert w[i].0 != w[|edges| + j].0;
    }
  }

  /** With one writer per signal, as the compiler guarantees, a completed
      tick leaves each edge's output, computed from its source's value at the
      start of the tick, in its target: no later edge or model overwrites it. */
  lemma TickEdgeWrites(edges: seq<CompiledEdge>, models: seq<ThermalMass>, rules: seq<CompiledRule>,
                       queue: seq<Command>, t: Tables, dt: real, num: Numerics,
                       heat: (ThermalMass, real, real, real) -> real)
    requires WellFormed(rules) && UniqueWriters(Writers(edges, models))
    ensures var res := TickResult(edges, models, rules, queue, t, dt, num, heat);
      res.outcome.Pass? ==> forall i :: 0 <= i < |edges| && edges[i].target != INVALID_SIGNAL ==>
        && edges[i].target in res.tables.signals
        && res.tables.signals[edges[i].target]
           == Signal(ApplyTransform(edges[i].transform, ValueIn(t.signals, edges[i].source), dt, num).1, DIMENSIONLESS)
  {
    UniqueWritersSplit(edges, models);
    var snap := Snapshots(edges, t.signals);
    var er := EdgesRun(snap, |snap|, t, dt, num);
    var mr := ModelsRun(models, |models|, er.tables, dt, heat);
    if er.outcome.Pass? && mr.outcome.Pass? {
      assert DistinctTargets(snap) by {
        forall i, j | 0 <= i < j < |snap| ensures snap[i].target != snap[j].target {
          assert snap[i].target == edges[i].target && snap[j].target == edges[j].target;
        }
      }
      EdgesRunWrites(snap, |snap|, t, dt, num);
      ModelsRunWrites(models, |models|, er.tables, dt, heat);
      forall i | 0 <= i < |edges| && edges[i].target != INVALID_SIGNAL
        ensures edges[i].target in mr.tables.signals
        ensures mr.tables.signals[edges[i].target]
                == Signal(ApplyTransform(edges[i].transform, ValueIn(t.signals, edges[i].source), dt, num).1, DIMENSIONLESS)
      {
        assert snap[i].target == edges[i].target;
        assert !HeatedBy(models, |models|, edges[i].target);
      }
    }
  }

  /** With one model per temperature signal, a completed tick leaves each
      model's new temperature in its signal, in degC and marked
      physics-driven, where the rules then read it. */
  lemma TickModelWrites(edges: seq<CompiledEdge>, models: seq<ThermalMass>, rules: seq<CompiledRule>,
                        queue: seq<Command>, t: Tables, dt: real, num: Numerics,
                        heat: (ThermalMass, real, real, real) -> real)
    requires WellFormed(rules) && UniqueWriters(Writers(edges, models))
    ensures var res := TickResult(edges, models, rules, queue, t, dt, num, heat);
      res.outcome.Pass? ==> forall i :: 0 <= i < |models| && models[i].tempSignal != INVALID_SIGNAL ==>
        && models[i].tempSignal in res.tables.signals
        && res.tables.signals[models[i].tempSignal] == Signal(res.models[i].temperature, "degC")
        && models[i].tempSignal in res.tables.driven
  {
    UniqueWritersSplit(edges, models);
    var snap := Snapshots(edges, t.signals);
    var er := EdgesRun(snap, |snap|, t, dt, num);
    var mr := ModelsRun(models, |models|, er.tables, dt, heat);
    if er.outcome.Pass? && mr.outcome.Pass? {
      ModelsRunWrites(models, |models|, er.tables, dt, heat);
      ModelsRunMarks(models, |models|, er.tables, dt, heat);
      forall i | 0 <= i < |models| && models[i].tempSignal != INVALID_SIGNAL
        ensures models[i].tempSignal in mr.tables.driven
      {
        assert HeatedBy(models, |models|, models[i].tempSignal);
      }
    }
  }

  /** Stepping a transform never changes what resetting it yields. */
  lemma ResetForgetsStep(t: Transform, input: real, dt: real, num: Numerics)
    ensures ResetTransform(ApplyTransform(t, input, dt, num).0) == ResetTransform(t)
  {
  }

  /** Whatever a tick did, resetting afterwards yields the same edges and
      models as resetting before it: reset returns to the loaded state. */
  lemma TickThenReset(edges: seq<CompiledEdge>, models: seq<ThermalMass>, rules: seq<CompiledRule>,
                      queue: seq<Command>, t: Tables, dt: real, num: Numerics,
                      heat: (ThermalMass, real, real, real) -> real)
    requires WellFormed(rules)
    ensures var res := TickResult(edges, models, rules, queue, t, dt, num, heat);
      && |res.edges| == |edges| && |res.models| == |models|
      && (forall i :: 0 <= i < |edges| ==> ResetEdge(res.edges[i]) == ResetEdge(edges[i]))
      && (forall i :: 0 <= i < |models| ==> ResetModel(res.models[i]) == ResetModel(models[i]))
  {
    var snap := Snapshots(edges, t.signals);
    var er := EdgesRun(snap, |snap|, t, dt, num);
    EdgesRunKeeps(snap, |snap|, t, dt, num);
    ModelsRunKeeps(models, |models|, er.tables, dt, heat);
    forall i | 0 <= i < |edges|
      ensures ResetEdge(er.items[i]) == ResetEdge(edges[i])
    {
      ResetForgetsStep(snap[i].transform, snap[i].snapshot, dt, num);
    }
  }
}
