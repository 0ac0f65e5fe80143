# FluxGraph core in Dafny

FluxGraph is a signal-graph simulation engine behind a gRPC server. A
configuration (YAML or JSON) describes thermal-mass models, edges that carry
a signal through a transform (linear, first-order lag, delay, noise,
saturation, deadband, rate limiter, moving average), and rules whose
conditions emit device commands. The graph compiler interns signal, device
and function names and parses every transform and model. It rejects
duplicate writers, algebraic loops and unstable time steps. It also orders
the edges: delay edges first, then the others by Kahn's algorithm. The engine
ticks in stages: snapshot, edges, models, rules. The server keeps provider
sessions, holds a lock-step barrier per tick generation and routes commands
to the provider that owns each device.

This project models that core and proves its properties:

- `types.dfy`, `graph_spec.dfy`: the parameter variant, the specs a loader produces, and the compiler's errors.
- `transforms.dfy`: the stateless transforms as functions, and the stateful ones both as classes and as a value union with a step function.
- `namespace.dfy`, `signal_store.dfy`: the interning tables and the signal store as classes.
- `graphs.dfy`, `cycles.dfy`, `toposort.dfy`, `compiler.dfy`: graph facts, the depth-first cycle search, Kahn's sort and the compiler.
- `engine.dfy`: the engine as a class, with its tick specified by functions over the store's tables.
- `service.dfy`: the server's state machine as a class; I/O, clocks and session ids are parameters.
- `cli.dfy`: the server's command-line handling and start-up.
- `documents.dfy`, `json_loader.dfy`, `yaml_loader.dfy`: the two loaders over an already-parsed document tree.

## Model

| member | source | states |
|---|---|---|
| Types.Clamp | include/fluxgraph/transform/saturation.hpp:15-18 | `std::clamp` stays within ordered bounds and returns the input when it lies within them |
| Transforms.Saturate | include/fluxgraph/transform/saturation.hpp:15-18 | the output is the input clamped to [min, max] |
| Transforms.Deadband | include/fluxgraph/transform/deadband.hpp:13-19 | an input whose magnitude is below the threshold becomes 0; any other input passes unchanged |
| Transforms.ClampOpt | include/fluxgraph/transform/linear.hpp:13-23 | the infinite default bounds leave a value unclamped; given bounds clamp it |
| Transforms.Linear | include/fluxgraph/transform/linear.hpp:19-23 | without clamps the output is scale·x + offset; with ordered clamps it stays within them and is exact when scale·x + offset lies inside |
| Transforms.RequiredSamples | include/fluxgraph/transform/delay.hpp:21-24 | the sample count is the truncated value, bumped from 0 to 1 |
| Transforms.SamplesFor | include/fluxgraph/transform/delay.hpp:21 | for positive delay and step, delay/dt rounded half up: within half a sample of the exact ratio; 0 otherwise |
| Transforms.DelayStep | include/fluxgraph/transform/delay.hpp:15-37 | a non-positive delay passes the input through; otherwise the output is the oldest buffered sample, the buffer ends with the input and never grows past the required count |
| Transforms.DelayRunFromHistory | include/fluxgraph/transform/delay.hpp:15-37 | after any history, the k-th output of a run is the sample that lies the required count before it |
| Transforms.DelayRunFromEmpty | include/fluxgraph/transform/delay.hpp:8-37 | from an empty buffer, output n is input n − N, or the first input while n < N |
| Transforms.DelayFirstOutput | include/fluxgraph/transform/delay.hpp:25-36 | the first call after any history returns the input seen r calls earlier, or the oldest one |
| Transforms.DelayTransform.constructor | include/fluxgraph/transform/delay.hpp:12-13 | a new delay starts with an empty buffer |
| Transforms.DelayTransform.Apply | include/fluxgraph/transform/delay.hpp:15-37 | the new buffer and the output are DelayStep of the old buffer |
| Transforms.DelayTransform.Reset | include/fluxgraph/transform/delay.hpp:39-42 | the buffer is emptied, so the next input passes straight through |
| Transforms.DelayTransform.Clone | include/fluxgraph/transform/delay.hpp:44-49 | the copy is fresh and steps exactly as the original would |
| Transforms.SumConstant | include/fluxgraph/transform/moving_average.hpp:31 | the sum of n equal samples k is n·k |
| Transforms.MovingAverageStep | include/fluxgraph/transform/moving_average.hpp:16-33 | the window never exceeds its size and ends with the input; the output is the window's mean, or 0 for an empty window |
| Transforms.MovingAverageRunFromHistory | include/fluxgraph/transform/moving_average.hpp:16-33 | after any history the window holds exactly the last `window_size` samples seen |
| Transforms.MovingAverageWindow | include/fluxgraph/transform/moving_average.hpp:9-33 | from empty, the window after a run is the run's last `window_size` inputs |
| Transforms.MovingAverageConstant | include/fluxgraph/transform/moving_average.hpp:16-33 | a constant input over a window of that constant averages to the constant |
| Transforms.MovingAverageTransform.constructor | include/fluxgraph/transform/moving_average.hpp:12-14 | a new average has no samples |
| Transforms.MovingAverageTransform.Apply | include/fluxgraph/transform/moving_average.hpp:16-33 | samples and output are MovingAverageStep of the old samples |
| Transforms.MovingAverageTransform.Reset | include/fluxgraph/transform/moving_average.hpp:35-37 | the samples are cleared |
| Transforms.MovingAverageTransform.Clone | include/fluxgraph/transform/moving_average.hpp:39-43 | the copy is fresh with the same window and samples |
| Transforms.RateLimit | include/fluxgraph/transform/rate_limiter.hpp:23-35 | with a positive rate and step, the output moves toward the input by at most rate·dt and reaches it when it is that close; otherwise it is the input |
| Transforms.RateLimiterTransform.constructor | include/fluxgraph/transform/rate_limiter.hpp:13-14 | a new limiter is uninitialised with last output 0 |
| Transforms.RateLimiterTransform.Apply | include/fluxgraph/transform/rate_limiter.hpp:16-36 | the first call passes the input through; later calls are RateLimit from the last output; the output is remembered |
| Transforms.RateLimiterTransform.Reset | include/fluxgraph/transform/rate_limiter.hpp:38-41 | back to uninitialised with last output 0 |
| Transforms.RateLimiterTransform.Clone | include/fluxgraph/transform/rate_limiter.hpp:43-48 | the copy is fresh with the same rate, last output and flag |
| Transforms.ApplyTransform | include/fluxgraph/transform/first_order_lag.hpp:18-34 | every kind keeps its kind when stepped; the stateless kinds keep their state |
| Transforms.ResetTransform | include/fluxgraph/transform/first_order_lag.hpp:36-39 | reset leaves the stateless kinds as they are |
| Transforms.ResetPassesThrough | include/fluxgraph/transform/rate_limiter.hpp:16-21 | after a reset the lag, delay and rate limiter pass their next input through |
| Namespaces.TablesInjective | src/core/namespace.cpp:10-20 | distinct interned paths have distinct ids |
| Namespaces.TablesCount | src/core/namespace.cpp:38-40 | the number of interned paths equals the next id |
| Namespaces.TablesExtend | src/core/namespace.cpp:16-19 | adding a new path under the next id keeps both tables inverse to each other |
| Namespaces.GrowsTransitive | src/core/namespace.cpp:10-20 | interning only ever adds bindings |
| Namespaces.SignalNamespace.constructor | src/core/namespace.cpp:7 | a new namespace is empty with next id 0 |
| Namespaces.SignalNamespace.Intern | src/core/namespace.cpp:10-20 | a known path returns its id and changes nothing; a new path gets the next id in both tables; the id is fresh and resolves back to the path |
| Namespaces.SignalNamespace.Resolve | src/core/namespace.cpp:22-28 | a known path gives its id, which looks up to the path; an unknown one gives INVALID_SIGNAL |
| Namespaces.SignalNamespace.Lookup | src/core/namespace.cpp:30-36 | an assigned id gives the path interned under it; any other id gives "" |
| Namespaces.SignalNamespace.Size | src/core/namespace.cpp:38-40 | the size is the number of ids handed out |
| Namespaces.SignalNamespace.Clear | src/core/namespace.cpp:51-55 | both tables empty, next id 0, every path resolves to INVALID_SIGNAL |
| Namespaces.FunctionNamespace.constructor | src/core/namespace.cpp:59 | all four tables empty, both counters 0 |
| Namespaces.FunctionNamespace.InternDevice | src/core/namespace.cpp:62-72 | as Intern for devices; the function tables are untouched |
| Namespaces.FunctionNamespace.InternFunction | src/core/namespace.cpp:74-84 | as Intern for functions; the device tables are untouched |
| Namespaces.FunctionNamespace.LookupDevice | src/core/namespace.cpp:86-92 | an assigned id gives its device; any other gives "" |
| Namespaces.FunctionNamespace.LookupFunction | src/core/namespace.cpp:94-100 | an assigned id gives its function; any other gives "" |
| Namespaces.FunctionNamespace.ResolveDevice | src/core/namespace.cpp:102-108 | a known device gives its id; an unknown one gives INVALID_DEVICE |
| Namespaces.FunctionNamespace.ResolveFunction | src/core/namespace.cpp:110-116 | a known function gives its id; an unknown one gives INVALID_FUNCTION |
| Namespaces.FunctionNamespace.Clear | src/core/namespace.cpp:118-125 | every table empty, both counters 0, nothing resolves |
| SignalStores.NormalizeUnit | src/core/signal_store.cpp:14-15 | the empty unit becomes "dimensionless"; any other unit is kept |
| SignalStores.DeclareOnWrite | src/core/signal_store.cpp:17-23 | the first non-dimensionless write declares its unit; existing declarations never change |
| SignalStores.DeclareOnWriteMismatch | src/core/signal_store.cpp:17-31 | a write is refused exactly when a unit was declared before it and differs |
| SignalStores.SignalStore.constructor | src/core/signal_store.cpp:6 | a new store is empty |
| SignalStores.SignalStore.Write | src/core/signal_store.cpp:9-34 | INVALID_SIGNAL is ignored; a unit mismatch fails and changes nothing; otherwise the signal holds the value with its normalised unit, and the unit may be declared |
| SignalStores.SignalStore.Read | src/core/signal_store.cpp:36-46 | a stored signal is returned; INVALID_SIGNAL or an unwritten id gives 0.0 dimensionless |
| SignalStores.SignalStore.ReadValue | src/core/signal_store.cpp:48 | the value of Read, 0.0 for an unwritten id |
| SignalStores.SignalStore.IsPhysicsDriven | src/core/signal_store.cpp:50-52 | true exactly for the marked ids |
| SignalStores.SignalStore.MarkPhysicsDriven | src/core/signal_store.cpp:54-60 | sets or clears the mark of one id and no other |
| SignalStores.SignalStore.DeclareUnit | src/core/signal_store.cpp:62-64 | sets the declared unit of one id; values and marks are unchanged |
| SignalStores.SignalStore.ValidateUnit | src/core/signal_store.cpp:66-75 | fails exactly when a declared unit differs from the normalised one, naming both |
| SignalStores.SignalStore.Size | src/core/signal_store.cpp:87 | the number of stored signals |
| SignalStores.SignalStore.Reinit | server/service.cpp:90 | the store is replaced by an empty one, declared units included |
| SignalStores.SignalStore.Clear | src/core/signal_store.cpp:89-93 | values and marks are dropped, declared units kept, every read gives the default |
| Engines.Written | src/core/signal_store.cpp:9-34 | a store write over the store's tables: refused exactly on a unit mismatch; only the written id changes; marks are kept |
| Engines.WriteStore | src/core/signal_store.cpp:9-34 | writing to the store object leaves exactly the tables Written computes |
| Engines.Snapshots | src/engine.cpp:66-70 | one snapshot per edge |
| Engines.EdgesRun | src/engine.cpp:72-80 | stage 2 keeps the edge count, the declared units and the marks |
| Engines.EdgeStep | src/engine.cpp:75 | one edge step changes only the edge's transform state |
| Engines.ModelsRun | src/model/thermal_mass.cpp:20-35 | stage 3 keeps the model count |
| Engines.ModelStep | src/model/thermal_mass.cpp:20-31 | one model step changes only the model's temperature |
| Engines.Fired | src/engine.cpp:97-104 | a firing rule emits one command per action, in action order, with that action's device, function and arguments |
| Engines.Engine.constructor | src/engine.cpp:6 | a new engine has no program |
| Engines.Engine.Load | src/engine.cpp:10-15 | the program's edges, models and rules replace the engine's, which is marked loaded |
| Engines.Engine.SnapshotInputs | src/engine.cpp:66-70 | each edge caches its source's current value |
| Engines.Engine.ProcessEdges | src/engine.cpp:72-80 | edges and store end as EdgesRun says |
| Engines.TickEdge | src/engine.cpp:73-79 | one edge steps its transform on its snapshot and writes the output as `Written` says, or the store is left alone when the write is refused |
| Engines.Engine.UpdateModels | src/engine.cpp:82-86 | models and store end as ModelsRun says |
| Engines.TickModel | src/model/thermal_mass.cpp:20-35 | one model steps from the store's power and ambient values, writes its temperature in degC and, only when the write is accepted, marks it physics-driven |
| Engines.Engine.EvaluateRules | src/engine.cpp:94-107 | the queue gains the commands of every rule whose condition holds, in rule order |
| Engines.Engine.Emit | src/engine.cpp:98-104 | a firing rule appends exactly its Fired commands to the queue |
| Engines.Engine.Tick | src/engine.cpp:17-42 | without a program the tick fails and changes nothing; otherwise engine and store end as TickResult says |
| Engines.Engine.DrainCommands | src/engine.cpp:44-48 | returns the queue and leaves it empty |
| Engines.Engine.Reset | src/engine.cpp:50-64 | every model and every transform is reset, snapshots are zeroed, and the queue is cleared |
| Engines.EdgesRunStops | src/engine.cpp:72-80 | once a write is refused, later edges do not run |
| Engines.ModelsRunStops | src/engine.cpp:82-86 | once a write is refused, later models do not run |
| Engines.EdgesRunKeeps | src/engine.cpp:72-80 | each edge is either untouched or stepped once; edges not reached are untouched |
| Engines.EdgesRunSteps | src/engine.cpp:72-80 | when stage 2 succeeds, every edge's transform has stepped once on its snapshot |
| Engines.EdgesRunFails | src/engine.cpp:72-80 | stage 2 fails exactly when some target has a declared unit other than dimensionless, and reports the first such edge |
| Engines.EdgesRunWrites | src/engine.cpp:72-80 | with distinct targets, each target holds its edge's output, dimensionless, and no other signal changes |
| Engines.ModelsRunSteps | src/model/thermal_mass.cpp:20-35 | when stage 3 succeeds, each model has stepped once, on the values its predecessors left |
| Engines.ModelsRunKeeps | src/model/thermal_mass.cpp:20-35 | a model tick changes only its temperature |
| Engines.ModelsRunDeclares | src/model/thermal_mass.cpp:33-34 | existing declared units are kept; new ones are "degC"; marks only grow |
| Engines.ModelsRunFails | src/model/thermal_mass.cpp:33 | stage 3 fails exactly when some model's temperature signal has a declared unit other than degC, and reports the first |
| Engines.ModelsRunWrites | src/model/thermal_mass.cpp:33 | with distinct outputs, each output holds its model's new temperature in degC, and no other signal changes |
| Engines.ModelsRunKeepsDriven | src/model/thermal_mass.cpp:34 | stage 3 never clears a physics-driven mark |
| Engines.ModelsRunMarks | src/model/thermal_mass.cpp:34 | after stage 3 the marked ids are the old ones plus every model output reached |
| Engines.RuleCommandsAppend | src/engine.cpp:94-107 | the commands of two rule lists are the concatenation of each list's commands |
| Engines.RuleCommandsMembers | src/engine.cpp:94-107 | a command is emitted exactly when some rule fires and it is one of that rule's actions |
| Engines.RuleCommands | src/engine.cpp:94-107 | the commands of the firing rules, rule by rule; characterised by RuleCommandsAppend and RuleCommandsMembers |
| Engines.TickReadsStartValues | src/engine.cpp:28-32 | every edge reads its source as it stood when the tick began, and on success its transform stepped on that value |
| Engines.TickFails | src/engine.cpp:17-42 | a tick fails exactly on a unit conflict at an edge target or model output, and then emits no commands |
| Engines.TickResult | src/engine.cpp:17-42 | a tick keeps the numbers of edges and models, only appends to the queue, and leaves the queue as it was when a write is refused, with a store failure |
| Engines.UniqueWritersSplit | src/graph/compiler.cpp:170-194 | unique writers mean distinct edge targets, distinct model outputs, and no signal shared between the two |
| Engines.TickEdgeWrites | src/engine.cpp:28-32 | after a successful tick each edge target holds its transform's output on the start value of its source |
| Engines.TickModelWrites | src/engine.cpp:34-35 | after a successful tick each model output holds the model's new temperature in degC and is marked physics-driven |
| Engines.ResetForgetsStep | src/engine.cpp:50-64 | resetting a stepped transform gives the same state as resetting the original |
| Engines.TickThenReset | src/engine.cpp:50-64 | a reset after a tick yields what a reset before it would have |
| Compiler.VariantTypeName | src/graph/compiler.cpp:35-46 | each alternative has its own name |
| Compiler.RequireParam | src/graph/compiler.cpp:24-33 | present gives the value; missing gives the missing-parameter error at context/name |
| Compiler.AsDouble | src/graph/compiler.cpp:48-57 | doubles and int64s convert; anything else is a type error naming the kind |
| Compiler.AsInt64 | src/graph/compiler.cpp:59-65 | only an int64 converts |
| Compiler.AsString | src/graph/compiler.cpp:67-73 | only a string converts |
| Compiler.NumberParam | src/graph/compiler.cpp:231-234 | succeeds exactly when the parameter is present and a double or int64; missing gives the missing-parameter error at the context, another type a type error at context/name |
| Compiler.StringParam | src/graph/compiler.cpp:325-333 | succeeds exactly when the parameter is present and a string, with that string; otherwise the missing-parameter or type error |
| Compiler.AsInt64Param | src/graph/compiler.cpp:297-299 | succeeds exactly when the parameter is present and an int64, with that value; a double is refused, not narrowed |
| Compiler.OptionalBound | src/graph/compiler.cpp:238-243 | an absent key is no bound; a present number is a bound; any other present type is a type error at context/key |
| Compiler.ParamRoundTrip | src/graph/compiler.cpp:24-57 | a number stored under a key reads back as that number; a missing key is reported by name |
| Compiler.TransformTypeName | src/graph/compiler.cpp:226-308 | every transform kind is one of the eight names the compiler accepts |
| Compiler.ParseTransform | src/graph/compiler.cpp:226-308 | an unknown type is rejected by name; a parsed transform has the requested type, starts in its reset state, and a moving average has window ≥ 1 |
| Compiler.MovingAverageWindow | src/graph/compiler.cpp:296-305 | a moving average parses exactly when its window is at least 1 |
| Compiler.SaturationKeys | src/graph/compiler.cpp:264-280 | `min`/`max` are read; without either key, `min_value` is required |
| Compiler.RateLimiterKeys | src/graph/compiler.cpp:286-295 | `max_rate_per_sec` is read and the limiter starts uninitialised |
| Compiler.NoiseSeed | src/graph/compiler.cpp:255-263 | the seed defaults to 0 and is truncated to 32 bits |
| Compiler.LinearUnclamped | src/graph/compiler.cpp:230-245 | a linear edge without clamps computes scale·x + offset |
| Compiler.ParseThermalParams | src/graph/compiler.cpp:311-337 | success means all six thermal-mass parameters were present |
| Compiler.ParseModel | src/graph/compiler.cpp:311-341 | a non-thermal-mass type is rejected; a parsed model holds its parameters, starts at its initial temperature and uses the interned ids of its three signals |
| Compiler.ModelError | src/graph/compiler.cpp:311-341 | no error exactly when the type is thermal_mass and its parameters parse; any error is a parse error |
| Compiler.StabilityLimit | src/model/thermal_mass.cpp:39-48 | no limit when h ≤ 0, otherwise limit·h = 2·C |
| Compiler.Unstable | src/graph/compiler.cpp:493-494 | a model is unstable at dt exactly when it cools (h > 0) and dt * h exceeds 2 * C, that is dt is past the limit 2C/h |
| Compiler.ValidateStability | src/graph/compiler.cpp:490-501 | passes exactly when no model is unstable at dt, and otherwise reports the first that is |
| Compiler.RegisterWriters | src/graph/compiler.cpp:170-180 | passes exactly when every signal has one writer, otherwise names the first duplicate and both owners |
| Compiler.ComparatorsComplement | src/graph/compiler.cpp:108-137 | != negates ==, >= negates <, <= negates >, and one of <, ==, > always holds |
| Compiler.CompileRule | src/graph/compiler.cpp:205-221 | an unsupported condition is rejected and changes nothing; a compiled rule keeps id and on_error, reads its interned signal, and has one device/function pair and argument set per action |
| Compiler.Shape | src/graph/compiler.cpp:422-433 | the graph of the compiled edges, edge for edge |
| Compiler.Writers | src/graph/compiler.cpp:182-194 | edge targets first, then model outputs, with their owner labels |
| Compiler.CompileEdge | src/graph/compiler.cpp:162-168 | interns both paths and parses the transform, or fails with the transform's error |
| Compiler.CompileEdges | src/graph/compiler.cpp:162-168 | every edge compiled in spec order, or the error of one edge's transform |
| Compiler.CompileModels | src/graph/compiler.cpp:151-155 | every model compiled in spec order |
| Compiler.CompileRules | src/graph/compiler.cpp:204-221 | every rule compiled in spec order; fails exactly when some condition is unsupported |
| Compiler.ArgsOf | src/graph/compiler.cpp:213-218 | one argument set per action, in order |
| Compiler.ArgsOfCompiled | src/graph/compiler.cpp:213-218 | a compiled rule's argument list is its actions' arguments |
| Compiler.RankingReorder | src/graph/compiler.cpp:406-419 | reordering edges keeps a ranking valid |
| Compiler.ShapeReorder | src/graph/compiler.cpp:406-419 | reordering commutes with taking the graph |
| Compiler.CompileOrderedEdges | src/graph/compiler.cpp:161-202 | edges compiled, checked for unique writers and cycles, and scheduled delay-first; a reported cycle is a cycle of the compiled graph |
| Compiler.Compile | src/graph/compiler.cpp:145-224 | succeeds exactly when the spec is accepted against the ids it ends with (models parse and bind, stable for a positive dt, transforms parse, one writer per signal, no non-delay cycle, every condition supported); a program then holds the compiled models, rules and scheduled edges; an error is that of the first failing stage in compile order (models, stability, transforms, writers, cycles, rules), every earlier stage having passed, and never a sort failure |
| Compiler.CompileGraph | src/graph/compiler.cpp:150-201 | models, stability, then edges in execution order; succeeds exactly when models and edges are accepted; an error is that of the first failing stage, every earlier stage having passed |
| Compiler.CompileStableModels | src/graph/compiler.cpp:150-159 | succeeds exactly when every model parses and binds and, for a positive dt, none is unstable; an error is the first bad model or the first unstable one |
| Compiler.RejectsExcludesAccepts | src/graph/compiler.cpp:145-224 | no error compile may report for a spec coexists with the spec's acceptance |
| Compiler.RejectsDetermined | src/graph/compiler.cpp:145-224 | the reported error is determined by the spec: any two errors compile may report are equal, except that any of several cycles may be named |
| Compiler.RejectsStage | src/graph/compiler.cpp:145-224 | errors of two different stages are never both possible for one spec |
| Compiler.ModelErrorComesFirst | src/graph/compiler.cpp:151-155 | when some model does not parse, the reported error is the first model's parse error, whatever the later stages hold |
| Compiler.FirstDuplicateUnique | src/graph/compiler.cpp:170-180 | the first duplicate writer, and its owner, are unique |
| Compiler.FirstUnstableUnique | src/graph/compiler.cpp:490-501 | the first unstable model is unique |
| Compiler.ModelsAcceptedGrows | src/graph/compiler.cpp:150-159 | interning later paths keeps accepted models accepted and the same |
| Compiler.ModelsFromGrows | src/graph/compiler.cpp:150-165 | interning more paths leaves compiled models as they were |
| Compiler.EdgesOfGrows | src/graph/compiler.cpp:161-168 | interning more paths leaves compiled edges as they were |
| Compiler.RuleCompiledGrows | src/graph/compiler.cpp:204-221 | interning more names leaves a compiled rule as it was |
| Compiler.WritersReorder | src/graph/compiler.cpp:406-419 | sorting the edges keeps writers unique |
| Compiler.WriterMoves | src/graph/compiler.cpp:406-419 | after sorting, each writer slot holds the writer of its source position |
| Compiler.OrderedFromGrows | src/graph/compiler.cpp:162-168 | compiled edges stay valid while the namespace only grows |
| Graphs.RankDropsAlongWalk | src/graph/compiler.cpp:422-487 | a ranking decreases strictly along every non-delay walk |
| Graphs.RankingExcludesCycle | src/graph/compiler.cpp:422-487 | a graph with a ranking has no non-delay cycle |
| Graphs.MinOf | src/graph/compiler.cpp:381-383 | the smallest element of a non-empty set, as `*ready.begin()`, and the one `Least` names |
| Graphs.LeastWitness | src/graph/compiler.cpp:381-383 | a non-empty set of naturals has an element no larger than any other |
| Graphs.Least | src/graph/compiler.cpp:381-383 | the least element of a non-empty set: in the set and no larger than any element |
| Graphs.Range | src/graph/compiler.cpp:406-419 | the set 0..n−1, of size n |
| Graphs.DistinctCardinality | src/graph/compiler.cpp:401 | a sequence without repeats has as many elements as entries |
| Graphs.DistinctIndicesCoverRange | src/graph/compiler.cpp:401-419 | n distinct indices below n cover every index |
| CycleDetection.BuildAdjacency | src/graph/compiler.cpp:423-433 | the lists hold exactly the non-delay edges and every endpoint has a list |
| CycleDetection.IndexOf | src/graph/compiler.cpp:455 | the first position of a stack entry |
| CycleDetection.Dfs | src/graph/compiler.cpp:440-465 | the search invariant is kept; a finished node gets a finishing time; a reported path is a cycle |
| CycleDetection.ExploreNeighbors | src/graph/compiler.cpp:448-461 | without a cycle, every neighbour is finished afterwards |
| CycleDetection.VisitNeighbor | src/graph/compiler.cpp:449-460 | an unvisited neighbour is searched; a neighbour on the stack closes a cycle from its stack position |
| DepthFirst.BackEdgeCloses | src/graph/compiler.cpp:454-459 | the stack from the neighbour's position, closed by the back edge to it, is a cycle of the adjacency lists |
| CycleDetection.AdjCycleIsCycle | src/graph/compiler.cpp:423-433 | a cycle in the adjacency lists is a cycle of non-delay edges |
| CycleDetection.FinishTimesRank | src/graph/compiler.cpp:463-464 | when the search ends without a cycle, finishing times rank the graph |
| CycleDetection.DetectCycles | src/graph/compiler.cpp:422-487 | fails exactly when the non-delay graph has a cycle, reporting a real cycle; passes with a ranking |
| TopologicalOrder.IndicesWhere | src/graph/compiler.cpp:349-355 | a selection of edge indices, never longer than the prefix it scans |
| TopologicalOrder.IndicesWhereSelects | src/graph/compiler.cpp:349-355 | exactly the indices of the requested kind, increasing |
| TopologicalOrder.PartitionSize | src/graph/compiler.cpp:349-355 | delay and immediate indices together number the edges |
| TopologicalOrder.IncreasingIsDistinct | src/graph/compiler.cpp:349-355 | an increasing list has no repeats |
| TopologicalOrder.Partition | src/graph/compiler.cpp:344-355 | the loop builds the delay and the immediate index lists |
| TopologicalOrder.IntoInsert | src/graph/compiler.cpp:366 | adding an edge raises its target's in-degree by one |
| TopologicalOrder.IntoRemove | src/graph/compiler.cpp:395 | removing an edge lowers its target's in-degree by one |
| TopologicalOrder.ImmediateIndicesFacts | src/graph/compiler.cpp:349-355 | the immediate indices are distinct and are exactly the non-delay edges |
| TopologicalOrder.OutgoingStep | src/graph/compiler.cpp:365 | one more edge is appended to its source's outgoing list |
| TopologicalOrder.OutgoingDone | src/graph/compiler.cpp:362-367 | the finished outgoing lists hold each source's non-delay edges in index order |
| TopologicalOrder.DegreesStep | src/graph/compiler.cpp:366 | the in-degree count follows one more edge |
| TopologicalOrder.SignalsStep | src/graph/compiler.cpp:363-364 | the signal set gains both endpoints of one more edge |
| TopologicalOrder.BuildMaps | src/graph/compiler.cpp:358-367 | outgoing lists (each signal's non-delay edges in spec order), in-degrees and the signal set of the non-delay graph |
| TopologicalOrder.AddImmediate | src/graph/compiler.cpp:362-367 | one more non-delay edge is listed under its source, counted at its target, and adds both endpoints |
| TopologicalOrder.ExtendLists | src/graph/compiler.cpp:362-367 | pushing a list of edges appends, under each signal, exactly the listed edges leaving it, in list order |
| TopologicalOrder.InitialReady | src/graph/compiler.cpp:370-375 | the signals with in-degree 0 |
| TopologicalOrder.TakePending | src/graph/compiler.cpp:390-394 | processing an edge removes it from the pending edges |
| TopologicalOrder.TakeKeepsDegrees | src/graph/compiler.cpp:395 | in-degrees keep counting the pending edges |
| TopologicalOrder.TakeKeepsReady | src/graph/compiler.cpp:395-397 | a target whose count reaches 0 becomes ready |
| TopologicalOrder.TakeKeepsSorted | src/graph/compiler.cpp:394 | the sorted list stays writer-before-reader |
| TopologicalOrder.TakeEdge | src/graph/compiler.cpp:390-398 | the Kahn invariant is kept and the state moves as the reference `Release` of that edge: processed, appended, its target readied once its last writer is processed |
| TopologicalOrder.ProcessOutgoing | src/graph/compiler.cpp:385-398 | every outgoing edge of the signal is processed once, in list order, as the reference `ReleaseAll` |
| TopologicalOrder.DrainReady | src/graph/compiler.cpp:381-399 | the loop ends with nothing ready, the invariant kept, and the state the reference run `Drain` reaches from the start |
| TopologicalOrder.TakeLeast | src/graph/compiler.cpp:381-398 | one loop pass takes the least ready signal, keeps the invariant and moves the state as the reference round does |
| TopologicalOrder.DrainRound | src/graph/compiler.cpp:381-398 | each round of the reference run takes the least ready signal and releases its outgoing edges |
| TopologicalOrder.MaxSourceRank | src/graph/compiler.cpp:401-404 | a stuck edge set has an edge whose source ranks highest |
| TopologicalOrder.StuckExcludesRanking | src/graph/compiler.cpp:401-404 | edges that all wait on each other admit no ranking |
| TopologicalOrder.Reorder | src/graph/compiler.cpp:406-419 | the edges picked by an index list, in its order |
| TopologicalOrder.StartInv | src/graph/compiler.cpp:370-379 | the Kahn invariant holds before the loop |
| TopologicalOrder.IncompleteExcludesRanking | src/graph/compiler.cpp:401-404 | an incomplete sort means the graph has no ranking |
| TopologicalOrder.CompleteSortsAll | src/graph/compiler.cpp:401 | a complete sort holds every non-delay edge |
| TopologicalOrder.CompleteOrder | src/graph/compiler.cpp:406-419 | delay edges then sorted edges is a permutation, delays first, every writer before its readers |
| TopologicalOrder.OrderIsPermutation | src/graph/compiler.cpp:406-419 | delay indices then a complete sort name every edge exactly once |
| TopologicalOrder.OrderDelayFirst | src/graph/compiler.cpp:410-412 | in the reordered edges every delay edge precedes every non-delay edge |
| TopologicalOrder.OrderWritersFirst | src/graph/compiler.cpp:414-416 | in the reordered edges every non-delay writer of a signal precedes its non-delay readers |
| TopologicalOrder.TopologicalSort | src/graph/compiler.cpp:343-420 | succeeds exactly when Kahn's run (least ready signal first) releases every non-delay edge, and then returns the delay edges in spec order followed by exactly that run's order; the result is a permutation with writers before readers; failure only when no ranking exists |
| Documents.Decimal | src/loaders/json_loader.cpp:55 | `std::to_string` of an index is a non-empty string of digits |
| Documents.DecimalRoundTrip | src/loaders/json_loader.cpp:55 | the digits read back as the index |
| Documents.Lookup | src/loaders/yaml_loader.cpp:49 | the value of the first entry with the key, or None exactly when no entry has it |
| Documents.EachOk | src/loaders/json_loader.cpp:158-163 | an array reads exactly when every entry does, one spec per entry in order |
| Documents.EachFirstError | src/loaders/json_loader.cpp:158-163 | a failed array reports its first failing entry |
| Documents.EachStop | src/loaders/json_loader.cpp:158-163 | entries after a failure are not read |
| Documents.Each | src/loaders/json_loader.cpp:158-163 | the section walk; characterised by EachOk, EachFirstError and EachStop |
| JsonLoader.Member | src/loaders/json_loader.cpp:35-39 | `contains` then `[]`: only an object has members |
| JsonLoader.AsString | src/loaders/json_loader.cpp:39 | only a string converts |
| JsonLoader.Int64Of | src/loaders/json_loader.cpp:19 | within the int64 range and congruent modulo 2^64; in-range values are kept |
| JsonLoader.VariantOf | src/loaders/json_loader.cpp:15-27 | exactly the scalars convert; anything else is an error at its path |
| JsonLoader.VariantRoundTrip | src/loaders/json_loader.cpp:15-27 | a variant written as JSON reads back unchanged, and a convertible scalar is restored by writing its variant |
| JsonLoader.ParamsOfOk | src/loaders/json_loader.cpp:41-46 | parameters read exactly when every value is a scalar |
| JsonLoader.ParamsOfKeys | src/loaders/json_loader.cpp:41-46 | one parameter per member key |
| JsonLoader.ParamsOfValues | src/loaders/json_loader.cpp:41-46 | each key holds the value of its last member |
| JsonLoader.ParamsOf | src/loaders/json_loader.cpp:41-46 | the params loop; characterised by ParamsOfOk, ParamsOfKeys and ParamsOfValues |
| JsonLoader.OptionalParams | src/loaders/json_loader.cpp:41 | absent or not an object gives no parameters |
| JsonLoader.TransformOf | src/loaders/json_loader.cpp:30-49 | `type` is required and a string; params come from `params` |
| JsonLoader.EdgeOf | src/loaders/json_loader.cpp:52-72 | `source`, `target`, `transform` are required in that order; the parsed edge carries them |
| JsonLoader.ModelOf | src/loaders/json_loader.cpp:75-98 | `id` and `type` are required; params optional |
| JsonLoader.ActionOf | src/loaders/json_loader.cpp:119-140 | `device` and `function` are required; args optional |
| JsonLoader.ActionsOf | src/loaders/json_loader.cpp:117 | absent or not an array gives no actions |
| JsonLoader.RuleOf | src/loaders/json_loader.cpp:101-151 | `id` and `condition` are required; `on_error` defaults to log_and_continue |
| JsonLoader.Section | src/loaders/json_loader.cpp:158 | an absent or non-array section is empty |
| JsonLoader.SectionEntries | src/loaders/json_loader.cpp:157-179 | one spec per array entry, in order, at path "/key/i" |
| JsonLoader.LoadJson | src/loaders/json_loader.cpp:202-211 | a parse error is prefixed; an empty object gives the empty graph |
| JsonLoader.GraphOf | src/loaders/json_loader.cpp:153-182 | models, then edges, then rules, each an optional array section; characterised by SectionEntries |
| JsonLoader.ReadParams | src/loaders/json_loader.cpp:42-45 | the loop computes ParamsOf |
| JsonLoader.ParamsStop | src/loaders/json_loader.cpp:42-45 | members after a failure are not read |
| JsonLoader.ParseActions | src/loaders/json_loader.cpp:117-142 | the actions loop computes the actions in order |
| JsonLoader.ParseModels | src/loaders/json_loader.cpp:158-163 | the models loop |
| JsonLoader.ParseEdges | src/loaders/json_loader.cpp:166-171 | the edges loop |
| JsonLoader.ParseRules | src/loaders/json_loader.cpp:174-179 | the rules loop |
| YamlLoader.Field | src/loaders/yaml_loader.cpp:49 | only a mapping has fields |
| YamlLoader.AsString | src/loaders/yaml_loader.cpp:53 | a scalar gives its text and the null node "null"; collections do not convert |
| YamlLoader.FormatYamlError | src/loaders/yaml_loader.cpp:14-17 | the message carries the 1-based line and column |
| YamlLoader.VariantOf | src/loaders/yaml_loader.cpp:20-41 | only scalars convert; "true"/"false" are booleans; text with no '.' is never a double; unconvertible text stays a string |
| YamlLoader.ParamsOfOk | src/loaders/yaml_loader.cpp:55-61 | parameters read exactly when every value is a scalar |
| YamlLoader.ParamsOfKeys | src/loaders/yaml_loader.cpp:55-61 | one parameter per mapping key |
| YamlLoader.ParamsOfValues | src/loaders/yaml_loader.cpp:55-61 | each key holds the value of its last entry |
| YamlLoader.ParamsOf | src/loaders/yaml_loader.cpp:55-61 | the params loop; characterised by ParamsOfOk, ParamsOfKeys and ParamsOfValues |
| YamlLoader.OptionalParams | src/loaders/yaml_loader.cpp:55 | absent or not a mapping gives no parameters |
| YamlLoader.TransformOf | src/loaders/yaml_loader.cpp:44-64 | `type` is required; params come from `params` |
| YamlLoader.EdgeOf | src/loaders/yaml_loader.cpp:67-86 | a scalar node cannot be indexed; `source` and `target` are required; the transform is read only when it is a mapping |
| YamlLoader.ModelOf | src/loaders/yaml_loader.cpp:89-112 | `id` and `type` are required; params optional |
| YamlLoader.ActionOf | src/loaders/yaml_loader.cpp:131-154 | `device` and `function` are required; args optional |
| YamlLoader.ActionsOf | src/loaders/yaml_loader.cpp:130 | absent or not a sequence gives no actions |
| YamlLoader.RuleOf | src/loaders/yaml_loader.cpp:115-165 | `id` and `condition` are required; `on_error` defaults to log_and_continue |
| YamlLoader.Section | src/loaders/yaml_loader.cpp:176 | an absent or non-sequence section is empty |
| YamlLoader.SectionEntries | src/loaders/yaml_loader.cpp:175-200 | one spec per sequence entry, in order |
| YamlLoader.LoadYaml | src/loaders/yaml_loader.cpp:169-209 | a syntax error is reported at its position; an empty document gives the empty graph |
| YamlLoader.ReadParams | src/loaders/yaml_loader.cpp:56-60 | the loop computes ParamsOf |
| YamlLoader.ParamsStop | src/loaders/yaml_loader.cpp:56-60 | entries after a failure are not read |
| YamlLoader.ParseActions | src/loaders/yaml_loader.cpp:130-156 | the actions loop |
| YamlLoader.ParseEdges | src/loaders/yaml_loader.cpp:176-182 | the edges loop |
| YamlLoader.ParseModels | src/loaders/yaml_loader.cpp:185-191 | the models loop |
| YamlLoader.ParseRules | src/loaders/yaml_loader.cpp:194-200 | the rules loop |
| Service.PruneStaleSessions | server/service.cpp:521-541 | the active session is kept; another is dropped exactly when it is older than the 5 s timeout; the kept ones are unchanged |
| Service.Pruned | server/service.cpp:521-541 | keeps the active session and exactly the other sessions that are not stale, each unchanged |
| Service.PruneIdempotent | server/service.cpp:521-541 | pruning twice at the same instant prunes nothing more |
| Service.ExclusiveKept | server/service.cpp:179-202 | dropping sessions keeps device ownership exclusive |
| Service.FindConflict | server/service.cpp:179-202 | passes exactly when no session holds the provider id or a requested device; otherwise reports the first conflicting session in key order (std::map order) with the provider message before its first owned requested device |
| Service.FirstKey | server/service.cpp:181 | a key of a non-empty map that no other key precedes, as the first step of a std::map walk |
| Service.LessIrreflexive | server/service.hpp:106 | the key order never puts a string before itself |
| Service.LessTransitive | server/service.hpp:106 | the key order is transitive |
| Service.FirstOwnedAt | server/service.cpp:190-200 | the requested device reported is the first in request order that the session owns |
| Service.AllReady | server/service.cpp:305-313 | true exactly when sessions exist and all have submitted the current generation |
| Service.FilterCommands | server/service.cpp:543-570 | an unknown session gets nothing; otherwise the commands whose device the session owns, in order |
| Service.NoDevicesNoCommands | server/service.cpp:553-556 | a session without devices receives no commands |
| Service.OwnedCommandsMembers | server/service.cpp:558-567 | a command is delivered exactly when its device name is one the session owns |
| Service.OwnedCommands | server/service.cpp:558-567 | the queued commands whose device the session owns, in queue order; its members are characterised by OwnedCommandsMembers |
| Service.RoutedOnce | server/service.cpp:179-202 | with exclusive ownership no command reaches two sessions |
| Service.UpdatesSpareProtected | server/service.cpp:289-300 | provider writes never change a protected signal or a physics mark |
| Service.UpdatesRejected | server/service.cpp:289-298 | an unknown or protected path makes the update fail |
| Service.UpdatesRejectedWhy | server/service.cpp:289-300 | a failure other than a store exception comes from an unknown or protected path |
| Service.UpdatesRun | server/service.cpp:289-300 | the update loop: unknown path, protected signal or refused write stops it with that status; its properties are in UpdatesSpareProtected, UpdatesRejected, UpdatesRejectedWhy and UpdatesRunStops |
| Service.EdgeTargetIdsMembers | server/service.cpp:104-109 | every resolvable edge target is protected |
| Service.CompiledTargetsProtected | server/service.cpp:100-109 | every compiled edge target is in the protected set |
| Service.CompiledRulesWellFormed | src/graph/compiler.cpp:213-218 | compiled rules have one argument set per action |
| Service.BarrierOpens | server/service.cpp:302-313 | after marking the caller, the barrier opens exactly when every other session had already submitted |
| Service.NextGenerationAwaitsAll | server/service.cpp:320-321 | a new generation starts with nobody having submitted it |
| Service.ExclusiveAdd | server/service.cpp:179-215 | registering without conflict keeps ownership exclusive |
| Service.TickKeepsDriven | src/model/thermal_mass.cpp:34 | a tick never clears a physics-driven mark |
| Service.EdgeTargetIdsSnoc | server/service.cpp:104-109 | one more edge adds its resolved target |
| Service.TempIdsSnoc | server/service.cpp:111-125 | one more model adds its resolved temperature signal |
| Service.ProtectEdgeTargets | server/service.cpp:104-109 | the loop collects the resolvable edge targets |
| Service.MarkTemperatures | server/service.cpp:111-125 | the loop collects and marks the thermal-mass outputs |
| Service.Authority | server/service.cpp:88-125 | a fresh store whose only marks are the model outputs, with the protected and owned sets |
| Service.UpdatesRunStops | server/service.cpp:289-300 | updates after a failure are not written |
| Service.MarkDriven | server/service.cpp:433-435 | the store's marks gain the given ids |
| Service.ClearSubmissions | server/service.cpp:444-448 | every session is kept with its submission forgotten |
| Service.FluxGraphService.constructor | server/service.cpp:19-21 | a new service with the given dt, nothing loaded |
| Service.FluxGraphService.RestartClock | server/service.cpp:93-97 | time, generations and the completed tick start over |
| Service.FluxGraphService.Authorize | server/service.cpp:88-125 | a fresh store and the write authority of the spec |
| Service.FluxGraphService.Restart | server/service.cpp:88-125 | sessions dropped, clock restarted, authority rebuilt |
| Service.FluxGraphService.Activate | server/service.cpp:86 | the program is loaded and the hash recorded |
| Service.FluxGraphService.Install | server/service.cpp:85-129 | the program runs from a fresh start |
| Service.FluxGraphService.LoadConfig | server/service.cpp:31-146 | a matching non-empty hash changes nothing; an unknown format or loader error is refused with nothing changed; otherwise it succeeds exactly when the compiler accepts the spec, then runs the compiled program from a fresh start, and else reports the compiler's own error, that of the first failing stage, with nothing changed |
| Service.FluxGraphService.RegisterProvider | server/service.cpp:152-224 | not loaded, empty provider id, a conflict among live sessions: refused with its message (the first conflict in key order); otherwise the stale sessions are pruned and the new session awaits generation 0 |
| Service.FluxGraphService.UnregisterProvider | server/service.cpp:226-257 | an empty or unknown session id is refused; otherwise exactly that session is removed |
| Service.FluxGraphService.Touch | server/service.cpp:282-284 | the session's last update is now and stale others are pruned |
| Service.FluxGraphService.WriteUpdates | server/service.cpp:288-300 | the store and the outcome follow the update run |
| Service.FluxGraphService.MarkSubmitted | server/service.cpp:302-303 | the session has submitted the current generation |
| Service.FluxGraphService.RunTick | server/service.cpp:317 | engine and store follow TickResult from an empty queue |
| Service.FluxGraphService.Advance | server/service.cpp:318-326 | time and generation advance; the completed commands are recorded |
| Service.FluxGraphService.CompleteTick | server/service.cpp:315-329 | a tick that fails leaves the generation; one that succeeds advances it and returns the caller's commands |
| Service.FluxGraphService.UpdateSignals | server/service.cpp:263-375 | not loaded or unknown session is refused unchanged; a rejected update is reported; otherwise the caller waits, or as the last to arrive runs the tick and receives its commands |
| Service.FluxGraphService.WakeReply | server/service.cpp:347-372 | a waiter is answered only once its generation has completed, with its own commands |
| Service.FluxGraphService.Reset | server/service.cpp:415-460 | refused when not loaded; otherwise models and transforms reset, values cleared with units kept, model outputs re-marked, clock restarted, every session to resubmit |
| Cli.LastIndex | server/main.cpp:44 | `rfind`: None exactly when the character is absent, else its last position |
| Cli.FormatFromPath | server/main.cpp:43-56 | no dot is an error; a result is "yaml" or "json" |
| Cli.FormatOfExtension | server/main.cpp:48-55 | yaml/yml give yaml, json gives json, any other extension is named in the error |
| Cli.ScanAppend | server/main.cpp:65-93 | arguments are read left to right: a parsed prefix carries its settings into the rest |
| Cli.Scan | server/main.cpp:65-93 | the option loop; characterised by ScanAppend, HelpStopsParsing, LastOccurrenceWins and MalformedArguments |
| Cli.HelpStopsParsing | server/main.cpp:67-69 | `--help` ends parsing with exit 0, whatever follows |
| Cli.LastOccurrenceWins | server/main.cpp:70-87 | a repeated option overrides the earlier value |
| Cli.MalformedArguments | server/main.cpp:71-91 | a trailing option without a value, or an unknown argument, is a usage error with its message |
| Cli.ParseArguments | server/main.cpp:60-93 | the loop computes Scan from the defaults |
| Cli.CheckSettings | server/main.cpp:96-103 | valid exactly when 1024 ≤ port ≤ 65535 and dt > 0 |
| Cli.ServiceTimestepAsWritten | server/main.cpp:117 | the service is created with the default 0.1 s timestep |
| Cli.TimestepFlagIgnoredAsWritten | server/main.cpp:82-117 | `--dt 0.5` is parsed and accepted, yet the service as written runs at 0.1 s |
| Cli.Boot | server/main.cpp:58-142 | help exits 0, usage or invalid settings exit 1; otherwise a service at the parsed dt starts, preloaded when a config path is given; a preload serves exactly when the compiler accepts the spec, and a compile failure exits 1 with a rejected cause |

## Left out

- Check (server/service.cpp:466-478) and ReadSignals (server/service.cpp:381-409) are not modelled. They only read state: the health check compares a service name, and ReadSignals reads the store through SignalStore.Read and IsPhysicsDriven, which are modelled.
- `generate_session_id` draws on the wall clock and a random device; the session id is a parameter of RegisterProvider.
- `convert_command` only converts a command to its wire form, looking device and function names up through the modelled namespace; it is not modelled.
- `populate_tick_response_for_session_locked` is modelled only by the command list it returns (`Ticked`); the simulated time in the reply is not modelled.
- The UNIMPLEMENTED replies of builds without YAML or JSON support are not modelled; both formats are taken as enabled.
- The condition variable, its 2000 ms timeout and the unlock/notify order are not modelled. An early provider's wait is split into `Waiting(generation)` and the later Service.FluxGraphService.WakeReply.
- Service.FluxGraphService.WakeReply: `None` is the reply of a wait that ends with the generation still open (the timed-out case); the simulated time that reply carries is not modelled.
- Mutual exclusion between handlers (the state mutex) is not modelled: each handler runs as one atomic method.
- Logging to stdout/stderr is not modelled, nor is the tick-milestone logger.
- Time is an integer count of milliseconds on a monotonic clock, passed in as a parameter.
- Signal, device and function ids are unbounded naturals: the uint32 wrap after 2^32 − 1 interns is not modelled. The 64-bit generation counter is also unbounded.
- Doubles are reals. Infinite clamp bounds are `None`, and `exp`, the Gaussian draw and the thermal-mass Euler step are function parameters (`Numerics`, `heat`). NaN is not modelled.
- Transforms.ApplyTransform: the first-order lag's `1 − exp(−dt/τ)` and the noise draw come from parameters, so their outputs are stated only through those parameters.
- The condition regex and `std::stod` of its number are a parameter of type `ConditionSyntax`: a map from the supported condition texts to what they parse to.
- The JSON and YAML text parsers, `read_file`, and the file-reading loaders (`load_json_file`, `load_yaml_file`) are not modelled. The loaders start from a parsed document tree or the parser's error.
- JSON object members are kept in the order nlohmann's object iterates them: by key for the default `std::map` object type.
- YamlLoader.AsString: yaml-cpp's conversion message is shortened to "YAML error: bad conversion". YamlLoader.EdgeOf and its siblings shorten the subscript-on-scalar message in the same way; the library's mark text is not reproduced.
- A YAML mapping key that is not a scalar is not modelled: keys are strings.
- JsonLoader.AsString: nlohmann's type-error message is not reproduced; an error is returned instead.
- Cli.Boot: the gRPC server build, start-up failure, health-check and reflection plug-ins, and the signal handler are not modelled. `std::stoi` and `std::stod` are parameters, and their exceptions are not modelled.
- SignalStores.SignalStore.Reinit models the assignment `store_ = SignalStore()` in LoadConfig by emptying the same object.
- Service.FluxGraphService.LoadConfig: when compilation fails, the namespaces have already been cleared and partly refilled, while the engine keeps its old program. The contract says only that engine, store and service fields are unchanged, and leaves the namespaces unspecified.
- Transforms.DelayTransform.constructor: the `time_accumulated_` field is not modelled; the delay only ever sets it to 0 and copies it, and no output depends on it.
- Transforms.SamplesFor: for a step `dt` of 0 or below, `static_cast<size_t>(delay_sec / dt + 0.5)` converts a negative or infinite value, which is undefined behaviour in C++; the model uses 0 there, which the later clamp to 1 sample in Transforms.RequiredSamples turns into a one-sample delay.
- Service.Less orders session ids character by character, as `std::map<std::string, …>` orders them; the byte encoding of characters beyond ASCII is not modelled.
- CycleDetection.Dfs: the `found_cycle` early return at the top of the search is never reached (every call is made with no cycle found yet), so Dfs requires that no cycle has been found.

## Findings

| source | as written | input that shows it | evidently intended | confidence | as-written member | corrected member |
|---|---|---|---|---|---|---|
| server/main.cpp:117 | the service is constructed with its default timestep of 0.1 s; the `--dt` value is parsed, validated and printed but never passed on | `fluxgraph-server --dt 0.5`: the banner shows 0.5 s while every tick advances 0.1 s | the service runs at the parsed `--dt` | not executed | Cli.TimestepFlagIgnoredAsWritten | Cli.Boot |
