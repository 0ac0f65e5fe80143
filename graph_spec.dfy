/** The protocol-independent description of a graph
    (include/fluxgraph/graph/spec.hpp) and the errors its compilation raises. */
module GraphSpecs {
  import opened Types

  datatype TransformSpec = TransformSpec(typeName: string, params: Params)

  datatype EdgeSpec = EdgeSpec(sourcePath: string, targetPath: string, transform: TransformSpec)

  datatype ModelSpec = ModelSpec(id: string, typeName: string, params: Params)

  datatype ActionSpec = ActionSpec(device: string, functionName: string, args: Params)

  datatype RuleSpec = RuleSpec(id: string, condition: string, actions: seq<ActionSpec>, onError: string)

  datatype GraphSpec = GraphSpec(models: seq<ModelSpec>, edges: seq<EdgeSpec>, rules: seq<RuleSpec>)

  const EMPTY_GRAPH: GraphSpec := GraphSpec([], [], [])

  /** What `GraphCompiler::compile` throws, one constructor per message kind. */
  datatype CompileError =
    | MissingParameter(context: string, name: string)
    | TypeMismatch(path: string, expected: string, got: string)
    | InvalidParameter(path: string)
    | UnknownTransformType(typeName: string)
    | UnknownModelType(typeName: string)
    | StabilityViolation(modelId: string, limit: real, dt: real)
    | MultipleWriters(id: SignalId, owner: string, conflicting: string)
    | CycleDetected(cycle: seq<SignalId>)
    | TopologicalSortFailed
    | UnsupportedCondition(ruleId: string)
}
