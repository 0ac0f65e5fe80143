// The YAML loader's walk from a parsed document to a GraphSpec
// (src/loaders/yaml_loader.cpp). The text parser is not modelled: its
// output is the `Yaml` node tree, or the position and message of the
// syntax error it raised.

module YamlLoader {
  import opened Types
  import opened GraphSpecs
  import opened Documents

  /** A parsed YAML node. A scalar carries its text together with what the
      library's `as<int64_t>()` and `as<double>()` make of that text (None
      where the conversion throws); mappings list their entries in document
      order, keyed by their scalar keys. */
  datatype Yaml =
    | YNull
    | YScalar(text: string, asInt: Option<int>, asDouble: Option<real>)
    | YSeq(items: seq<Yaml>)
    | YMap(entries: seq<(string, Yaml)>)

  /** A syntax error: the parser's message and its 0-based position. */
  datatype SyntaxError = SyntaxError(message: string, line: nat, column: nat)

  /** What a YAML library exception becomes once `load_yaml_string` catches
      it. The library's own text (with its position) is shortened to its kind. */
  const BAD_CONVERSION := "YAML error: bad conversion"
  const BAD_SUBSCRIPT := "YAML error: operator[] call on a scalar"

  /** `node[key]` on a mapping or an empty or sequence node: the value of the
      first entry with that key, if any. (On a scalar it throws; the callers
      check for that first.) */
  function Field(node: Yaml, key: string): (r: Option<Yaml>)
    ensures r.Some? ==> node.YMap? && key in KeysOf(node.entries)
    ensures node.YMap? && r.None? ==> key !in KeysOf(node.entries)
  {
    if node.YMap? then Lookup(node.entries, key) else None
  }

  /** `as<std::string>()`: a scalar's text; the empty node reads as "null";
      a sequence or mapping does not convert. */
  function AsString(node: Yaml): (r: Result<string, string>)
    ensures r.Ok? <==> node.YScalar? || node.YNull?
    ensures node.YScalar? ==> r == Ok(node.text)
  {
    match node
    case YScalar(text, _, _) => Ok(text)
    case YNull => Ok("null")
    case _ => Err(BAD_CONVERSION)
  }

  function ErrorAt(path: string, message: string): string {
    "YAML parse error at " + path + ": " + message
  }

  function MissingField(path: string, field: string): string {
    ErrorAt(path, "Missing required field '" + field + "'")
  }

  /** `format_yaml_error`: the parser's message prefixed with the 1-based
      line and column of its mark. */
  function FormatYamlError(message: string, line: nat, column: nat): (r: string)
    ensures exists lineText, columnText ::
      && r == "YAML parse error at line " + lineText + ", column " + columnText + ": " + message
      && DecimalValue(lineText) == line + 1 && DecimalValue(columnText) == column + 1
  {
    DecimalRoundTrip(line + 1);
    DecimalRoundTrip(column + 1);
    "YAML parse error at line " + Decimal(line + 1) + ", column " + Decimal(column + 1) + ": " + message
  }

  // ---------------------------------------------------------------------------
  // Parameter values

  /** `yaml_to_variant`: a scalar's text decides its type. Only the literals
      "true" and "false" are booleans; text without a '.' is an int64 if it
      converts and never a double; other text a double if it converts;
      whatever does not convert stays a string, with its text. Anything but a
      scalar is an error naming `path`. */
  function VariantOf(node: Yaml, path: string): (r: Result<Variant, string>)
    ensures r.Ok? <==> node.YScalar?
    ensures r.Err? ==> r.error == ErrorAt(path, "Expected scalar value for Variant")
    ensures r.Ok? ==>
      && (r.value.VBool? <==> node.text == "true" || node.text == "false")
      && (r.value.VBool? ==> r.value.b == (node.text == "true"))
      && (r.value.VDouble? ==> '.' in node.text && node.asDouble == Some(r.value.d))
      && (r.value.VInt64? ==> '.' !in node.text && node.asInt == Some(r.value.i))
      && (r.value.VString? ==> r.value.s == node.text)
      && (r.value.VString? <==>
            && node.text != "true" && node.text != "false"
            && ('.' !in node.text ==> node.asInt.None?)
            && ('.' in node.text ==> node.asDouble.None?))
  {
    match node
    case YScalar(text, asInt, asDouble) =>
      if text == "true" || text == "false" then Ok(VBool(text == "true"))
      else if '.' !in text then (if asInt.Some? then Ok(VInt64(asInt.value)) else Ok(VString(text)))
      else if asDouble.Some? then Ok(VDouble(asDouble.value))
      else Ok(VString(text))
    case _ => Err(ErrorAt(path, "Expected scalar value for Variant"))
  }

  /** The parameter loop: each entry becomes a parameter, its value
      converted with the path "<base>/<key>". */
  function ParamsOf(entries: seq<(string, Yaml)>, base: string): Result<Params, string>
    decreases |entries|
  {
    if entries == [] then Ok(map[])
    else
      match ParamsOf(entries[..|entries| - 1], base)
      case Err(e) => Err(e)
      case Ok(p) =>
        var (key, value) := entries[|entries| - 1];
        match VariantOf(value, base + "/" + key)
        case Err(e) => Err(e)
        case Ok(v) => Ok(p[key := v])
  }

  /** The parameters are read exactly when every value is a scalar. */
  lemma {:induction false} ParamsOfOk(entries: seq<(string, Yaml)>, base: string)
    ensures ParamsOf(entries, base).Ok? <==> forall i :: 0 <= i < |entries| ==> entries[i].1.YScalar?
    decreases |entries|
  {
    if entries != [] {
      var init := entries[..|entries| - 1];
      ParamsOfOk(init, base);
      assert forall i :: 0 <= i < |init| ==> init[i] == entries[i];
    }
  }

  /** Read parameters have one entry per mapping key. */
  lemma {:induction false} ParamsOfKeys(entries: seq<(string, Yaml)>, base: string)
    requires ParamsOf(entries, base).Ok?
    ensures ParamsOf(entries, base).value.Keys == KeysOf(entries)
    decreases |entries|
  {
    if entries != [] {
      var init := entries[..|entries| - 1];
      var last := entries[|entries| - 1];
      ParamsOfKeys(init, base);
      assert forall i :: 0 <= i < |init| ==> init[i] == entries[i];
      assert KeysOf(entries) == KeysOf(init) + {last.0} by {
        forall key | key in KeysOf(entries) ensures key in KeysOf(init) + {last.0} {
          var i :| 0 <= i < |entries| && entries[i].0 == key;
          if i < |init| {
            assert init[i].0 == key;
          }
        }
      }
    }
  }

  /** Each key holds the converted value of the last entry with that key
      (a later duplicate key overwrites an earlier one). */
  lemma {:induction false} ParamsOfValues(entries: seq<(string, Yaml)>, base: string, i: nat)
    requires ParamsOf(entries, base).Ok? && i < |entries| && LastOfKey(entries, i)
    ensures entries[i].0 in ParamsOf(entries, base).value
    ensures VariantOf(entries[i].1, base + "/" + entries[i].0) == Ok(ParamsOf(entries, base).value[entries[i].0])
    decreases |entries|
  {
    var init := entries[..|entries| - 1];
    var last := entries[|entries| - 1];
    if i < |init| {
      assert init[i] == entries[i];
      assert LastOfKey(init, i);
      ParamsOfValues(init, base, i);
      assert entries[i].0 != last.0;
    }
  }

  /** `params`/`args`: read only when present and a mapping, else empty. */
  function OptionalParams(node: Yaml, key: string, path: string): (r: Result<Params, string>)
    ensures (Field(node, key).None? || !Field(node, key).value.YMap?) ==> r == Ok(map[])
  {
    var field := Field(node, key);
    if field.Some? && field.value.YMap? then ParamsOf(field.value.entries, path + "/" + key) else Ok(map[])
  }

  // ---------------------------------------------------------------------------
  // Specs

  /** `parse_transform` (called only on a mapping): `type` is required. */
  function TransformOf(basePath: string, node: Yaml): (r: Result<TransformSpec, string>)
    requires node.YMap?
    ensures Field(node, "type").None? ==> r == Err(MissingField(basePath + "/transform", "type"))
    ensures r.Ok? ==>
      && Field(node, "type").Some? && AsString(Field(node, "type").value) == Ok(r.value.typeName)
      && OptionalParams(node, "params", basePath + "/transform") == Ok(r.value.params)
  {
    var path := basePath + "/transform";
    if Field(node, "type").None? then Err(MissingField(path, "type"))
    else
      match AsString(Field(node, "type").value)
      case Err(e) => Err(e)
      case Ok(typeName) =>
        match OptionalParams(node, "params", path)
        case Err(e) => Err(e)
        case Ok(params) => Ok(TransformSpec(typeName, params))
  }

  /** The transform of an edge without a mapping under `transform`. */
  const NO_TRANSFORM := TransformSpec("", map[])

  /** `parse_edge`: `source` and `target` are required; `transform` is read
      only when present and a mapping. */
  function EdgeOf(base: string, node: Yaml, index: nat): (r: Result<EdgeSpec, string>)
    ensures node.YScalar? ==> r == Err(BAD_SUBSCRIPT)
    ensures !node.YScalar? && Field(node, "source").None? ==> r == Err(MissingField(IndexPath(base, index), "source"))
    ensures !node.YScalar? && Field(node, "source").Some? && Field(node, "target").None? ==>
      r == Err(MissingField(IndexPath(base, index), "target"))
    ensures r.Ok? ==>
      && Field(node, "source").Some? && AsString(Field(node, "source").value) == Ok(r.value.sourcePath)
      && Field(node, "target").Some? && AsString(Field(node, "target").value) == Ok(r.value.targetPath)
      && (Field(node, "transform").None? || !Field(node, "transform").value.YMap? ==> r.value.transform == NO_TRANSFORM)
      && (Field(node, "transform").Some? && Field(node, "transform").value.YMap? ==>
            TransformOf(IndexPath(base, index), Field(node, "transform").value) == Ok(r.value.transform))
  {
    var path := IndexPath(base, index);
    if node.YScalar? then Err(BAD_SUBSCRIPT)
    else if Field(node, "source").None? then Err(MissingField(path, "source"))
    else if Field(node, "target").None? then Err(MissingField(path, "target"))
    else
      match AsString(Field(node, "source").value)
      case Err(e) => Err(e)
      case Ok(source) =>
        match AsString(Field(node, "target").value)
        case Err(e) => Err(e)
        case Ok(target) =>
          var field := Field(node, "transform");
          match (if field.Some? && field.value.YMap? then TransformOf(path, field.value) else Ok(NO_TRANSFORM))
          case Err(e) => Err(e)
          case Ok(transform) => Ok(EdgeSpec(source, target, transform))
  }

  /** `parse_model`: `id` and `type` are required, `params` optional. */
  function ModelOf(base: string, node: Yaml, index: nat): (r: Result<ModelSpec, string>)
    ensures node.YScalar? ==> r == Err(BAD_SUBSCRIPT)
    ensures !node.YScalar? && Field(node, "id").None? ==> r == Err(MissingField(IndexPath(base, index), "id"))
    ensures !node.YScalar? && Field(node, "id").Some? && Field(node, "type").None? ==>
      r == Err(MissingField(IndexPath(base, index), "type"))
    ensures r.Ok? ==>
      && Field(node, "id").Some? && AsString(Field(node, "id").value) == Ok(r.value.id)
      && Field(node, "type").Some? && AsString(Field(node, "type").value) == Ok(r.value.typeName)
      && OptionalParams(node, "params", IndexPath(base, index)) == Ok(r.value.params)
  {
    var path := IndexPath(base, index);
    if node.YScalar? then Err(BAD_SUBSCRIPT)
    else if Field(node, "id").None? then Err(MissingField(path, "id"))
    else if Field(node, "type").None? then Err(MissingField(path, "type"))
    else
      match AsString(Field(node, "id").value)
      case Err(e) => Err(e)
      case Ok(id) =>
        match AsString(Field(node, "type").value)
        case Err(e) => Err(e)
        case Ok(typeName) =>
          match OptionalParams(node, "params", path)
          case Err(e) => Err(e)
          case Ok(params) => Ok(ModelSpec(id, typeName, params))
  }

  /** One entry of a rule's `actions`: `device` and `function` are required,
      `args` optional; `base` is "<rule path>/actions". */
  function ActionOf(base: string, node: Yaml, index: nat): (r: Result<ActionSpec, string>)
    ensures node.YScalar? ==> r == Err(BAD_SUBSCRIPT)
    ensures !node.YScalar? && Field(node, "device").None? ==> r == Err(MissingField(IndexPath(base, index), "device"))
    ensures !node.YScalar? && Field(node, "device").Some? && Field(node, "function").None? ==>
      r == Err(MissingField(IndexPath(base, index), "function"))
    ensures r.Ok? ==>
      && Field(node, "device").Some? && AsString(Field(node, "device").value) == Ok(r.value.device)
      && Field(node, "function").Some? && AsString(Field(node, "function").value) == Ok(r.value.functionName)
      && OptionalParams(node, "args", IndexPath(base, index)) == Ok(r.value.args)
  {
    var path := IndexPath(base, index);
    if node.YScalar? then Err(BAD_SUBSCRIPT)
    else if Field(node, "device").None? then Err(MissingField(path, "device"))
    else if Field(node, "function").None? then Err(MissingField(path, "function"))
    else
      match AsString(Field(node, "device").value)
      case Err(e) => Err(e)
      case Ok(device) =>
        match AsString(Field(node, "function").value)
        case Err(e) => Err(e)
        case Ok(functionName) =>
          match OptionalParams(node, "args", path)
          case Err(e) => Err(e)
          case Ok(args) => Ok(ActionSpec(device, functionName, args))
  }

  /** A rule's `actions`, read only when present and a sequence. */
  function ActionsOf(node: Yaml, path: string): (r: Result<seq<ActionSpec>, string>)
    ensures (Field(node, "actions").None? || !Field(node, "actions").value.YSeq?) ==> r == Ok([])
  {
    var field := Field(node, "actions");
    if field.Some? && field.value.YSeq? then Each(field.value.items, path + "/actions", ActionOf) else Ok([])
  }

  const DEFAULT_ON_ERROR := "log_and_continue"

  /** `parse_rule`: `id` and `condition` are required; `on_error` defaults
      to "log_and_continue". */
  function RuleOf(base: string, node: Yaml, index: nat): (r: Result<RuleSpec, string>)
    ensures node.YScalar? ==> r == Err(BAD_SUBSCRIPT)
    ensures !node.YScalar? && Field(node, "id").None? ==> r == Err(MissingField(IndexPath(base, index), "id"))
    ensures !node.YScalar? && Field(node, "id").Some? && Field(node, "condition").None? ==>
      r == Err(MissingField(IndexPath(base, index), "condition"))
    ensures r.Ok? ==>
      && Field(node, "id").Some? && AsString(Field(node, "id").value) == Ok(r.value.id)
      && Field(node, "condition").Some? && AsString(Field(node, "condition").value) == Ok(r.value.condition)
      && ActionsOf(node, IndexPath(base, index)) == Ok(r.value.actions)
      && (Field(node, "on_error").None? ==> r.value.onError == DEFAULT_ON_ERROR)
      && (Field(node, "on_error").Some? ==> AsString(Field(node, "on_error").value) == Ok(r.value.onError))
  {
    var path := IndexPath(base, index);
    if node.YScalar? then Err(BAD_SUBSCRIPT)
    else if Field(node, "id").None? then Err(MissingField(path, "id"))
    else if Field(node, "condition").None? then Err(MissingField(path, "condition"))
    else
      match AsString(Field(node, "id").value)
      case Err(e) => Err(e)
      case Ok(id) =>
        match AsString(Field(node, "condition").value)
        case Err(e) => Err(e)
        case Ok(condition) =>
          match ActionsOf(node, path)
          case Err(e) => Err(e)
          case Ok(actions) =>
            match (if Field(node, "on_error").Some? then AsString(Field(node, "on_error").value) else Ok(DEFAULT_ON_ERROR))
            case Err(e) => Err(e)
            case Ok(onError) => Ok(RuleSpec(id, condition, actions, onError))
  }

  /** A top-level section, read only when present and a sequence, with entry
      paths "/<key>/<index>". */
  function Section<T>(root: Yaml, key: string, f: (string, Yaml, nat) -> Result<T, string>): (r: Result<seq<T>, string>)
    ensures (Field(root, key).None? || !Field(root, key).value.YSeq?) ==> r == Ok([])
  {
    var field := Field(root, key);
    if field.Some? && field.value.YSeq? then Each(field.value.items, "/" + key, f) else Ok([])
  }

  /** A read section has one spec per entry, in document order. */
  lemma SectionEntries<T>(root: Yaml, key: string, f: (string, Yaml, nat) -> Result<T, string>)
    requires Section(root, key, f).Ok? && Field(root, key).Some? && Field(root, key).value.YSeq?
    ensures var items := Field(root, key).value.items;
      && |Section(root, key, f).value| == |items|
      && forall i :: 0 <= i < |items| ==> f("/" + key, items[i], i) == Ok(Section(root, key, f).value[i])
  {
    EachOk(Field(root, key).value.items, "/" + key, f);
  }

  /** `load_yaml_string`: a syntax error is reported at its 1-based position;
      a scalar document cannot be indexed; otherwise edges, then models,
      then rules are read. */
  function LoadYaml(doc: Result<Yaml, SyntaxError>): (r: Result<GraphSpec, string>)
    ensures doc.Err? ==> r == Err(FormatYamlError(doc.error.message, doc.error.line, doc.error.column))
    ensures doc == Ok(YMap([])) || doc == Ok(YNull) ==> r == Ok(EMPTY_GRAPH)
  {
    match doc
    case Err(e) => Err(FormatYamlError(e.message, e.line, e.column))
    case Ok(root) =>
      if root.YScalar? then Err(BAD_SUBSCRIPT)
      else
        match Section(root, "edges", EdgeOf)
        case Err(e) => Err(e)
        case Ok(edges) =>
          match Section(root, "models", ModelOf)
          case Err(e) => Err(e)
          case Ok(models) =>
            match Section(root, "rules", RuleOf)
            case Err(e) => Err(e)
            case Ok(rules) => Ok(GraphSpec(models, edges, rules))
  }

  // ---------------------------------------------------------------------------
  // The loader's loops

  /** The parameter loop of `parse_transform`, `parse_model` and the action
      `args` loop of `parse_rule`. */
  method ReadParams(entries: seq<(string, Yaml)>, base: string) returns (r: Result<Params, string>)
    ensures r == ParamsOf(entries, base)
  {
    var params: Params := map[];
    var i := 0;
    while i < |entries|
      invariant 0 <= i <= |entries|
      invariant ParamsOf(entries[..i], base) == Ok(params)
    {
      assert entries[..i + 1][..i] == entries[..i];
      var (key, value) := entries[i];
      var v := VariantOf(value, base + "/" + key);
      if v.Err? {
        ParamsStop(entries, base, i + 1);
        return Err(v.error);
      }
      params := params[key := v.value];
      i := i + 1;
    }
    assert entries[..i] == entries;
    r := Ok(params);
  }

  /** Once the parameter loop has failed, the remaining entries do not matter. */
  lemma {:induction false} ParamsStop(entries: seq<(string, Yaml)>, base: string, k: nat)
    requires k <= |entries| && ParamsOf(entries[..k], base).Err?
    ensures ParamsOf(entries, base) == ParamsOf(entries[..k], base)
    decreases |entries| - k
  {
    if k < |entries| {
      assert entries[..k + 1][..k] == entries[..k];
      ParamsStop(entries, base, k + 1);
    } else {
      assert entries[..k] == entries;
    }
  }

  /** The `actions` loop of `parse_rule`. */
  method ParseActions(items: seq<Yaml>, base: string) returns (r: Result<seq<ActionSpec>, string>)
    ensures r == Each(items, base, ActionOf)
  {
    var actions: seq<ActionSpec> := [];
    var i := 0;
    while i < |items|
      invariant 0 <= i <= |items|
      invariant Each(items[..i], base, ActionOf) == Ok(actions)
    {
      EachStep(items, base, ActionOf, i, actions);
      var action := ActionOf(base, items[i], i);
      if action.Err? {
        EachStop(items, base, ActionOf, i + 1);
        return Err(action.error);
      }
      actions := actions + [action.value];
      i := i + 1;
    }
    assert items[..i] == items;
    r := Ok(actions);
  }

  /** The `edges` loop of `load_yaml_string`. */
  method ParseEdges(items: seq<Yaml>) returns (r: Result<seq<EdgeSpec>, string>)
    ensures r == Each(items, "/edges", EdgeOf)
  {
    var edges: seq<EdgeSpec> := [];
    var i := 0;
    while i < |items|
      invariant 0 <= i <= |items|
      invariant Each(items[..i], "/edges", EdgeOf) == Ok(edges)
    {
      EachStep(items, "/edges", EdgeOf, i, edges);
      var edge := EdgeOf("/edges", items[i], i);
      if edge.Err? {
        EachStop(items, "/edges", EdgeOf, i + 1);
        return Err(edge.error);
      }
      edges := edges + [edge.value];
      i := i + 1;
    }
    assert items[..i] == items;
    r := Ok(edges);
  }

  /** The `models` loop of `load_yaml_string`. */
  method ParseModels(items: seq<Yaml>) returns (r: Result<seq<ModelSpec>, string>)
    ensures r == Each(items, "/models", ModelOf)
  {
    var models: seq<ModelSpec> := [];
    var i := 0;
    while i < |items|
      invariant 0 <= i <= |items|
      invariant Each(items[..i], "/models", ModelOf) == Ok(models)
    {
      EachStep(items, "/models", ModelOf, i, models);
      var model := ModelOf("/models", items[i], i);
      if model.Err? {
        EachStop(items, "/models", ModelOf, i + 1);
        return Err(model.error);
      }
      models := models + [model.value];
      i := i + 1;
    }
    assert items[..i] == items;
    r := Ok(models);
  }

  /** The `rules` loop of `load_yaml_string`. */
  method ParseRules(items: seq<Yaml>) returns (r: Result<seq<RuleSpec>, string>)
    ensures r == Each(items, "/rules", RuleOf)
  {
    var rules: seq<RuleSpec> := [];
    var i := 0;
    while i < |items|
      invariant 0 <= i <= |items|
      invariant Each(items[..i], "/rules", RuleOf) == Ok(rules)
    {
      EachStep(items, "/rules", RuleOf, i, rules);
      var rule := RuleOf("/rules", items[i], i);
      if rule.Err? {
        EachStop(items, "/rules", RuleOf, i + 1);
        return Err(rule.error);
      }
      rules := rules + [rule.value];
      i := i + 1;
    }
    assert items[..i] == items;
    r := Ok(rules);
  }
}
