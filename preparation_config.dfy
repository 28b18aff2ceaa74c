/** The job configuration: the target package and the two optional operation
    lists, read from and written to JSON. */
module PreparationConfig {
  import opened Json
  import opened Errors
  import opened Operations
  import OperationProperties

  /** The package to prepare. */
  datatype Target = Target(path: string)

  /** `PreparationConfig`: a list that is None was not given. */
  datatype PreparationConfig = PreparationConfig(
    target: Target,
    baginfoOperations: Option<seq<Operation>>,
    sigPropOperations: Option<seq<Operation>>)

  /** The attribute names and JSON names of the two operation lists, in the
      order they are read. */
  const Stages: seq<(string, string)> :=
    [("baginfo_operations", "bagInfoOperations"), ("sig_prop_operations", "sigPropOperations")]

  // ---------------------------------------------------------------------
  // Reading

  /** `json["target"]["path"]`: a missing key raises KeyError, indexing a
      value that is not an object raises TypeError, and a path that is not a
      string cannot make a `Path` (TypeError). */
  function ParseTarget(json: map<string, Json>): (r: Result<Target>)
    ensures r.Ok? <==> "target" in json && json["target"].JObject? && "path" in json["target"].members
                       && json["target"].members["path"].JString?
    ensures r.Ok? ==> json["target"].members["path"] == JString(r.value.path)
    ensures "target" !in json ==> r == Err(KeyError("target"))
  {
    if "target" !in json then Err(KeyError("target"))
    else if !json["target"].JObject? then Err(TypeError)
    else if "path" !in json["target"].members then Err(KeyError("path"))
    else match json["target"].members["path"]
      case JString(p) => Ok(Target(p))
      case _ => Err(TypeError)
  }

  /** One entry of an operation list. It must be an object; its "type" must
      be present (formatting the error message indexes it: KeyError),
      hashable (a list or object is not: TypeError) and a wire name
      (ValueError); the class it names reads the object. */
  function ParseOperation(stage: string, e: Json): (r: Result<Operation>)
  {
    if !e.JObject? then Err(ValueError(UnexpectedOperationObject))
    else if "type" !in e.members then Err(KeyError("type"))
    else match e.members["type"]
      case JArray(_) => Err(TypeError)
      case JObject(_) => Err(TypeError)
      case JString(s) =>
        if s in OperationsIndex then FromJson(OperationsIndex[s], e)
        else Err(ValueError(UnexpectedOperationType(stage)))
      case _ => Err(ValueError(UnexpectedOperationType(stage)))
  }

  /** The entries of an array, front to back, stopping at the first that
      raises. */
  function ParseOperations(stage: string, es: seq<Json>): (r: Result<seq<Operation>>)
    decreases |es|
  {
    if es == [] then Ok([])
    else
      var op :- ParseOperation(stage, es[0]);
      var rest :- ParseOperations(stage, es[1..]);
      Ok([op] + rest)
  }

  /** `for operation in json[json_name]` on a value that is not None: an
      array yields its entries; a string yields its characters and an object
      its keys, none of which is an object, so a non-empty one raises
      ValueError on its first element and an empty one gives no operations;
      a number or boolean is not iterable (TypeError). */
  function ParseOperationList(stage: string, v: Json): Result<seq<Operation>>
    requires v != JNull
  {
    match v
    case JArray(es) => ParseOperations(stage, es)
    case JString(s) => if s == "" then Ok([]) else Err(ValueError(UnexpectedOperationObject))
    case JObject(m) => if m == map[] then Ok([]) else Err(ValueError(UnexpectedOperationObject))
    case _ => Err(TypeError)
  }

  /** One operation list: `json.get(json_name) is None` leaves it at None. */
  function ParseOptionalList(json: map<string, Json>, jsonName: string): Result<Option<seq<Operation>>>
  {
    var v := Get(json, jsonName);
    if v == JNull then Ok(None)
    else
      var ops :- ParseOperationList(jsonName, v);
      Ok(Some(ops))
  }

  /** `PreparationConfig.from_json`, as a function: the target, then the
      bag-info list, then the significant-properties list. */
  function ParseConfig(json: map<string, Json>): Result<PreparationConfig>
  {
    var target :- ParseTarget(json);
    var baginfo :- ParseOptionalList(json, Stages[0].1);
    var sigProp :- ParseOptionalList(json, Stages[1].1);
    Ok(PreparationConfig(target, baginfo, sigProp))
  }

  /** The loop over one array of operations: appends each entry's operation
      in turn and raises at the first entry that does not read. */
  method ParseOperationsMethod(stage: string, es: seq<Json>) returns (r: Result<seq<Operation>>)
    ensures r == ParseOperations(stage, es)
  {
    var ops: seq<Operation> := [];
    assert es[0..] == es;
    if ParseOperations(stage, es).Ok? {
      assert ops + ParseOperations(stage, es).value == ParseOperations(stage, es).value;
    }
    for k := 0 to |es|
      invariant ParseOperations(stage, es[k..]).Ok? ==>
        ParseOperations(stage, es) == Ok(ops + ParseOperations(stage, es[k..]).value)
      invariant ParseOperations(stage, es[k..]).Err? ==>
        ParseOperations(stage, es) == ParseOperations(stage, es[k..])
    {
      assert es[k..][0] == es[k] && es[k..][1..] == es[k + 1..];
      var op := ParseOperation(stage, es[k]);
      if op.Err? {
        return Err(op.error);
      }
      if ParseOperations(stage, es[k + 1..]).Ok? {
        assert ops + ([op.value] + ParseOperations(stage, es[k + 1..]).value)
          == (ops + [op.value]) + ParseOperations(stage, es[k + 1..]).value;
      }
      ops := ops + [op.value];
    }
    assert es[|es|..] == [];
    assert ops + [] == ops;
    return Ok(ops);
  }

  /** `PreparationConfig.from_json`: fills `kwargs` stage by stage, appending
      operations in input order, and raises at the first bad entry. */
  method FromJsonMethod(json: map<string, Json>) returns (r: Result<PreparationConfig>)
    ensures r == ParseConfig(json)
  {
    var target := ParseTarget(json);
    if target.Err? {
      return Err(target.error);
    }
    var kwargs: map<string, seq<Operation>> := map[];
    for n := 0 to |Stages|
      invariant forall m :: 0 <= m < n ==> ParseOptionalList(json, Stages[m].1).Ok?
      invariant forall m :: 0 <= m < n ==>
        (Stages[m].0 in kwargs <==> ParseOptionalList(json, Stages[m].1).value.Some?)
      invariant forall m :: 0 <= m < n && Stages[m].0 in kwargs ==>
        ParseOptionalList(json, Stages[m].1).value == Some(kwargs[Stages[m].0])
      invariant forall m :: n <= m < |Stages| ==> Stages[m].0 !in kwargs
    {
      var (name, jsonName) := Stages[n];
      var v := Get(json, jsonName);
      if v != JNull {
        if v.JArray? {
          var ops := ParseOperationsMethod(jsonName, v.elements);
          if ops.Err? {
            return Err(ops.error);
          }
          kwargs := kwargs[name := ops.value];
        } else {
          var ops := ParseOperationList(jsonName, v);
          if ops.Err? {
            return Err(ops.error);
          }
          kwargs := kwargs[name := ops.value];
        }
      }
    }
    var baginfo := if Stages[0].0 in kwargs then Some(kwargs[Stages[0].0]) else None;
    var sigProp := if Stages[1].0 in kwargs then Some(kwargs[Stages[1].0]) else None;
    return Ok(PreparationConfig(target.value, baginfo, sigProp));
  }

  // ---------------------------------------------------------------------
  // Writing

  /** `[operation.json for operation in value]`. */
  function OperationsToJson(ops: seq<Operation>): (j: Json)
    ensures j.JArray? && |j.elements| == |ops|
    ensures forall i :: 0 <= i < |ops| ==> j.elements[i] == ToJson(ops[i])
  {
    JArray(seq(|ops|, i requires 0 <= i < |ops| => ToJson(ops[i])))
  }

  /** `config.json`: the target, then each operation list that is not None
      (a None list is skipped). */
  function ConfigToJson(c: PreparationConfig): (j: map<string, Json>)
    ensures "target" in j && j["target"] == JObject(map["path" := JString(c.target.path)])
    ensures Stages[0].1 in j <==> c.baginfoOperations.Some?
    ensures Stages[1].1 in j <==> c.sigPropOperations.Some?
    ensures c.baginfoOperations.Some? ==> j[Stages[0].1] == OperationsToJson(c.baginfoOperations.value)
    ensures c.sigPropOperations.Some? ==> j[Stages[1].1] == OperationsToJson(c.sigPropOperations.value)
    ensures j.Keys <= {"target", Stages[0].1, Stages[1].1}
  {
    var base := map["target" := JObject(map["path" := JString(c.target.path)])];
    var withBaginfo := match c.baginfoOperations
      case Some(ops) => base[Stages[0].1 := OperationsToJson(ops)]
      case None => base;
    match c.sigPropOperations
    case Some(ops) => withBaginfo[Stages[1].1 := OperationsToJson(ops)]
    case None => withBaginfo
  }
}
