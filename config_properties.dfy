/** What the configuration reader and writer promise: operation lists are
    read entry by entry in order, up to the first bad one; absent lists stay
    None; and a configuration written out reads back unchanged. */
module ConfigProperties {
  import opened Json
  import opened Errors
  import opened Operations
  import OperationProperties
  import opened PreparationConfig

  /** An operation list reads as the entries' operations in the same order
      exactly when every entry reads; otherwise it raises what the first bad
      entry raises. */
  lemma {:induction false} ParseOperationsSpec(stage: string, es: seq<Json>)
    ensures ParseOperations(stage, es).Ok? <==> forall i :: 0 <= i < |es| ==> ParseOperation(stage, es[i]).Ok?
    ensures ParseOperations(stage, es).Ok? ==>
      |ParseOperations(stage, es).value| == |es|
      && forall i :: 0 <= i < |es| ==> ParseOperations(stage, es).value[i] == ParseOperation(stage, es[i]).value
    ensures forall i :: (0 <= i < |es| && ParseOperation(stage, es[i]).Err?
                         && (forall j :: 0 <= j < i ==> ParseOperation(stage, es[j]).Ok?)) ==>
      ParseOperations(stage, es) == Err(ParseOperation(stage, es[i]).error)
    decreases |es|
  {
    if es != [] {
      ParseOperationsSpec(stage, es[1..]);
      assert forall i :: 1 <= i < |es| ==> es[1..][i - 1] == es[i];
      forall i | 0 <= i < |es| && ParseOperation(stage, es[i]).Err?
                 && (forall j :: 0 <= j < i ==> ParseOperation(stage, es[j]).Ok?)
        ensures ParseOperations(stage, es) == Err(ParseOperation(stage, es[i]).error)
      {
        if i > 0 {
          assert ParseOperation(stage, es[1..][i - 1]).Err?;
          assert forall j :: 0 <= j < i - 1 ==> ParseOperation(stage, es[1..][j]).Ok? by {
            forall j | 0 <= j < i - 1 ensures ParseOperation(stage, es[1..][j]).Ok? {
              assert es[1..][j] == es[j + 1];
            }
          }
        }
      }
    }
  }

  /** An entry that reads is an object whose "type" is the wire name of the
      operation it gives. */
  lemma ParseOperationType(stage: string, e: Json)
    requires ParseOperation(stage, e).Ok?
    ensures e.JObject? && "type" in e.members
    ensures e.members["type"] == JString(ParseOperation(stage, e).value.Type().Value())
  {
    OperationProperties.OperationsIndexSpec();
  }

  /** The error for each way an entry can be malformed. */
  lemma ParseOperationErrors(stage: string, e: Json)
    ensures !e.JObject? ==> ParseOperation(stage, e) == Err(ValueError(UnexpectedOperationObject))
    ensures e.JObject? && "type" !in e.members ==> ParseOperation(stage, e) == Err(KeyError("type"))
    ensures e.JObject? && "type" in e.members && (e.members["type"].JArray? || e.members["type"].JObject?) ==>
      ParseOperation(stage, e) == Err(TypeError)
    ensures e.JObject? && "type" in e.members && e.members["type"].JString?
            && e.members["type"].s !in WireNames ==>
      ParseOperation(stage, e) == Err(ValueError(UnexpectedOperationType(stage)))
    ensures e.JObject? && "type" in e.members
            && (e.members["type"].JNull? || e.members["type"].JNumber? || e.members["type"].JBool?) ==>
      ParseOperation(stage, e) == Err(ValueError(UnexpectedOperationType(stage)))
  {
    OperationProperties.OperationsIndexSpec();
  }

  /** An operation's own JSON reads back as that operation. */
  lemma OperationReadsBack(stage: string, op: Operation)
    ensures ParseOperation(stage, ToJson(op)) == Ok(op)
  {
    OperationProperties.OperationsIndexSpec();
    OperationProperties.RoundTrip(op);
  }

  /** A written operation list reads back unchanged. */
  lemma {:induction false} OperationsReadBack(stage: string, ops: seq<Operation>)
    ensures ParseOperations(stage, OperationsToJson(ops).elements) == Ok(ops)
    decreases |ops|
  {
    var es := OperationsToJson(ops).elements;
    if ops != [] {
      OperationsReadBack(stage, ops[1..]);
      assert es[1..] == OperationsToJson(ops[1..]).elements;
      OperationReadsBack(stage, ops[0]);
      assert [ops[0]] + ops[1..] == ops;
    }
  }

  /** A list absent or null in the JSON reads as None; any other list reads
      as Some. */
  lemma AbsentListIsNone(json: map<string, Json>, jsonName: string)
    ensures Get(json, jsonName) == JNull ==> ParseOptionalList(json, jsonName) == Ok(None)
    ensures ParseOptionalList(json, jsonName).Ok? && Get(json, jsonName) != JNull ==>
      ParseOptionalList(json, jsonName).value.Some?
  {
  }

  /** A configuration reads exactly when its target and both lists read, and
      then holds what each of them reads as. */
  lemma ParseConfigSpec(json: map<string, Json>)
    ensures ParseConfig(json).Ok? <==>
      ParseTarget(json).Ok? && ParseOptionalList(json, "bagInfoOperations").Ok?
      && ParseOptionalList(json, "sigPropOperations").Ok?
    ensures ParseConfig(json).Ok? ==>
      ParseConfig(json).value.target == ParseTarget(json).value
      && ParseConfig(json).value.baginfoOperations == ParseOptionalList(json, "bagInfoOperations").value
      && ParseConfig(json).value.sigPropOperations == ParseOptionalList(json, "sigPropOperations").value
    ensures ParseTarget(json).Err? ==> ParseConfig(json) == Err(ParseTarget(json).error)
  {
  }

  /** The target errors: no "target", a target that is not an object, no
      "path", a path that is not a string. */
  lemma TargetErrors(json: map<string, Json>)
    ensures "target" !in json ==> ParseConfig(json) == Err(KeyError("target"))
    ensures "target" in json && !json["target"].JObject? ==> ParseConfig(json) == Err(TypeError)
    ensures "target" in json && json["target"].JObject? && "path" !in json["target"].members ==>
      ParseConfig(json) == Err(KeyError("path"))
    ensures "target" in json && json["target"].JObject? && "path" in json["target"].members
            && !json["target"].members["path"].JString? ==>
      ParseConfig(json) == Err(TypeError)
  {
  }

  /** A configuration written to JSON reads back as itself. */
  lemma ConfigRoundTrip(c: PreparationConfig)
    ensures ParseConfig(ConfigToJson(c)) == Ok(c)
  {
    var j := ConfigToJson(c);
    assert ParseTarget(j) == Ok(c.target);
    match c.baginfoOperations {
      case Some(ops) => OperationsReadBack("bagInfoOperations", ops);
      case None =>
    }
    match c.sigPropOperations {
      case Some(ops) => OperationsReadBack("sigPropOperations", ops);
      case None =>
    }
  }

  /** JSON to configuration to JSON: a configuration read from any JSON
      writes out a JSON that reads back as the same configuration, with the
      same target path. */
  lemma JsonConfigJson(json: map<string, Json>)
    requires ParseConfig(json).Ok?
    ensures ParseConfig(ConfigToJson(ParseConfig(json).value)) == ParseConfig(json)
    ensures ConfigToJson(ParseConfig(json).value)["target"].members["path"] == json["target"].members["path"]
  {
    ConfigRoundTrip(ParseConfig(json).value);
  }

  /** A configuration with one operation list, read from its JSON document. */
  lemma ExampleConfig()
    ensures ParseConfig(map[
      "target" := JObject(map["path" := JString("ip")]),
      "bagInfoOperations" := JArray([JObject(map[
        "type" := JString("complement"),
        "targetField" := JString("Source-Organization"),
        "value" := JString("org")])])])
      == Ok(PreparationConfig(Target("ip"), Some([ComplementOperation("Source-Organization", "org")]), None))
  {
    var op := ComplementOperation("Source-Organization", "org");
    var e := JObject(map[
        "type" := JString("complement"),
        "targetField" := JString("Source-Organization"),
        "value" := JString("org")]);
    var json := map["target" := JObject(map["path" := JString("ip")]), "bagInfoOperations" := JArray([e])];
    assert ToJson(op) == e;
    OperationReadsBack("bagInfoOperations", op);
    assert [e][0] == e && [e][1..] == [];
    assert ParseOperation("bagInfoOperations", [e][0]) == Ok(op);
    assert ParseOperations("bagInfoOperations", [e][1..]) == Ok([]);
    assert [op] + [] == [op];
    assert ParseOperations("bagInfoOperations", [e]) == Ok([op]);
    assert ParseTarget(json) == Ok(Target("ip"));
    assert ParseOptionalList(json, "bagInfoOperations") == Ok(Some([op]));
    assert ParseOptionalList(json, "sigPropOperations") == Ok(None);
  }
}
