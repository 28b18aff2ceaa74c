/** The operation data model: five kinds of edit instruction on one metadata
    field, their wire names, the name index and the JSON (de)serialization. */
module Operations {
  import opened Json
  import opened Errors

  /** `OperationType`: exactly five members. */
  datatype OperationType = Set | Complement | OverwriteExisting | FindAndReplace | FindAndReplaceLiteral
  {
    /** The member's value, its name on the wire. */
    function Value(): string
    {
      match this
      case Set => "set"
      case Complement => "complement"
      case OverwriteExisting => "overwriteExisting"
      case FindAndReplace => "findAndReplace"
      case FindAndReplaceLiteral => "findAndReplaceLiteral"
    }
  }

  /** The five wire names. */
  const WireNames: set<string> :=
    {"set", "complement", "overwriteExisting", "findAndReplace", "findAndReplaceLiteral"}

  /** `OperationType(value)`: the member whose value is `value`; Python raises
      ValueError for any other string, here None. */
  function FromValue(value: string): (r: Option<OperationType>)
    ensures r.Some? <==> value in WireNames
    ensures r.Some? ==> r.value.Value() == value
  {
    match value
    case "set" => Some(Set)
    case "complement" => Some(Complement)
    case "overwriteExisting" => Some(OverwriteExisting)
    case "findAndReplace" => Some(FindAndReplace)
    case "findAndReplaceLiteral" => Some(FindAndReplaceLiteral)
    case _ => None
  }

  /** `OPERATIONS_INDEX`: wire name to operation class, a class being named by
      its `_TYPE`. */
  const OperationsIndex: map<string, OperationType> := map[
    "set" := Set,
    "complement" := Complement,
    "overwriteExisting" := OverwriteExisting,
    "findAndReplace" := FindAndReplace,
    "findAndReplaceLiteral" := FindAndReplaceLiteral
  ]

  /** One (regex, value) pair of a find-and-replace operation. */
  datatype RegexItem = RegexItem(regex: string, value: string)

  /** One (literal, value) pair of a literal find-and-replace operation. */
  datatype LiteralItem = LiteralItem(literal: string, value: string)

  /** An operation: one constructor per operation class. The class's `type_`
      is not stored; it is `Type()`, which the constructors in the source
      always set to the class's own `_TYPE`. */
  datatype Operation =
    | SetOperation(targetField: string, value: string)
    | ComplementOperation(targetField: string, value: string)
    | OverwriteExistingOperation(targetField: string, value: string)
    | FindAndReplaceOperation(targetField: string, regexItems: seq<RegexItem>)
    | FindAndReplaceLiteralOperation(targetField: string, literalItems: seq<LiteralItem>)
  {
    /** `type_`: the operation class's `_TYPE`. */
    function Type(): OperationType
    {
      match this
      case SetOperation(_, _) => Set
      case ComplementOperation(_, _) => Complement
      case OverwriteExistingOperation(_, _) => OverwriteExisting
      case FindAndReplaceOperation(_, _) => FindAndReplace
      case FindAndReplaceLiteralOperation(_, _) => FindAndReplaceLiteral
    }
  }

  // ---------------------------------------------------------------------
  // Serialization

  function RegexItemToJson(item: RegexItem): Json
  {
    JObject(map["regex" := JString(item.regex), "value" := JString(item.value)])
  }

  function LiteralItemToJson(item: LiteralItem): Json
  {
    JObject(map["literal" := JString(item.literal), "value" := JString(item.value)])
  }

  /** `operation.json`: "type" holds `type_.value`, "targetField" the target
      field, then "value" or "items" (in order) as the class has them. */
  function ToJson(op: Operation): (j: Json)
    ensures j.JObject?
    ensures "type" in j.members && j.members["type"] == JString(op.Type().Value())
    ensures "targetField" in j.members && j.members["targetField"] == JString(op.targetField)
  {
    var base := map["type" := JString(op.Type().Value()), "targetField" := JString(op.targetField)];
    match op
    case SetOperation(_, v) => JObject(base["value" := JString(v)])
    case ComplementOperation(_, v) => JObject(base["value" := JString(v)])
    case OverwriteExistingOperation(_, v) => JObject(base["value" := JString(v)])
    case FindAndReplaceOperation(_, items) =>
      JObject(base["items" := JArray(seq(|items|, i requires 0 <= i < |items| => RegexItemToJson(items[i])))])
    case FindAndReplaceLiteralOperation(_, items) =>
      JObject(base["items" := JArray(seq(|items|, i requires 0 <= i < |items| => LiteralItemToJson(items[i])))])
  }

  // ---------------------------------------------------------------------
  // Deserialization

  /** A string member of a JSON object, or the data model's failure. */
  function StringMember(members: map<string, Json>, key: string): (r: Result<string>)
    ensures r.Ok? <==> key in members && members[key].JString?
    ensures r.Ok? ==> members[key] == JString(r.value)
  {
    if key in members && members[key].JString? then Ok(members[key].s) else Err(DeserializationError)
  }

  function RegexItemFromJson(j: Json): (r: Result<RegexItem>)
    ensures r.Ok? <==> j.JObject? && StringMember(j.members, "regex").Ok? && StringMember(j.members, "value").Ok?
    ensures r.Ok? ==> j.members["regex"] == JString(r.value.regex) && j.members["value"] == JString(r.value.value)
  {
    if !j.JObject? then Err(DeserializationError)
    else
      var regex :- StringMember(j.members, "regex");
      var value :- StringMember(j.members, "value");
      Ok(RegexItem(regex, value))
  }

  function LiteralItemFromJson(j: Json): (r: Result<LiteralItem>)
    ensures r.Ok? <==> j.JObject? && StringMember(j.members, "literal").Ok? && StringMember(j.members, "value").Ok?
    ensures r.Ok? ==> j.members["literal"] == JString(r.value.literal) && j.members["value"] == JString(r.value.value)
  {
    if !j.JObject? then Err(DeserializationError)
    else
      var literal :- StringMember(j.members, "literal");
      var value :- StringMember(j.members, "value");
      Ok(LiteralItem(literal, value))
  }

  /** The items of a find-and-replace operation, in the given order. */
  function RegexItemsFromJson(js: seq<Json>): (r: Result<seq<RegexItem>>)
    ensures r.Ok? ==> |r.value| == |js|
    ensures r.Ok? ==> forall i :: 0 <= i < |js| ==> RegexItemFromJson(js[i]) == Ok(r.value[i])
  {
    if js == [] then Ok([])
    else
      var first :- RegexItemFromJson(js[0]);
      var rest :- RegexItemsFromJson(js[1..]);
      Ok([first] + rest)
  }

  function LiteralItemsFromJson(js: seq<Json>): (r: Result<seq<LiteralItem>>)
    ensures r.Ok? ==> |r.value| == |js|
    ensures r.Ok? ==> forall i :: 0 <= i < |js| ==> LiteralItemFromJson(js[i]) == Ok(r.value[i])
  {
    if js == [] then Ok([])
    else
      var first :- LiteralItemFromJson(js[0]);
      var rest :- LiteralItemsFromJson(js[1..]);
      Ok([first] + rest)
  }

  /** `cls.from_json(json)` for the class whose `_TYPE` is `cls`: the
      incoming "type" is replaced by the class's own type, so whatever "type" the
      object carries is ignored and the result always has `Type() == cls`.
      Members other than the class's fields are ignored, as its constructor
      ignores unknown keyword arguments. */
  function FromJson(cls: OperationType, j: Json): (r: Result<Operation>)
    ensures r.Ok? ==> r.value.Type() == cls
    ensures r.Ok? ==> j.JObject? && "targetField" in j.members && j.members["targetField"] == JString(r.value.targetField)
  {
    if !j.JObject? then Err(DeserializationError)
    else
      var target :- StringMember(j.members, "targetField");
      match cls
      case Set =>
        var v :- StringMember(j.members, "value"); Ok(SetOperation(target, v))
      case Complement =>
        var v :- StringMember(j.members, "value"); Ok(ComplementOperation(target, v))
      case OverwriteExisting =>
        var v :- StringMember(j.members, "value"); Ok(OverwriteExistingOperation(target, v))
      case FindAndReplace =>
        if "items" in j.members && j.members["items"].JArray? then
          var items :- RegexItemsFromJson(j.members["items"].elements);
          Ok(FindAndReplaceOperation(target, items))
        else Err(DeserializationError)
      case FindAndReplaceLiteral =>
        if "items" in j.members && j.members["items"].JArray? then
          var items :- LiteralItemsFromJson(j.members["items"].elements);
          Ok(FindAndReplaceLiteralOperation(target, items))
        else Err(DeserializationError)
  }
}
