/** What the operation data model promises: the wire names, the name index,
    and the JSON round trip. */
module OperationProperties {
  import opened Json
  import opened Errors
  import opened Operations

  /** Every member's value is one of the five wire names, `OperationType(value)`
      gives the member back, and no two members share a value. */
  lemma WireNamesRoundTrip(t: OperationType, u: OperationType)
    ensures t.Value() in WireNames
    ensures FromValue(t.Value()) == Some(t)
    ensures t.Value() == u.Value() ==> t == u
  {
  }

  /** `OperationType("complement")` is the complement member. */
  lemma ComplementFromValue()
    ensures FromValue("complement") == Some(Complement)
  {
  }

  /** The index is total over the five wire names, and each name maps to the
      class whose `_TYPE` has that value. */
  lemma OperationsIndexSpec()
    ensures OperationsIndex.Keys == WireNames
    ensures forall k :: k in OperationsIndex ==> OperationsIndex[k].Value() == k
    ensures forall t: OperationType :: t.Value() in OperationsIndex && OperationsIndex[t.Value()] == t
  {
    forall t: OperationType ensures t.Value() in OperationsIndex && OperationsIndex[t.Value()] == t {
      match t
      case Set =>
      case Complement =>
      case OverwriteExisting =>
      case FindAndReplace =>
      case FindAndReplaceLiteral =>
    }
  }

  /** Items come back from their JSON in the same order, an empty list
      included. */
  lemma {:induction false} RegexItemsRoundTrip(items: seq<RegexItem>)
    ensures RegexItemsFromJson(seq(|items|, i requires 0 <= i < |items| => RegexItemToJson(items[i]))) == Ok(items)
    decreases |items|
  {
    var js := seq(|items|, i requires 0 <= i < |items| => RegexItemToJson(items[i]));
    if items != [] {
      RegexItemsRoundTrip(items[1..]);
      assert js[1..] == seq(|items[1..]|, i requires 0 <= i < |items[1..]| => RegexItemToJson(items[1..][i]));
      assert RegexItemFromJson(js[0]) == Ok(items[0]);
      assert [items[0]] + items[1..] == items;
    }
  }

  lemma {:induction false} LiteralItemsRoundTrip(items: seq<LiteralItem>)
    ensures LiteralItemsFromJson(seq(|items|, i requires 0 <= i < |items| => LiteralItemToJson(items[i]))) == Ok(items)
    decreases |items|
  {
    var js := seq(|items|, i requires 0 <= i < |items| => LiteralItemToJson(items[i]));
    if items != [] {
      LiteralItemsRoundTrip(items[1..]);
      assert js[1..] == seq(|items[1..]|, i requires 0 <= i < |items[1..]| => LiteralItemToJson(items[1..][i]));
      assert LiteralItemFromJson(js[0]) == Ok(items[0]);
      assert [items[0]] + items[1..] == items;
    }
  }

  /** Deserializing an operation's JSON with its own class gives the operation
      back. */
  lemma RoundTrip(op: Operation)
    ensures FromJson(op.Type(), ToJson(op)) == Ok(op)
  {
    match op
    case SetOperation(_, _) =>
    case ComplementOperation(_, _) =>
    case OverwriteExistingOperation(_, _) =>
    case FindAndReplaceOperation(_, items) => RegexItemsRoundTrip(items);
    case FindAndReplaceLiteralOperation(_, items) => LiteralItemsRoundTrip(items);
  }

  /** json to model to json: the operation read from a JSON object writes out
      a JSON object that reads back as the same operation, with the class's
      type, and the same target field and value. */
  lemma JsonModelJson(cls: OperationType, j: Json)
    requires FromJson(cls, j).Ok?
    ensures var op := FromJson(cls, j).value;
      && FromJson(cls, ToJson(op)) == Ok(op)
      && ToJson(op).members["type"] == JString(cls.Value())
      && ToJson(op).members["targetField"] == j.members["targetField"]
      && (op.SetOperation? || op.ComplementOperation? || op.OverwriteExistingOperation? ==>
            "value" in j.members && ToJson(op).members["value"] == j.members["value"])
  {
    RoundTrip(FromJson(cls, j).value);
  }

  /** `from_json` replaces any incoming "type" with the class's own type: the
      incoming "type" member, present or not, whatever its value, changes
      nothing. */
  lemma TypeIsOverridden(cls: OperationType, members: map<string, Json>, t: Json)
    ensures FromJson(cls, JObject(members["type" := t])) == FromJson(cls, JObject(members))
    ensures FromJson(cls, JObject(members - {"type"})) == FromJson(cls, JObject(members))
  {
    var m := members["type" := t];
    var n := members - {"type"};
    assert forall k :: k != "type" ==> (k in m <==> k in members) && (k in m ==> m[k] == members[k]);
    assert forall k :: k != "type" ==> (k in n <==> k in members) && (k in n ==> n[k] == members[k]);
    assert StringMember(m, "targetField") == StringMember(members, "targetField");
    assert StringMember(n, "targetField") == StringMember(members, "targetField");
    assert StringMember(m, "value") == StringMember(members, "value");
    assert StringMember(n, "value") == StringMember(members, "value");
  }
}
