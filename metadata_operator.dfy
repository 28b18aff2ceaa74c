/** The metadata operator: applies an ordered list of operations to a
    metadata store, one after the other, and logs one entry per operation. */
module MetadataOperator {
  import opened Errors
  import opened MetadataStore
  import opened Operations
  import opened Logging

  /** `re.fullmatch(pattern, s) is not None`. The regular-expression engine is
      not modelled: it is a parameter of the operator. */
  type FullMatch = (string, string) -> bool

  // ---------------------------------------------------------------------
  // Per-element replacement

  /** The index of the first item whose regex fully matches `s`
      (`next(item.value for item in items if re.fullmatch(item.regex, s))`). */
  function FirstRegexMatch(items: seq<RegexItem>, s: string, fullMatch: FullMatch): (r: Option<nat>)
    ensures r.None? <==> forall j :: 0 <= j < |items| ==> !fullMatch(items[j].regex, s)
    ensures r.Some? ==> r.value < |items| && fullMatch(items[r.value].regex, s)
    ensures r.Some? ==> forall j :: 0 <= j < r.value ==> !fullMatch(items[j].regex, s)
  {
    if items == [] then None
    else if fullMatch(items[0].regex, s) then Some(0)
    else match FirstRegexMatch(items[1..], s, fullMatch)
      case None => None
      case Some(j) => Some(j + 1)
  }

  /** The value of the first matching item, or `s` itself when none matches. */
  function RegexReplacement(items: seq<RegexItem>, s: string, fullMatch: FullMatch): string
  {
    match FirstRegexMatch(items, s, fullMatch)
    case Some(j) => items[j].value
    case None => s
  }

  /** An item's literal equals `s` once both are stripped of surrounding
      whitespace. */
  predicate LiteralMatches(item: LiteralItem, s: string)
  {
    Strip(item.literal) == Strip(s)
  }

  /** The index of the first item whose literal equals `s` once both are
      stripped of surrounding whitespace. */
  function FirstLiteralMatch(items: seq<LiteralItem>, s: string): (r: Option<nat>)
    ensures r.None? <==> forall j :: 0 <= j < |items| ==> !LiteralMatches(items[j], s)
    ensures r.Some? ==> r.value < |items| && LiteralMatches(items[r.value], s)
    ensures r.Some? ==> forall j :: 0 <= j < r.value ==> !LiteralMatches(items[j], s)
  {
    if items == [] then None
    else if LiteralMatches(items[0], s) then Some(0)
    else match FirstLiteralMatch(items[1..], s)
      case None => None
      case Some(j) => Some(j + 1)
  }

  /** The stripped value of the first matching item, or `s` itself, unstripped,
      when none matches. */
  function LiteralReplacement(items: seq<LiteralItem>, s: string): string
  {
    match FirstLiteralMatch(items, s)
    case Some(j) => Strip(items[j].value)
    case None => s
  }

  /** `list(map(replacement, values))`. */
  function RegexReplaceAll(items: seq<RegexItem>, values: seq<string>, fullMatch: FullMatch): (r: seq<string>)
    ensures |r| == |values|
  {
    seq(|values|, i requires 0 <= i < |values| => RegexReplacement(items, values[i], fullMatch))
  }

  function LiteralReplaceAll(items: seq<LiteralItem>, values: seq<string>): (r: seq<string>)
    ensures |r| == |values|
  {
    seq(|values|, i requires 0 <= i < |values| => LiteralReplacement(items, values[i]))
  }

  // ---------------------------------------------------------------------
  // The effect of one operation on a store

  /** `_convert_field_str_to_list`: a string field becomes a one-element list;
      any other field, present or not, is left as it is. */
  function Converted(m: Store, field: string): (r: Store)
    ensures r.Keys == m.Keys
    ensures forall k :: k in m && k != field ==> r[k] == m[k]
    ensures Lookup(m, field).Str? ==> r[field] == List([m[field].s])
    ensures !Lookup(m, field).Str? ==> r == m
  {
    if Lookup(m, field).Str? then m[field := List([m[field].s])] else m
  }

  /** The field's elements once a present value has been converted to a list. */
  function Elements(v: Value): seq<string>
  {
    match v
    case Str(s) => [s]
    case List(items) => items
    case Null => []
  }

  /** The store after one operation (the `_set`, `_complement`, ...
      helpers, dispatched on `type_`). Only the target field can change, and
      no key is ever removed. */
  function AfterOperation(m: Store, op: Operation, fullMatch: FullMatch): (r: Store)
    ensures m.Keys <= r.Keys <= m.Keys + {op.targetField}
    ensures forall k :: k in m && k != op.targetField ==> r[k] == m[k]
  {
    var f := op.targetField;
    match op
    case SetOperation(_, v) => m[f := List([v])]
    case ComplementOperation(_, v) => if Present(m, f) then m else m[f := List([v])]
    case OverwriteExistingOperation(_, v) => if Present(m, f) then m[f := List([v])] else m
    case FindAndReplaceOperation(_, items) =>
      if !Present(m, f) then m
      else
        var c := Converted(m, f);
        c[f := List(RegexReplaceAll(items, c[f].items, fullMatch))]
    case FindAndReplaceLiteralOperation(_, items) =>
      if !Present(m, f) then m
      else
        var c := Converted(m, f);
        c[f := List(LiteralReplaceAll(items, c[f].items))]
  }

  /** The log entry for one operation, given the target field's value before
      and after it. */
  function EntryFor(op: Operation, pre: Value, post: Value): (e: LogEntry)
    ensures e.level == INFO
    ensures e.body.FieldChanged? <==> pre != post
    ensures e.body.FieldChanged? || e.body.FieldUnchanged?
    ensures e.body.typ == op.Type() && e.body.targetField == op.targetField && e.body.pre == pre
  {
    if pre != post then LogEntry(INFO, FieldChanged(op.Type(), op.targetField, pre, post))
    else LogEntry(INFO, FieldUnchanged(op.Type(), op.targetField, pre))
  }

  /** The store after all operations, applied in order. */
  function AfterOperations(m: Store, ops: seq<Operation>, fullMatch: FullMatch): Store
    decreases |ops|
  {
    if ops == [] then m
    else AfterOperations(AfterOperation(m, ops[0], fullMatch), ops[1..], fullMatch)
  }

  /** The log of all operations, in order. */
  function OperationsLog(m: Store, ops: seq<Operation>, fullMatch: FullMatch): seq<LogEntry>
    decreases |ops|
  {
    if ops == [] then []
    else
      var next := AfterOperation(m, ops[0], fullMatch);
      [EntryFor(ops[0], Lookup(m, ops[0].targetField), Lookup(next, ops[0].targetField))]
        + OperationsLog(next, ops[1..], fullMatch)
  }

  /** Running the operations from index `i` is running operation `i`, then
      those after it. */
  lemma OperationsStep(m: Store, ops: seq<Operation>, i: nat, fullMatch: FullMatch)
    requires i < |ops|
    ensures AfterOperations(m, ops[i..], fullMatch)
      == AfterOperations(AfterOperation(m, ops[i], fullMatch), ops[i + 1..], fullMatch)
    ensures OperationsLog(m, ops[i..], fullMatch)
      == [EntryFor(ops[i], Lookup(m, ops[i].targetField), Lookup(AfterOperation(m, ops[i], fullMatch), ops[i].targetField))]
        + OperationsLog(AfterOperation(m, ops[i], fullMatch), ops[i + 1..], fullMatch)
  {
    assert ops[i..][0] == ops[i] && ops[i..][1..] == ops[i + 1..];
  }

  // ---------------------------------------------------------------------
  // The imperative operator

  /** `ProcessResult`: the processed metadata and the log. */
  class ProcessResult {
    var metadata: Store
    var log: seq<LogEntry>

    constructor (metadata: Store)
      ensures this.metadata == metadata && log == []
    {
      this.metadata := metadata;
      log := [];
    }
  }

  class MetadataOperator {
    /** The log origin of the operator's entries. */
    const Tag: string

    constructor ()
      ensures Tag == "Metadata Operator"
    {
      Tag := "Metadata Operator";
    }

    /** `_convert_field_str_to_list`, in place. */
    static method ConvertFieldStrToList(result: ProcessResult, field: string)
      modifies result
      ensures result.metadata == Converted(old(result.metadata), field)
      ensures result.log == old(result.log)
    {
      if Lookup(result.metadata, field).Str? {
        result.metadata := result.metadata[field := List([result.metadata[field].s])];
      }
    }

    /** `_set`, in place. */
    method SetField(result: ProcessResult, op: Operation, ghost fullMatch: FullMatch)
      requires op.SetOperation?
      modifies result
      ensures result.metadata == AfterOperation(old(result.metadata), op, fullMatch)
      ensures result.log == old(result.log)
    {
      result.metadata := result.metadata[op.targetField := List([op.value])];
    }

    /** `_complement`, in place. */
    method ComplementField(result: ProcessResult, op: Operation, ghost fullMatch: FullMatch)
      requires op.ComplementOperation?
      modifies result
      ensures result.metadata == AfterOperation(old(result.metadata), op, fullMatch)
      ensures result.log == old(result.log)
    {
      if Lookup(result.metadata, op.targetField) == Null {
        result.metadata := result.metadata[op.targetField := List([op.value])];
      }
    }

    /** `_overwrite_existing`, in place. */
    method OverwriteExistingField(result: ProcessResult, op: Operation, ghost fullMatch: FullMatch)
      requires op.OverwriteExistingOperation?
      modifies result
      ensures result.metadata == AfterOperation(old(result.metadata), op, fullMatch)
      ensures result.log == old(result.log)
    {
      if Lookup(result.metadata, op.targetField) != Null {
        result.metadata := result.metadata[op.targetField := List([op.value])];
      }
    }

    /** `_find_and_replace`, in place. */
    method FindAndReplaceField(result: ProcessResult, op: Operation, fullMatch: FullMatch)
      requires op.FindAndReplaceOperation?
      modifies result
      ensures result.metadata == AfterOperation(old(result.metadata), op, fullMatch)
      ensures result.log == old(result.log)
    {
      if Lookup(result.metadata, op.targetField) == Null {
        return;
      }
      ConvertFieldStrToList(result, op.targetField);
      var values := result.metadata[op.targetField].items;
      result.metadata := result.metadata[op.targetField := List(RegexReplaceAll(op.regexItems, values, fullMatch))];
    }

    /** `_find_and_replace_literal`, in place. */
    method FindAndReplaceLiteralField(result: ProcessResult, op: Operation, ghost fullMatch: FullMatch)
      requires op.FindAndReplaceLiteralOperation?
      modifies result
      ensures result.metadata == AfterOperation(old(result.metadata), op, fullMatch)
      ensures result.log == old(result.log)
    {
      if Lookup(result.metadata, op.targetField) == Null {
        return;
      }
      ConvertFieldStrToList(result, op.targetField);
      var values := result.metadata[op.targetField].items;
      result.metadata := result.metadata[op.targetField := List(LiteralReplaceAll(op.literalItems, values))];
    }

    /** The `match operation.type_` of `process`: runs the helper for the
        operation's type. */
    method Dispatch(result: ProcessResult, op: Operation, fullMatch: FullMatch)
      modifies result
      ensures result.metadata == AfterOperation(old(result.metadata), op, fullMatch)
      ensures result.log == old(result.log)
    {
      match op.Type() {
        case Set => SetField(result, op, fullMatch);
        case Complement => ComplementField(result, op, fullMatch);
        case OverwriteExisting => OverwriteExistingField(result, op, fullMatch);
        case FindAndReplace => FindAndReplaceField(result, op, fullMatch);
        case FindAndReplaceLiteral => FindAndReplaceLiteralField(result, op, fullMatch);
      }
    }

    /** One pass of the loop in `process`: apply the operation, then log
        whether it changed the target field's value. */
    method ProcessOne(result: ProcessResult, op: Operation, fullMatch: FullMatch)
      modifies result
      ensures result.metadata == AfterOperation(old(result.metadata), op, fullMatch)
      ensures result.log == old(result.log)
        + [EntryFor(op, Lookup(old(result.metadata), op.targetField), Lookup(result.metadata, op.targetField))]
    {
      var pre := Lookup(result.metadata, op.targetField);
      Dispatch(result, op, fullMatch);
      var post := Lookup(result.metadata, op.targetField);
      if pre != post {
        result.log := result.log + [LogEntry(INFO, FieldChanged(op.Type(), op.targetField, pre, post))];
      } else {
        result.log := result.log + [LogEntry(INFO, FieldUnchanged(op.Type(), op.targetField, pre))];
      }
    }

    /** `process`: a fresh result holding a copy of the source metadata; without
        operations it is returned as is, otherwise each operation is applied
        in order and logged. */
    method Process(source: Store, operations: Option<seq<Operation>>, fullMatch: FullMatch)
      returns (result: ProcessResult)
      ensures operations.None? ==> result.metadata == source && result.log == []
      ensures operations.Some? ==> result.metadata == AfterOperations(source, operations.value, fullMatch)
      ensures operations.Some? ==> result.log == OperationsLog(source, operations.value, fullMatch)
    {
      result := new ProcessResult(source);
      if operations.None? {
        return;
      }
      var ops := operations.value;
      for i := 0 to |ops|
        invariant AfterOperations(result.metadata, ops[i..], fullMatch) == AfterOperations(source, ops, fullMatch)
        invariant result.log + OperationsLog(result.metadata, ops[i..], fullMatch) == OperationsLog(source, ops, fullMatch)
      {
        ghost var before := result.metadata;
        ghost var logBefore := result.log;
        ProcessOne(result, ops[i], fullMatch);
        OperationsStep(before, ops, i, fullMatch);
        assert logBefore + OperationsLog(before, ops[i..], fullMatch)
          == result.log + OperationsLog(result.metadata, ops[i + 1..], fullMatch);
      }
    }
  }
}
