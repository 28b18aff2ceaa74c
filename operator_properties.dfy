/** What the metadata operator promises: the rule of each operation, the
    frame of a whole run, the shape of the log, and the scenarios of the
    operator's own test suite. */
module OperatorProperties {
  import opened Errors
  import opened MetadataStore
  import opened Operations
  import opened Logging
  import opened MetadataOperator

  // ---------------------------------------------------------------------
  // One operation

  /** Set always yields `[value]`, whatever was there before. */
  lemma SetYieldsValue(m: Store, f: string, v: string, fullMatch: FullMatch)
    ensures Lookup(AfterOperation(m, SetOperation(f, v), fullMatch), f) == List([v])
  {
  }

  /** Complement writes `[value]` exactly when the field is absent (or None);
      a present field, even "" or [], is left alone. */
  lemma ComplementGatedByPresence(m: Store, f: string, v: string, fullMatch: FullMatch)
    ensures Present(m, f) ==> AfterOperation(m, ComplementOperation(f, v), fullMatch) == m
    ensures !Present(m, f) ==> Lookup(AfterOperation(m, ComplementOperation(f, v), fullMatch), f) == List([v])
  {
  }

  /** OverwriteExisting writes `[value]` exactly when the field is present,
      collapsing any list; an absent field stays absent. */
  lemma OverwriteExistingGatedByPresence(m: Store, f: string, v: string, fullMatch: FullMatch)
    ensures Present(m, f) ==> Lookup(AfterOperation(m, OverwriteExistingOperation(f, v), fullMatch), f) == List([v])
    ensures !Present(m, f) ==> AfterOperation(m, OverwriteExistingOperation(f, v), fullMatch) == m
  {
  }

  /** Applying OverwriteExisting twice is applying it once. */
  lemma OverwriteExistingIdempotent(m: Store, f: string, v: string, fullMatch: FullMatch)
    ensures var op := OverwriteExistingOperation(f, v);
      AfterOperation(AfterOperation(m, op, fullMatch), op, fullMatch) == AfterOperation(m, op, fullMatch)
  {
  }

  /** Both find-and-replace operations leave a store without the field as it
      is: the key is not inserted. */
  lemma FindAndReplaceAbsentIsNoOp(m: Store, op: Operation, fullMatch: FullMatch)
    requires op.FindAndReplaceOperation? || op.FindAndReplaceLiteralOperation?
    requires !Present(m, op.targetField)
    ensures AfterOperation(m, op, fullMatch) == m
  {
  }

  /** FindAndReplace on a present field: the result is a list as long as the
      field's elements (a string counts as one), and each element becomes the
      value of the first item whose regex fully matches it, or stays as it is. */
  lemma FindAndReplaceElementwise(m: Store, f: string, items: seq<RegexItem>, fullMatch: FullMatch)
    requires Present(m, f)
    ensures var r := AfterOperation(m, FindAndReplaceOperation(f, items), fullMatch);
      var e := Elements(m[f]);
      && f in r && r[f].List? && |r[f].items| == |e|
      && forall i :: 0 <= i < |e| ==>
        match FirstRegexMatch(items, e[i], fullMatch)
        case Some(j) => r[f].items[i] == items[j].value
        case None => r[f].items[i] == e[i]
  {
    var c := Converted(m, f);
    assert c[f].items == Elements(m[f]);
  }

  /** FindAndReplaceLiteral on a present field: an element equal to an item's
      literal, both stripped, becomes that item's stripped value (first item
      wins); any other element keeps its original, unstripped text. */
  lemma FindAndReplaceLiteralElementwise(m: Store, f: string, items: seq<LiteralItem>, fullMatch: FullMatch)
    requires Present(m, f)
    ensures var r := AfterOperation(m, FindAndReplaceLiteralOperation(f, items), fullMatch);
      var e := Elements(m[f]);
      && f in r && r[f].List? && |r[f].items| == |e|
      && forall i :: 0 <= i < |e| ==>
        match FirstLiteralMatch(items, e[i])
        case Some(j) => r[f].items[i] == Strip(items[j].value)
        case None => r[f].items[i] == e[i]
  {
    var c := Converted(m, f);
    assert c[f].items == Elements(m[f]);
  }

  /** A present string field becomes a one-element list even when no item
      matches, so the operation is logged as a change. */
  lemma ScalarCoercedWithoutMatch(m: Store, f: string, items: seq<RegexItem>, fullMatch: FullMatch)
    requires f in m && m[f].Str?
    requires forall j :: 0 <= j < |items| ==> !fullMatch(items[j].regex, m[f].s)
    ensures var op := FindAndReplaceOperation(f, items);
      var r := AfterOperation(m, op, fullMatch);
      && Lookup(r, f) == List([m[f].s])
      && EntryFor(op, Lookup(m, f), Lookup(r, f)).body.FieldChanged?
  {
    var r := AfterOperation(m, FindAndReplaceOperation(f, items), fullMatch);
    assert r[f].items[0] == m[f].s;
  }

  // ---------------------------------------------------------------------
  // A run of operations

  /** The target fields of a list of operations. */
  function Targets(ops: seq<Operation>): set<string>
  {
    set i | 0 <= i < |ops| :: ops[i].targetField
  }

  /** A run never removes a key, inserts only target fields, and leaves every
      other field exactly as it was. */
  lemma {:induction false} RunFrame(m: Store, ops: seq<Operation>, fullMatch: FullMatch)
    ensures m.Keys <= AfterOperations(m, ops, fullMatch).Keys <= m.Keys + Targets(ops)
    ensures forall k :: k in m && k !in Targets(ops) ==> AfterOperations(m, ops, fullMatch)[k] == m[k]
    decreases |ops|
  {
    if ops != [] {
      var next := AfterOperation(m, ops[0], fullMatch);
      RunFrame(next, ops[1..], fullMatch);
      assert Targets(ops) == {ops[0].targetField} + Targets(ops[1..]) by {
        forall t | t in Targets(ops) ensures t in {ops[0].targetField} + Targets(ops[1..]) {
          var i :| 0 <= i < |ops| && ops[i].targetField == t;
          if i > 0 { assert ops[1..][i - 1] == ops[i]; }
        }
        forall t | t in Targets(ops[1..]) ensures t in Targets(ops) {
          var i :| 0 <= i < |ops[1..]| && ops[1..][i].targetField == t;
          assert ops[i + 1] == ops[1..][i];
        }
      }
    }
  }

  /** Running `a` then `b` is running `a + b`: operation i+1 sees the store
      that operation i left. */
  lemma {:induction false} RunAppend(m: Store, a: seq<Operation>, b: seq<Operation>, fullMatch: FullMatch)
    ensures AfterOperations(m, a + b, fullMatch) == AfterOperations(AfterOperations(m, a, fullMatch), b, fullMatch)
    ensures OperationsLog(m, a + b, fullMatch)
      == OperationsLog(m, a, fullMatch) + OperationsLog(AfterOperations(m, a, fullMatch), b, fullMatch)
    decreases |a|
  {
    if a == [] {
      assert a + b == b;
    } else {
      assert (a + b)[0] == a[0] && (a + b)[1..] == a[1..] + b;
      RunAppend(AfterOperation(m, a[0], fullMatch), a[1..], b, fullMatch);
    }
  }

  /** The log has exactly one entry per operation, in application order; entry
      i is INFO and says "changed" exactly when operation i changed its target
      field's value (as `metadata.get` reads it), with the values before and
      after. */
  lemma {:induction false} LogShape(m: Store, ops: seq<Operation>, fullMatch: FullMatch)
    ensures |OperationsLog(m, ops, fullMatch)| == |ops|
    ensures forall i :: 0 <= i < |ops| ==>
      var pre := Lookup(AfterOperations(m, ops[..i], fullMatch), ops[i].targetField);
      var post := Lookup(AfterOperations(m, ops[..i + 1], fullMatch), ops[i].targetField);
      && OperationsLog(m, ops, fullMatch)[i].level == INFO
      && OperationsLog(m, ops, fullMatch)[i] == EntryFor(ops[i], pre, post)
      && (OperationsLog(m, ops, fullMatch)[i].body.FieldChanged? <==> pre != post)
    decreases |ops|
  {
    if ops != [] {
      var next := AfterOperation(m, ops[0], fullMatch);
      LogShape(next, ops[1..], fullMatch);
      forall i | 0 <= i < |ops|
        ensures var pre := Lookup(AfterOperations(m, ops[..i], fullMatch), ops[i].targetField);
          var post := Lookup(AfterOperations(m, ops[..i + 1], fullMatch), ops[i].targetField);
          OperationsLog(m, ops, fullMatch)[i] == EntryFor(ops[i], pre, post)
      {
        if i == 0 {
          assert ops[..1] == [ops[0]] && ops[..0] == [];
          assert [ops[0]][1..] == [];
        } else {
          assert ops[..i][0] == ops[0] && ops[..i][1..] == ops[1..][..i - 1];
          assert ops[..i + 1][0] == ops[0] && ops[..i + 1][1..] == ops[1..][..i];
          assert ops[1..][i - 1] == ops[i];
        }
      }
    }
  }

  /** The operator never logs an error. */
  lemma {:induction false} LogHasNoError(m: Store, ops: seq<Operation>, fullMatch: FullMatch)
    ensures !HasError(OperationsLog(m, ops, fullMatch))
  {
    LogShape(m, ops, fullMatch);
    var log := OperationsLog(m, ops, fullMatch);
    forall i | 0 <= i < |log| ensures log[i].level != ERROR {
      assert log[i] == EntryFor(ops[i], Lookup(AfterOperations(m, ops[..i], fullMatch), ops[i].targetField),
                                Lookup(AfterOperations(m, ops[..i + 1], fullMatch), ops[i].targetField));
    }
  }

  // ---------------------------------------------------------------------
  // Values that the significant-properties merge can write

  /** Every operation keeps all values writable: it writes one-element lists
      or maps a list to one as long. */
  lemma OperationKeepsWritable(m: Store, op: Operation, fullMatch: FullMatch)
    requires AllWritable(m)
    ensures AllWritable(AfterOperation(m, op, fullMatch))
  {
    var r := AfterOperation(m, op, fullMatch);
    var f := op.targetField;
    if (op.FindAndReplaceOperation? || op.FindAndReplaceLiteralOperation?) && Present(m, f) {
      assert |Converted(m, f)[f].items| > 0;
    }
  }

  lemma {:induction false} RunKeepsWritable(m: Store, ops: seq<Operation>, fullMatch: FullMatch)
    requires AllWritable(m)
    ensures AllWritable(AfterOperations(m, ops, fullMatch))
    decreases |ops|
  {
    if ops != [] {
      OperationKeepsWritable(m, ops[0], fullMatch);
      RunKeepsWritable(AfterOperation(m, ops[0], fullMatch), ops[1..], fullMatch);
    }
  }

  // ---------------------------------------------------------------------
  // Scenarios of the operator's test suite

  lemma SetCollapsesList(fullMatch: FullMatch)
    ensures AfterOperations(map["y" := Str("old"), "x" := List(["old-0", "old-1"])],
                            [SetOperation("x", "new")], fullMatch)
      == map["y" := Str("old"), "x" := List(["new"])]
  {
  }

  /** Running `[op] + rest` is running `op`, then `rest`. */
  lemma RunCons(m: Store, op: Operation, rest: seq<Operation>, fullMatch: FullMatch)
    ensures AfterOperations(m, [op] + rest, fullMatch)
      == AfterOperations(AfterOperation(m, op, fullMatch), rest, fullMatch)
  {
    assert ([op] + rest)[0] == op && ([op] + rest)[1..] == rest;
  }

  /** Set, Complement, OverwriteExisting and FindAndReplace run in sequence on
      an empty store, each seeing the previous one's result. */
  lemma SequenceScenario(fullMatch: FullMatch)
    requires fullMatch("new-[a-z]*", "new-overwritten")
    ensures AfterOperations(map[], [
        SetOperation("y", "old"),
        ComplementOperation("x", "new"),
        OverwriteExistingOperation("x", "new-overwritten"),
        FindAndReplaceOperation("x", [RegexItem("new-[a-z]*", "new-replaced")])
      ], fullMatch)
      == map["y" := List(["old"]), "x" := List(["new-replaced"])]
  {
    var op1, op2, op3 := SetOperation("y", "old"), ComplementOperation("x", "new"),
      OverwriteExistingOperation("x", "new-overwritten");
    var op4 := FindAndReplaceOperation("x", [RegexItem("new-[a-z]*", "new-replaced")]);
    var m1 := AfterOperation(map[], op1, fullMatch);
    assert m1 == map["y" := List(["old"])];
    var m2 := AfterOperation(m1, op2, fullMatch);
    assert m2 == map["y" := List(["old"]), "x" := List(["new"])];
    var m3 := AfterOperation(m2, op3, fullMatch);
    assert m3 == map["y" := List(["old"]), "x" := List(["new-overwritten"])];
    var m4 := AfterOperation(m3, op4, fullMatch);
    assert RegexReplacement(op4.regexItems, "new-overwritten", fullMatch) == "new-replaced";
    assert RegexReplaceAll(op4.regexItems, ["new-overwritten"], fullMatch) == ["new-replaced"];
    assert m4 == map["y" := List(["old"]), "x" := List(["new-replaced"])];
    RunCons(m3, op4, [], fullMatch);
    RunCons(m2, op3, [op4], fullMatch);
    RunCons(m1, op2, [op3, op4], fullMatch);
    RunCons(map[], op1, [op2, op3, op4], fullMatch);
  }

  /** The same operations with OverwriteExisting before Complement: the
      overwrite finds no field, and the regex does not fully match "new". */
  lemma ReorderedSequenceScenario(fullMatch: FullMatch)
    requires !fullMatch("new-[a-z]*", "new")
    ensures AfterOperations(map[], [
        SetOperation("y", "old"),
        OverwriteExistingOperation("x", "new-overwritten"),
        ComplementOperation("x", "new"),
        FindAndReplaceOperation("x", [RegexItem("new-[a-z]*", "new-replaced")])
      ], fullMatch)
      == map["y" := List(["old"]), "x" := List(["new"])]
  {
    var op1, op2, op3 := SetOperation("y", "old"), OverwriteExistingOperation("x", "new-overwritten"),
      ComplementOperation("x", "new");
    var op4 := FindAndReplaceOperation("x", [RegexItem("new-[a-z]*", "new-replaced")]);
    var m1 := AfterOperation(map[], op1, fullMatch);
    assert m1 == map["y" := List(["old"])];
    var m2 := AfterOperation(m1, op2, fullMatch);
    assert m2 == m1;
    var m3 := AfterOperation(m2, op3, fullMatch);
    assert m3 == map["y" := List(["old"]), "x" := List(["new"])];
    var m4 := AfterOperation(m3, op4, fullMatch);
    assert RegexReplacement(op4.regexItems, "new", fullMatch) == "new";
    assert RegexReplaceAll(op4.regexItems, ["new"], fullMatch) == ["new"];
    assert m4 == m3;
    RunCons(m3, op4, [], fullMatch);
    RunCons(m2, op3, [op4], fullMatch);
    RunCons(m1, op2, [op3, op4], fullMatch);
    RunCons(map[], op1, [op2, op3, op4], fullMatch);
  }

  lemma LiteralReplaceAllSingle(items: seq<LiteralItem>, s: string)
    ensures LiteralReplaceAll(items, [s]) == [LiteralReplacement(items, s)]
  {
  }

  lemma StripPaddedOld()
    ensures Strip(" old ") == "old" && Strip("\nold\t") == "old"
  {
    assert StripLeading(" old ") == "old ";
    assert StripTrailing("old ") == "old";
    assert StripLeading("\nold\t") == "old\t";
    assert StripTrailing("old\t") == "old";
  }

  lemma StripNew()
    ensures Strip("new") == "new"
  {
    assert StripLeading("new") == "new" && StripTrailing("new") == "new";
  }

  lemma PaddedLiteralReplacement()
    ensures LiteralReplacement([LiteralItem(" old ", "new")], "\nold\t") == "new"
  {
    StripPaddedOld();
    StripNew();
  }

  /** A literal find-and-replace on a field holding one string leaves a
      one-element list with that string's replacement. */
  lemma LiteralOnString(f: string, s: string, items: seq<LiteralItem>, fullMatch: FullMatch)
    ensures AfterOperations(map[f := Str(s)], [FindAndReplaceLiteralOperation(f, items)], fullMatch)
      == map[f := List([LiteralReplacement(items, s)])]
  {
    var m := map[f := Str(s)];
    var op := FindAndReplaceLiteralOperation(f, items);
    LiteralReplaceAllSingle(items, s);
    assert Converted(m, f) == map[f := List([s])];
    assert AfterOperation(m, op, fullMatch) == map[f := List([LiteralReplacement(items, s)])];
    RunCons(m, op, [], fullMatch);
  }

  /** Literal matching strips both sides: " old " matches "\nold\t". */
  lemma LiteralStripsBothSides(fullMatch: FullMatch)
    ensures AfterOperations(map["y" := Str("\nold\t")],
                            [FindAndReplaceLiteralOperation("y", [LiteralItem(" old ", "new")])], fullMatch)
      == map["y" := List(["new"])]
  {
    PaddedLiteralReplacement();
    LiteralOnString("y", "\nold\t", [LiteralItem(" old ", "new")], fullMatch);
  }

  /** Only surrounding whitespace is stripped: "not old" does not match
      "not\nold\t", which is kept unstripped (but as a list). */
  lemma LiteralKeepsInnerWhitespace(fullMatch: FullMatch)
    ensures AfterOperations(map["y" := Str("not\nold\t")],
                            [FindAndReplaceLiteralOperation("y", [LiteralItem("not old", "new")])], fullMatch)
      == map["y" := List(["not\nold\t"])]
  {
    assert StripLeading("not old") == "not old" && StripTrailing("not old") == "not old";
    assert StripLeading("not\nold\t") == "not\nold\t";
    assert StripTrailing("not\nold\t") == "not\nold";
    assert LiteralReplacement([LiteralItem("not old", "new")], "not\nold\t") == "not\nold\t";
    LiteralOnString("y", "not\nold\t", [LiteralItem("not old", "new")], fullMatch);
  }
}
