/** What loading and merging significant properties promise: the loaded
    store, the two passes of the merge, the layout of the merged tree, and
    how the merge behaves on a store the operator produced from the same
    tree. */
module SigPropProperties {
  import opened Errors
  import opened MetadataStore
  import opened Operations
  import opened MetadataOperator
  import opened OperatorProperties
  import opened SignificantProperties
  import Config

  // ---------------------------------------------------------------------
  // Loading

  /** The loaded keys are exactly the types of the entries; children without
      a Type or a Value child are skipped. */
  lemma {:induction false} LoadedKeys(cs: seq<Child>)
    ensures forall t :: t in Loaded(cs) <==> HasEntryOfType(cs, t)
    decreases |cs|
  {
    if cs != [] {
      var init := cs[..|cs| - 1];
      LoadedKeys(init);
      forall t ensures t in Loaded(cs) <==> HasEntryOfType(cs, t) {
        if HasEntryOfType(cs, t) {
          var i :| 0 <= i < |cs| && IsEntry(cs[i]) && cs[i].typ.value == t;
          if i < |cs| - 1 {
            assert init[i] == cs[i];
          }
        }
        if HasEntryOfType(init, t) {
          var i :| 0 <= i < |init| && IsEntry(init[i]) && init[i].typ.value == t;
          assert cs[i] == init[i];
        }
      }
    }
  }

  /** A type maps to the value of its last entry: a later entry of the same
      type overwrites an earlier one. */
  lemma {:induction false} LoadedLastWins(cs: seq<Child>, i: nat)
    requires i < |cs| && IsEntry(cs[i])
    requires forall j :: i < j < |cs| && IsEntry(cs[j]) ==> cs[j].typ.value != cs[i].typ.value
    ensures cs[i].typ.value in Loaded(cs)
    ensures Loaded(cs)[cs[i].typ.value] == EntryValue(cs[i])
    decreases |cs|
  {
    if i < |cs| - 1 {
      var init := cs[..|cs| - 1];
      assert init[i] == cs[i];
      forall j | i < j < |init| && IsEntry(init[j])
        ensures init[j].typ.value != init[i].typ.value
      {
        assert init[j] == cs[j];
      }
      LoadedLastWins(init, i);
    }
  }

  /** Every loaded value is a string, or None for an empty Value element;
      without empty Value elements every loaded value can be written back. */
  lemma {:induction false} LoadedValues(cs: seq<Child>)
    ensures forall k :: k in Loaded(cs) ==> Loaded(cs)[k].Str? || Loaded(cs)[k].Null?
    ensures (forall i :: 0 <= i < |cs| && IsEntry(cs[i]) ==> cs[i].value.value.text.Some?)
      ==> AllWritable(Loaded(cs))
    decreases |cs|
  {
    if cs != [] {
      var init := cs[..|cs| - 1];
      LoadedValues(init);
      if forall i :: 0 <= i < |cs| && IsEntry(cs[i]) ==> cs[i].value.value.text.Some? {
        forall i | 0 <= i < |init| && IsEntry(init[i]) ensures init[i].value.value.text.Some? {
          assert init[i] == cs[i];
        }
      }
    }
  }

  // ---------------------------------------------------------------------
  // The first pass

  /** The first pass leaves non-entries alone, fails exactly when some entry's
      value cannot be computed (and then with that entry's exception),
      otherwise writes every entry's value, and records exactly the entry
      types. This holds for values without markup or control characters, as
      `WithValue` takes them. */
  lemma {:induction false} UpdateExistingSpec(cs: seq<Child>, md: Store)
    ensures var r := UpdateExisting(cs, md);
      && (forall i :: 0 <= i < |cs| && !IsEntry(cs[i]) ==> r.children[i] == cs[i])
      && (r.fault.None? <==>
           forall i :: 0 <= i < |cs| && IsEntry(cs[i]) ==> ValueText(md, cs[i].typ.value).Ok?)
      && (r.fault.Some? ==>
           exists i :: 0 <= i < |cs| && IsEntry(cs[i]) && ValueText(md, cs[i].typ.value) == Err(r.fault.value))
      && (r.fault.None? ==>
           forall i :: 0 <= i < |cs| && IsEntry(cs[i]) ==>
             r.children[i] == WithValue(cs[i], ValueText(md, cs[i].typ.value).value))
      && (r.fault.None? ==> forall t :: t in r.existing <==> HasEntryOfType(cs, t))
    decreases |cs|
  {
    if cs != [] {
      var c := cs[0];
      var tail := cs[1..];
      UpdateExistingSpec(tail, md);
      var rest := UpdateExisting(tail, md);
      var r := UpdateExisting(cs, md);
      assert forall i :: 1 <= i < |cs| ==> cs[i] == tail[i - 1];
      if rest.fault.Some? {
        var i :| 0 <= i < |tail| && IsEntry(tail[i]) && ValueText(md, tail[i].typ.value) == Err(rest.fault.value);
        assert cs[i + 1] == tail[i];
      }
      forall t ensures HasEntryOfType(cs, t) <==> (IsEntry(c) && c.typ.value == t) || HasEntryOfType(tail, t) {
        if HasEntryOfType(cs, t) {
          var i :| 0 <= i < |cs| && IsEntry(cs[i]) && cs[i].typ.value == t;
          if i > 0 {
            assert IsEntry(tail[i - 1]);
          }
        }
        if HasEntryOfType(tail, t) {
          var i :| 0 <= i < |tail| && IsEntry(tail[i]) && tail[i].typ.value == t;
          assert cs[i + 1] == tail[i];
        }
      }
      if IsEntry(c) && ValueText(md, c.typ.value).Err? {
        assert r.fault == Some(ValueText(md, c.typ.value).error);
        assert IsEntry(cs[0]);
      }
    }
  }

  // ---------------------------------------------------------------------
  // New types and new entries

  /** The filter keeps exactly the types that are keys and not existing, in
      their given order. */
  lemma {:induction false} FilterNewSpec(types: seq<string>, md: Store, existing: seq<string>)
    ensures forall x :: x in FilterNew(types, md, existing) <==> x in types && x in md && x !in existing
    ensures IsSubsequence(FilterNew(types, md, existing), types)
    decreases |types|
  {
    if types != [] {
      var rest := FilterNew(types[1..], md, existing);
      FilterNewSpec(types[1..], md, existing);
      assert forall x :: x in types <==> x == types[0] || x in types[1..];
      if types[0] in md && types[0] !in existing {
        assert ([types[0]] + rest)[1..] == rest;
      }
    }
  }

  /** New types are the `SIGPROP_TYPES` that are keys of the store and have
      no entry yet, in `SIGPROP_TYPES` order; a key outside `SIGPROP_TYPES` is
      never appended. */
  lemma NewTypesSpec(md: Store, existing: seq<string>)
    ensures forall x :: x in NewTypes(md, existing) <==> x in Config.SigPropTypes && x in md && x !in existing
    ensures IsSubsequence(NewTypes(md, existing), Config.SigPropTypes)
  {
    FilterNewSpec(Config.SigPropTypes, md, existing);
  }

  /** The second pass fails exactly when some type's value cannot be computed
      (and then with that type's exception); otherwise it builds one entry per
      type, each followed by the indentation of a child of `object` except the
      last, which is followed by that of `object` itself. This holds for values
      without markup or control characters, as `NewEntry` takes them. */
  lemma {:induction false} NewEntriesSpec(types: seq<string>, md: Store)
    ensures var r := NewEntries(types, md);
      && (r.fault.None? <==> forall j :: 0 <= j < |types| ==> ValueText(md, types[j]).Ok?)
      && (r.fault.Some? ==> exists j :: 0 <= j < |types| && ValueText(md, types[j]) == Err(r.fault.value))
      && (r.fault.None? ==> |r.entries| == |types|)
      && (r.fault.None? ==> forall j :: 0 <= j < |types| ==>
           r.entries[j] == NewEntry(types[j], ValueText(md, types[j]).value,
                                    Indent(if j == |types| - 1 then ObjectDepth else ObjectDepth + 1)))
    decreases |types|
  {
    if types != [] {
      var tail := types[1..];
      NewEntriesSpec(tail, md);
      var rest := NewEntries(tail, md);
      assert forall j :: 1 <= j < |types| ==> types[j] == tail[j - 1];
      if rest.fault.Some? {
        var j :| 0 <= j < |tail| && ValueText(md, tail[j]) == Err(rest.fault.value);
        assert types[j + 1] == tail[j];
      }
    }
  }

  // ---------------------------------------------------------------------
  // The merged tree

  /** Layout of a merge that writes the file. Let n be the number of children
      before the merge. The children grow by exactly the number of new types.
      The first n keep their order and their kind, entries with their values
      written; only the last of them gets a new tail, and only if types are
      appended. Appended entries follow in order, each indented as a child
      of `object`, the last one as `object` itself. With no new types no
      whitespace changes at all. */
  lemma ApplyLayout(s: ObjectState, md: Store)
    requires Apply(s, md).outcome == Written
    ensures var u := UpdateExisting(s.children, md);
      var types := NewTypes(md, u.existing);
      var r := Apply(s, md).state;
      var n := |s.children|;
      && |r.children| == n + |types|
      && (forall i :: 0 <= i < n && !IsEntry(s.children[i]) ==>
           r.children[i].(tail := s.children[i].tail) == s.children[i])
      && (forall i :: 0 <= i < n && IsEntry(s.children[i]) ==>
           && ValueText(md, s.children[i].typ.value).Ok?
           && r.children[i].(tail := s.children[i].tail)
                == WithValue(s.children[i], ValueText(md, s.children[i].typ.value).value))
      && (forall i :: 0 <= i < n && (types == [] || i < n - 1) ==> r.children[i].tail == s.children[i].tail)
      && (types != [] && n > 0 ==> r.children[n - 1].tail == Some(Indent(ObjectDepth + 1)) && r.text == s.text)
      && (types != [] && n == 0 ==> r.text == Some(Indent(ObjectDepth + 1)))
      && (types == [] ==> r.text == s.text)
      && (forall j :: 0 <= j < |types| ==>
           && ValueText(md, types[j]).Ok?
           && r.children[n + j] == NewEntry(types[j], ValueText(md, types[j]).value,
                                            Indent(if j == |types| - 1 then ObjectDepth else ObjectDepth + 1)))
  {
    ApplyLayoutExisting(s, md);
    ApplyLayoutAppended(s, md);
  }

  /** The existing children of a merge that writes the file, and the text of
      `object`. */
  lemma ApplyLayoutExisting(s: ObjectState, md: Store)
    requires Apply(s, md).outcome == Written
    ensures var u := UpdateExisting(s.children, md);
      var types := NewTypes(md, u.existing);
      var r := Apply(s, md).state;
      var n := |s.children|;
      && |r.children| == n + |types|
      && (forall i :: 0 <= i < n && !IsEntry(s.children[i]) ==>
           r.children[i].(tail := s.children[i].tail) == s.children[i])
      && (forall i :: 0 <= i < n && IsEntry(s.children[i]) ==>
           && ValueText(md, s.children[i].typ.value).Ok?
           && r.children[i].(tail := s.children[i].tail)
                == WithValue(s.children[i], ValueText(md, s.children[i].typ.value).value))
      && (forall i :: 0 <= i < n && (types == [] || i < n - 1) ==> r.children[i].tail == s.children[i].tail)
      && (types != [] && n > 0 ==> r.children[n - 1].tail == Some(Indent(ObjectDepth + 1)) && r.text == s.text)
      && (types != [] && n == 0 ==> r.text == Some(Indent(ObjectDepth + 1)))
      && (types == [] ==> r.text == s.text)
  {
    UpdateExistingSpec(s.children, md);
    var u := UpdateExisting(s.children, md);
    var types := NewTypes(md, u.existing);
    if types != [] {
      NewEntriesSpec(types, md);
    }
  }

  /** The entries a merge that writes the file appends. */
  lemma ApplyLayoutAppended(s: ObjectState, md: Store)
    requires Apply(s, md).outcome == Written
    ensures var u := UpdateExisting(s.children, md);
      var types := NewTypes(md, u.existing);
      var r := Apply(s, md).state;
      var n := |s.children|;
      && |r.children| == n + |types|
      && (forall j :: 0 <= j < |types| ==>
           && ValueText(md, types[j]).Ok?
           && r.children[n + j] == NewEntry(types[j], ValueText(md, types[j]).value,
                                            Indent(if j == |types| - 1 then ObjectDepth else ObjectDepth + 1)))
  {
    var u := UpdateExisting(s.children, md);
    var types := NewTypes(md, u.existing);
    if types != [] {
      NewEntriesSpec(types, md);
      var ind := Reindented(ObjectState(s.text, u.children));
      var a := NewEntries(types, md);
      assert |ind.children| == |s.children|;
      assert Apply(s, md).state.children == ind.children + a.entries;
      forall j | 0 <= j < |types| ensures Apply(s, md).state.children[|s.children| + j] == a.entries[j] {
      }
    }
  }

  /** Every appended entry is of a type in `SIGPROP_TYPES` that is a key of
      the store and had no entry in the tree. */
  lemma ApplyAppendsOnlyNewTypes(s: ObjectState, md: Store)
    requires Apply(s, md).outcome == Written
    ensures var r := Apply(s, md).state;
      forall j :: |s.children| <= j < |r.children| ==>
        && IsEntry(r.children[j])
        && r.children[j].typ.value in Config.SigPropTypes
        && r.children[j].typ.value in md
        && !HasEntryOfType(s.children, r.children[j].typ.value)
  {
    var u := UpdateExisting(s.children, md);
    UpdateExistingSpec(s.children, md);
    var types := NewTypes(md, u.existing);
    NewTypesSpec(md, u.existing);
    ApplyLayout(s, md);
    var r := Apply(s, md).state;
    forall j | |s.children| <= j < |r.children|
      ensures IsEntry(r.children[j]) && r.children[j].typ.value == types[j - |s.children|]
    {
      assert types[j - |s.children|] in types;
    }
  }

  // ---------------------------------------------------------------------
  // Loading, processing and merging one tree

  /** The existing-entry lookup `metadata[type_.text]` never raises KeyError
      on a store the operator produced from the same tree: a run never removes
      a key, and every entry type was loaded as a key. Neither does the lookup
      for a new type, which is a key by construction. */
  lemma MergeAfterProcessHasNoKeyError(text: Option<string>, cs: seq<Child>, ops: seq<Operation>, fullMatch: FullMatch)
    ensures var md := AfterOperations(Loaded(cs), ops, fullMatch);
      var r := Apply(ObjectState(text, cs), md);
      r.outcome.Raised? ==> !r.outcome.error.KeyError?
  {
    var md := AfterOperations(Loaded(cs), ops, fullMatch);
    LoadedKeys(cs);
    RunFrame(Loaded(cs), ops, fullMatch);
    ApplyRaisesNoKeyError(ObjectState(text, cs), md);
  }

  /** A merge never raises KeyError on a store that has a key for every entry
      type of the tree. */
  lemma ApplyRaisesNoKeyError(s: ObjectState, md: Store)
    requires forall t :: HasEntryOfType(s.children, t) ==> t in md
    ensures Apply(s, md).outcome.Raised? ==> !Apply(s, md).outcome.error.KeyError?
  {
    var cs := s.children;
    UpdateExistingSpec(cs, md);
    var u := UpdateExisting(cs, md);
    if u.fault.Some? {
      var i :| 0 <= i < |cs| && IsEntry(cs[i]) && ValueText(md, cs[i].typ.value) == Err(u.fault.value);
      assert HasEntryOfType(cs, cs[i].typ.value);
    } else {
      var types := NewTypes(md, u.existing);
      NewTypesSpec(md, u.existing);
      NewEntriesSpec(types, md);
      var a := NewEntries(types, md);
      if a.fault.Some? {
        var j :| 0 <= j < |types| && ValueText(md, types[j]) == Err(a.fault.value);
        assert types[j] in types;
      }
    }
  }

  /** If no Value element of the tree is empty, the merge of the operator's
      result (`Apply`, which runs once the processed store is not empty)
      never raises and ends in the write (for values without markup or
      control characters, as `NewEntry` takes them): every value stays
      writable through the run. An empty store returns before the merge;
      see `ApplySignificantProperties`. */
  lemma MergeAfterProcessWrites(text: Option<string>, cs: seq<Child>, ops: seq<Operation>, fullMatch: FullMatch)
    requires forall i :: 0 <= i < |cs| && IsEntry(cs[i]) ==> cs[i].value.value.text.Some?
    ensures Apply(ObjectState(text, cs), AfterOperations(Loaded(cs), ops, fullMatch)).outcome == Written
  {
    var md := AfterOperations(Loaded(cs), ops, fullMatch);
    LoadedKeys(cs);
    LoadedValues(cs);
    RunFrame(Loaded(cs), ops, fullMatch);
    RunKeepsWritable(Loaded(cs), ops, fullMatch);
    UpdateExistingSpec(cs, md);
    forall i | 0 <= i < |cs| && IsEntry(cs[i]) ensures ValueText(md, cs[i].typ.value).Ok? {
      assert HasEntryOfType(cs, cs[i].typ.value);
    }
    var u := UpdateExisting(cs, md);
    var types := NewTypes(md, u.existing);
    NewTypesSpec(md, u.existing);
    NewEntriesSpec(types, md);
    forall j | 0 <= j < |types| ensures ValueText(md, types[j]).Ok? {
      assert types[j] in types;
    }
  }

  /** An empty Value element in the tree makes the merge raise TypeError
      (`None[0]`) when the operations do not touch its type. */
  lemma EmptyValueElementRaises(fullMatch: FullMatch)
    ensures var cs := [SigProp(Some("content"), Some(ValueElement(None)), Some("\n  "))];
      var ops := [SetOperation("context", "x")];
      Apply(ObjectState(Some("\n    "), cs), AfterOperations(Loaded(cs), ops, fullMatch)).outcome
        == Raised(TypeError)
  {
    var cs := [SigProp(Some("content"), Some(ValueElement(None)), Some("\n  "))];
    assert cs[..0] == [];
    var m := map["content" := Null];
    assert Loaded(cs) == m;
    var ops := [SetOperation("context", "x")];
    RunCons(m, ops[0], [], fullMatch);
    var md := m["context" := List(["x"])];
    assert AfterOperations(m, ops, fullMatch) == md;
    assert ValueText(md, "content") == Err(TypeError);
  }

  /** With only "structure" as a key and no existing entries, "structure" is
      the only new type. */
  lemma NewTypesOnlyStructure(md: Store)
    requires md.Keys == {"structure"}
    ensures NewTypes(md, []) == ["structure"]
  {
    var types := Config.SigPropTypes;
    assert FilterNew(types[5..], md, []) == [];
    assert FilterNew(types[4..], md, []) == ["structure"];
    assert FilterNew(types[3..], md, []) == ["structure"];
    assert FilterNew(types[2..], md, []) == ["structure"];
    assert FilterNew(types[1..], md, []) == ["structure"];
  }

  /** A package without a significant-properties file: the template tree and
      a complement of "structure" give one appended entry after the object
      identifier, whose tail becomes the indentation of a child of `object`. */
  lemma TemplateComplementScenario(fullMatch: FullMatch)
    ensures var s := TemplateObject();
      var md := AfterOperations(Loaded(s.children), [ComplementOperation("structure", "new value")], fullMatch);
      && md == map["structure" := List(["new value"])]
      && Apply(s, md) == Applied(
           ObjectState(Some("\n    "), [Other(Some("\n    ")), NewEntry("structure", "new value", "\n  ")]),
           Written)
  {
    var s := TemplateObject();
    assert s.children[..0] == [];
    assert Loaded(s.children) == map[];
    var op := ComplementOperation("structure", "new value");
    RunCons(map[], op, [], fullMatch);
    var md := map["structure" := List(["new value"])];
    assert AfterOperations(map[], [op], fullMatch) == md;
    IndentValues();
    assert UpdateExisting(s.children, md) == Updated(s.children, [], None);
    NewTypesOnlyStructure(md);
    assert NewEntries(["structure"], md).entries == [NewEntry("structure", "new value", "\n  ")];
  }

  /** No type is appended twice. */
  lemma NewTypesDistinct(md: Store, existing: seq<string>)
    ensures forall i, j :: 0 <= i < j < |NewTypes(md, existing)| ==> NewTypes(md, existing)[i] != NewTypes(md, existing)[j]
  {
    FilterNewDistinct(Config.SigPropTypes, md, existing);
  }

  lemma {:induction false} FilterNewDistinct(types: seq<string>, md: Store, existing: seq<string>)
    requires forall i, j :: 0 <= i < j < |types| ==> types[i] != types[j]
    ensures forall i, j :: 0 <= i < j < |FilterNew(types, md, existing)| ==>
      FilterNew(types, md, existing)[i] != FilterNew(types, md, existing)[j]
    decreases |types|
  {
    if types != [] {
      var rest := FilterNew(types[1..], md, existing);
      FilterNewDistinct(types[1..], md, existing);
      FilterNewSpec(types[1..], md, existing);
      assert types[0] !in types[1..] by {
        forall k | 0 <= k < |types[1..]| ensures types[1..][k] != types[0] {
          assert types[1..][k] == types[k + 1];
        }
      }
      if types[0] in md && types[0] !in existing {
        var r := [types[0]] + rest;
        assert FilterNew(types, md, existing) == r;
        forall i, j | 0 <= i < j < |r| ensures r[i] != r[j] {
          assert r[j] == rest[j - 1] && rest[j - 1] in rest;
          if i > 0 {
            assert r[i] == rest[i - 1];
            assert rest[i - 1] != rest[j - 1];
          } else {
            assert rest[j - 1] in types[1..];
          }
        }
      }
    }
  }
}
