/** The significant-properties file of an information package: a PREMIS
    document whose `object` element holds `significantProperties` entries,
    each with a Type and a Value child. The loader reads the entries into a
    metadata store; the merge writes a processed store back into the tree,
    in place. */
module SignificantProperties {
  import opened Errors
  import opened MetadataStore
  import Config

  // ---------------------------------------------------------------------
  // The tree

  /** A `significantPropertiesValue` element; `text` is None when the element
      is empty. */
  datatype ValueElement = ValueElement(text: Option<string>)

  /** A child of the `object` element. A `significantProperties` entry may
      lack its Type child (`typ` is None) or its Value child (`value` is
      None); any other child (`objectIdentifier`, ...) only matters for its
      `tail`, the whitespace that follows it. */
  datatype Child =
    | SigProp(typ: Option<string>, value: Option<ValueElement>, tail: Option<string>)
    | Other(tail: Option<string>)

  /** An entry the loader and the merge do not skip: it has both a Type and a
      Value child. */
  predicate IsEntry(c: Child)
  {
    c.SigProp? && c.typ.Some? && c.value.Some?
  }

  /** The value the loader stores for an entry: the Value text, or None. */
  function EntryValue(c: Child): (v: Value)
    requires IsEntry(c)
    ensures v.Str? || v.Null?
    ensures v.Null? <==> c.value.value.text.None?
  {
    match c.value.value.text
    case Some(s) => Str(s)
    case None => Null
  }

  /** The `object` element: its `text` (the whitespace before its first
      child) and its children, both changed in place by the merge. */
  class PremisObject {
    var text: Option<string>
    var children: seq<Child>

    constructor (text: Option<string>, children: seq<Child>)
      ensures this.text == text && this.children == children
    {
      this.text := text;
      this.children := children;
    }

    function State(): (s: ObjectState)
      reads this
      ensures s.text == text && s.children == children
    {
      ObjectState(text, children)
    }
  }

  /** The document root; `premisObject` is null when the root has no `object`
      child. */
  class PremisRoot {
    const premisObject: PremisObject?

    constructor (premisObject: PremisObject?)
      ensures this.premisObject == premisObject
    {
      this.premisObject := premisObject;
    }
  }

  /** A snapshot of the `object` element. */
  datatype ObjectState = ObjectState(text: Option<string>, children: seq<Child>)

  /** The number of ancestors of the `object` element. It is looked up as a
      direct child of the root, so it has exactly one. */
  const ObjectDepth: nat := 1

  /** The tree built from the PREMIS template when the package has no
      significant-properties file: one `objectIdentifier` child, indented
      as a child of `object`. */
  function TemplateObject(): (s: ObjectState)
    ensures s.text == Some(Indent(ObjectDepth + 1))
    ensures s.children == [Other(Some(Indent(ObjectDepth)))]
  {
    IndentValues();
    ObjectState(Some("\n    "), [Other(Some("\n  "))])
  }

  // ---------------------------------------------------------------------
  // Loading

  /** Some entry of `cs` has type `t`. */
  predicate HasEntryOfType(cs: seq<Child>, t: string)
  {
    exists i :: 0 <= i < |cs| && IsEntry(cs[i]) && cs[i].typ.value == t
  }

  /** The store the loader builds from the children, one entry after the
      other: the type text maps to the Value text (or None), and a later
      entry of the same type overwrites an earlier one. */
  function Loaded(cs: seq<Child>): Store
    decreases |cs|
  {
    if cs == [] then map[]
    else
      var m := Loaded(cs[..|cs| - 1]);
      var c := cs[|cs| - 1];
      if IsEntry(c) then m[c.typ.value := EntryValue(c)] else m
  }

  /** `load_significant_properties_from_tree`. */
  method LoadSignificantPropertiesFromTree(root: PremisRoot) returns (result: Store)
    ensures root.premisObject == null ==> result == map[]
    ensures root.premisObject != null ==> result == Loaded(root.premisObject.children)
  {
    if root.premisObject == null {
      return map[];
    }
    var children := root.premisObject.children;
    result := map[];
    for i := 0 to |children|
      invariant result == Loaded(children[..i])
    {
      assert children[..i + 1][..i] == children[..i];
      var p := children[i];
      if IsEntry(p) {
        result := result[p.typ.value := EntryValue(p)];
      }
    }
    assert children[..|children|] == children;
  }

  /** `load_significant_properties`: no file (null) gives the empty store. */
  method LoadSignificantProperties(file: PremisRoot?) returns (result: Store)
    ensures file == null ==> result == map[]
    ensures file != null && file.premisObject == null ==> result == map[]
    ensures file != null && file.premisObject != null ==> result == Loaded(file.premisObject.children)
  {
    if file == null {
      return map[];
    }
    result := LoadSignificantPropertiesFromTree(file);
  }

  // ---------------------------------------------------------------------
  // Merging: the values written

  /** `metadata[t] if isinstance(metadata[t], str) else metadata[t][0]`:
      a missing key raises KeyError, None is not subscriptable (TypeError)
      and an empty list has no element 0 (IndexError). */
  function ValueText(md: Store, t: string): (r: Result<string>)
    ensures r.Ok? <==> t in md && Writable(md[t])
    ensures t !in md ==> r == Err(KeyError(t))
    ensures t in md && md[t].Str? ==> r == Ok(md[t].s)
    ensures t in md && md[t].List? && md[t].items != [] ==> r == Ok(md[t].items[0])
  {
    if t !in md then Err(KeyError(t))
    else match md[t]
      case Str(s) => Ok(s)
      case List(items) => if items == [] then Err(IndexError) else Ok(items[0])
      case Null => Err(TypeError)
  }

  /** An entry whose Value text has been set to `v`. Any `v` is accepted:
      the ValueError that lxml raises for control characters is not
      modelled. */
  function WithValue(c: Child, v: string): (r: Child)
    requires IsEntry(c)
    ensures IsEntry(r) && r.typ == c.typ && r.tail == c.tail
    ensures r.value.value.text == Some(v)
  {
    c.(value := Some(ValueElement(Some(v))))
  }

  /** The outcome of the first pass: the children with the values of the
      existing entries replaced, the types seen (`existing_types`), and the
      exception that stopped the pass, if any. */
  datatype Updated = Updated(children: seq<Child>, existing: seq<string>, fault: Option<Exception>)

  /** The first pass over the children, front to back. It stops at the first
      entry whose value cannot be computed, leaving that entry and all later
      children as they were. */
  function UpdateExisting(cs: seq<Child>, md: Store): (r: Updated)
    ensures |r.children| == |cs|
    decreases |cs|
  {
    if cs == [] then Updated([], [], None)
    else
      var c := cs[0];
      var rest := UpdateExisting(cs[1..], md);
      if IsEntry(c) then
        match ValueText(md, c.typ.value)
        case Err(e) => Updated(cs, [c.typ.value], Some(e))
        case Ok(v) => Updated([WithValue(c, v)] + rest.children, [c.typ.value] + rest.existing, rest.fault)
      else
        Updated([c] + rest.children, rest.existing, rest.fault)
  }

  /** `a` is `b` with some elements left out, in the same order. */
  predicate IsSubsequence(a: seq<string>, b: seq<string>)
    decreases |b|
  {
    a == [] || (b != [] && ((a[0] == b[0] && IsSubsequence(a[1..], b[1..])) || IsSubsequence(a, b[1..])))
  }

  /** `filter(lambda x: x in metadata and x not in existing, types)`. */
  function FilterNew(types: seq<string>, md: Store, existing: seq<string>): seq<string>
    decreases |types|
  {
    if types == [] then []
    else
      var rest := FilterNew(types[1..], md, existing);
      if types[0] in md && types[0] !in existing then [types[0]] + rest else rest
  }

  /** The types appended as new entries, in the order of `SIGPROP_TYPES`. */
  function NewTypes(md: Store, existing: seq<string>): seq<string>
  {
    FilterNew(Config.SigPropTypes, md, existing)
  }

  // ---------------------------------------------------------------------
  // Merging: indentation and new entries

  function Spaces(n: nat): (r: string)
    ensures |r| == n && forall i :: 0 <= i < n ==> r[i] == ' '
  {
    if n == 0 then "" else " " + Spaces(n - 1)
  }

  /** `"\n" + "  " * depth`. */
  function Indent(depth: nat): (r: string)
    ensures |r| == 1 + 2 * depth && r[0] == '\n'
    ensures forall i :: 1 <= i < |r| ==> r[i] == ' '
  {
    "\n" + Spaces(2 * depth)
  }

  lemma IndentValues()
    ensures Indent(1) == "\n  " && Indent(2) == "\n    "
  {
    assert Spaces(2) == " " + Spaces(1) == "  ";
    assert Spaces(4) == " " + Spaces(3) == "  " + Spaces(2) == "    ";
  }

  /** A new entry parsed from the entry template. An empty value leaves the
      Value element empty, so its text reads back as None. Any other value
      is taken as plain XML text and kept as it is: markup, entity
      references and control characters are not modelled. */
  function NewEntry(t: string, v: string, tail: string): (c: Child)
    ensures IsEntry(c) && c.typ == Some(t) && c.tail == Some(tail)
    ensures c.value.value.text == (if v == "" then None else Some(v))
  {
    SigProp(Some(t), Some(ValueElement(if v == "" then None else Some(v))), Some(tail))
  }

  /** The opening indentation: the tail of the last existing child, or the
      text of the `object` element when it has no children. */
  function Reindented(s: ObjectState): ObjectState
  {
    if s.children == [] then ObjectState(Some(Indent(ObjectDepth + 1)), [])
    else
      var n := |s.children| - 1;
      ObjectState(s.text, s.children[n := s.children[n].(tail := Some(Indent(ObjectDepth + 1)))])
  }

  /** The entries appended for `types`, and the exception that stopped the
      appending, if any. */
  datatype Appended = Appended(entries: seq<Child>, fault: Option<Exception>)

  /** The second pass: one new entry per type, in order. Every entry but the
      last of the whole list is followed by the indentation of a child of
      `object`; the last by that of `object` itself. */
  function NewEntries(types: seq<string>, md: Store): (r: Appended)
    ensures |r.entries| <= |types|
    decreases |types|
  {
    if types == [] then Appended([], None)
    else match ValueText(md, types[0])
      case Err(e) => Appended([], Some(e))
      case Ok(v) =>
        var rest := NewEntries(types[1..], md);
        var tail := Indent(if |types| == 1 then ObjectDepth else ObjectDepth + 1);
        Appended([NewEntry(types[0], v, tail)] + rest.entries, rest.fault)
  }

  // ---------------------------------------------------------------------
  // Merging: the whole operation

  /** `apply_significant_properties` either returns before writing (empty
      metadata), writes the file, or raises. */
  datatype ApplyOutcome = NotWritten | Written | Raised(error: Exception)

  datatype Applied = Applied(state: ObjectState, outcome: ApplyOutcome)

  /** The merge on an `object` element and a non-empty store: update the
      existing entries, then, if there are new types, reindent and append
      them. A raise leaves the changes made before it in place. */
  function Apply(s: ObjectState, md: Store): (r: Applied)
    ensures r.outcome != NotWritten
  {
    var u := UpdateExisting(s.children, md);
    if u.fault.Some? then Applied(ObjectState(s.text, u.children), Raised(u.fault.value))
    else
      var types := NewTypes(md, u.existing);
      if types == [] then Applied(ObjectState(s.text, u.children), Written)
      else
        var ind := Reindented(ObjectState(s.text, u.children));
        var a := NewEntries(types, md);
        Applied(ObjectState(ind.text, ind.children + a.entries),
                if a.fault.Some? then Raised(a.fault.value) else Written)
  }

  /** The first pass resumed after the children it has already handled. */
  function Resume(done: seq<Child>, existing: seq<string>, u: Updated): Updated
  {
    Updated(done + u.children, existing + u.existing, u.fault)
  }

  /** One step of the first pass, at child `i`. */
  lemma UpdateExistingUnfold(cs: seq<Child>, i: nat, md: Store)
    requires i < |cs|
    ensures var u := UpdateExisting(cs[i..], md);
      var rest := UpdateExisting(cs[i + 1..], md);
      var c := cs[i];
      if !IsEntry(c) then u == Updated([c] + rest.children, rest.existing, rest.fault)
      else if ValueText(md, c.typ.value).Err? then
        u == Updated(cs[i..], [c.typ.value], Some(ValueText(md, c.typ.value).error))
      else
        u == Updated([WithValue(c, ValueText(md, c.typ.value).value)] + rest.children,
                     [c.typ.value] + rest.existing, rest.fault)
  {
    assert cs[i..][0] == cs[i] && cs[i..][1..] == cs[i + 1..];
  }

  /** The first pass resumed past child `i`, which is not an entry or whose
      value `v` was written. */
  lemma ResumeStep(cs: seq<Child>, i: nat, done: seq<Child>, existing: seq<string>, md: Store)
    requires i < |cs|
    requires !IsEntry(cs[i]) || ValueText(md, cs[i].typ.value).Ok?
    requires Resume(done, existing, UpdateExisting(cs[i..], md)) == UpdateExisting(cs, md)
    ensures !IsEntry(cs[i]) ==>
      Resume(done + [cs[i]], existing, UpdateExisting(cs[i + 1..], md)) == UpdateExisting(cs, md)
    ensures IsEntry(cs[i]) ==>
      Resume(done + [WithValue(cs[i], ValueText(md, cs[i].typ.value).value)], existing + [cs[i].typ.value],
             UpdateExisting(cs[i + 1..], md)) == UpdateExisting(cs, md)
  {
    UpdateExistingUnfold(cs, i, md);
    var rest := UpdateExisting(cs[i + 1..], md);
    if IsEntry(cs[i]) {
      var w := WithValue(cs[i], ValueText(md, cs[i].typ.value).value);
      assert done + ([w] + rest.children) == (done + [w]) + rest.children;
      assert existing + ([cs[i].typ.value] + rest.existing) == (existing + [cs[i].typ.value]) + rest.existing;
    } else {
      assert done + ([cs[i]] + rest.children) == (done + [cs[i]]) + rest.children;
    }
  }

  /** The first pass stopped at entry `i`, whose value cannot be computed. */
  lemma ResumeFault(cs: seq<Child>, i: nat, done: seq<Child>, existing: seq<string>, md: Store)
    requires i < |cs| && IsEntry(cs[i]) && ValueText(md, cs[i].typ.value).Err?
    requires Resume(done, existing, UpdateExisting(cs[i..], md)) == UpdateExisting(cs, md)
    ensures Updated(done + cs[i..], existing + [cs[i].typ.value], Some(ValueText(md, cs[i].typ.value).error))
      == UpdateExisting(cs, md)
  {
    UpdateExistingUnfold(cs, i, md);
  }

  /** Replacing child `i` of `done + cs[i..]`, where `done` holds the first
      `i` children. */
  lemma SplitAt(done: seq<Child>, cs: seq<Child>, i: nat)
    requires |done| == i < |cs|
    ensures (done + cs[i..])[i] == cs[i]
    ensures done + cs[i..] == (done + [cs[i]]) + cs[i + 1..]
    ensures forall w :: (done + cs[i..])[i := w] == (done + [w]) + cs[i + 1..]
  {
    assert cs[i..] == [cs[i]] + cs[i + 1..];
    forall w ensures (done + cs[i..])[i := w] == (done + [w]) + cs[i + 1..] {
      assert |(done + cs[i..])[i := w]| == |(done + [w]) + cs[i + 1..]|;
    }
  }

  /** The first loop of `apply_significant_properties`: set the Value text of
      every existing entry, recording its type, until a value cannot be
      computed. */
  method ReplaceExistingValues(obj: PremisObject, metadata: Store) returns (existing: seq<string>, fault: Option<Exception>)
    modifies obj
    ensures obj.text == old(obj.text)
    ensures Updated(obj.children, existing, fault) == UpdateExisting(old(obj.children), metadata)
  {
    ghost var cs := obj.children;
    ghost var done: seq<Child> := [];
    existing := [];
    var i := 0;
    while i < |obj.children|
      invariant 0 <= i <= |cs| == |obj.children|
      invariant obj.text == old(obj.text)
      invariant |done| == i && obj.children == done + cs[i..]
      invariant Resume(done, existing, UpdateExisting(cs[i..], metadata)) == UpdateExisting(cs, metadata)
    {
      var p := obj.children[i];
      SplitAt(done, cs, i);
      if IsEntry(p) {
        var v := ValueText(metadata, p.typ.value);
        if v.Err? {
          ResumeFault(cs, i, done, existing, metadata);
          existing := existing + [p.typ.value];
          return existing, Some(v.error);
        }
        ResumeStep(cs, i, done, existing, metadata);
        existing := existing + [p.typ.value];
        var w := WithValue(p, v.value);
        obj.children := obj.children[i := w];
        done := done + [w];
      } else {
        ResumeStep(cs, i, done, existing, metadata);
        done := done + [p];
      }
      i := i + 1;
    }
    assert cs[i..] == [];
    assert done + [] == done;
    return existing, None;
  }

  /** One step of the second pass, at type `k`. */
  lemma NewEntriesUnfold(types: seq<string>, k: nat, md: Store)
    requires k < |types|
    ensures var a := NewEntries(types[k..], md);
      var v := ValueText(md, types[k]);
      if v.Err? then a == Appended([], Some(v.error))
      else
        var tail := Indent(if k == |types| - 1 then ObjectDepth else ObjectDepth + 1);
        a == Appended([NewEntry(types[k], v.value, tail)] + NewEntries(types[k + 1..], md).entries,
                      NewEntries(types[k + 1..], md).fault)
  {
    assert types[k..][0] == types[k] && types[k..][1..] == types[k + 1..];
  }

  /** The second loop of `apply_significant_properties`: append one new
      entry per type, until a value cannot be computed. */
  method AppendNewEntries(obj: PremisObject, newTypes: seq<string>, metadata: Store) returns (fault: Option<Exception>)
    modifies obj
    ensures obj.text == old(obj.text)
    ensures |old(obj.children)| <= |obj.children|
    ensures obj.children[..|old(obj.children)|] == old(obj.children)
    ensures Appended(obj.children[|old(obj.children)|..], fault) == NewEntries(newTypes, metadata)
  {
    ghost var base := obj.children;
    ghost var added: seq<Child> := [];
    var lastIndex := |newTypes| - 1;
    var k := 0;
    while k < |newTypes|
      invariant 0 <= k <= |newTypes|
      invariant obj.text == old(obj.text)
      invariant obj.children == base + added
      invariant Appended(added + NewEntries(newTypes[k..], metadata).entries,
                         NewEntries(newTypes[k..], metadata).fault) == NewEntries(newTypes, metadata)
    {
      var t := newTypes[k];
      NewEntriesUnfold(newTypes, k, metadata);
      var v := ValueText(metadata, t);
      if v.Err? {
        assert added + [] == added;
        assert obj.children[|base|..] == added;
        return Some(v.error);
      }
      var entry := NewEntry(t, v.value, Indent(if k == lastIndex then ObjectDepth else ObjectDepth + 1));
      obj.children := obj.children + [entry];
      ghost var rest := NewEntries(newTypes[k + 1..], metadata);
      assert added + ([entry] + rest.entries) == (added + [entry]) + rest.entries;
      added := added + [entry];
      k := k + 1;
    }
    assert newTypes[k..] == [];
    assert added + [] == added;
    assert obj.children[|base|..] == added;
    return None;
  }

  /** The opening indentation before the new entries, with `set_indent`:
      the tail of the last child, or the text of `object` if it has none. */
  method SetOpeningIndent(obj: PremisObject)
    modifies obj
    ensures obj.State() == Reindented(old(obj.State()))
  {
    if |obj.children| > 0 {
      var n := |obj.children| - 1;
      obj.children := obj.children[n := obj.children[n].(tail := Some(Indent(ObjectDepth + 1)))];
    } else {
      obj.text := Some(Indent(ObjectDepth + 1));
    }
  }

  /** `apply_significant_properties` (the file write itself is the `Written`
      outcome). */
  method ApplySignificantProperties(root: PremisRoot, metadata: Store) returns (outcome: ApplyOutcome)
    modifies root.premisObject
    ensures |metadata| == 0 ==> outcome == NotWritten
    ensures |metadata| == 0 && root.premisObject != null ==> root.premisObject.State() == old(root.premisObject.State())
    ensures |metadata| != 0 && root.premisObject == null ==> outcome == Raised(AttributeError)
    ensures |metadata| != 0 && root.premisObject != null ==>
      Applied(root.premisObject.State(), outcome) == Apply(old(root.premisObject.State()), metadata)
  {
    if |metadata| == 0 {
      return NotWritten;
    }
    var obj := root.premisObject;
    if obj == null {
      return Raised(AttributeError);
    }
    ghost var s0 := obj.State();
    ghost var u := UpdateExisting(s0.children, metadata);
    var existing, fault := ReplaceExistingValues(obj, metadata);
    assert u == Updated(obj.children, existing, fault);
    if fault.Some? {
      assert Apply(s0, metadata) == Applied(obj.State(), Raised(fault.value));
      return Raised(fault.value);
    }
    var newTypes := NewTypes(metadata, existing);
    if newTypes == [] {
      assert Apply(s0, metadata) == Applied(obj.State(), Written);
      return Written;
    }
    ghost var s1 := obj.State();
    assert s1 == ObjectState(s0.text, u.children);
    SetOpeningIndent(obj);
    ghost var ind := obj.State();
    assert ind == Reindented(s1);
    fault := AppendNewEntries(obj, newTypes, metadata);
    ghost var a := NewEntries(newTypes, metadata);
    assert obj.children == ind.children + a.entries;
    outcome := if fault.Some? then Raised(fault.value) else Written;
    assert Apply(s0, metadata) == Applied(ObjectState(ind.text, ind.children + a.entries), outcome);
  }
}
