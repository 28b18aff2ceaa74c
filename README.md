# The metadata transformation engine of the DCM preparation module

This project models the core of the DCM preparation module in Dafny. The
module is a job service that takes an information package (IP). It copies
the package, rewrites two kinds of its metadata with a list of operations,
and reports what it did. The project proves properties of that model.

The core it models:

- **The operation data model** (`models/operations.py`). Five kinds of edit
  on one metadata field: set, complement, overwrite-existing,
  find-and-replace by regular expression, and find-and-replace by literal.
  It also covers their wire names, the name index, and their JSON form.
  Modelled as datatypes and functions (`Operations`). The round trips are
  proved in `OperationProperties`.
- **The metadata operator** (`components/metadata_operator.py`). It applies
  an ordered list of operations to a copy of a metadata dictionary, in
  place, and logs one entry per operation. Modelled as classes
  (`ProcessResult`, `MetadataOperator`) whose methods are proved against the
  specification functions `AfterOperation`, `AfterOperations` and
  `OperationsLog` (`MetadataOperator`). The properties are proved in
  `OperatorProperties`. Python's `str.strip()` and `str.isspace()` are
  written out in `MetadataStore`.
- **The job configuration** (`models/preparation_config.py`). It reads the
  target and the two optional operation lists from JSON, with the source's
  loops and errors, and writes them back. `FromJsonMethod` and
  `ParseOperationsMethod` are proved against the function `ParseConfig`
  (`PreparationConfig`; properties and round trip in `ConfigProperties`).
- **The significant-properties file** (`views/preparation.py`):
  - loading the PREMIS `object` element's `significantProperties` entries
    into a store;
  - merging a processed store back into the tree in place, indentation
    included (`apply_significant_properties`).
  - Modelled as classes over the tree (`PremisRoot`, `PremisObject`) with
    methods proved against the function `Apply` (`SignificantProperties`;
    properties in `SigPropProperties`).
- **The preparation job** (`prepare` in `views/preparation.py`):
  - read the configuration;
  - choose the output directory and copy the package;
  - run the bag-info stage, then the significant-properties stage;
  - regenerate the tag manifests, set success and make the callback.
  - Modelled as a `Report` class and the method `PreparationView.Prepare`,
    proved against the function `Prepared` (`Preparation`; properties in
    `PreparationProperties`).
  - What the job does outside the report is returned as a sequence of
    `Effect`s: the copy, the bag-info write, the file write, the tag
    manifests and the callback.
- From `config.py` only the constants the core uses (`Config`):
  `SIGPROP_TYPES`, and the parent element name. The PREMIS template's
  `object` element is `SignificantProperties.TemplateObject`.

The regular-expression engine is a parameter, `fullMatch`, standing for
`re.fullmatch(pattern, s) is not None`. The bag-info of the copied bag is a
parameter. So are the parsed significant-properties file and the result of
`get_output_path`.

On one point the code and its surroundings read differently, and the model
follows the code. `PreparationConfig.from_json` leaves an operation list
that is absent from the JSON as `None`. `prepare` then calls `len(None)`,
which raises `TypeError` after the package has been copied
(`MissingListRaises`). The request handler (`handlers.py`, lines 145-159)
fills in `[]` for an absent list, so this case arises only when the job is
started without that handler.

## Model

| member | source | states |
|---|---|---|
| `Operations.FromValue` | dcm_preparation_module/models/operations.py:11-18 | `OperationType(value)` is defined exactly on the five wire names, and gives the member whose value is `value` |
| `OperationProperties.WireNamesRoundTrip` | dcm_preparation_module/models/operations.py:11-18 | every member's value is a wire name that reads back as that member, and no two members share a value |
| `OperationProperties.ComplementFromValue` | test_dcm_preparation_module/test_models/test_operations.py:20 | "complement" names the complement member |
| `OperationProperties.OperationsIndexSpec` | dcm_preparation_module/models/operations.py:182-188 | the index is keyed by exactly the five wire names, and each name maps to the class whose type has that value |
| `Operations.ToJson` | dcm_preparation_module/models/operations.py:43-59 | an operation's JSON is an object whose "type" is its type's wire name and whose "targetField" is its target field |
| `Operations.StringMember` | dcm_preparation_module/models/operations.py:61-65 | a field reads exactly when the member is present and a string, and it is that string |
| `Operations.RegexItemFromJson` | dcm_preparation_module/models/operations.py:126-131 | an item reads exactly when the object has string "regex" and "value" members, and it holds those two strings |
| `Operations.LiteralItemFromJson` | dcm_preparation_module/models/operations.py:154-159 | an item reads exactly when the object has string "literal" and "value" members, and it holds those two strings |
| `Operations.RegexItemsFromJson` | dcm_preparation_module/models/operations.py:145 | an item list that reads has one item per entry, each the one its entry reads as, in order |
| `Operations.LiteralItemsFromJson` | dcm_preparation_module/models/operations.py:173 | an item list that reads has one item per entry, each the one its entry reads as, in order |
| `Operations.FromJson` | dcm_preparation_module/models/operations.py:67-69 | whatever "type" the JSON carries, the operation read has the type of the class it was read with, and its target field is the JSON's "targetField" |
| `OperationProperties.RegexItemsRoundTrip` | dcm_preparation_module/models/operations.py:126-151 | regex items written to JSON read back as the same items in the same order |
| `OperationProperties.LiteralItemsRoundTrip` | dcm_preparation_module/models/operations.py:154-179 | literal items written to JSON read back as the same items in the same order |
| `OperationProperties.RoundTrip` | dcm_preparation_module/models/operations.py:39-69 | reading an operation's JSON with the operation's own class gives the operation back |
| `OperationProperties.JsonModelJson` | dcm_preparation_module/models/operations.py:43-69 | JSON to operation to JSON: the new JSON reads as the same operation, carries the class's type, and keeps the target field and the value |
| `OperationProperties.TypeIsOverridden` | dcm_preparation_module/models/operations.py:67-69 | replacing or removing the incoming "type" member does not change what `from_json` reads |
| `MetadataStore.StripLeadingSpec` | dcm_preparation_module/components/metadata_operator.py:153-155 | the leading cut removes only whitespace, from the front, and what is left does not start with whitespace |
| `MetadataStore.StripTrailingSpec` | dcm_preparation_module/components/metadata_operator.py:153-155 | the trailing cut removes only whitespace, from the back, and what is left does not end with whitespace |
| `MetadataStore.StripSpec` | dcm_preparation_module/components/metadata_operator.py:153-155 | `strip()` keeps a contiguous part of the string; everything cut off on either side is whitespace; the result neither starts nor ends with whitespace |
| `MetadataOperator.FirstRegexMatch` | dcm_preparation_module/components/metadata_operator.py:122-129 | the index of the first item whose regex fully matches the value; None exactly when no item matches |
| `MetadataOperator.FirstLiteralMatch` | dcm_preparation_module/components/metadata_operator.py:151-158 | the index of the first item whose stripped literal equals the stripped value; None exactly when no item matches |
| `MetadataOperator.Converted` | dcm_preparation_module/components/metadata_operator.py:56-65 | a string field becomes a one-element list of that string; any other field, and a field that is a list or missing, is left as it is; no key is added or removed |
| `MetadataOperator.AfterOperation` | dcm_preparation_module/components/metadata_operator.py:67-161 | an operation changes at most its target field, and never removes a key |
| `MetadataOperator.EntryFor` | dcm_preparation_module/components/metadata_operator.py:196-214 | the log entry is INFO; it reports a change exactly when the value before differs from the value after; it names the operation's type, its field and the value before |
| `MetadataOperator.ProcessResult.constructor` | dcm_preparation_module/components/metadata_operator.py:176-178 | a result starts with a copy of the source metadata and an empty log |
| `MetadataOperator.MetadataOperator.constructor` | dcm_preparation_module/components/metadata_operator.py:46 | the operator's log origin is "Metadata Operator" |
| `MetadataOperator.MetadataOperator.ConvertFieldStrToList` | dcm_preparation_module/components/metadata_operator.py:56-65 | in place, the metadata becomes its converted form; the log is untouched |
| `MetadataOperator.MetadataOperator.SetField` | dcm_preparation_module/components/metadata_operator.py:67-77 | in place, the metadata becomes the store after the set operation; the log is untouched |
| `MetadataOperator.MetadataOperator.ComplementField` | dcm_preparation_module/components/metadata_operator.py:79-90 | in place, the metadata becomes the store after the complement operation; the log is untouched |
| `MetadataOperator.MetadataOperator.OverwriteExistingField` | dcm_preparation_module/components/metadata_operator.py:92-103 | in place, the metadata becomes the store after the overwrite operation; the log is untouched |
| `MetadataOperator.MetadataOperator.FindAndReplaceField` | dcm_preparation_module/components/metadata_operator.py:105-132 | in place, the metadata becomes the store after the find-and-replace operation; the log is untouched |
| `MetadataOperator.MetadataOperator.FindAndReplaceLiteralField` | dcm_preparation_module/components/metadata_operator.py:134-161 | in place, the metadata becomes the store after the literal find-and-replace operation; the log is untouched |
| `MetadataOperator.MetadataOperator.Dispatch` | dcm_preparation_module/components/metadata_operator.py:185-195 | the match on `type_` runs the helper for the operation's type, for every operation |
| `MetadataOperator.MetadataOperator.ProcessOne` | dcm_preparation_module/components/metadata_operator.py:183-214 | one loop pass applies the operation and appends exactly one entry, which compares the field's value before and after |
| `MetadataOperator.MetadataOperator.Process` | dcm_preparation_module/components/metadata_operator.py:163-215 | without operations the result is the source and an empty log; otherwise it is the store after all operations in order, with their log |
| `OperatorProperties.SetYieldsValue` | dcm_preparation_module/components/metadata_operator.py:67-77 | after a set, the field holds `[value]`, whatever it held before |
| `OperatorProperties.ComplementGatedByPresence` | dcm_preparation_module/components/metadata_operator.py:79-90 | complement leaves the store unchanged when the field is present; otherwise the field becomes `[value]` |
| `OperatorProperties.OverwriteExistingGatedByPresence` | dcm_preparation_module/components/metadata_operator.py:92-103 | overwrite sets `[value]` when the field is present, and leaves the store unchanged when it is missing or None |
| `OperatorProperties.OverwriteExistingIdempotent` | dcm_preparation_module/components/metadata_operator.py:92-103 | applying an overwrite twice is the same as applying it once |
| `OperatorProperties.FindAndReplaceAbsentIsNoOp` | dcm_preparation_module/components/metadata_operator.py:115-116 | either find-and-replace leaves the store unchanged when the field is missing or None |
| `OperatorProperties.FindAndReplaceElementwise` | dcm_preparation_module/components/metadata_operator.py:118-132 | the field becomes a list as long as its elements; each element is replaced by the first matching item's value, or kept |
| `OperatorProperties.FindAndReplaceLiteralElementwise` | dcm_preparation_module/components/metadata_operator.py:147-161 | the field becomes a list as long as its elements; each is replaced by the stripped value of the first item whose literal matches, or kept unstripped |
| `OperatorProperties.ScalarCoercedWithoutMatch` | dcm_preparation_module/components/metadata_operator.py:118-132 | a string field that no regex matches still becomes a one-element list, and the log entry reports a change |
| `OperatorProperties.RunFrame` | dcm_preparation_module/components/metadata_operator.py:183-195 | a run never removes a key, adds only target fields, and leaves every other field exactly as it was |
| `OperatorProperties.RunAppend` | dcm_preparation_module/components/metadata_operator.py:183-214 | running `a + b` is running `a` and then `b`; the logs concatenate |
| `OperatorProperties.LogShape` | dcm_preparation_module/components/metadata_operator.py:196-214 | one INFO entry per operation, in order; entry i compares operation i's field before and after it, and reports a change exactly when they differ |
| `OperatorProperties.LogHasNoError` | dcm_preparation_module/components/metadata_operator.py:196-214 | the operator never logs an ERROR |
| `OperatorProperties.OperationKeepsWritable` | dcm_preparation_module/components/metadata_operator.py:67-161 | if every value is a string or a non-empty list, one operation keeps it that way |
| `OperatorProperties.RunKeepsWritable` | dcm_preparation_module/components/metadata_operator.py:183-195 | if every value is a string or a non-empty list, a whole run keeps it that way |
| `OperatorProperties.SetCollapsesList` | test_dcm_preparation_module/test_components/test_metadata_operator.py:40-46 | a set on a two-element list leaves `["new"]` and the other field unchanged |
| `OperatorProperties.SequenceScenario` | test_dcm_preparation_module/test_components/test_metadata_operator.py:148-168 | set, complement, overwrite and find-and-replace in that order give the expected store |
| `OperatorProperties.ReorderedSequenceScenario` | test_dcm_preparation_module/test_components/test_metadata_operator.py:169-189 | with overwrite before complement, the overwrite has no effect and the regex no longer matches |
| `OperatorProperties.PaddedLiteralReplacement` | dcm_preparation_module/components/metadata_operator.py:153-155 | the literal " old " matches the value "\nold\t" and gives "new" |
| `OperatorProperties.LiteralOnString` | dcm_preparation_module/components/metadata_operator.py:144-161 | a literal find-and-replace on a field holding one string leaves a one-element list of its replacement |
| `OperatorProperties.LiteralStripsBothSides` | test_dcm_preparation_module/test_components/test_metadata_operator.py:224-235 | the value "\nold\t" with the literal " old " becomes `["new"]` |
| `OperatorProperties.LiteralKeepsInnerWhitespace` | test_dcm_preparation_module/test_components/test_metadata_operator.py:248-261 | "not old" does not match "not\nold\t", which is kept unstripped, as a list |
| `Logging.HasErrorAppend` | dcm_preparation_module/views/preparation.py:338-342 | the merged log has an ERROR exactly when one of the two logs has one |
| `SignificantProperties.EntryValue` | dcm_preparation_module/views/preparation.py:137 | the loader stores the Value text as a string, or None exactly when the Value element has no text |
| `SignificantProperties.TemplateObject` | dcm_preparation_module/config.py:21-29 | the template's `object` starts with child indentation and holds one identifier child followed by `object`-level indentation |
| `SignificantProperties.LoadSignificantPropertiesFromTree` | dcm_preparation_module/views/preparation.py:117-138 | no `object` element gives the empty store; otherwise the store built from its entries in order |
| `SignificantProperties.LoadSignificantProperties` | dcm_preparation_module/views/preparation.py:102-115 | no file gives the empty store; otherwise the store loaded from its tree |
| `SignificantProperties.ValueText` | dcm_preparation_module/views/preparation.py:164-168 | the value is computed exactly when the key is present and not None or an empty list; a missing key raises KeyError; a string gives itself and a list its first element |
| `SignificantProperties.Indent` | dcm_preparation_module/views/preparation.py:203 | a newline followed by two spaces per depth level |
| `SignificantProperties.NewEntry` | dcm_preparation_module/config.py:31-36 | a new entry has the given type, the given value (an empty value reads back as no text) and the given tail |
| `SignificantProperties.ReplaceExistingValues` | dcm_preparation_module/views/preparation.py:155-168 | in place, the children and recorded types become those of the first pass, stopping at the first value that raises; the `object` text is untouched |
| `SignificantProperties.AppendNewEntries` | dcm_preparation_module/views/preparation.py:218-239 | in place, the existing children stay, and the appended ones are the new entries, stopping at the first value that raises |
| `SignificantProperties.SetOpeningIndent` | dcm_preparation_module/views/preparation.py:209-217 | in place, the last child's tail, or the text of `object` when it has no children, becomes child indentation |
| `SignificantProperties.ApplySignificantProperties` | dcm_preparation_module/views/preparation.py:140-245 | empty metadata changes nothing and writes nothing; no `object` raises AttributeError; otherwise the new tree and outcome are those of the merge |
| `SigPropProperties.LoadedKeys` | dcm_preparation_module/views/preparation.py:131-138 | the loaded keys are exactly the types of the entries that have both a Type and a Value |
| `SigPropProperties.LoadedLastWins` | dcm_preparation_module/views/preparation.py:132-137 | the last entry of a type decides that type's loaded value |
| `SigPropProperties.LoadedValues` | dcm_preparation_module/views/preparation.py:137 | loaded values are strings or None, and all are strings when no Value element is empty |
| `SigPropProperties.UpdateExistingSpec` | dcm_preparation_module/views/preparation.py:155-168 | the first pass leaves non-entries alone; it fails exactly when some entry's value cannot be computed, with that entry's exception; otherwise it writes every entry's value and records exactly the entry types; for values without markup or control characters |
| `SigPropProperties.FilterNewSpec` | dcm_preparation_module/views/preparation.py:171-176 | the filter keeps exactly the types that are keys and not existing, in their given order |
| `SigPropProperties.NewTypesSpec` | dcm_preparation_module/views/preparation.py:170-176 | new types are exactly the `SIGPROP_TYPES` that are keys and have no entry yet, in `SIGPROP_TYPES` order |
| `SigPropProperties.NewTypesDistinct` | dcm_preparation_module/views/preparation.py:170-176 | no type is appended twice |
| `SigPropProperties.FilterNewDistinct` | dcm_preparation_module/views/preparation.py:171-176 | filtering a list without repeats gives a list without repeats |
| `SigPropProperties.NewEntriesSpec` | dcm_preparation_module/views/preparation.py:218-239 | the second pass fails exactly when some type's value cannot be computed; otherwise it builds one entry per type, each but the last followed by child indentation; for values without markup or control characters |
| `SigPropProperties.ApplyLayout` | dcm_preparation_module/views/preparation.py:154-239 | the whole layout of a merge that writes the file: existing children kept in order with values written, only the last one re-indented and only when types are appended, and the new entries after them |
| `SigPropProperties.ApplyLayoutExisting` | dcm_preparation_module/views/preparation.py:154-217 | the existing children, their values and tails, and the text of `object` after a merge that writes the file |
| `SigPropProperties.ApplyLayoutAppended` | dcm_preparation_module/views/preparation.py:218-239 | the entries a merge that writes the file appends, with their values and indentation |
| `SigPropProperties.ApplyAppendsOnlyNewTypes` | dcm_preparation_module/views/preparation.py:170-239 | every appended entry is of a type in `SIGPROP_TYPES` that is a key of the store and had no entry in the tree |
| `SigPropProperties.ApplyRaisesNoKeyError` | dcm_preparation_module/views/preparation.py:154-228 | the merge never raises KeyError on a store that has a key for every entry type of the tree |
| `SigPropProperties.MergeAfterProcessHasNoKeyError` | dcm_preparation_module/views/preparation.py:154-228 | merging what the operator made of the tree's own store never raises KeyError |
| `SigPropProperties.MergeAfterProcessWrites` | dcm_preparation_module/views/preparation.py:154-245 | if no Value element is empty, the merge that runs once the operator's result on the tree's own store is not empty never raises and ends in the write, for values without markup or control characters; an empty result returns earlier without writing (`ApplySignificantProperties`) |
| `SigPropProperties.EmptyValueElementRaises` | dcm_preparation_module/views/preparation.py:164-168 | an entry with an empty Value element makes the merge raise TypeError |
| `SigPropProperties.NewTypesOnlyStructure` | dcm_preparation_module/views/preparation.py:170-176 | a store whose only key is "structure" appends exactly "structure" |
| `SigPropProperties.TemplateComplementScenario` | test_dcm_preparation_module/test_views/test_preparation.py:255-302 | complementing "structure" on the template appends one entry, indented as in the expected file |
| `PreparationConfig.ParseTarget` | dcm_preparation_module/models/preparation_config.py:62 | the target reads exactly when "target" is an object with a string "path"; a missing "target" raises KeyError |
| `PreparationConfig.ParseOperationsMethod` | dcm_preparation_module/models/preparation_config.py:70-86 | the entry loop gives the operations of all entries in order, or the error of the first bad entry |
| `PreparationConfig.FromJsonMethod` | dcm_preparation_module/models/preparation_config.py:54-88 | `from_json` with its loops is the configuration reader: the target, then each list in turn |
| `PreparationConfig.OperationsToJson` | dcm_preparation_module/models/preparation_config.py:42 | a written list has one JSON per operation, each that operation's JSON, in order |
| `PreparationConfig.ConfigToJson` | dcm_preparation_module/models/preparation_config.py:34-52 | the JSON has the target and holds a list exactly when it is not None, with each operation's JSON; no other keys |
| `ConfigProperties.ParseOperationsSpec` | dcm_preparation_module/models/preparation_config.py:70-86 | a list reads exactly when every entry reads, as those operations in order; otherwise with the first bad entry's error |
| `ConfigProperties.ParseOperationType` | dcm_preparation_module/models/preparation_config.py:76-86 | an entry that reads is an object whose "type" is the wire name of the operation read from it |
| `ConfigProperties.ParseOperationErrors` | dcm_preparation_module/models/preparation_config.py:71-81 | the error for each kind of malformed entry: not an object, no "type", an unhashable "type", an unknown "type" |
| `ConfigProperties.OperationReadsBack` | dcm_preparation_module/models/preparation_config.py:76-86 | an operation's JSON reads back as that operation |
| `ConfigProperties.OperationsReadBack` | dcm_preparation_module/models/preparation_config.py:70-86 | a written operation list reads back unchanged |
| `ConfigProperties.AbsentListIsNone` | dcm_preparation_module/models/preparation_config.py:68-69 | an absent or null list reads as None; any other list that reads, as Some |
| `ConfigProperties.ParseConfigSpec` | dcm_preparation_module/models/preparation_config.py:62-88 | a configuration reads exactly when its target and both lists read, and then holds what they read as |
| `ConfigProperties.TargetErrors` | dcm_preparation_module/models/preparation_config.py:62 | the four target errors: no "target", a target that is not an object, no "path", a path that is not a string |
| `ConfigProperties.ConfigRoundTrip` | dcm_preparation_module/models/preparation_config.py:34-88 | a configuration written to JSON reads back as itself |
| `ConfigProperties.JsonConfigJson` | dcm_preparation_module/models/preparation_config.py:34-88 | JSON to configuration to JSON reads back as the same configuration, with the same target path |
| `ConfigProperties.ExampleConfig` | dcm_preparation_module/models/preparation_config.py:62-88 | a concrete document with one complement operation reads as expected |
| `Preparation.StageName` | dcm_preparation_module/views/preparation.py:308-329 | the stages are named by the JSON names of their lists, in the order the configuration reads them |
| `Preparation.PreparationView.RunStage` | dcm_preparation_module/views/preparation.py:330-357 | one pass of the stage loop, on the report and the tree in place, is one step of the stage function |
| `Preparation.PreparationView.RunStageLoop` | dcm_preparation_module/views/preparation.py:308-357 | the stage loop ends as the stage function does, stopping at the first stage that ends the job |
| `Preparation.PreparationView.OpenTree` | dcm_preparation_module/views/preparation.py:296-305 | the tree the job changes holds the parsed file's `object` element |
| `Preparation.PreparationView.RunAndClose` | dcm_preparation_module/views/preparation.py:308-374 | the stage loop and the closing are those of the job function |
| `Preparation.PreparationView.Prepare` | dcm_preparation_module/views/preparation.py:247-374 | the report, effects and outcome of `prepare` are those of the job function, on every path |
| `PreparationProperties.InfoAddsNoError` | dcm_preparation_module/views/preparation.py:282-285 | an INFO entry never adds an error to the log |
| `PreparationProperties.StageStepKeepsNoError` | dcm_preparation_module/views/preparation.py:330-357 | from a log without errors, a stage keeps the success flag, adds no error, and ends the job only by raising |
| `PreparationProperties.RunStagesKeepsNoError` | dcm_preparation_module/views/preparation.py:308-357 | the same holds for the whole stage loop |
| `PreparationProperties.RunTwoStages` | dcm_preparation_module/views/preparation.py:308-357 | the loop over the two stages runs the first, then the second unless the first ended the job |
| `PreparationProperties.NoStageFailure` | dcm_preparation_module/views/preparation.py:341-355 | from a report without errors the job never fails during a stage: the log stays without errors; a return means success, and a raise leaves success as it was |
| `PreparationProperties.NoOutputPathStops` | dcm_preparation_module/views/preparation.py:266-281 | with no output directory the job sets success false and no path, logs an ERROR, makes only the callback, and returns |
| `PreparationProperties.ConfigErrorEscapes` | dcm_preparation_module/views/preparation.py:250-252 | a configuration that does not read raises before anything else happens |
| `PreparationProperties.EmptyListsSkipStages` | dcm_preparation_module/views/preparation.py:330-332 | with two empty lists the job copies the package, generates the tag manifests, succeeds and calls back, with three INFO entries |
| `PreparationProperties.MissingListRaises` | dcm_preparation_module/views/preparation.py:331 | an absent bag-info list raises TypeError once the package is copied |
| `PreparationProperties.SigPropApplyWrites` | dcm_preparation_module/views/preparation.py:357 | a merge that writes the file updates the tree and records the write |
| `PreparationProperties.SigPropStageGoesOn` | dcm_preparation_module/views/preparation.py:333-357 | on a tree without empty values, the significant-properties stage merges the operator's log and never raises, for values without markup or control characters; it writes nothing when the processed store is empty, and otherwise writes the merged tree and keeps it |
| `PreparationProperties.BagInfoStageGoesOn` | dcm_preparation_module/views/preparation.py:333-357 | from a log without errors, the bag-info stage merges the operator's log and writes the processed metadata to the bag |
| `PreparationProperties.BagInfoStep` | dcm_preparation_module/views/preparation.py:308-357 | the bag-info stage always goes on from a log without errors, adding its log and its write, and adds no error |
| `PreparationProperties.SigPropStep` | dcm_preparation_module/views/preparation.py:315-357 | the significant-properties stage goes on on a tree without empty values, for values without markup or control characters, adding its log, its write and the merged tree |
| `PreparationProperties.StagesGoOn` | dcm_preparation_module/views/preparation.py:308-357 | both stages go on, for values without markup or control characters, with the logs and writes of each in order |
| `PreparationProperties.JobSucceeds` | dcm_preparation_module/views/preparation.py:247-374 | given both lists, an output directory and a tree without empty values, the job succeeds, for values without markup or control characters, with exactly the opening entries, the operators' logs and the closing entry, and the copy, the writes, the tag manifests and the callback in order |
| `PreparationProperties.TemplateJobSucceeds` | dcm_preparation_module/views/preparation.py:296-305 | without a significant-properties file the job succeeds, given both lists and an output directory, for values without markup or control characters |
| `PreparationProperties.ComplementRequestReads` | test_dcm_preparation_module/test_views/test_preparation.py:255-262 | the missing-file test's request reads as one complement of "structure", with an empty bag-info list |
| `PreparationProperties.TemplateComplementWrite` | test_dcm_preparation_module/test_views/test_preparation.py:277-302 | that request writes the template with one new "structure" entry |
| `PreparationProperties.TemplateComplementJob` | test_dcm_preparation_module/test_views/test_preparation.py:255-302 | that job's effects are the copy, the file write, the tag manifests and the callback |

## Left out

- The HTTP route, request validation and job orchestration (`handlers.py`, the Flask app, `JobContext`/`JobInfo`): the job starts from the request body. The defaults the handler fills in are described above.
- Progress reporting (`report.progress`, `context.push()`) and the log's default origin: they do not change the job's outcome.
- `os.chdir`, `get_output_path`, the file system and the bag library. The output path is a parameter, and the copy, the bag-info write, the file write and `bag.set_tag_manifests()` are `Effect`s. The bag's `bag-info.txt` content (`load_baginfo`) is a parameter; `apply_baginfo` is the `SetBagInfo` effect.
- The callback's URL and the call itself (`_run_callback`): it is the `Callback` effect.
- lxml parsing and serialization, and the XML namespace. A parsed file is its `object` element: the whitespace text, and the children each with its tail. A child other than a `significantProperties` entry keeps only its tail. `ET.tostring` and pretty printing are not modelled. A written file is the `WriteSignificantProperties` effect with the merged `object` element.
- SignificantProperties.NewEntry: takes a value as plain XML text and keeps it verbatim. The source formats the value into the entry template and parses it with `ET.fromstring` (views/preparation.py:222-231), and never checks it first. So a value with `<` or a bare `&` raises a parsing error that escapes `prepare`, and an entity reference such as `&amp;` or a `\r\n` is decoded. A value with NUL or another control character also makes `value.text = ...` raise (views/preparation.py:164). `SigPropProperties.UpdateExistingSpec`, `SigPropProperties.NewEntriesSpec`, `SigPropProperties.MergeAfterProcessWrites`, `PreparationProperties.SigPropStageGoesOn`, `PreparationProperties.SigPropStep`, `PreparationProperties.StagesGoOn`, `PreparationProperties.JobSucceeds` and `PreparationProperties.TemplateJobSucceeds` therefore hold only for values without markup or control characters.
- SigPropProperties.UpdateExistingSpec: holds only for values without markup or control characters, because `NewEntry` and `WithValue` do not model the errors the source raises for them.
- SigPropProperties.NewEntriesSpec: holds only for values without markup or control characters, because `NewEntry` and `WithValue` do not model the errors the source raises for them.
- SigPropProperties.MergeAfterProcessWrites: holds only for values without markup or control characters, because `NewEntry` and `WithValue` do not model the errors the source raises for them.
- PreparationProperties.SigPropStageGoesOn: holds only for values without markup or control characters, because `NewEntry` and `WithValue` do not model the errors the source raises for them.
- PreparationProperties.SigPropStep: holds only for values without markup or control characters, because `NewEntry` and `WithValue` do not model the errors the source raises for them.
- PreparationProperties.StagesGoOn: holds only for values without markup or control characters, because `NewEntry` and `WithValue` do not model the errors the source raises for them.
- PreparationProperties.JobSucceeds: holds only for values without markup or control characters, because `NewEntry` and `WithValue` do not model the errors the source raises for them.
- PreparationProperties.TemplateJobSucceeds: holds only for values without markup or control characters, because `NewEntry` and `WithValue` do not model the errors the source raises for them.
- A Type element without text, which Python stores under the key None: types are always strings here.
- The regular-expression engine: `fullMatch` is a parameter, and a total predicate. The `re.error` that `re.fullmatch` raises for an invalid pattern (components/metadata_operator.py:127) is not modelled; in the source it escapes `process` and `prepare`.
- The text of the log messages of the operator: an entry records the type, the field and the values, not their Python `repr`.
- `deepcopy` in `process`: Dafny values are immutable, so the copy is implicit.
- `models/target.py` is not part of this model. A target is its path, and a path that is not a string is taken to raise TypeError.
- The generic `DataModel` deserializer of `dcm_common` is not part of this model. `Operations.FromJson` reads each class's fields by name and ignores other members; any failure is `DeserializationError`.
- In the configuration error messages only the stage name is kept, not the offending entry.
- `config.py` beyond `SIGPROP_TYPES`, the parent element name and the template's `object` element.
