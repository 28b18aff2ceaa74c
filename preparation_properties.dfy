/** What the preparation job promises: the "failed during stage" branch is
    never taken, a job either succeeds or lets an exception escape, empty
    lists skip their stage, and a package whose significant properties all
    have values is prepared (for values without markup or control
    characters, as `NewEntry` takes them). */
module PreparationProperties {
  import opened Json
  import opened Errors
  import opened MetadataStore
  import opened Logging
  import opened Operations
  import opened MetadataOperator
  import opened OperatorProperties
  import opened SignificantProperties
  import opened SigPropProperties
  import opened PreparationConfig
  import opened Preparation
  import ConfigProperties

  /** A log entry at INFO level adds no error. */
  lemma InfoAddsNoError(log: seq<LogEntry>, body: Body)
    ensures HasError(log + [LogEntry(INFO, body)]) <==> HasError(log)
  {
    HasErrorAppend(log, [LogEntry(INFO, body)]);
  }

  /** A stage started on a log without errors leaves it without errors and
      does not touch the success flag; when it ends the job, it is by an
      exception. */
  lemma StageStepKeepsNoError(target: string, stage: Stage, p: Progress, fullMatch: FullMatch)
    requires !HasError(p.log)
    ensures StageStep(target, stage, p, fullMatch).progress.success == p.success
    ensures !HasError(StageStep(target, stage, p, fullMatch).progress.log)
    ensures StageStep(target, stage, p, fullMatch).Halt? ==> StageStep(target, stage, p, fullMatch).outcome.Failed?
  {
    if stage.operations.Some? && |stage.operations.value| > 0 {
      LogHasNoError(stage.source, stage.operations.value, fullMatch);
      HasErrorAppend(p.log, OperationsLog(stage.source, stage.operations.value, fullMatch));
    }
  }

  /** The same for the whole stage loop. */
  lemma {:induction false} RunStagesKeepsNoError(target: string, stages: seq<Stage>, p: Progress, fullMatch: FullMatch)
    requires !HasError(p.log)
    ensures RunStages(target, stages, p, fullMatch).progress.success == p.success
    ensures !HasError(RunStages(target, stages, p, fullMatch).progress.log)
    ensures RunStages(target, stages, p, fullMatch).Halt? ==> RunStages(target, stages, p, fullMatch).outcome.Failed?
    decreases |stages|
  {
    if stages != [] {
      StageStepKeepsNoError(target, stages[0], p, fullMatch);
      var s := StageStep(target, stages[0], p, fullMatch);
      if s.Go? {
        RunStagesKeepsNoError(target, stages[1..], s.progress, fullMatch);
      }
    }
  }

  /** The stage loop on two stages. */
  lemma RunTwoStages(target: string, a: Stage, b: Stage, p: Progress, fullMatch: FullMatch)
    ensures RunStages(target, [a, b], p, fullMatch) ==
      match StageStep(target, a, p, fullMatch)
      case Halt(q, outcome) => Halt(q, outcome)
      case Go(q) =>
        match StageStep(target, b, q, fullMatch)
        case Halt(r, outcome) => Halt(r, outcome)
        case Go(r) => Go(r)
  {
    assert [a, b][0] == a && [a, b][1..] == [b];
    assert [b][0] == b && [b][1..] == [];
    match StageStep(target, a, p, fullMatch)
    case Halt(q, outcome) =>
    case Go(q) =>
      assert RunStages(target, [a, b], p, fullMatch) == RunStages(target, [b], q, fullMatch);
      match StageStep(target, b, q, fullMatch)
      case Halt(r, outcome) =>
      case Go(r) =>
        assert RunStages(target, [b], q, fullMatch) == RunStages(target, [], r, fullMatch);
  }

  /** The job never logs an error once it has an output directory and the
      report had none: the operator logs only INFO, so the "failed during
      stage" branch is unreachable. The job then either returns with success
      true after the tag manifests and the callback, or lets an exception
      escape with the success flag as it was. */
  lemma NoStageFailure(report: ReportState, request: map<string, Json>, path: string,
                       outputDir: string, bagInfo: Store, sigPropFile: Option<PremisDocument>, fullMatch: FullMatch)
    requires ParseConfig(request).Ok? && !HasError(report.log)
    ensures !HasError(Prepared(report, request, Some(path), outputDir, bagInfo, sigPropFile, fullMatch).report.log)
    ensures Prepared(report, request, Some(path), outputDir, bagInfo, sigPropFile, fullMatch).outcome == Returned ==>
      Prepared(report, request, Some(path), outputDir, bagInfo, sigPropFile, fullMatch).report.success == Some(true)
    ensures Prepared(report, request, Some(path), outputDir, bagInfo, sigPropFile, fullMatch).outcome.Failed? ==>
      Prepared(report, request, Some(path), outputDir, bagInfo, sigPropFile, fullMatch).report.success == report.success
  {
    var c := ParseConfig(request).value;
    var target := c.target.path;
    var doc := SigPropTree(sigPropFile);
    var p := Opening(report, target, path, doc);
    HasErrorAppend(report.log, [LogEntry(INFO, Message(PreparingFrom(target))), LogEntry(INFO, Message(PreparingAt(path)))]);
    RunStagesKeepsNoError(target, StageList(c, bagInfo, doc), p, fullMatch);
    var s := RunStages(target, StageList(c, bagInfo, doc), p, fullMatch);
    if s.Go? {
      InfoAddsNoError(s.progress.log, Message(Succeeded(path)));
    }
  }

  /** Without an output directory the job fails at once: an ERROR entry,
      success false, no path, and only the callback. */
  lemma NoOutputPathStops(report: ReportState, request: map<string, Json>, outputDir: string,
                          bagInfo: Store, sigPropFile: Option<PremisDocument>, fullMatch: FullMatch)
    requires ParseConfig(request).Ok?
    ensures Prepared(report, request, None, outputDir, bagInfo, sigPropFile, fullMatch).report.success == Some(false)
    ensures Prepared(report, request, None, outputDir, bagInfo, sigPropFile, fullMatch).report.path == None
    ensures Prepared(report, request, None, outputDir, bagInfo, sigPropFile, fullMatch).effects == [Callback]
    ensures Prepared(report, request, None, outputDir, bagInfo, sigPropFile, fullMatch).outcome == Returned
    ensures HasError(Prepared(report, request, None, outputDir, bagInfo, sigPropFile, fullMatch).report.log)
  {
    var target := ParseConfig(request).value.target.path;
    var full := report.log + [LogEntry(INFO, Message(PreparingFrom(target))), LogEntry(ERROR, Message(NoOutputDirectory(outputDir)))];
    assert full[|full| - 1].level == ERROR;
  }

  /** A request that does not read as a configuration lets the error escape
      before anything is logged or done. */
  lemma ConfigErrorEscapes(report: ReportState, request: map<string, Json>, outputPath: Option<string>,
                           outputDir: string, bagInfo: Store, sigPropFile: Option<PremisDocument>, fullMatch: FullMatch)
    requires ParseConfig(request).Err?
    ensures Prepared(report, request, outputPath, outputDir, bagInfo, sigPropFile, fullMatch)
      == JobResult(report, [], Failed(ParseConfig(request).error))
  {
  }

  /** Two empty operation lists skip both stages: the package is copied, its
      tag manifests regenerated, and the job succeeds. */
  lemma EmptyListsSkipStages(report: ReportState, request: map<string, Json>, path: string,
                             outputDir: string, bagInfo: Store, sigPropFile: Option<PremisDocument>, fullMatch: FullMatch)
    requires ParseConfig(request).Ok?
    requires ParseConfig(request).value.baginfoOperations == Some([])
    requires ParseConfig(request).value.sigPropOperations == Some([])
    ensures Prepared(report, request, Some(path), outputDir, bagInfo, sigPropFile, fullMatch) == JobResult(
        ReportState(report.log + [LogEntry(INFO, Message(PreparingFrom(ParseConfig(request).value.target.path))),
                                  LogEntry(INFO, Message(PreparingAt(path))),
                                  LogEntry(INFO, Message(Succeeded(path)))],
                    Some(true), Some(path)),
        [CopyTree(ParseConfig(request).value.target.path, path), SetTagManifests, Callback], Returned)
  {
    var c := ParseConfig(request).value;
    var doc := SigPropTree(sigPropFile);
    var stages := StageList(c, bagInfo, doc);
    var p := Opening(report, c.target.path, path, doc);
    RunTwoStages(c.target.path, stages[0], stages[1], p, fullMatch);
    assert stages == [stages[0], stages[1]];
    assert RunStages(c.target.path, stages, p, fullMatch) == Go(p);
  }

  /** A missing bag-info list (None: `len(None)`) raises TypeError once the
      package is copied. */
  lemma MissingListRaises(report: ReportState, request: map<string, Json>, path: string,
                          outputDir: string, bagInfo: Store, sigPropFile: Option<PremisDocument>, fullMatch: FullMatch)
    requires ParseConfig(request).Ok? && ParseConfig(request).value.baginfoOperations.None?
    ensures Prepared(report, request, Some(path), outputDir, bagInfo, sigPropFile, fullMatch) == JobResult(
        ReportState(report.log + [LogEntry(INFO, Message(PreparingFrom(ParseConfig(request).value.target.path))),
                                  LogEntry(INFO, Message(PreparingAt(path)))],
                    report.success, Some(path)),
        [CopyTree(ParseConfig(request).value.target.path, path)], Failed(TypeError))
  {
    var c := ParseConfig(request).value;
    var doc := SigPropTree(sigPropFile);
    var stages := StageList(c, bagInfo, doc);
    var p := Opening(report, c.target.path, path, doc);
    RunTwoStages(c.target.path, stages[0], stages[1], p, fullMatch);
    assert stages == [stages[0], stages[1]];
  }

  /** No Value element of the tree lacks its text. */
  predicate ValuesPresent(doc: PremisDocument)
  {
    doc.premisObject.Some? &&
    forall i :: 0 <= i < |doc.premisObject.value.children| && IsEntry(doc.premisObject.value.children[i]) ==>
      doc.premisObject.value.children[i].value.value.text.Some?
  }

  /** Applying a merge that writes the file: the tree becomes the merged one
      and the write is recorded. */
  lemma SigPropApplyWrites(q: Progress, s: ObjectState, md: Store)
    requires q.premisObject == Some(s) && |md| > 0 && Apply(s, md).outcome == Written
    ensures ApplyStage(SigPropStage, q, md)
      == Go(q.(premisObject := Some(Apply(s, md).state), effects := q.effects + [WriteSignificantProperties(Apply(s, md).state)]))
  {
  }

  /** The significant-properties stage with operations, on the tree it was
      loaded from, when no Value element is empty: the operator's log joins
      the report's and the merge never raises (for values without markup or
      control characters, as `NewEntry` and `WithValue` take them). An empty
      processed store writes nothing; any other writes the merged tree. */
  lemma SigPropStageGoesOn(target: string, s: ObjectState, ops: seq<Operation>, p: Progress, fullMatch: FullMatch)
    requires |ops| > 0 && p.premisObject == Some(s) && !HasError(p.log)
    requires forall i :: 0 <= i < |s.children| && IsEntry(s.children[i]) ==> s.children[i].value.value.text.Some?
    ensures StageStep(target, Stage(SigPropStage, Loaded(s.children), Some(ops)), p, fullMatch)
      == ApplyStage(SigPropStage, p.(log := p.log + OperationsLog(Loaded(s.children), ops, fullMatch)),
                    AfterOperations(Loaded(s.children), ops, fullMatch))
    ensures Apply(s, AfterOperations(Loaded(s.children), ops, fullMatch)).outcome == Written
    ensures
      var md := AfterOperations(Loaded(s.children), ops, fullMatch);
      var p' := p.(log := p.log + OperationsLog(Loaded(s.children), ops, fullMatch));
      StageStep(target, Stage(SigPropStage, Loaded(s.children), Some(ops)), p, fullMatch)
        == if |md| == 0 then Go(p')
           else Go(p'.(premisObject := Some(Apply(s, md).state),
                       effects := p'.effects + [WriteSignificantProperties(Apply(s, md).state)]))
  {
    LogHasNoError(Loaded(s.children), ops, fullMatch);
    HasErrorAppend(p.log, OperationsLog(Loaded(s.children), ops, fullMatch));
    MergeAfterProcessWrites(s.text, s.children, ops, fullMatch);
    assert s == ObjectState(s.text, s.children);
  }

  /** The bag-info stage on a log without errors: with operations, the
      operator's log joins the report's and the processed metadata is written
      to the bag. */
  lemma BagInfoStageGoesOn(target: string, bagInfo: Store, ops: seq<Operation>, p: Progress, fullMatch: FullMatch)
    requires !HasError(p.log)
    ensures StageStep(target, Stage(BagInfoStage, bagInfo, Some(ops)), p, fullMatch) ==
      if |ops| == 0 then Go(p)
      else Go(p.(log := p.log + OperationsLog(bagInfo, ops, fullMatch),
                 effects := p.effects + [SetBagInfo(AfterOperations(bagInfo, ops, fullMatch))]))
  {
    if |ops| > 0 {
      LogHasNoError(bagInfo, ops, fullMatch);
      HasErrorAppend(p.log, OperationsLog(bagInfo, ops, fullMatch));
    }
  }

  /** What a stage with these operations adds to the log. */
  function StageLog(source: Store, ops: seq<Operation>, fullMatch: FullMatch): seq<LogEntry>
  {
    if |ops| == 0 then [] else OperationsLog(source, ops, fullMatch)
  }

  /** The write the bag-info stage asks for. */
  function BagInfoEffects(bagInfo: Store, ops: seq<Operation>, fullMatch: FullMatch): seq<Effect>
  {
    if |ops| == 0 then [] else [SetBagInfo(AfterOperations(bagInfo, ops, fullMatch))]
  }

  /** The merged `object` element, when the significant-properties stage
      merges. */
  function Merged(s: ObjectState, ops: seq<Operation>, fullMatch: FullMatch): Option<ObjectState>
  {
    var md := AfterOperations(Loaded(s.children), ops, fullMatch);
    if |ops| == 0 || |md| == 0 then None else Some(Apply(s, md).state)
  }

  /** The write the significant-properties stage asks for. */
  function SigPropEffects(s: ObjectState, ops: seq<Operation>, fullMatch: FullMatch): seq<Effect>
  {
    if Merged(s, ops, fullMatch).None? then [] else [WriteSignificantProperties(Merged(s, ops, fullMatch).value)]
  }

  /** The bag-info stage always goes on from a log without errors, adding
      its log and its write, and leaves a log without errors. */
  lemma BagInfoStep(target: string, bagInfo: Store, ops: seq<Operation>, p: Progress, fullMatch: FullMatch)
    requires !HasError(p.log)
    ensures StageStep(target, Stage(BagInfoStage, bagInfo, Some(ops)), p, fullMatch)
      == Go(p.(log := p.log + StageLog(bagInfo, ops, fullMatch),
               effects := p.effects + BagInfoEffects(bagInfo, ops, fullMatch)))
    ensures !HasError(p.log + StageLog(bagInfo, ops, fullMatch))
  {
    BagInfoStageGoesOn(target, bagInfo, ops, p, fullMatch);
    if |ops| == 0 {
      assert p.log + StageLog(bagInfo, ops, fullMatch) == p.log;
      assert p.effects + BagInfoEffects(bagInfo, ops, fullMatch) == p.effects;
    } else {
      LogHasNoError(bagInfo, ops, fullMatch);
      HasErrorAppend(p.log, StageLog(bagInfo, ops, fullMatch));
    }
  }

  /** The significant-properties stage goes on from a log without errors on
      a tree with no empty Value element (for values without markup or control
      characters, as `NewEntry` and `WithValue` take them), adding its log and
      its write and leaving the merged tree, if any. */
  lemma SigPropStep(target: string, s: ObjectState, ops: seq<Operation>, q: Progress, fullMatch: FullMatch)
    requires !HasError(q.log) && q.premisObject == Some(s)
    requires forall i :: 0 <= i < |s.children| && IsEntry(s.children[i]) ==> s.children[i].value.value.text.Some?
    ensures StageStep(target, Stage(SigPropStage, Loaded(s.children), Some(ops)), q, fullMatch)
      == Go(q.(log := q.log + StageLog(Loaded(s.children), ops, fullMatch),
               effects := q.effects + SigPropEffects(s, ops, fullMatch),
               premisObject := if Merged(s, ops, fullMatch).None? then Some(s) else Merged(s, ops, fullMatch)))
  {
    var sigLog := StageLog(Loaded(s.children), ops, fullMatch);
    var sigEffects := SigPropEffects(s, ops, fullMatch);
    if |ops| == 0 {
      assert q.log + sigLog == q.log && q.effects + sigEffects == q.effects;
    } else {
      var md := AfterOperations(Loaded(s.children), ops, fullMatch);
      SigPropStageGoesOn(target, s, ops, q, fullMatch);
      if |md| == 0 {
        assert q.effects + sigEffects == q.effects;
      } else {
        SigPropApplyWrites(q.(log := q.log + sigLog), s, md);
      }
    }
  }

  /** Both stages go on when the log has no error and the tree has no empty
      Value element (for values without markup or control characters, as
      `NewEntry` and `WithValue` take them). */
  lemma StagesGoOn(target: string, bagInfo: Store, bops: seq<Operation>, s: ObjectState, sops: seq<Operation>,
                   p: Progress, fullMatch: FullMatch)
    requires !HasError(p.log) && p.premisObject == Some(s)
    requires forall i :: 0 <= i < |s.children| && IsEntry(s.children[i]) ==> s.children[i].value.value.text.Some?
    ensures RunStages(target, [Stage(BagInfoStage, bagInfo, Some(bops)), Stage(SigPropStage, Loaded(s.children), Some(sops))], p, fullMatch)
      == Go(Progress(p.log + StageLog(bagInfo, bops, fullMatch) + StageLog(Loaded(s.children), sops, fullMatch),
                     p.success,
                     p.effects + BagInfoEffects(bagInfo, bops, fullMatch) + SigPropEffects(s, sops, fullMatch),
                     if Merged(s, sops, fullMatch).None? then Some(s) else Merged(s, sops, fullMatch)))
  {
    BagInfoStep(target, bagInfo, bops, p, fullMatch);
    var q := p.(log := p.log + StageLog(bagInfo, bops, fullMatch),
                effects := p.effects + BagInfoEffects(bagInfo, bops, fullMatch));
    SigPropStep(target, s, sops, q, fullMatch);
    RunTwoStages(target, Stage(BagInfoStage, bagInfo, Some(bops)), Stage(SigPropStage, Loaded(s.children), Some(sops)), p, fullMatch);
  }

  /** A package whose significant-properties tree has its `object` element
      and no empty Value element is prepared (for values without markup or
      control characters, as `NewEntry` takes them), given both operation
      lists and an output directory: the log is the two opening entries, the
      operator's log of each stage with operations and the closing entry, and
      the effects are the copy, the bag-info write when there are bag-info
      operations, the file write when there are significant-properties
      operations and the merged metadata is not empty, the tag manifests and
      the callback. */
  lemma JobSucceeds(report: ReportState, request: map<string, Json>, path: string,
                    outputDir: string, bagInfo: Store, sigPropFile: Option<PremisDocument>, fullMatch: FullMatch)
    requires ParseConfig(request).Ok? && !HasError(report.log)
    requires ParseConfig(request).value.baginfoOperations.Some?
    requires ParseConfig(request).value.sigPropOperations.Some?
    requires ValuesPresent(SigPropTree(sigPropFile))
    ensures var c := ParseConfig(request).value;
      var s := SigPropTree(sigPropFile).premisObject.value;
      Prepared(report, request, Some(path), outputDir, bagInfo, sigPropFile, fullMatch) == JobResult(
        ReportState(report.log + [LogEntry(INFO, Message(PreparingFrom(c.target.path))),
                                  LogEntry(INFO, Message(PreparingAt(path)))]
                    + StageLog(bagInfo, c.baginfoOperations.value, fullMatch)
                    + StageLog(Loaded(s.children), c.sigPropOperations.value, fullMatch)
                    + [LogEntry(INFO, Message(Succeeded(path)))],
                    Some(true), Some(path)),
        [CopyTree(c.target.path, path)]
        + BagInfoEffects(bagInfo, c.baginfoOperations.value, fullMatch)
        + SigPropEffects(s, c.sigPropOperations.value, fullMatch)
        + [SetTagManifests, Callback],
        Returned)
  {
    var c := ParseConfig(request).value;
    var doc := SigPropTree(sigPropFile);
    var s := doc.premisObject.value;
    var p := Opening(report, c.target.path, path, doc);
    HasErrorAppend(report.log, [LogEntry(INFO, Message(PreparingFrom(c.target.path))), LogEntry(INFO, Message(PreparingAt(path)))]);
    assert StageList(c, bagInfo, doc)
      == [Stage(BagInfoStage, bagInfo, c.baginfoOperations), Stage(SigPropStage, Loaded(s.children), c.sigPropOperations)];
    StagesGoOn(c.target.path, bagInfo, c.baginfoOperations.value, s, c.sigPropOperations.value, p, fullMatch);
  }

  /** A package without a significant-properties file works on the template,
      which has no entries, so with both lists given it is prepared (for values
      without markup or control characters, as `NewEntry` takes them). */
  lemma TemplateJobSucceeds(report: ReportState, request: map<string, Json>, path: string,
                            outputDir: string, bagInfo: Store, fullMatch: FullMatch)
    requires ParseConfig(request).Ok? && !HasError(report.log)
    requires ParseConfig(request).value.baginfoOperations.Some?
    requires ParseConfig(request).value.sigPropOperations.Some?
    ensures Prepared(report, request, Some(path), outputDir, bagInfo, None, fullMatch).outcome == Returned
    ensures Prepared(report, request, Some(path), outputDir, bagInfo, None, fullMatch).report.success == Some(true)
  {
    var doc := SigPropTree(None);
    assert doc.premisObject.value.children == [Other(Some(Indent(ObjectDepth)))];
    assert ValuesPresent(doc);
    JobSucceeds(report, request, path, outputDir, bagInfo, None, fullMatch);
  }

  /** A request with no bag-info operations and one complement of
      "structure". */
  function ComplementRequest(): map<string, Json>
  {
    map[
      "target" := JObject(map["path" := JString("ip")]),
      "bagInfoOperations" := JArray([]),
      "sigPropOperations" := JArray([JObject(map[
        "type" := JString("complement"),
        "targetField" := JString("structure"),
        "value" := JString("new value")])])]
  }

  lemma ComplementRequestReads()
    ensures ParseConfig(ComplementRequest())
      == Ok(PreparationConfig(Target("ip"), Some([]), Some([ComplementOperation("structure", "new value")])))
  {
    var op := ComplementOperation("structure", "new value");
    var e := JObject(map[
          "type" := JString("complement"),
          "targetField" := JString("structure"),
          "value" := JString("new value")]);
    var request := ComplementRequest();
    assert request["sigPropOperations"] == JArray([e]);
    assert ToJson(op) == e;
    ConfigProperties.OperationReadsBack("sigPropOperations", op);
    assert [e][0] == e && [e][1..] == [];
    assert ParseOperation("sigPropOperations", [e][0]) == Ok(op);
    assert ParseOperations("sigPropOperations", [e][1..]) == Ok([]);
    assert [op] + [] == [op];
    assert ParseOperations("sigPropOperations", [e]) == Ok([op]);
    assert ParseOptionalList(request, "sigPropOperations") == Ok(Some([op]));
    assert ParseOptionalList(request, "bagInfoOperations") == Ok(Some([]));
  }

  /** The template's only write for that request: the new entry after the
      object identifier. */
  lemma TemplateComplementWrite(fullMatch: FullMatch)
    ensures SigPropEffects(TemplateObject(), [ComplementOperation("structure", "new value")], fullMatch)
      == [WriteSignificantProperties(ObjectState(Some("\n    "),
            [Other(Some("\n    ")), NewEntry("structure", "new value", "\n  ")]))]
  {
    TemplateComplementScenario(fullMatch);
  }

  /** That request on a package without a significant-properties file: the
      package is copied and the file is written from the template with the
      new entry. */
  lemma TemplateComplementJob(fullMatch: FullMatch)
    ensures Prepared(ReportState([], None, None), ComplementRequest(), Some("out"), "ips", map[], None, fullMatch).effects
        == [CopyTree("ip", "out"),
            WriteSignificantProperties(ObjectState(Some("\n    "),
              [Other(Some("\n    ")), NewEntry("structure", "new value", "\n  ")])),
            SetTagManifests, Callback]
  {
    var w := WriteSignificantProperties(ObjectState(Some("\n    "),
               [Other(Some("\n    ")), NewEntry("structure", "new value", "\n  ")]));
    assert [CopyTree("ip", "out")] + [] + [w] + [SetTagManifests, Callback]
      == [CopyTree("ip", "out"), w, SetTagManifests, Callback];
    var request := ComplementRequest();
    ComplementRequestReads();
    var c := ParseConfig(request).value;
    assert c.target.path == "ip" && c.baginfoOperations == Some([])
      && c.sigPropOperations == Some([ComplementOperation("structure", "new value")]);
    var s := TemplateObject();
    assert SigPropTree(None).premisObject == Some(s);
    assert ValuesPresent(SigPropTree(None)) by {
      assert s.children == [Other(Some(Indent(ObjectDepth)))];
    }
    JobSucceeds(ReportState([], None, None), request, "out", "ips", map[], None, fullMatch);
    var r := Prepared(ReportState([], None, None), request, Some("out"), "ips", map[], None, fullMatch);
    assert r.effects == [CopyTree("ip", "out")] + BagInfoEffects(map[], [], fullMatch)
      + SigPropEffects(s, [ComplementOperation("structure", "new value")], fullMatch) + [SetTagManifests, Callback];
    TemplateComplementWrite(fullMatch);
    assert BagInfoEffects(map[], [], fullMatch) == [];
    assert r.effects == [CopyTree("ip", "out")] + [] + [w] + [SetTagManifests, Callback];
  }
}
