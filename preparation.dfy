/** The preparation job: read the configuration, choose the output directory,
    copy the package, run the bag-info stage and the significant-properties
    stage, regenerate the tag manifests and report. The file system, the bag
    library and the callback are the `Effect`s the job asks for. */
module Preparation {
  import opened Json
  import opened Errors
  import opened MetadataStore
  import opened Logging
  import opened Operations
  import opened MetadataOperator
  import opened SignificantProperties
  import opened PreparationConfig

  /** What the job does outside the report, in order. */
  datatype Effect =
      /** `copytree(target, path, dirs_exist_ok=True)` */
    | CopyTree(source: string, destination: string)
      /** `bag.set_baginfo(metadata)` */
    | SetBagInfo(metadata: Store)
      /** the significant-properties file written with this `object` element */
    | WriteSignificantProperties(premisObject: ObjectState)
      /** `bag.set_tag_manifests()` */
    | SetTagManifests
      /** `_run_callback` */
    | Callback

  /** The content of `significant_properties.xml` as parsed: its `object`
      element, if it has one. */
  datatype PremisDocument = PremisDocument(premisObject: Option<ObjectState>)

  /** `prepare` either returns or lets an exception escape. */
  datatype JobOutcome = Returned | Failed(error: Exception)

  /** The report fields the job writes: the log, `data.success` and
      `data.path`. */
  datatype ReportState = ReportState(log: seq<LogEntry>, success: Option<bool>, path: Option<string>)

  class Report {
    var log: seq<LogEntry>
    var success: Option<bool>
    var path: Option<string>

    constructor ()
      ensures log == [] && success == None && path == None
    {
      log := [];
      success := None;
      path := None;
    }

    function State(): (s: ReportState)
      reads this
      ensures s.log == log && s.success == success && s.path == path
    {
      ReportState(log, success, path)
    }
  }

  // ---------------------------------------------------------------------
  // Messages

  function PreparingFrom(target: string): string
  {
    "Preparing IP from '" + target + "'."
  }

  function NoOutputDirectory(outputDir: string): string
  {
    "Unable to generate output directory in '" + outputDir + "'(maximum retries exceeded)."
  }

  function PreparingAt(path: string): string
  {
    "Preparing IP at '" + path + "'."
  }

  function FailedDuringStage(target: string, stage: string): string
  {
    "Preparing IP from '" + target + "' failed during stage '" + stage + "'."
  }

  function Succeeded(path: string): string
  {
    "Successfully prepared IP at '" + path + "'."
  }

  // ---------------------------------------------------------------------
  // The job as a function

  /** The two stages, which differ in how they apply the processed metadata. */
  datatype StageKind = BagInfoStage | SigPropStage

  /** A stage's name, as its operation list is named in the JSON. */
  function StageName(kind: StageKind): (name: string)
    ensures name == (if kind.BagInfoStage? then Stages[0].1 else Stages[1].1)
  {
    match kind
    case BagInfoStage => "bagInfoOperations"
    case SigPropStage => "sigPropOperations"
  }

  /** One entry of the stage list: its kind, the metadata it starts from and
      its operations. */
  datatype Stage = Stage(kind: StageKind, source: Store, operations: Option<seq<Operation>>)

  /** The job's state between stages: the report's log and success flag, the
      effects so far, and the `object` element of the significant-properties
      tree. */
  datatype Progress = Progress(log: seq<LogEntry>, success: Option<bool>, effects: seq<Effect>,
                               premisObject: Option<ObjectState>)

  /** A stage lets the job go on, or ends it. */
  datatype Step = Go(progress: Progress) | Halt(progress: Progress, outcome: JobOutcome)

  /** `apply(operator_result)`: the bag-info stage writes the processed
      metadata to the bag; the significant-properties stage merges it into
      the tree (`apply_significant_properties`), which writes the file, does
      nothing, or raises. */
  function ApplyStage(kind: StageKind, p: Progress, md: Store): Step
  {
    match kind
    case BagInfoStage => Go(p.(effects := p.effects + [SetBagInfo(md)]))
    case SigPropStage =>
      if |md| == 0 then Go(p)
      else if p.premisObject.None? then Halt(p, Failed(AttributeError))
      else
        var a := Apply(p.premisObject.value, md);
        match a.outcome
        case Raised(e) => Halt(p.(premisObject := Some(a.state)), Failed(e))
        case _ => Go(p.(premisObject := Some(a.state), effects := p.effects + [WriteSignificantProperties(a.state)]))
  }

  /** One pass of the stage loop: `len(None)` raises TypeError; an empty list
      skips the stage; otherwise the operator's log joins the report's, an
      ERROR anywhere in the report's log fails the job, and the result is
      applied otherwise. */
  function StageStep(target: string, stage: Stage, p: Progress, fullMatch: FullMatch): Step
  {
    match stage.operations
    case None => Halt(p, Failed(TypeError))
    case Some(ops) =>
      if |ops| == 0 then Go(p)
      else
        var md := AfterOperations(stage.source, ops, fullMatch);
        var log := p.log + OperationsLog(stage.source, ops, fullMatch);
        if HasError(log) then
          Halt(p.(log := log + [LogEntry(ERROR, Message(FailedDuringStage(target, StageName(stage.kind))))],
                  success := Some(false), effects := p.effects + [Callback]),
               Returned)
        else ApplyStage(stage.kind, p.(log := log), md)
  }

  /** The stage loop, stopping at the first stage that ends the job. */
  function RunStages(target: string, stages: seq<Stage>, p: Progress, fullMatch: FullMatch): Step
    decreases |stages|
  {
    if stages == [] then Go(p)
    else match StageStep(target, stages[0], p, fullMatch)
      case Go(q) => RunStages(target, stages[1..], q, fullMatch)
      case Halt(q, outcome) => Halt(q, outcome)
  }

  /** The tree the job works on: the parsed file, or the template when there
      is no file. */
  function SigPropTree(sigPropFile: Option<PremisDocument>): PremisDocument
  {
    if sigPropFile.Some? then sigPropFile.value else PremisDocument(Some(TemplateObject()))
  }

  /** The stage list, both sources read before either stage runs. */
  function StageList(config: PreparationConfig, bagInfo: Store, doc: PremisDocument): seq<Stage>
  {
    var sigMd := if doc.premisObject.None? then map[] else Loaded(doc.premisObject.value.children);
    [Stage(BagInfoStage, bagInfo, config.baginfoOperations),
     Stage(SigPropStage, sigMd, config.sigPropOperations)]
  }

  /** What `prepare` leaves behind: the report, the effects and the outcome. */
  datatype JobResult = JobResult(report: ReportState, effects: seq<Effect>, outcome: JobOutcome)

  /** The job's state when the stage loop starts: the two opening log
      entries and the copy of the package. */
  function Opening(report: ReportState, target: string, path: string, doc: PremisDocument): Progress
  {
    Progress(report.log + [LogEntry(INFO, Message(PreparingFrom(target))), LogEntry(INFO, Message(PreparingAt(path)))],
             report.success, [CopyTree(target, path)], doc.premisObject)
  }

  /** The report and effects once the stage loop is over: a stage that ended
      the job leaves them as they are; otherwise the tag manifests, success
      and the closing entry, and the callback. */
  function Closing(path: string, s: Step): JobResult
  {
    match s
    case Halt(q, outcome) => JobResult(ReportState(q.log, q.success, Some(path)), q.effects, outcome)
    case Go(q) =>
      JobResult(ReportState(q.log + [LogEntry(INFO, Message(Succeeded(path)))], Some(true), Some(path)),
                q.effects + [SetTagManifests, Callback], Returned)
  }

  /** `prepare`, as a function of the report before it, the request body,
      what `get_output_path` gives, the output directory it was asked for,
      the bag-info of the copied bag and the significant-properties file of
      the copied package. */
  function Prepared(report: ReportState, request: map<string, Json>, outputPath: Option<string>,
                    outputDir: string, bagInfo: Store, sigPropFile: Option<PremisDocument>,
                    fullMatch: FullMatch): JobResult
  {
    var config := ParseConfig(request);
    if config.Err? then JobResult(report, [], Failed(config.error))
    else
      var target := config.value.target.path;
      if outputPath.None? then
        JobResult(ReportState(report.log + [LogEntry(INFO, Message(PreparingFrom(target))),
                                            LogEntry(ERROR, Message(NoOutputDirectory(outputDir)))],
                              Some(false), None),
                  [Callback], Returned)
      else
        var doc := SigPropTree(sigPropFile);
        Closing(outputPath.value,
                RunStages(target, StageList(config.value, bagInfo, doc),
                          Opening(report, target, outputPath.value, doc), fullMatch))
  }

  lemma RunStagesUnfold(target: string, stages: seq<Stage>, n: nat, p: Progress, fullMatch: FullMatch)
    requires n < |stages|
    ensures RunStages(target, stages[n..], p, fullMatch) ==
      match StageStep(target, stages[n], p, fullMatch)
      case Go(q) => RunStages(target, stages[n + 1..], q, fullMatch)
      case Halt(q, outcome) => Halt(q, outcome)
  {
    assert stages[n..][0] == stages[n] && stages[n..][1..] == stages[n + 1..];
  }

  // ---------------------------------------------------------------------
  // The job

  /** The `object` element of a tree, as a value. */
  function ObjectOf(root: PremisRoot): Option<ObjectState>
    reads root.premisObject
  {
    if root.premisObject == null then None else Some(root.premisObject.State())
  }

  class PreparationView {
    const metadataOperator: MetadataOperator

    constructor ()
    {
      metadataOperator := new MetadataOperator();
    }

    /** One pass of the stage loop in `prepare`, on the report and the tree;
        `halt` is Some when the job ends here. */
    method RunStage(report: Report, target: string, stage: Stage, root: PremisRoot, effects: seq<Effect>,
                    fullMatch: FullMatch)
      returns (newEffects: seq<Effect>, halt: Option<JobOutcome>)
      modifies report, root.premisObject
      ensures report.path == old(report.path)
      ensures var p := Progress(report.log, report.success, newEffects, ObjectOf(root));
        StageStep(target, stage, Progress(old(report.log), old(report.success), effects, old(ObjectOf(root))), fullMatch)
        == (if halt.Some? then Halt(p, halt.value) else Go(p))
    {
      newEffects := effects;
      halt := None;
      if stage.operations.None? {
        halt := Some(Failed(TypeError));
        return;
      }
      var ops := stage.operations.value;
      if |ops| == 0 {
        return;
      }
      var result := metadataOperator.Process(stage.source, stage.operations, fullMatch);
      report.log := report.log + result.log;
      if HasError(report.log) {
        report.success := Some(false);
        report.log := report.log + [LogEntry(ERROR, Message(FailedDuringStage(target, StageName(stage.kind))))];
        newEffects := effects + [Callback];
        halt := Some(Returned);
        return;
      }
      match stage.kind {
        case BagInfoStage =>
          newEffects := effects + [SetBagInfo(result.metadata)];
        case SigPropStage =>
          var outcome := ApplySignificantProperties(root, result.metadata);
          match outcome {
            case NotWritten =>
            case Written =>
              newEffects := effects + [WriteSignificantProperties(root.premisObject.State())];
            case Raised(e) =>
              halt := Some(Failed(e));
          }
      }
    }

    /** The stage loop of `prepare`: each stage in turn until one ends the
        job. */
    method RunStageLoop(report: Report, target: string, stages: seq<Stage>, root: PremisRoot,
                        effects: seq<Effect>, fullMatch: FullMatch)
      returns (newEffects: seq<Effect>, halt: Option<JobOutcome>)
      modifies report, root.premisObject
      ensures report.path == old(report.path)
      ensures var p := Progress(report.log, report.success, newEffects, ObjectOf(root));
        RunStages(target, stages, Progress(old(report.log), old(report.success), effects, old(ObjectOf(root))), fullMatch)
        == (if halt.Some? then Halt(p, halt.value) else Go(p))
    {
      ghost var p0 := Progress(report.log, report.success, effects, ObjectOf(root));
      newEffects := effects;
      for n := 0 to |stages|
        invariant report.path == old(report.path)
        invariant RunStages(target, stages[n..], Progress(report.log, report.success, newEffects, ObjectOf(root)), fullMatch)
          == RunStages(target, stages, p0, fullMatch)
      {
        ghost var p := Progress(report.log, report.success, newEffects, ObjectOf(root));
        RunStagesUnfold(target, stages, n, p, fullMatch);
        newEffects, halt := RunStage(report, target, stages[n], root, newEffects, fullMatch);
        if halt.Some? {
          return;
        }
      }
      assert stages[|stages|..] == [];
      halt := None;
    }

    /** The parsed significant-properties file as a fresh tree. */
    method OpenTree(doc: PremisDocument) returns (root: PremisRoot)
      ensures fresh(root) && (root.premisObject != null ==> fresh(root.premisObject))
      ensures ObjectOf(root) == doc.premisObject
    {
      var obj: PremisObject? := null;
      if doc.premisObject.Some? {
        obj := new PremisObject(doc.premisObject.value.text, doc.premisObject.value.children);
      }
      root := new PremisRoot(obj);
    }

    /** The stage loop and what follows it: a halted job returns as it
        stands; otherwise success is set, the closing entry logged, the tag
        manifests generated and the callback made. */
    method RunAndClose(report: Report, target: string, path: string, stages: seq<Stage>, root: PremisRoot,
                       effects: seq<Effect>, fullMatch: FullMatch)
      returns (outcome: JobOutcome, newEffects: seq<Effect>)
      requires report.path == Some(path)
      modifies report, root.premisObject
      ensures JobResult(report.State(), newEffects, outcome)
        == Closing(path, RunStages(target, stages, Progress(old(report.log), old(report.success), effects, old(ObjectOf(root))), fullMatch))
    {
      var halt;
      newEffects, halt := RunStageLoop(report, target, stages, root, effects, fullMatch);
      if halt.Some? {
        return halt.value, newEffects;
      }
      report.success := Some(true);
      report.log := report.log + [LogEntry(INFO, Message(Succeeded(path)))];
      newEffects := newEffects + [SetTagManifests, Callback];
      outcome := Returned;
    }

    /** `prepare`: the report, the effects and the outcome are those of
        `Prepared`. */
    method Prepare(report: Report, request: map<string, Json>, outputPath: Option<string>, outputDir: string,
                   bagInfo: Store, sigPropFile: Option<PremisDocument>, fullMatch: FullMatch)
      returns (outcome: JobOutcome, effects: seq<Effect>)
      modifies report
      ensures JobResult(report.State(), effects, outcome)
        == Prepared(old(report.State()), request, outputPath, outputDir, bagInfo, sigPropFile, fullMatch)
    {
      var config := FromJsonMethod(request);
      if config.Err? {
        return Failed(config.error), [];
      }
      var target := config.value.target.path;
      report.log := report.log + [LogEntry(INFO, Message(PreparingFrom(target)))];
      report.path := outputPath;
      if outputPath.None? {
        report.success := Some(false);
        report.log := report.log + [LogEntry(ERROR, Message(NoOutputDirectory(outputDir)))];
        assert report.log == old(report.log) + [LogEntry(INFO, Message(PreparingFrom(target))),
                                                LogEntry(ERROR, Message(NoOutputDirectory(outputDir)))];
        return Returned, [Callback];
      }
      var path := outputPath.value;
      report.log := report.log + [LogEntry(INFO, Message(PreparingAt(path)))];
      effects := [CopyTree(target, path)];

      var doc := SigPropTree(sigPropFile);
      var root := OpenTree(doc);
      var sigMd := LoadSignificantPropertiesFromTree(root);
      var stages := [Stage(BagInfoStage, bagInfo, config.value.baginfoOperations),
                     Stage(SigPropStage, sigMd, config.value.sigPropOperations)];
      assert stages == StageList(config.value, bagInfo, doc);
      assert Progress(report.log, report.success, effects, ObjectOf(root))
        == Opening(old(report.State()), target, path, doc);
      outcome, effects := RunAndClose(report, target, path, stages, root, effects, fullMatch);
    }
  }
}
