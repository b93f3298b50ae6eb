/** The granular-processing Airflow operators: the request payload an
    operator sends, the parameter defaults each step's operator merges in,
    the step, workflow and endpoint name mappings, and the operations of the
    intermediate-results operator. HTTP calls and XCom pushes are left
    out; the operator's constructor arguments are its fields. */
module GranularOperators {
  import opened Wrappers
  import opened PyValues

  /** The attributes of a `GranularProcessingOperator` the payload reads. */
  datatype GranularOperator = GranularOperator(
    imagePath: string, sessionId: string, algorithm: string, parameters: map<string, PyValue>,
    calibrationPath: Option<string>, outputBucket: Option<string>, outputPath: Option<string>,
    preserveMetadata: bool, enableMetrics: bool, processingId: Option<string>, processingType: string,
    experimentName: Option<string>, researcherId: Option<string>, researcherEmail: Option<string>,
    projectId: Option<string>, observationId: Option<string>, instrumentId: Option<string>,
    workflowName: Option<string>, workflowVersion: Option<string>)

  /** The keys of a processing request, with the JSON names they are sent
      under. */
  datatype Field =
    | ImagePath | SessionId | Algorithm | Parameters | PreserveMetadata | EnableMetrics | ProcessingType
    | CalibrationPath | OutputBucket | OutputPath | ProcessingId
    | ExperimentContextKey | ProductionContextKey | WorkflowName | WorkflowVersion
  {
    function JsonName(): string {
      match this
      case ImagePath => "imagePath"
      case SessionId => "sessionId"
      case Algorithm => "algorithm"
      case Parameters => "parameters"
      case PreserveMetadata => "preserveMetadata"
      case EnableMetrics => "enableMetrics"
      case ProcessingType => "processingType"
      case CalibrationPath => "calibrationPath"
      case OutputBucket => "outputBucket"
      case OutputPath => "outputPath"
      case ProcessingId => "processingId"
      case ExperimentContextKey => "experimentContext"
      case ProductionContextKey => "productionContext"
      case WorkflowName => "workflowName"
      case WorkflowVersion => "workflowVersion"
    }
  }

  type Payload = map<Field, PyValue>

  const AllFields: set<Field> :=
    {ImagePath, SessionId, Algorithm, Parameters, PreserveMetadata, EnableMetrics, ProcessingType,
     CalibrationPath, OutputBucket, OutputPath, ProcessingId,
     ExperimentContextKey, ProductionContextKey, WorkflowName, WorkflowVersion}

  /** A dict entry `key: value` when the optional value is truthy. */
  function AddEntryIfGiven(d: map<string, PyValue>, key: string, value: Option<string>): (r: map<string, PyValue>)
    ensures r.Keys == if Given(value) then d.Keys + {key} else d.Keys
  {
    if Given(value) then d[key := PyStr(value.value)] else d
  }

  /** The research context of an experimental run: each field present
      exactly when it is truthy. */
  function ExperimentContext(op: GranularOperator): (ctx: map<string, PyValue>)
    ensures ("experimentName" in ctx <==> Given(op.experimentName))
            && ("researcherId" in ctx <==> Given(op.researcherId))
            && ("researcherEmail" in ctx <==> Given(op.researcherEmail))
            && ("projectId" in ctx <==> Given(op.projectId))
    ensures ctx.Keys <= {"experimentName", "researcherId", "researcherEmail", "projectId"}
  {
    var c := AddEntryIfGiven(map[], "experimentName", op.experimentName);
    var c := AddEntryIfGiven(c, "researcherId", op.researcherId);
    var c := AddEntryIfGiven(c, "researcherEmail", op.researcherEmail);
    AddEntryIfGiven(c, "projectId", op.projectId)
  }

  /** The observation context of a production run. */
  function ProductionContext(op: GranularOperator): (ctx: map<string, PyValue>)
    ensures ("observationId" in ctx <==> Given(op.observationId))
            && ("instrumentId" in ctx <==> Given(op.instrumentId))
    ensures ctx.Keys <= {"observationId", "instrumentId"}
  {
    var c := AddEntryIfGiven(map[], "observationId", op.observationId);
    AddEntryIfGiven(c, "instrumentId", op.instrumentId)
  }

  /** A truthy optional string as a payload value. */
  function IfGiven(value: Option<string>): Option<PyValue> {
    if Given(value) then Some(PyStr(value.value)) else None
  }

  /** What `_build_request_payload` writes under one key, if anything: the
      seven base keys always; the optional paths and identifiers when
      truthy; the context that the processing type calls for when it has a
      field; the workflow name and version only as a pair. */
  function Entry(op: GranularOperator, k: Field): Option<PyValue> {
    match k
    case ImagePath => Some(PyStr(op.imagePath))
    case SessionId => Some(PyStr(op.sessionId))
    case Algorithm => Some(PyStr(op.algorithm))
    case Parameters => Some(PyDict(op.parameters))
    case PreserveMetadata => Some(PyBool(op.preserveMetadata))
    case EnableMetrics => Some(PyBool(op.enableMetrics))
    case ProcessingType => Some(PyStr(op.processingType))
    case CalibrationPath => IfGiven(op.calibrationPath)
    case OutputBucket => IfGiven(op.outputBucket)
    case OutputPath => IfGiven(op.outputPath)
    case ProcessingId => IfGiven(op.processingId)
    case ExperimentContextKey =>
      if op.processingType == "experimental" && |ExperimentContext(op)| > 0
      then Some(PyDict(ExperimentContext(op))) else None
    case ProductionContextKey =>
      if op.processingType == "production" && |ProductionContext(op)| > 0
      then Some(PyDict(ProductionContext(op))) else None
    case WorkflowName =>
      if Given(op.workflowName) && Given(op.workflowVersion) then IfGiven(op.workflowName) else None
    case WorkflowVersion =>
      if Given(op.workflowName) && Given(op.workflowVersion) then IfGiven(op.workflowVersion) else None
  }

  /** `_build_request_payload`: a dict holding exactly the keys that have
      an entry. */
  function BuildRequestPayload(op: GranularOperator): (p: Payload)
    ensures forall k :: k in p <==> Entry(op, k).Some?
    ensures forall k :: k in p ==> Some(p[k]) == Entry(op, k)
  {
    map k | k in AllFields && Entry(op, k).Some? :: Entry(op, k).value
  }

  /** The seven base keys carry the operator's attributes unchanged. */
  lemma PayloadBaseFields(op: GranularOperator)
    ensures var p := BuildRequestPayload(op);
            && ImagePath in p && SessionId in p && Algorithm in p && Parameters in p
            && PreserveMetadata in p && EnableMetrics in p && ProcessingType in p
            && p[ImagePath] == PyStr(op.imagePath) && p[SessionId] == PyStr(op.sessionId)
            && p[Algorithm] == PyStr(op.algorithm) && p[Parameters] == PyDict(op.parameters)
            && p[PreserveMetadata] == PyBool(op.preserveMetadata)
            && p[EnableMetrics] == PyBool(op.enableMetrics)
            && p[ProcessingType] == PyStr(op.processingType)
  {
  }

  /** Each optional path or identifier is sent exactly when it is truthy,
      with its value. */
  lemma PayloadOptionalFields(op: GranularOperator)
    ensures var p := BuildRequestPayload(op);
            && (CalibrationPath in p <==> Given(op.calibrationPath))
            && (OutputBucket in p <==> Given(op.outputBucket))
            && (OutputPath in p <==> Given(op.outputPath))
            && (ProcessingId in p <==> Given(op.processingId))
            && (CalibrationPath in p ==> p[CalibrationPath] == PyStr(op.calibrationPath.value))
            && (ProcessingId in p ==> p[ProcessingId] == PyStr(op.processingId.value))
  {
  }

  /** The experiment context is sent for an experimental run with some
      context field, and never otherwise. */
  lemma PayloadExperimentContext(op: GranularOperator)
    ensures var p := BuildRequestPayload(op);
            && (ExperimentContextKey in p <==> op.processingType == "experimental" && |ExperimentContext(op)| > 0)
            && (ExperimentContextKey in p ==> p[ExperimentContextKey] == PyDict(ExperimentContext(op)))
  {
    assert ExperimentContextKey in BuildRequestPayload(op) <==> Entry(op, ExperimentContextKey).Some?;
  }

  /** The production context is sent for a production run with some
      context field, and never otherwise. */
  lemma PayloadProductionContext(op: GranularOperator)
    ensures var p := BuildRequestPayload(op);
            && (ProductionContextKey in p <==> op.processingType == "production" && |ProductionContext(op)| > 0)
            && (ProductionContextKey in p ==> p[ProductionContextKey] == PyDict(ProductionContext(op)))
  {
    assert ProductionContextKey in BuildRequestPayload(op) <==> Entry(op, ProductionContextKey).Some?;
  }

  /** The workflow name and version are sent together or not at all. */
  lemma PayloadWorkflowPair(op: GranularOperator)
    ensures var p := BuildRequestPayload(op);
            && (WorkflowName in p <==> Given(op.workflowName) && Given(op.workflowVersion))
            && (WorkflowVersion in p <==> WorkflowName in p)
            && (WorkflowName in p ==> p[WorkflowName] == PyStr(op.workflowName.value)
                                      && p[WorkflowVersion] == PyStr(op.workflowVersion.value))
  {
  }

  /** A payload carries at most one of the two processing contexts, and
      none for a processing type other than experimental or production. */
  lemma ContextsExclusive(op: GranularOperator)
    ensures !(ExperimentContextKey in BuildRequestPayload(op) && ProductionContextKey in BuildRequestPayload(op))
    ensures op.processingType != "experimental" && op.processingType != "production" ==>
              ExperimentContextKey !in BuildRequestPayload(op) && ProductionContextKey !in BuildRequestPayload(op)
  {
  }

  /** An experimental payload has an experiment context exactly when at
      least one of its four fields is given. */
  lemma ExperimentContextPresence(op: GranularOperator)
    requires op.processingType == "experimental"
    ensures ExperimentContextKey in BuildRequestPayload(op) <==>
              Given(op.experimentName) || Given(op.researcherId) || Given(op.researcherEmail) || Given(op.projectId)
  {
    var ctx := ExperimentContext(op);
    if Given(op.experimentName) { assert "experimentName" in ctx; }
    if Given(op.researcherId) { assert "researcherId" in ctx; }
    if Given(op.researcherEmail) { assert "researcherEmail" in ctx; }
    if Given(op.projectId) { assert "projectId" in ctx; }
    if |ctx| > 0 {
      var k :| k in ctx;
    }
  }

  // ---------------------------------------------------------------------
  // Parameter defaults of the step operators

  /** The step-specific constructor arguments of the four step operators,
      which the operator writes into its parameters. */
  datatype StepOptions =
    | BiasOptions(overscanCorrection: bool, fitMethod: string)
    | DarkOptions(autoScale: bool, temperatureCorrection: bool)
    | FlatOptions(normalizationMethod: string, illuminationModel: string, maskStars: bool)
    | CosmicRayOptions(sigclip: real, starPreservation: bool, niter: int)

  /** The constructors' default arguments. */
  const DefaultBiasOptions: StepOptions := BiasOptions(true, "median")
  const DefaultDarkOptions: StepOptions := DarkOptions(true, false)
  const DefaultFlatOptions: StepOptions := FlatOptions("median", "polynomial", true)
  const DefaultCosmicRayOptions: StepOptions := CosmicRayOptions(4.5, true, 4)

  /** The dict each step operator passes to `parameters.update`. */
  function StepParameters(options: StepOptions): (d: map<string, PyValue>)
    ensures |d| >= 2
  {
    match options
    case BiasOptions(overscan, fit) =>
      var d := map["overscanCorrection" := PyBool(overscan), "fitMethod" := PyStr(fit)];
      assert d.Keys == {"overscanCorrection", "fitMethod"};
      d
    case DarkOptions(autoScale, temperature) =>
      var d := map["autoScale" := PyBool(autoScale), "temperatureCorrection" := PyBool(temperature)];
      assert d.Keys == {"autoScale", "temperatureCorrection"};
      d
    case FlatOptions(normalization, illumination, mask) =>
      var d := map["normalizationMethod" := PyStr(normalization), "illuminationModel" := PyStr(illumination),
                   "maskStars" := PyBool(mask)];
      assert d.Keys == {"normalizationMethod", "illuminationModel", "maskStars"};
      d
    case CosmicRayOptions(sigclip, preservation, niter) =>
      var d := map["sigclip" := PyFloat(sigclip), "starPreservation" := PyBool(preservation), "niter" := PyInt(niter)];
      assert d.Keys == {"sigclip", "starPreservation", "niter"};
      d
  }

  /** The parameters a step operator ends up with. `given` is the
      `parameters` keyword argument, `None` when it was not passed; a
      missing one starts as an empty dict. The step's own values overwrite
      user parameters of the same name. A value without `update` (an
      explicit `None`, say) raises `AttributeError`. */
  function OperatorParameters(given: Option<PyValue>, options: StepOptions): (r: Result<map<string, PyValue>>)
    ensures r.Failure? <==> given.Some? && !given.value.PyDict?
    ensures r.Failure? ==> r.error == NoAttribute(given.value, "update")
    ensures r.Success? ==>
              var user := if given.Some? then given.value.entries else map[];
              && r.value.Keys == user.Keys + StepParameters(options).Keys
              && (forall k :: k in StepParameters(options) ==> r.value[k] == StepParameters(options)[k])
              && (forall k :: k in user && k !in StepParameters(options) ==> r.value[k] == user[k])
  {
    match given
    case None => Success(StepParameters(options))
    case Some(PyDict(user)) => Success(user + StepParameters(options))
    case Some(v) => Failure(NoAttribute(v, "update"))
  }

  /** The base constructor's `parameters or {}` changes nothing after a
      step operator's update: the merged dict is never empty. */
  lemma MergedParametersTruthy(given: Option<PyValue>, options: StepOptions)
    requires OperatorParameters(given, options).Success?
    ensures Truthy(PyDict(OperatorParameters(given, options).value))
  {
    var d := StepParameters(options);
    var r := OperatorParameters(given, options).value;
    assert d.Keys <= r.Keys;
    assert |d.Keys| <= |r.Keys| by {
      SubsetCardinality(d.Keys, r.Keys);
    }
  }

  lemma {:induction false} SubsetCardinality(a: set<string>, b: set<string>)
    requires a <= b
    ensures |a| <= |b|
    decreases |a|
  {
    if a != {} {
      var x :| x in a;
      SubsetCardinality(a - {x}, b - {x});
    }
  }

  // ---------------------------------------------------------------------
  // Step, workflow and endpoint names

  const GranularSteps: set<string> := {"bias-subtract", "dark-subtract", "flat-correct", "cosmic-ray-remove"}
  const WorkflowNames: set<string> :=
    {"bias-subtraction", "dark-subtraction", "flat-field-correction", "cosmic-ray-removal"}

  /** `_map_step_to_workflow`: a step endpoint's workflow name. */
  function StepToWorkflow(step: string): (w: Option<string>)
    ensures w.Some? <==> step in GranularSteps
    ensures w.Some? ==> w.value in WorkflowNames && WorkflowEndpoint(w.value) == step
  {
    if step == "bias-subtract" then Some("bias-subtraction")
    else if step == "dark-subtract" then Some("dark-subtraction")
    else if step == "flat-correct" then Some("flat-field-correction")
    else if step == "cosmic-ray-remove" then Some("cosmic-ray-removal")
    else None
  }

  /** `_get_processing_endpoint`: a workflow type's endpoint, with
      "process" for any other type. */
  function WorkflowEndpoint(workflowType: string): (e: string)
    ensures workflowType in WorkflowNames <==> e in GranularSteps
    ensures workflowType !in WorkflowNames ==> e == "process"
  {
    if workflowType == "bias-subtraction" then "bias-subtract"
    else if workflowType == "dark-subtraction" then "dark-subtract"
    else if workflowType == "flat-field-correction" then "flat-correct"
    else if workflowType == "cosmic-ray-removal" then "cosmic-ray-remove"
    else "process"
  }

  /** The two mappings are inverse bijections between the four step
      endpoints and the four workflow names. */
  lemma WorkflowStepRoundTrip(workflowType: string)
    requires workflowType in WorkflowNames
    ensures StepToWorkflow(WorkflowEndpoint(workflowType)) == Some(workflowType)
  {
  }

  // ---------------------------------------------------------------------
  // Intermediate results

  /** What the intermediate-results operator does: request the session's
      file listing, or report a simulated cleanup. */
  datatype IntermediateOutcome =
    | ListRequest(url: string)
    | CleanupSummary(sessionId: string, filesCleaned: int, finalResultPreserved: bool, cleanupCompleted: bool)

  /** `IntermediateResultsOperator.execute`: "list" and "cleanup" are the
      only operations; "move", which the constructor's comment offers, and
      any other raise. */
  function IntermediateResults(operation: string, sessionId: string, keepFinalResult: bool, baseUrl: string)
    : (r: Result<IntermediateOutcome>)
    ensures r.Success? <==> operation == "list" || operation == "cleanup"
    ensures r.Failure? ==> r.error == "Unsupported operation: " + operation
    ensures operation == "list" ==>
              r == Success(ListRequest(baseUrl + "/api/v1/processing/intermediate/" + sessionId + "/results"))
    ensures operation == "cleanup" ==> r == Success(CleanupSummary(sessionId, 0, keepFinalResult, true))
  {
    if operation == "list" then
      Success(ListRequest(baseUrl + "/api/v1/processing/intermediate/" + sessionId + "/results"))
    else if operation == "cleanup" then
      Success(CleanupSummary(sessionId, 0, keepFinalResult, true))
    else
      Failure("Unsupported operation: " + operation)
  }
}
