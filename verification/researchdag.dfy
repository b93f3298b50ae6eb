/** The research-processing DAG's pure parts: validating the DAG run's
    parameters into a workflow context, and turning one configured step into
    the granular processing request the step's task posts. Errors are the
    messages of the exceptions raised. */
module ResearchDag {
  import opened Wrappers
  import opened PyValues
  import GranularOperators

  /** The parameters a run must give, in the order they are checked. */
  const RequiredFields: seq<string> := ["session_id", "input_image_path", "processing_steps"]

  /** What validation hands to the step tasks. */
  datatype WorkflowContext = WorkflowContext(
    sessionId: PyValue, inputPath: PyValue, processingChain: seq<PyValue>,
    calibrationFrames: PyValue, outputConfig: PyValue, experimentInfo: PyValue)

  /** A parameter that `params.get(field)` finds truthy. */
  predicate Present(params: map<string, PyValue>, field: string)
    ensures Present(params, field) ==> field in params
  {
    Truthy(Get(params, field, PyNone))
  }

  /** The first of `fields` that is absent or falsy. */
  function FirstMissing(params: map<string, PyValue>, fields: seq<string>): (r: Option<string>)
    ensures r.None? <==> forall i :: 0 <= i < |fields| ==> Present(params, fields[i])
    ensures r.Some? ==> exists i :: 0 <= i < |fields| && fields[i] == r.value && !Present(params, fields[i])
                                    && forall j :: 0 <= j < i ==> Present(params, fields[j])
  {
    if |fields| == 0 then None
    else if !Present(params, fields[0]) then Some(fields[0])
    else
      var rest := FirstMissing(params, fields[1..]);
      assert forall i :: 1 <= i < |fields| ==> fields[i] == fields[1..][i - 1];
      if rest.Some? then
        var i :| 0 <= i < |fields[1..]| && fields[1..][i] == rest.value && !Present(params, fields[1..][i])
                 && forall j :: 0 <= j < i ==> Present(params, fields[1..][j]);
        assert fields[i + 1] == rest.value;
        rest
      else rest
  }

  /** A step entry that names one of the four granular steps. */
  predicate WellFormedStep(step: PyValue) {
    step.PyDict? && Get(step.entries, "step", PyNone).PyStr?
    && Get(step.entries, "step", PyNone).s in GranularOperators.GranularSteps
  }

  /** The error the step loop raises at the first bad entry: an entry
      without `get` raises `AttributeError`, one whose step is not a known
      name raises with that name. */
  function StepError(step: PyValue): string
    requires !WellFormedStep(step)
  {
    if !step.PyDict? then NoAttribute(step, "get")
    else "Invalid processing step: " + Show(Get(step.entries, "step", PyNone))
  }

  /** The loop over the steps: the first bad entry's error, if any. */
  function FirstStepError(steps: seq<PyValue>): (r: Option<string>)
    ensures r.None? <==> forall i :: 0 <= i < |steps| ==> WellFormedStep(steps[i])
    ensures r.Some? ==> exists i :: 0 <= i < |steps| && !WellFormedStep(steps[i]) && r.value == StepError(steps[i])
                                    && forall j :: 0 <= j < i ==> WellFormedStep(steps[j])
  {
    if |steps| == 0 then None
    else if !WellFormedStep(steps[0]) then Some(StepError(steps[0]))
    else
      var rest := FirstStepError(steps[1..]);
      assert forall i :: 1 <= i < |steps| ==> steps[i] == steps[1..][i - 1];
      if rest.Some? then
        var i :| 0 <= i < |steps[1..]| && !WellFormedStep(steps[1..][i]) && rest.value == StepError(steps[1..][i])
                 && forall j :: 0 <= j < i ==> WellFormedStep(steps[1..][j]);
        assert steps[i + 1] == steps[1..][i];
        rest
      else rest
  }

  const NoSteps := "At least one processing step must be specified"

  function MissingMessage(field: string): string {
    "Required parameter '" + field + "' is missing"
  }

  /** `validate_workflow_config`. */
  function ValidateWorkflowConfig(params: map<string, PyValue>): (r: Result<WorkflowContext>)
    ensures r.Success? <==>
              && Present(params, "session_id") && Present(params, "input_image_path")
              && Present(params, "processing_steps") && params["processing_steps"].PyList?
              && (forall i :: 0 <= i < |params["processing_steps"].items| ==>
                    WellFormedStep(params["processing_steps"].items[i]))
    ensures !Present(params, "session_id") ==> r == Failure(MissingMessage("session_id"))
    ensures Present(params, "session_id") && !Present(params, "input_image_path") ==>
              r == Failure(MissingMessage("input_image_path"))
    ensures (Present(params, "session_id") && Present(params, "input_image_path")
             && !Present(params, "processing_steps")) ==> r == Failure(MissingMessage("processing_steps"))
    ensures (Present(params, "session_id") && Present(params, "input_image_path")
             && Present(params, "processing_steps") && !params["processing_steps"].PyList?) ==> r == Failure(NoSteps)
    ensures (Present(params, "session_id") && Present(params, "input_image_path")
             && Present(params, "processing_steps") && params["processing_steps"].PyList?
             && FirstStepError(params["processing_steps"].items).Some?) ==>
              r == Failure(FirstStepError(params["processing_steps"].items).value)
    ensures r.Success? ==>
              && r.value.sessionId == params["session_id"] && Truthy(r.value.sessionId)
              && r.value.inputPath == params["input_image_path"] && Truthy(r.value.inputPath)
              && PyList(r.value.processingChain) == params["processing_steps"]
              && |r.value.processingChain| > 0
              && r.value.calibrationFrames == Get(params, "calibration_frames", PyDict(map[]))
              && r.value.outputConfig == Get(params, "output_configuration", PyDict(map[]))
              && r.value.experimentInfo == Get(params, "experiment_config", PyDict(map[]))
  {
    var missing := FirstMissing(params, RequiredFields);
    assert RequiredFields[0] == "session_id" && RequiredFields[1] == "input_image_path"
           && RequiredFields[2] == "processing_steps";
    if missing.Some? then Failure(MissingMessage(missing.value))
    else
      assert Present(params, RequiredFields[0]) && Present(params, RequiredFields[1])
             && Present(params, RequiredFields[2]);
      var steps := params["processing_steps"];
      if !steps.PyList? || |steps.items| == 0 then Failure(NoSteps)
      else
        var bad := FirstStepError(steps.items);
        if bad.Some? then Failure(bad.value)
        else
          Success(WorkflowContext(
            params["session_id"], params["input_image_path"], steps.items,
            Get(params, "calibration_frames", PyDict(map[])),
            Get(params, "output_configuration", PyDict(map[])),
            Get(params, "experiment_config", PyDict(map[]))))
  }

  // ---------------------------------------------------------------------
  // Processing requests

  /** `calibration_mapping.get(step_type)`: the calibration frame a step
      reads, which cosmic-ray removal and any unknown step lack. */
  function CalibrationKey(step: PyValue): (key: Option<string>)
    ensures key.Some? ==> step.PyStr? && step.s in GranularOperators.GranularSteps - {"cosmic-ray-remove"}
    ensures step.PyStr? && step.s in GranularOperators.GranularSteps - {"cosmic-ray-remove"} ==> key.Some?
  {
    if step == PyStr("bias-subtract") then Some("bias_frame")
    else if step == PyStr("dark-subtract") then Some("dark_frame")
    else if step == PyStr("flat-correct") then Some("flat_frame")
    else None
  }

  /** The frame path a request carries, if any: the mapped frame when the
      calibration frames hold a truthy value under it. */
  function CalibrationFrame(step: PyValue, calibrationFrames: map<string, PyValue>): Option<PyValue> {
    var key := CalibrationKey(step);
    if key.Some? && Truthy(Get(calibrationFrames, key.value, PyNone)) then Some(calibrationFrames[key.value])
    else None
  }

  /** What `create_processing_request` writes under one key. */
  function RequestEntry(step: PyValue, stepConfig: map<string, PyValue>, sessionId: string, currentImagePath: string,
                        calibrationFrames: map<string, PyValue>, outputConfig: map<string, PyValue>,
                        k: GranularOperators.Field): Option<PyValue>
  {
    match k
    case ImagePath => Some(PyStr(currentImagePath))
    case SessionId => Some(PyStr(sessionId))
    case Algorithm => Some(Get(stepConfig, "algorithm", PyStr("default")))
    case Parameters => Some(Get(stepConfig, "parameters", PyDict(map[])))
    case OutputBucket => Some(Get(outputConfig, "intermediate_bucket", PyNone))
    case OutputPath => Some(Get(outputConfig, "custom_path", PyNone))
    case PreserveMetadata => Some(Get(outputConfig, "preserve_metadata", PyBool(true)))
    case EnableMetrics => Some(Get(outputConfig, "enable_metrics", PyBool(true)))
    case CalibrationPath => CalibrationFrame(step, calibrationFrames)
    case _ => None
  }

  /** `create_processing_request`. A step entry without "step" raises
      `KeyError`; a list or dict as the step cannot be looked up in the
      calibration mapping and raises `TypeError`. */
  function CreateProcessingRequest(stepConfig: map<string, PyValue>, sessionId: string, currentImagePath: string,
                                   calibrationFrames: map<string, PyValue>, outputConfig: map<string, PyValue>)
    : (r: Result<GranularOperators.Payload>)
    ensures r.Failure? <==> "step" !in stepConfig || stepConfig["step"].PyList? || stepConfig["step"].PyDict?
    ensures "step" !in stepConfig ==> r == Failure("'step'")
    ensures "step" in stepConfig && (stepConfig["step"].PyList? || stepConfig["step"].PyDict?) ==>
              r == Failure("unhashable type: '" + TypeName(stepConfig["step"]) + "'")
    ensures r.Success? ==> forall k :: k in r.value <==>
              RequestEntry(stepConfig["step"], stepConfig, sessionId, currentImagePath,
                           calibrationFrames, outputConfig, k).Some?
    ensures r.Success? ==> forall k :: k in r.value ==>
              Some(r.value[k]) == RequestEntry(stepConfig["step"], stepConfig, sessionId, currentImagePath,
                                               calibrationFrames, outputConfig, k)
  {
    if "step" !in stepConfig then Failure("'step'")
    else
      var step := stepConfig["step"];
      if step.PyList? || step.PyDict? then Failure("unhashable type: '" + TypeName(step) + "'")
      else
        Success(map k | k in GranularOperators.AllFields
                        && RequestEntry(step, stepConfig, sessionId, currentImagePath,
                                        calibrationFrames, outputConfig, k).Some?
                      :: RequestEntry(step, stepConfig, sessionId, currentImagePath,
                                      calibrationFrames, outputConfig, k).value)
  }

  /** The eight keys every request carries, with the documented defaults
      for the algorithm, the parameters and the two flags. */
  lemma RequestDefaults(stepConfig: map<string, PyValue>, sessionId: string, currentImagePath: string,
                        calibrationFrames: map<string, PyValue>, outputConfig: map<string, PyValue>)
    requires CreateProcessingRequest(stepConfig, sessionId, currentImagePath, calibrationFrames, outputConfig).Success?
    ensures var p := CreateProcessingRequest(stepConfig, sessionId, currentImagePath, calibrationFrames, outputConfig).value;
            && GranularOperators.ImagePath in p && p[GranularOperators.ImagePath] == PyStr(currentImagePath)
            && GranularOperators.SessionId in p && p[GranularOperators.SessionId] == PyStr(sessionId)
            && GranularOperators.OutputBucket in p && GranularOperators.OutputPath in p
            && GranularOperators.Algorithm in p
            && ("algorithm" !in stepConfig ==> p[GranularOperators.Algorithm] == PyStr("default"))
            && GranularOperators.Parameters in p
            && ("parameters" !in stepConfig ==> p[GranularOperators.Parameters] == PyDict(map[]))
            && GranularOperators.PreserveMetadata in p
            && ("preserve_metadata" !in outputConfig ==> p[GranularOperators.PreserveMetadata] == PyBool(true))
            && GranularOperators.EnableMetrics in p
            && ("enable_metrics" !in outputConfig ==> p[GranularOperators.EnableMetrics] == PyBool(true))
  {
  }

  /** A request carries a calibration path exactly when its step reads a
      calibration frame and that frame is given; cosmic-ray removal never
      gets one. Nothing outside the nine request keys is ever sent. */
  lemma RequestCalibrationPath(stepConfig: map<string, PyValue>, sessionId: string, currentImagePath: string,
                               calibrationFrames: map<string, PyValue>, outputConfig: map<string, PyValue>)
    requires CreateProcessingRequest(stepConfig, sessionId, currentImagePath, calibrationFrames, outputConfig).Success?
    ensures var p := CreateProcessingRequest(stepConfig, sessionId, currentImagePath, calibrationFrames, outputConfig).value;
            var step := stepConfig["step"];
            && (GranularOperators.CalibrationPath in p <==>
                  step.PyStr? && step.s in {"bias-subtract", "dark-subtract", "flat-correct"}
                  && Truthy(Get(calibrationFrames, CalibrationKey(step).value, PyNone)))
            && (step == PyStr("cosmic-ray-remove") ==> GranularOperators.CalibrationPath !in p)
            && (GranularOperators.CalibrationPath in p ==>
                  p[GranularOperators.CalibrationPath] == calibrationFrames[CalibrationKey(step).value])
  {
    var p := CreateProcessingRequest(stepConfig, sessionId, currentImagePath, calibrationFrames, outputConfig).value;
    assert GranularOperators.CalibrationPath in p <==>
             RequestEntry(stepConfig["step"], stepConfig, sessionId, currentImagePath, calibrationFrames,
                          outputConfig, GranularOperators.CalibrationPath).Some?;
  }

  /** Every step of a validated chain makes a request, and each names a
      step that has a workflow behind it. */
  lemma ValidatedStepsMakeRequests(params: map<string, PyValue>, i: int, sessionId: string, currentImagePath: string,
                                   calibrationFrames: map<string, PyValue>, outputConfig: map<string, PyValue>)
    requires ValidateWorkflowConfig(params).Success?
    requires 0 <= i < |ValidateWorkflowConfig(params).value.processingChain|
    ensures var step := ValidateWorkflowConfig(params).value.processingChain[i];
            && step.PyDict?
            && CreateProcessingRequest(step.entries, sessionId, currentImagePath, calibrationFrames, outputConfig).Success?
            && GranularOperators.StepToWorkflow(step.entries["step"].s).Some?
  {
    var step := ValidateWorkflowConfig(params).value.processingChain[i];
    assert WellFormedStep(step);
  }
}
