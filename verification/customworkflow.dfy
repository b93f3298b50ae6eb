/** Granular processing steps and the custom workflow that chains them.

    A step reads its input image (and, except for cosmic-ray removal, an
    optional calibration frame), runs one calibration routine, and stores
    the result as an intermediate file. A workflow runs its steps in order,
    feeding each successful step's output to the next step, records one
    result per attempted step, and stops at the first failure of a required
    step.

    The image routines themselves are the parameter `process`; the way an
    input location is read is the parameter `read`, so that the workflow
    can be stated both with `downloadFile`, as the code is written, and
    with the reading of "bucket/key" locations the storage layer produces.
    Clock readings are parameters. */
module CustomWorkflow {
  import opened Wrappers
  import opened JavaText
  import opened S3Storage
  import opened IntermediateStorage
  import ProcessingContexts

  datatype StepKind = BiasSubtraction | DarkSubtraction | FlatCorrection | CosmicRayRemoval {
    function Id(): string {
      match this
      case BiasSubtraction => "bias-subtraction"
      case DarkSubtraction => "dark-subtraction"
      case FlatCorrection => "flat-correction"
      case CosmicRayRemoval => "cosmic-ray-removal"
    }

    /** The algorithm reported when the request names none. */
    function DefaultAlgorithm(): string {
      if this == CosmicRayRemoval then "lacosmic" else "default"
    }

    function NextSteps(): seq<string> {
      match this
      case BiasSubtraction => ["dark-subtraction", "flat-correction"]
      case DarkSubtraction => ["flat-correction", "cosmic-ray-removal"]
      case FlatCorrection => ["cosmic-ray-removal", "bias-subtraction"]
      case CosmicRayRemoval => ["bias-subtraction", "stacking"]
    }

    /** Cosmic-ray removal works on the image alone. */
    predicate UsesCalibration() {
      this != CosmicRayRemoval
    }
  }

  /** The step dispatch of `executeWorkflowStep`: the step type lower-cased
      names one of the four steps, or none. */
  function KindOf(stepType: string): (k: Option<StepKind>)
    ensures k.Some? ==> ToLower(stepType) == k.value.Id()
    ensures k.None? ==> forall kind: StepKind :: ToLower(stepType) != kind.Id()
  {
    var t := ToLower(stepType);
    if t == "bias-subtraction" then Some(BiasSubtraction)
    else if t == "dark-subtraction" then Some(DarkSubtraction)
    else if t == "flat-correction" then Some(FlatCorrection)
    else if t == "cosmic-ray-removal" then Some(CosmicRayRemoval)
    else None
  }

  /** Dispatch ignores letter case, and each step's own name selects it. */
  lemma KindOfIgnoresCase(stepType: string, kind: StepKind)
    ensures KindOf(ToLower(stepType)) == KindOf(stepType)
    ensures KindOf(kind.Id()) == Some(kind)
    ensures KindOf(ToUpper(kind.Id())) == Some(kind)
  {
    ToLowerIdempotent(stepType);
    var id := kind.Id();
    assert ToLower(id) == id;
    assert ToLower(ToUpper(id)) == id;
  }

  // ---------------------------------------------------------------------
  // One granular step

  datatype StepStatus = Succeeded | Failed | Skipped {
    function Name(): string {
      match this
      case Succeeded => "SUCCESS"
      case Failed => "FAILED"
      case Skipped => "SKIPPED"
    }
  }

  datatype GranularRequest = GranularRequest(
    imagePath: string,
    calibrationPath: Option<string>,
    sessionId: string,
    algorithm: Option<string>,
    outputBucket: Option<string>,
    outputPath: Option<string>)

  datatype GranularResponse = GranularResponse(
    status: StepStatus,
    outputPath: Option<string>,
    sessionId: string,
    stepId: string,
    algorithm: Option<string>,
    errorMessage: Option<string>,
    nextSteps: seq<string>)

  type Reader = (S3, string) -> Result<Data>
  /** A step routine: image and calibration frame in, processed image out.
      The algorithm name and the parameters the routines also receive are
      not part of this model. */
  type Processor = (StepKind, Data, Option<Data>) -> Result<Data>

  /** The calibration frame a step reads: none for cosmic-ray removal or
      without a path. */
  function ReadCalibration(s3: S3, read: Reader, kind: StepKind, req: GranularRequest): Result<Option<Data>> {
    if kind.UsesCalibration() && req.calibrationPath.Some? then
      var frame :- read(s3, req.calibrationPath.value);
      Success(Some(frame))
    else Success(None)
  }

  /** The data a step writes: its routine applied to its input image and
      calibration frame. */
  function Processed(s3: S3, read: Reader, process: Processor, kind: StepKind, req: GranularRequest): Result<Data> {
    var image :- read(s3, req.imagePath);
    var frame :- ReadCalibration(s3, read, kind, req);
    process(kind, image, frame)
  }

  /** The work inside a step's try block: read, process, store. */
  function Attempt(s3: S3, read: Reader, process: Processor, kind: StepKind, req: GranularRequest, timestamp: string)
    : Result<(S3, string)>
  {
    var data :- Processed(s3, read, process, kind, req);
    StoreIntermediateResult(s3, req.sessionId, kind.Id(), Some(req.imagePath), data, req.outputBucket,
                            req.outputPath, timestamp)
  }

  /** `applyBiasSubtraction`, `applyDarkSubtraction`,
      `applyFlatFieldCorrection` and `removeCosmicRays`: a step never
      throws. It succeeds with the stored location and the algorithm used,
      or fails with the message of whatever went wrong, leaving the store
      as it was. */
  function RunStep(s3: S3, read: Reader, process: Processor, kind: StepKind, req: GranularRequest, timestamp: string)
    : (r: (GranularResponse, S3))
    ensures r.0.stepId == kind.Id() && r.0.sessionId == req.sessionId
    ensures r.0.status == Succeeded || r.0.status == Failed
    ensures r.0.status == Succeeded <==> Attempt(s3, read, process, kind, req, timestamp).Success?
    ensures r.0.status == Succeeded ==>
      r.0.outputPath == Some(Attempt(s3, read, process, kind, req, timestamp).value.1) &&
      r.1 == Attempt(s3, read, process, kind, req, timestamp).value.0 &&
      r.0.algorithm == Some(req.algorithm.GetOr(kind.DefaultAlgorithm())) && r.0.errorMessage.None?
    ensures r.0.status == Failed ==>
      r.0.errorMessage == Some(Attempt(s3, read, process, kind, req, timestamp).error) &&
      r.0.outputPath.None? && r.0.algorithm == req.algorithm && r.1 == s3
  {
    match Attempt(s3, read, process, kind, req, timestamp)
    case Success((stored, path)) =>
      (GranularResponse(Succeeded, Some(path), req.sessionId, kind.Id(),
                        Some(req.algorithm.GetOr(kind.DefaultAlgorithm())), None, kind.NextSteps()), stored)
    case Failure(msg) =>
      (GranularResponse(Failed, None, req.sessionId, kind.Id(), req.algorithm, Some(msg), []), s3)
  }

  /** A successful step leaves its processed data at the location it
      reports: the location is "bucket/key" in the requested or default
      intermediate bucket. */
  lemma StepStoresAtLocation(s3: S3, read: Reader, process: Processor, kind: StepKind, req: GranularRequest,
                             timestamp: string)
    requires RunStep(s3, read, process, kind, req, timestamp).0.status == Succeeded
    ensures var (resp, stored) := RunStep(s3, read, process, kind, req, timestamp);
      var bucket := req.outputBucket.GetOr(DefaultIntermediateBucket);
      var key := BuildIntermediateKey(req.sessionId, kind.Id(), Some(req.imagePath), req.outputPath, timestamp);
      key.Success? && resp.outputPath == Some(Location(bucket, key.value)) &&
      stored.objects == s3.objects[(bucket, key.value) := Processed(s3, read, process, kind, req).value] &&
      stored.failing == s3.failing
  {
  }

  /** `executeWorkflowStep`: an unknown step type throws. */
  function ExecuteWorkflowStep(s3: S3, read: Reader, process: Processor, stepType: string, req: GranularRequest,
                               timestamp: string): (r: Result<(GranularResponse, S3)>)
    ensures r.Failure? <==> KindOf(stepType).None?
    ensures r.Failure? ==> r.error == "Unknown step type: " + stepType
    ensures r.Success? ==> r.value == RunStep(s3, read, process, KindOf(stepType).value, req, timestamp)
  {
    match KindOf(stepType)
    case None => Failure("Unknown step type: " + stepType)
    case Some(kind) => Success(RunStep(s3, read, process, kind, req, timestamp))
  }

  // ---------------------------------------------------------------------
  // The custom workflow

  datatype WorkflowStep = WorkflowStep(stepType: string, algorithm: Option<string>, calibrationPath: Option<string>,
                                       optional: bool)

  datatype WorkflowRequest = WorkflowRequest(
    imagePath: string,
    sessionId: string,
    steps: seq<WorkflowStep>,
    finalOutputBucket: Option<string>,
    finalOutputPath: Option<string>,
    cleanupIntermediates: bool)

  datatype StepResult = StepResult(stepType: string, status: StepStatus, algorithm: Option<string>,
                                   outputPath: Option<string>, errorMessage: Option<string>)

  /** `buildStepOutputPath`: a numbered directory under the final output
      path, or under workflow/{session}. */
  function StepOutputPath(request: WorkflowRequest, index: nat): (p: string)
    ensures EndsWith(p, "/")
  {
    var n := Decimal(index + 1);
    if request.finalOutputPath.Some? then request.finalOutputPath.value + "/step-" + n + "/"
    else "workflow/" + request.sessionId + "/step-" + n + "/"
  }

  /** Different steps of one workflow write under different directories. */
  lemma StepOutputPathsDiffer(request: WorkflowRequest, i: nat, j: nat)
    requires i != j
    ensures StepOutputPath(request, i) != StepOutputPath(request, j)
  {
    var base := if request.finalOutputPath.Some? then request.finalOutputPath.value else "workflow/" + request.sessionId;
    var a, b := Decimal(i + 1), Decimal(j + 1);
    if StepOutputPath(request, i) == StepOutputPath(request, j) {
      assert base + "/step-" + a + "/" == base + "/step-" + b + "/";
      assert |a| == |b|;
      assert a == (base + "/step-" + a + "/")[|base| + 6..|base| + 6 + |a|];
      assert b == (base + "/step-" + b + "/")[|base| + 6..|base| + 6 + |b|];
      DecimalInjective(i + 1, j + 1);
    }
  }

  /** The request a workflow builds for step `index` reading `input`. */
  function StepRequest(request: WorkflowRequest, index: nat, input: string): GranularRequest
    requires index < |request.steps|
  {
    var step := request.steps[index];
    GranularRequest(input, step.calibrationPath, request.sessionId, step.algorithm, request.finalOutputBucket,
                    Some(StepOutputPath(request, index)))
  }

  /** The input the next step reads: the output of the latest successful
      step, or the workflow's image when no step has succeeded yet. */
  function LastOutput(results: seq<StepResult>, image: string): string {
    if |results| == 0 then image
    else
      var last := results[|results| - 1];
      if last.status == Succeeded && last.outputPath.Some? then last.outputPath.value
      else LastOutput(results[..|results| - 1], image)
  }

  /** The output locations of the successful steps, in order. */
  function Outputs(results: seq<StepResult>): seq<string> {
    if |results| == 0 then []
    else
      var last := results[|results| - 1];
      Outputs(results[..|results| - 1]) + (if last.status == Succeeded && last.outputPath.Some? then [last.outputPath.value] else [])
  }

  /** The state of the step loop: the store, the next input, the results
      and intermediate files so far, the requests built for the steps
      attempted, and the message that aborted the loop, if any. */
  datatype Run = Run(s3: S3, current: string, results: seq<StepResult>, files: seq<string>,
                     requests: seq<GranularRequest>, error: Option<string>)

  /** What the loop guarantees at every point: one result and one request
      per attempted step, each step fed the latest successful output, the
      intermediate files being the successful outputs, and only optional
      steps skipped or failed except the one that aborted the loop. */
  predicate Consistent(request: WorkflowRequest, run: Run) {
    var rs := run.results;
    StepsMatch(request, rs, run.requests) &&
    run.current == LastOutput(rs, request.imagePath) &&
    run.files == Outputs(rs) &&
    OnlyOptionalMissed(request, rs, run.error)
  }

  /** One result and one request per attempted step, each request built
      on the latest output before it. */
  predicate StepsMatch(request: WorkflowRequest, rs: seq<StepResult>, requests: seq<GranularRequest>) {
    |rs| == |requests| && |rs| <= |request.steps| &&
    forall j :: 0 <= j < |rs| ==>
      rs[j].stepType == request.steps[j].stepType &&
      requests[j] == StepRequest(request, j, LastOutput(rs[..j], request.imagePath))
  }

  /** Only optional steps were skipped or failed, except the required step
      whose failure aborted the loop. */
  predicate OnlyOptionalMissed(request: WorkflowRequest, rs: seq<StepResult>, error: Option<string>)
    requires |rs| <= |request.steps|
  {
    (forall j :: 0 <= j < |rs| && rs[j].status == Skipped ==> request.steps[j].optional) &&
    (forall j :: 0 <= j < |rs| && rs[j].status == Failed && (error.None? || j < |rs| - 1) ==>
      request.steps[j].optional) &&
    (error.Some? ==>
      |rs| > 0 && rs[|rs| - 1].status == Failed && !request.steps[|rs| - 1].optional &&
      rs[|rs| - 1].errorMessage == error)
  }

  /** The result of one attempted step and whether it aborts the loop. */
  function StepOutcome(step: WorkflowStep, response: Result<(GranularResponse, S3)>): (r: (StepResult, Option<string>))
    ensures r.0.stepType == step.stepType
    ensures r.1.Some? <==> r.0.status == Failed && !step.optional
    ensures r.1.Some? ==> r.0.errorMessage == r.1
    ensures r.0.status == Skipped ==> step.optional
    ensures r.0.status == Succeeded <==> response.Success? && response.value.0.status == Succeeded
    ensures r.0.status == Succeeded ==> r.0.outputPath == response.value.0.outputPath
  {
    match response
    case Failure(msg) =>
      (StepResult(step.stepType, Failed, step.algorithm, None, Some(msg)), if step.optional then None else Some(msg))
    case Success((resp, _)) =>
      if resp.status == Succeeded then
        (StepResult(step.stepType, Succeeded, resp.algorithm, resp.outputPath, None), None)
      else if step.optional then
        (StepResult(step.stepType, Skipped, step.algorithm, None,
                    Some("Optional step failed: " + ProcessingContexts.FormatArg(resp.errorMessage))), None)
      else
        var msg := "Required step failed: " + ProcessingContexts.FormatArg(resp.errorMessage);
        (StepResult(step.stepType, Failed, step.algorithm, None, Some(msg)), Some(msg))
  }

  /** Appending the outcome of the next step, run on the latest output,
      keeps the loop state consistent. */
  lemma ExtendConsistent(request: WorkflowRequest, run: Run, result: StepResult, req: GranularRequest,
                         error: Option<string>, next: Run)
    requires Consistent(request, run) && run.error.None? && |run.results| < |request.steps|
    requires req == StepRequest(request, |run.results|, run.current)
    requires result.stepType == request.steps[|run.results|].stepType
    requires result.status == Skipped ==> request.steps[|run.results|].optional
    requires error.Some? <==> result.status == Failed && !request.steps[|run.results|].optional
    requires error.Some? ==> result.errorMessage == error
    requires result.status == Succeeded ==> result.outputPath.Some?
    requires next.results == run.results + [result] && next.requests == run.requests + [req] && next.error == error
    requires next.current == (if result.status == Succeeded then result.outputPath.value else run.current)
    requires next.files == run.files + (if result.status == Succeeded then [result.outputPath.value] else [])
    ensures Consistent(request, next)
  {
    ExtendStepsMatch(request, run.results, run.requests, result, req);
    ExtendMissed(request, run.results, result, error);
    assert (run.results + [result])[..|run.results|] == run.results;
  }

  lemma ExtendStepsMatch(request: WorkflowRequest, rs: seq<StepResult>, requests: seq<GranularRequest>,
                         result: StepResult, req: GranularRequest)
    requires StepsMatch(request, rs, requests) && |rs| < |request.steps|
    requires req == StepRequest(request, |rs|, LastOutput(rs, request.imagePath))
    requires result.stepType == request.steps[|rs|].stepType
    ensures StepsMatch(request, rs + [result], requests + [req])
  {
    var i := |rs|;
    var next := rs + [result];
    forall j | 0 <= j < |next|
      ensures next[j].stepType == request.steps[j].stepType
      ensures (requests + [req])[j] == StepRequest(request, j, LastOutput(next[..j], request.imagePath))
    {
      assert next[..j] == rs[..j] || j == i;
      if j == i {
        assert next[..j] == rs;
      }
    }
  }

  lemma ExtendMissed(request: WorkflowRequest, rs: seq<StepResult>, result: StepResult, error: Option<string>)
    requires |rs| < |request.steps| && OnlyOptionalMissed(request, rs, None)
    requires result.status == Skipped ==> request.steps[|rs|].optional
    requires error.Some? <==> result.status == Failed && !request.steps[|rs|].optional
    requires error.Some? ==> result.errorMessage == error
    ensures OnlyOptionalMissed(request, rs + [result], error)
  {
    var next := rs + [result];
    assert forall j :: 0 <= j < |rs| ==> next[j] == rs[j];
  }

  /** One pass of the step loop. */
  function Advance(request: WorkflowRequest, read: Reader, process: Processor, clock: nat -> string, run: Run): (r: Run)
    requires Consistent(request, run) && run.error.None? && |run.results| < |request.steps|
    ensures Consistent(request, r)
    ensures |r.results| == |run.results| + 1 && r.results[..|run.results|] == run.results
  {
    var i := |run.results|;
    var step := request.steps[i];
    var req := StepRequest(request, i, run.current);
    var response := ExecuteWorkflowStep(run.s3, read, process, step.stepType, req, clock(i));
    var (result, error) := StepOutcome(step, response);
    var s3 := if result.status == Succeeded then response.value.1 else run.s3;
    var r := Run(s3, if result.status == Succeeded then result.outputPath.value else run.current,
                 run.results + [result],
                 run.files + (if result.status == Succeeded then [result.outputPath.value] else []),
                 run.requests + [req], error);
    ExtendConsistent(request, run, result, req, error, r);
    assert r.results[..i] == run.results;
    r
  }

  /** The step loop from the current state to its end. */
  function RunSteps(request: WorkflowRequest, read: Reader, process: Processor, clock: nat -> string, run: Run): (r: Run)
    requires Consistent(request, run)
    ensures Consistent(request, r)
    ensures run.error.None? ==> run.results <= r.results
    ensures run.error.Some? ==> r == run
    ensures r.error.None? ==> |r.results| == |request.steps|
    decreases |request.steps| - |run.results|
  {
    if run.error.Some? || |run.results| == |request.steps| then run
    else
      var next := Advance(request, read, process, clock, run);
      var r := RunSteps(request, read, process, clock, next);
      PrefixTransitive(run.results, next.results, r.results);
      r
  }

  /** A loop that can still attempt a step goes on from the state after it. */
  lemma RunStepsStep(request: WorkflowRequest, read: Reader, process: Processor, clock: nat -> string, run: Run)
    requires Consistent(request, run) && run.error.None? && |run.results| < |request.steps|
    ensures RunSteps(request, read, process, clock, run)
            == RunSteps(request, read, process, clock, Advance(request, read, process, clock, run))
  {
  }

  /** A loop that has failed or attempted every step stops where it is. */
  lemma RunStepsDone(request: WorkflowRequest, read: Reader, process: Processor, clock: nat -> string, run: Run)
    requires Consistent(request, run) && (run.error.Some? || |run.results| >= |request.steps|)
    ensures RunSteps(request, read, process, clock, run) == run
  {
  }

  lemma PrefixTransitive(a: seq<StepResult>, b: seq<StepResult>, c: seq<StepResult>)
    requires |a| <= |b| && b[..|a|] == a && b <= c
    ensures a <= c
  {
    assert c[..|a|] == c[..|b|][..|a|];
  }

  /** The loop run from the start of the workflow. */
  function RunAll(request: WorkflowRequest, s3: S3, read: Reader, process: Processor, clock: nat -> string): (r: Run)
    ensures Consistent(request, r)
    ensures r.error.None? ==> |r.results| == |request.steps|
  {
    RunSteps(request, read, process, clock, Run(s3, request.imagePath, [], [], [], None))
  }

  datatype WorkflowMetrics = WorkflowMetrics(totalSteps: nat, successfulSteps: nat, failedSteps: nat,
                                             skippedSteps: nat, totalProcessingTimeMs: nat, averageStepTimeMs: nat)

  function CountStatus(results: seq<StepResult>, status: StepStatus): (n: nat)
    ensures n <= |results|
  {
    if |results| == 0 then 0
    else CountStatus(results[..|results| - 1], status) + (if results[|results| - 1].status == status then 1 else 0)
  }

  /** Every result is a success, a failure or a skip. */
  lemma {:induction false} CountsPartition(results: seq<StepResult>)
    ensures CountStatus(results, Succeeded) + CountStatus(results, Failed) + CountStatus(results, Skipped) == |results|
  {
    if |results| > 0 {
      CountsPartition(results[..|results| - 1]);
    }
  }

  /** `buildWorkflowMetrics`: per-status counts of the results, and the
      mean step time as a whole number of milliseconds. */
  function BuildWorkflowMetrics(request: WorkflowRequest, results: seq<StepResult>, totalTime: nat): (m: WorkflowMetrics)
    ensures m.totalSteps == |request.steps|
    ensures m.successfulSteps + m.failedSteps + m.skippedSteps == |results|
    ensures |results| == 0 ==> m.averageStepTimeMs == 0
    ensures |results| > 0 ==> m.averageStepTimeMs * |results| <= totalTime < (m.averageStepTimeMs + 1) * |results|
  {
    CountsPartition(results);
    WorkflowMetrics(|request.steps|, CountStatus(results, Succeeded), CountStatus(results, Failed),
                    CountStatus(results, Skipped), totalTime, if |results| == 0 then 0 else totalTime / |results|)
  }

  /** `getCurrentFailedStep`: the type of the first failed step. */
  function FirstFailed(results: seq<StepResult>): (r: Option<string>)
    ensures r.None? <==> forall j :: 0 <= j < |results| ==> results[j].status != Failed
    ensures r.Some? ==> exists j :: (0 <= j < |results| && results[j].status == Failed &&
      results[j].stepType == r.value && forall i :: 0 <= i < j ==> results[i].status != Failed)
  {
    if |results| == 0 then None
    else if results[0].status == Failed then Some(results[0].stepType)
    else
      var rest := FirstFailed(results[1..]);
      if rest.Some? then
        var j :| 0 <= j < |results[1..]| && results[1..][j].status == Failed && results[1..][j].stepType == rest.value &&
          forall i :: 0 <= i < j ==> results[1..][i].status != Failed;
        assert results[j + 1] == results[1..][j];
        assert forall i :: 1 <= i < j + 1 ==> results[i] == results[1..][i - 1];
        rest
      else
        assert forall j :: 1 <= j < |results| ==> results[j] == results[1..][j - 1];
        rest
  }

  datatype WorkflowResponse = WorkflowResponse(
    status: StepStatus,
    finalOutputPath: Option<string>,
    sessionId: string,
    workflowId: string,
    stepResults: seq<StepResult>,
    intermediateFiles: seq<string>,
    errorMessage: Option<string>,
    failedStep: Option<string>,
    workflowMetrics: Option<WorkflowMetrics>)

  /** `generateWorkflowId`. */
  function WorkflowId(sessionId: string, now: nat): string {
    "workflow-" + sessionId + "-" + Decimal(now)
  }

  /** The failure response: every result and intermediate file so far, the
      message, and the first failed step or "unknown". */
  function FailedResponse(request: WorkflowRequest, run: Run, message: string, now: nat): (w: WorkflowResponse)
    ensures w.status == Failed && w.errorMessage == Some(message) && w.stepResults == run.results
    ensures w.failedStep == Some(FirstFailed(run.results).GetOr("unknown"))
  {
    WorkflowResponse(Failed, None, request.sessionId, WorkflowId(request.sessionId, now), run.results, run.files,
                     Some(message), Some(FirstFailed(run.results).GetOr("unknown")), None)
  }

  /** `executeCustomWorkflow` with the reading of input locations left
      open. After the loop, a requested final path moves the last output
      there, and intermediate files are deleted when asked for. */
  function ExecuteWith(request: WorkflowRequest, s3: S3, read: Reader, process: Processor, clock: nat -> string,
                       now: nat, totalTime: nat): (r: (WorkflowResponse, S3))
    ensures var run := RunAll(request, s3, read, process, clock);
      r.0.stepResults == run.results &&
      (r.0.status == Succeeded ==> run.error.None? && |run.results| == |request.steps|) &&
      (run.error.Some? ==> r.0 == FailedResponse(request, run, run.error.value, now))
    ensures r.0.status == Succeeded || r.0.status == Failed
    ensures r.0.status == Succeeded && request.cleanupIntermediates ==> r.0.intermediateFiles == []
    ensures r.0.status == Succeeded && !request.cleanupIntermediates ==>
      r.0.intermediateFiles == Outputs(r.0.stepResults)
    ensures r.0.status == Succeeded && request.finalOutputPath.None? ==>
      r.0.finalOutputPath == Some(LastOutput(r.0.stepResults, request.imagePath))
    ensures r.0.status == Succeeded ==> (r.0.workflowMetrics.Some? &&
      r.0.workflowMetrics.value.successfulSteps + r.0.workflowMetrics.value.failedSteps +
      r.0.workflowMetrics.value.skippedSteps == |request.steps|)
    ensures r.0.status == Failed ==>
      r.0.failedStep == Some(FirstFailed(r.0.stepResults).GetOr("unknown")) && r.0.errorMessage.Some?
  {
    var run := RunAll(request, s3, read, process, clock);
    if run.error.Some? then (FailedResponse(request, run, run.error.value, now), run.s3)
    else
      var moved := if request.finalOutputPath.Some?
                   then MoveFinalResultWith(run.s3, read, run.current, request.finalOutputBucket, request.finalOutputPath)
                   else Success((run.s3, run.current));
      match moved
      case Failure(msg) => (FailedResponse(request, run, msg, now), run.s3)
      case Success((afterMove, finalPath)) =>
        var cleaned := if request.cleanupIntermediates then CleanupIntermediateFiles(afterMove, Some(run.files))
                       else afterMove;
        (WorkflowResponse(Succeeded, Some(finalPath), request.sessionId, WorkflowId(request.sessionId, now),
                          run.results, if request.cleanupIntermediates then [] else run.files, None, None,
                          Some(BuildWorkflowMetrics(request, run.results, totalTime))), cleaned)
  }

  /** `executeCustomWorkflow` as written: every input is read with
      `downloadFile`. */
  function ExecuteAsWritten(request: WorkflowRequest, s3: S3, process: Processor, clock: nat -> string,
                            now: nat, totalTime: nat): (WorkflowResponse, S3)
  {
    ExecuteWith(request, s3, DownloadFile, process, clock, now, totalTime)
  }

  /** `executeCustomWorkflow` with inputs read as the "bucket/key"
      locations that the storage layer reports and that the pipeline's
      own requests use. */
  function Execute(request: WorkflowRequest, s3: S3, process: Processor, clock: nat -> string,
                   now: nat, totalTime: nat): (WorkflowResponse, S3)
  {
    ExecuteWith(request, s3, ReadLocation, process, clock, now, totalTime)
  }

  // ---------------------------------------------------------------------
  // Reading step outputs back

  /** The bucket every step of a workflow writes to. */
  function StepBucket(request: WorkflowRequest): string {
    request.finalOutputBucket.GetOr(DefaultIntermediateBucket)
  }

  /** `p` is a "bucket/key" location in `bucket`. */
  predicate InBucket(bucket: string, p: string) {
    |p| > |bucket| && p[..|bucket| + 1] == bucket + "/"
  }

  lemma LocationInBucket(bucket: string, key: string)
    ensures InBucket(bucket, Location(bucket, key))
  {
    assert Location(bucket, key)[..|bucket| + 1] == bucket + "/";
  }

  lemma InBucketIsLocation(bucket: string, p: string)
    requires InBucket(bucket, p)
    ensures p == Location(bucket, p[|bucket| + 1..])
  {
    assert p == p[..|bucket| + 1] + p[|bucket| + 1..];
  }

  /** What one pass of the loop does with the step it attempts: a success
      is an attempt that went through, whose store and location the loop
      takes over; anything else leaves store and input as they were. */
  lemma AdvanceStep(request: WorkflowRequest, read: Reader, process: Processor, clock: nat -> string, run: Run)
    requires Consistent(request, run) && run.error.None? && |run.results| < |request.steps|
    ensures var i := |run.results|;
      var next := Advance(request, read, process, clock, run);
      var req := StepRequest(request, i, run.current);
      var kind := KindOf(request.steps[i].stepType);
      (next.results[i].status == Succeeded ==>
        kind.Some? && Attempt(run.s3, read, process, kind.value, req, clock(i)).Success? &&
        next.s3 == Attempt(run.s3, read, process, kind.value, req, clock(i)).value.0 &&
        next.current == Attempt(run.s3, read, process, kind.value, req, clock(i)).value.1) &&
      (next.results[i].status != Succeeded ==> next.s3 == run.s3 && next.current == run.current) &&
      next.error.None? == (next.results[i].status != Failed || request.steps[i].optional)
  {
  }

  /** A successful step's location lies in the workflow's bucket. */
  lemma AttemptInBucket(request: WorkflowRequest, s3: S3, read: Reader, process: Processor, kind: StepKind,
                        i: nat, input: string, timestamp: string)
    requires i < |request.steps|
    requires Attempt(s3, read, process, kind, StepRequest(request, i, input), timestamp).Success?
    ensures InBucket(StepBucket(request), Attempt(s3, read, process, kind, StepRequest(request, i, input), timestamp).value.1)
  {
    var req := StepRequest(request, i, input);
    var key := BuildIntermediateKey(req.sessionId, kind.Id(), Some(req.imagePath), req.outputPath, timestamp);
    LocationInBucket(StepBucket(request), key.value);
  }

  lemma CountAppend(results: seq<StepResult>, r: StepResult, status: StepStatus)
    ensures CountStatus(results + [r], status) == CountStatus(results, status) + (if r.status == status then 1 else 0)
  {
    assert (results + [r])[..|results|] == results;
  }

  /** As written, inputs are read with `downloadFile`. Once a step has
      succeeded, the next input is that step's "bucket/key" location, which
      `downloadFile` refuses; so no later step succeeds, and the input stays
      that location to the end of the loop. */
  lemma {:induction false} AsWrittenStopsAfterFirstSuccess(request: WorkflowRequest, process: Processor,
                                                           clock: nat -> string, run: Run)
    requires Consistent(request, run) && ':' !in StepBucket(request)
    requires CountStatus(run.results, Succeeded) <= 1
    requires CountStatus(run.results, Succeeded) == 1 ==> InBucket(StepBucket(request), run.current)
    ensures var r := RunSteps(request, DownloadFile, process, clock, run);
      CountStatus(r.results, Succeeded) <= 1 &&
      (CountStatus(r.results, Succeeded) == 1 ==> InBucket(StepBucket(request), r.current))
    decreases |request.steps| - |run.results|
  {
    if run.error.None? && |run.results| < |request.steps| {
      var next := Advance(request, DownloadFile, process, clock, run);
      AsWrittenStep(request, process, clock, run);
      AsWrittenStopsAfterFirstSuccess(request, process, clock, next);
      RunStepsStep(request, DownloadFile, process, clock, run);
    } else {
      RunStepsDone(request, DownloadFile, process, clock, run);
    }
  }

  /** One pass of the loop as written keeps at most one success, and the
      input after a success is a location in the workflow's bucket. */
  lemma AsWrittenStep(request: WorkflowRequest, process: Processor, clock: nat -> string, run: Run)
    requires Consistent(request, run) && ':' !in StepBucket(request)
    requires run.error.None? && |run.results| < |request.steps|
    requires CountStatus(run.results, Succeeded) <= 1
    requires CountStatus(run.results, Succeeded) == 1 ==> InBucket(StepBucket(request), run.current)
    ensures var next := Advance(request, DownloadFile, process, clock, run);
      CountStatus(next.results, Succeeded) <= 1 &&
      (CountStatus(next.results, Succeeded) == 1 ==> InBucket(StepBucket(request), next.current))
  {
    var i := |run.results|;
    var next := Advance(request, DownloadFile, process, clock, run);
    AdvanceStep(request, DownloadFile, process, clock, run);
    assert next.results == run.results + [next.results[i]];
    CountAppend(run.results, next.results[i], Succeeded);
    if next.results[i].status == Succeeded {
      var kind := KindOf(request.steps[i].stepType).value;
      AttemptInBucket(request, run.s3, DownloadFile, process, kind, i, run.current, clock(i));
      if CountStatus(run.results, Succeeded) == 1 {
        InBucketIsLocation(StepBucket(request), run.current);
        DownloadRejectsLocations(run.s3, StepBucket(request), run.current[|StepBucket(request)| + 1..]);
        assert false;
      }
    }
  }

  /** As written, at most one step of a custom workflow succeeds whatever
      the steps, routines and data, and when a final output path is asked
      for, a workflow in which a step succeeded fails in the move. */
  lemma AsWrittenAtMostOneStepSucceeds(request: WorkflowRequest, s3: S3, process: Processor, clock: nat -> string,
                                       now: nat, totalTime: nat)
    requires ':' !in StepBucket(request)
    ensures CountStatus(RunAll(request, s3, DownloadFile, process, clock).results, Succeeded) <= 1
    ensures var run := RunAll(request, s3, DownloadFile, process, clock);
      request.finalOutputPath.Some? && CountStatus(run.results, Succeeded) == 1 ==>
      ExecuteAsWritten(request, s3, process, clock, now, totalTime).0.status == Failed
  {
    var start := Run(s3, request.imagePath, [], [], [], None);
    AsWrittenStopsAfterFirstSuccess(request, process, clock, start);
    var run := RunAll(request, s3, DownloadFile, process, clock);
    if request.finalOutputPath.Some? && CountStatus(run.results, Succeeded) == 1 && run.error.None? {
      InBucketIsLocation(StepBucket(request), run.current);
      DownloadRejectsLocations(run.s3, StepBucket(request), run.current[|StepBucket(request)| + 1..]);
      UnreadableResultFailsMove(request, s3, DownloadFile, process, clock, now, totalTime);
    }
  }

  /** A workflow asked for a final output path whose last output cannot be
      read fails in the move. */
  lemma UnreadableResultFailsMove(request: WorkflowRequest, s3: S3, read: Reader, process: Processor,
                                  clock: nat -> string, now: nat, totalTime: nat)
    requires var run := RunAll(request, s3, read, process, clock);
      run.error.None? && request.finalOutputPath.Some? && read(run.s3, run.current).Failure?
    ensures ExecuteWith(request, s3, read, process, clock, now, totalTime).0.status == Failed
  {
  }

  /** The data a step stores when it reads `input`. */
  function StepData(request: WorkflowRequest, s3: S3, read: Reader, process: Processor, kind: StepKind, i: nat,
                    input: string): Result<Data>
    requires i < |request.steps|
  {
    Processed(s3, read, process, kind, StepRequest(request, i, input))
  }

  /** The loop's state after its first pass. */
  function FirstPass(request: WorkflowRequest, s3: S3, read: Reader, process: Processor, clock: nat -> string): (r: Run)
    requires |request.steps| >= 1
    ensures Consistent(request, r) && |r.results| == 1
  {
    Advance(request, read, process, clock, Run(s3, request.imagePath, [], [], [], None))
  }

  /** A location in a non-empty bucket names a file. */
  lemma LocationNamesFile(bucket: string, p: string)
    requires '/' !in bucket && bucket != "" && InBucket(bucket, p)
    ensures ExtractFilename(Some(p)).Success?
  {
    LocationChars(bucket, p);
    assert !AllSlashes(p);
    NotBlank(p, |bucket|);
    ExtractFilenameFails(Some(p));
  }

  /** A location starts with the bucket's first character and has a '/'
      right after the bucket. */
  lemma LocationChars(bucket: string, p: string)
    requires '/' !in bucket && bucket != "" && InBucket(bucket, p)
    ensures p[0] != '/' && p[|bucket|] == '/'
  {
    assert p[0] == (bucket + "/")[0] == bucket[0];
    assert p[|bucket|] == (bucket + "/")[|bucket|];
  }

  /** A string with a visible character does not trim to nothing. */
  lemma NotBlank(p: string, k: nat)
    requires k < |p| && !IsTrimmable(p[k])
    ensures Trim(p) != ""
  {
  }

  /** A step whose input location holds `data`, with no calibration frame
      and a routine that accepts `data`, stores the routine's output at a
      location in the workflow's bucket. */
  lemma AttemptOnLocation(request: WorkflowRequest, s3: S3, process: Processor, kind: StepKind, i: nat,
                          input: string, data: Data, timestamp: string)
    requires i < |request.steps| && request.steps[i].calibrationPath.None?
    requires '/' !in StepBucket(request) && StepBucket(request) != "" && StepBucket(request) !in s3.failing
    requires InBucket(StepBucket(request), input) && ReadLocation(s3, input) == Success(data)
    requires process(kind, data, None).Success?
    ensures var a := Attempt(s3, ReadLocation, process, kind, StepRequest(request, i, input), timestamp);
      a.Success? && InBucket(StepBucket(request), a.value.1) && a.value.0.failing == s3.failing &&
      ReadLocation(a.value.0, a.value.1) == process(kind, data, None)
  {
    var bucket := StepBucket(request);
    var req := StepRequest(request, i, input);
    LocationNamesFile(bucket, input);
    assert Processed(s3, ReadLocation, process, kind, req) == process(kind, data, None);
    var key := BuildIntermediateKey(req.sessionId, kind.Id(), Some(req.imagePath), req.outputPath, timestamp);
    ReadWhatWasStored(s3, bucket, key.value, process(kind, data, None).value);
    LocationInBucket(bucket, key.value);
  }

  /** Reading locations as "bucket/key": a step that follows a successful
      step reads exactly the data that step stored, so if its routine
      accepts that data (and it needs no calibration frame) it succeeds,
      and what it stores reads back as its routine applied to the earlier
      step's output. */
  lemma CorrectedStepReadsPrevious(request: WorkflowRequest, process: Processor, clock: nat -> string, run: Run,
                                   data: Data)
    requires Consistent(request, run) && run.error.None? && |run.results| < |request.steps|
    requires '/' !in StepBucket(request) && StepBucket(request) != "" && StepBucket(request) !in run.s3.failing
    requires InBucket(StepBucket(request), run.current) && ReadLocation(run.s3, run.current) == Success(data)
    requires var step := request.steps[|run.results|];
      KindOf(step.stepType).Some? && step.calibrationPath.None? &&
      process(KindOf(step.stepType).value, data, None).Success?
    ensures var next := Advance(request, ReadLocation, process, clock, run);
      var kind := KindOf(request.steps[|run.results|].stepType).value;
      next.results[|run.results|].status == Succeeded && InBucket(StepBucket(request), next.current) &&
      ReadLocation(next.s3, next.current) == process(kind, data, None)
  {
    var i := |run.results|;
    var kind := KindOf(request.steps[i].stepType).value;
    AttemptOnLocation(request, run.s3, process, kind, i, run.current, data, clock(i));
    AdvanceStep(request, ReadLocation, process, clock, run);
  }

  /** The first pass of the loop, when it succeeds, leaves its output
      readable at its location. */
  lemma FirstStepReadable(request: WorkflowRequest, s3: S3, process: Processor, clock: nat -> string)
    requires |request.steps| >= 1 && '/' !in StepBucket(request)
    requires FirstPass(request, s3, ReadLocation, process, clock).results[0].status == Succeeded
    ensures var run := FirstPass(request, s3, ReadLocation, process, clock);
      var kind := KindOf(request.steps[0].stepType);
      kind.Some? && StepBucket(request) !in run.s3.failing && InBucket(StepBucket(request), run.current) &&
      ReadLocation(run.s3, run.current) == StepData(request, s3, ReadLocation, process, kind.value, 0, request.imagePath)
  {
    var start := Run(s3, request.imagePath, [], [], [], None);
    AdvanceStep(request, ReadLocation, process, clock, start);
    var kind := KindOf(request.steps[0].stepType).value;
    var req := StepRequest(request, 0, request.imagePath);
    var key := BuildIntermediateKey(req.sessionId, kind.Id(), Some(req.imagePath), req.outputPath, clock(0));
    var d := StepData(request, s3, ReadLocation, process, kind, 0, request.imagePath).value;
    ReadWhatWasStored(s3, StepBucket(request), key.value, d);
    LocationInBucket(StepBucket(request), key.value);
  }

  /** Reading locations as "bucket/key", the outputs of a workflow's steps
      chain: when the first step succeeds and the second is a known step
      with no calibration frame whose routine accepts the first step's
      output, the second step succeeds too, and its output reads back as
      the two routines composed on the image. */
  lemma CorrectedChainFeedsOutputs(request: WorkflowRequest, s3: S3, process: Processor, clock: nat -> string)
    requires |request.steps| >= 2
    requires '/' !in StepBucket(request) && StepBucket(request) != ""
    requires FirstPass(request, s3, ReadLocation, process, clock).results[0].status == Succeeded
    requires KindOf(request.steps[1].stepType).Some? && request.steps[1].calibrationPath.None?
    requires var first := KindOf(request.steps[0].stepType);
      first.Some? ==>
      var d1 := StepData(request, s3, ReadLocation, process, first.value, 0, request.imagePath);
      d1.Success? && process(KindOf(request.steps[1].stepType).value, d1.value, None).Success?
    ensures var run1 := FirstPass(request, s3, ReadLocation, process, clock);
      var run2 := Advance(request, ReadLocation, process, clock, run1);
      var d1 := StepData(request, s3, ReadLocation, process, KindOf(request.steps[0].stepType).value, 0,
                         request.imagePath);
      run2.results[1].status == Succeeded &&
      ReadLocation(run2.s3, run2.current) == process(KindOf(request.steps[1].stepType).value, d1.value, None)
  {
    FirstStepReadable(request, s3, process, clock);
    var run1 := FirstPass(request, s3, ReadLocation, process, clock);
    var d1 := StepData(request, s3, ReadLocation, process, KindOf(request.steps[0].stepType).value, 0,
                       request.imagePath).value;
    CorrectedStepReadsPrevious(request, process, clock, run1, d1);
  }

  /** As written, the second step of a workflow whose first step succeeded
      never succeeds. */
  lemma AsWrittenChainBreaks(request: WorkflowRequest, s3: S3, process: Processor, clock: nat -> string)
    requires ':' !in StepBucket(request)
    requires |RunAll(request, s3, DownloadFile, process, clock).results| >= 2
    requires RunAll(request, s3, DownloadFile, process, clock).results[0].status == Succeeded
    ensures RunAll(request, s3, DownloadFile, process, clock).results[1].status != Succeeded
  {
    var run := RunAll(request, s3, DownloadFile, process, clock);
    AsWrittenAtMostOneStepSucceeds(request, s3, process, clock, 0, 0);
    if run.results[1].status == Succeeded {
      CountsOfFirstTwo(run.results);
    }
  }

  /** Two successes among the first two results count as two. */
  lemma CountsOfFirstTwo(results: seq<StepResult>)
    requires |results| >= 2 && results[0].status == Succeeded && results[1].status == Succeeded
    ensures CountStatus(results, Succeeded) >= 2
  {
    if |results| > 2 {
      var init := results[..|results| - 1];
      assert init[0] == results[0] && init[1] == results[1];
      CountsOfFirstTwo(init);
    } else {
      assert results[..1] == [results[0]];
    }
  }
}
