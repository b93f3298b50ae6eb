/** Processing jobs of the image processor: the job record with its retry
    and status helpers, and the job service's submit, cancel, retry,
    next-job, batch and health operations over the job table.

    The table is a map from job id to job; the queue that the repository
    returns ordered by creation time is a sequence. Random UUIDs and clock
    readings are parameters; a Java `null` is `None`.
 */
module ProcessingJobs {
  import opened Wrappers
  import ProcessingContexts

  datatype Status = Queued | Running | Completed | Failed | Cancelled | Retry {
    function Name(): string {
      match this
      case Queued => "QUEUED"
      case Running => "RUNNING"
      case Completed => "COMPLETED"
      case Failed => "FAILED"
      case Cancelled => "CANCELLED"
      case Retry => "RETRY"
    }
  }

  datatype JobType = FullCalibration | DarkSubtractionOnly | FlatCorrectionOnly | CosmicRayRemovalOnly
                   | ImageStacking | QuickLook | ThumbnailGeneration

  datatype Job = Job(
    jobId: string,
    inputBucket: string,
    inputObjectKey: string,
    outputBucket: Option<string>,
    outputObjectKey: Option<string>,
    userId: Option<string>,
    status: Status,
    processingType: JobType,
    priority: Option<int>,
    retryCount: Option<int>,
    maxRetries: Option<int>,
    errorMessage: Option<string>,
    stackTrace: Option<string>,
    createdAt: int,
    startedAt: Option<int>,
    completedAt: Option<int>,
    processingDurationMs: Option<int>,
    metadata: Option<map<string, Option<string>>>)

  const DefaultPriority: int := 5
  const DefaultMaxRetries: int := 3

  /** A job built with only its required fields: the builder fills in
      priority 5, no retries so far and at most 3 retries. */
  function BuildJob(jobId: string, inputBucket: string, inputObjectKey: string, status: Status,
                    processingType: JobType, createdAt: int): (j: Job)
    ensures j.priority == Some(DefaultPriority) && j.retryCount == Some(0) && j.maxRetries == Some(DefaultMaxRetries)
    ensures j.jobId == jobId && j.status == status && j.processingType == processingType
    ensures j.errorMessage.None? && j.startedAt.None? && j.completedAt.None? && j.processingDurationMs.None?
  {
    Job(jobId, inputBucket, inputObjectKey, None, None, None, status, processingType,
        Some(DefaultPriority), Some(0), Some(DefaultMaxRetries), None, None, createdAt, None, None, None, None)
  }

  // ---------------------------------------------------------------------
  // The job record's own helpers

  /** `canRetry`: retries left and a FAILED or RETRY status. Unboxing a
      null count throws. */
  function CanRetry(job: Job): (r: Result<bool>)
    ensures r.Failure? <==> job.retryCount.None? || job.maxRetries.None?
    ensures r.Success? ==> (r.value <==>
      job.retryCount.value < job.maxRetries.value && (job.status == Failed || job.status == Retry))
  {
    if job.retryCount.None? || job.maxRetries.None? then Failure("NullPointerException")
    else Success(job.retryCount.value < job.maxRetries.value && (job.status == Failed || job.status == Retry))
  }

  /** `incrementRetryCount`: one more than the count, a null count being 0;
      nothing else changes. */
  function IncrementRetryCount(job: Job): (r: Job)
    ensures r.retryCount == Some(job.retryCount.GetOr(0) + 1)
    ensures r.(retryCount := job.retryCount) == job
  {
    job.(retryCount := Some(job.retryCount.GetOr(0) + 1))
  }

  /** `markAsStarted`. */
  function MarkAsStarted(job: Job, now: int): (r: Job)
    ensures r.status == Running && r.startedAt == Some(now)
    ensures r.(status := job.status, startedAt := job.startedAt) == job
  {
    job.(status := Running, startedAt := Some(now))
  }

  /** The duration recorded when a job ends: the time since it started, or
      the old duration when it never started. */
  function EndDuration(job: Job, now: int): (d: Option<int>)
    ensures job.startedAt.Some? ==> d == Some(now - job.startedAt.value)
    ensures job.startedAt.None? ==> d == job.processingDurationMs
  {
    if job.startedAt.Some? then Some(now - job.startedAt.value) else job.processingDurationMs
  }

  /** `markAsCompleted`: COMPLETED at `now`; the duration is set only for
      a job that has a start time. */
  function MarkAsCompleted(job: Job, now: int): (r: Job)
    ensures r.status == Completed && r.completedAt == Some(now)
    ensures job.startedAt.Some? ==> r.processingDurationMs == Some(now - job.startedAt.value)
    ensures job.startedAt.None? ==> r.processingDurationMs == job.processingDurationMs
    ensures r.(status := job.status, completedAt := job.completedAt,
               processingDurationMs := job.processingDurationMs) == job
  {
    job.(status := Completed, completedAt := Some(now), processingDurationMs := EndDuration(job, now))
  }

  /** `markAsFailed`: FAILED at `now` with the message and trace kept. */
  function MarkAsFailed(job: Job, message: Option<string>, trace: Option<string>, now: int): (r: Job)
    ensures r.status == Failed && r.completedAt == Some(now)
    ensures r.errorMessage == message && r.stackTrace == trace
    ensures job.startedAt.Some? ==> r.processingDurationMs == Some(now - job.startedAt.value)
    ensures r.(status := job.status, completedAt := job.completedAt, errorMessage := job.errorMessage,
               stackTrace := job.stackTrace, processingDurationMs := job.processingDurationMs) == job
  {
    job.(status := Failed, errorMessage := message, stackTrace := trace, completedAt := Some(now),
         processingDurationMs := EndDuration(job, now))
  }

  // ---------------------------------------------------------------------
  // Submission

  datatype SubmissionRequest = SubmissionRequest(
    inputBucket: string,
    inputObjectKey: string,
    outputBucket: Option<string>,
    outputObjectKey: Option<string>,
    processingType: JobType,
    priority: Option<int>,
    userId: Option<string>,
    maxRetries: Option<int>,
    parameters: Option<map<string, Option<string>>>)

  type Jobs = map<string, Job>

  /** Job ids are stored under their own id. */
  predicate WellKeyed(jobs: Jobs) {
    forall id :: id in jobs ==> jobs[id].jobId == id
  }

  /** `generateJobId`: "job_" and the first 12 characters of the UUID
      without its dashes; a UUID with fewer than 12 other characters makes
      `substring` throw. */
  function GenerateJobId(uuid: string): (r: Result<string>)
    ensures r.Success? <==> |ProcessingContexts.RemoveChar(uuid, '-')| >= 12
    ensures r.Success? ==> (|r.value| == 16 && r.value[..4] == "job_" &&
      r.value[4..] == ProcessingContexts.RemoveChar(uuid, '-')[..12])
  {
    var hex := ProcessingContexts.RemoveChar(uuid, '-');
    if |hex| < 12 then Failure("StringIndexOutOfBoundsException") else Success("job_" + hex[..12])
  }

  /** `submitJob`: a QUEUED job with no retries so far, the request's
      priority and retry limit or the defaults 5 and 3, and its parameters
      as metadata. The request's user id is not copied onto the job. */
  function SubmitJob(jobs: Jobs, req: SubmissionRequest, uuid: string, now: int): (r: Result<(Jobs, Job)>)
    ensures r.Success? <==> GenerateJobId(uuid).Success?
    ensures r.Success? ==>
      var (jobs', job) := r.value;
      job.jobId == GenerateJobId(uuid).value && jobs' == jobs[job.jobId := job] &&
      job.status == Queued && job.retryCount == Some(0) &&
      job.priority == Some(req.priority.GetOr(DefaultPriority)) &&
      job.maxRetries == Some(req.maxRetries.GetOr(DefaultMaxRetries)) &&
      job.inputBucket == req.inputBucket && job.inputObjectKey == req.inputObjectKey &&
      job.outputBucket == req.outputBucket && job.outputObjectKey == req.outputObjectKey &&
      job.processingType == req.processingType && job.metadata == req.parameters &&
      job.userId.None? && job.createdAt == now
    ensures r.Success? && WellKeyed(jobs) ==> WellKeyed(r.value.0)
  {
    var id :- GenerateJobId(uuid);
    var job := BuildJob(id, req.inputBucket, req.inputObjectKey, Queued, req.processingType, now)
      .(outputBucket := req.outputBucket, outputObjectKey := req.outputObjectKey,
        priority := Some(req.priority.GetOr(DefaultPriority)),
        maxRetries := Some(req.maxRetries.GetOr(DefaultMaxRetries)),
        metadata := req.parameters);
    Success((jobs[id := job], job))
  }

  /** `submitBatchJobs`: one submission per request key, with the UUID
      `uuidOf` draws for it; the result maps exactly the request keys to
      the ids of jobs now in the table. */
  method SubmitBatch(jobs: Jobs, requests: map<string, SubmissionRequest>, uuidOf: string -> string, now: int)
    returns (r: Result<(Jobs, map<string, string>)>)
    ensures r.Success? <==> forall k :: k in requests ==> GenerateJobId(uuidOf(k)).Success?
    ensures r.Success? ==>
      var (jobs', ids) := r.value;
      ids.Keys == requests.Keys && jobs.Keys <= jobs'.Keys &&
      forall k :: k in ids ==> ids[k] == GenerateJobId(uuidOf(k)).value && ids[k] in jobs'
  {
    var table := jobs;
    var ids: map<string, string> := map[];
    var remaining := requests.Keys;
    while remaining != {}
      invariant remaining <= requests.Keys
      invariant ids.Keys == requests.Keys - remaining
      invariant jobs.Keys <= table.Keys
      invariant forall k :: k in ids ==> GenerateJobId(uuidOf(k)).Success?
      invariant forall k :: k in ids ==> ids[k] == GenerateJobId(uuidOf(k)).value && ids[k] in table
      decreases remaining
    {
      var k :| k in remaining;
      var submitted := SubmitJob(table, requests[k], uuidOf(k), now);
      if submitted.Failure? {
        return Failure(submitted.error);
      }
      table := submitted.value.0;
      ids := ids[k := submitted.value.1.jobId];
      remaining := remaining - {k};
    }
    r := Success((table, ids));
  }

  // ---------------------------------------------------------------------
  // Cancel and retry

  /** `cancelJob`: an unknown or COMPLETED job fails; a CANCELLED job is
      returned as it is; any other job becomes CANCELLED at `now` with
      the message "Job cancelled by user". */
  function CancelJob(jobs: Jobs, jobId: string, now: int): (r: Result<(Jobs, Job)>)
    ensures jobId !in jobs ==> r == Failure("Job not found: " + jobId)
    ensures jobId in jobs && jobs[jobId].status == Completed ==> r == Failure("Cannot cancel completed job: " + jobId)
    ensures r.Success? <==> jobId in jobs && jobs[jobId].status != Completed
    ensures r.Success? && jobs[jobId].status == Cancelled ==> r.value == (jobs, jobs[jobId])
    ensures r.Success? ==>
      var (jobs', job) := r.value;
      jobs' == jobs[jobId := job] && job.status == Cancelled &&
      (jobs[jobId].status != Cancelled ==>
        job == jobs[jobId].(status := Cancelled, completedAt := Some(now),
                            errorMessage := Some("Job cancelled by user")))
  {
    if jobId !in jobs then Failure("Job not found: " + jobId)
    else
      var job := jobs[jobId];
      if job.status == Completed then Failure("Cannot cancel completed job: " + jobId)
      else if job.status == Cancelled then
        assert jobs[jobId := job] == jobs;
        Success((jobs, job))
      else
        var cancelled := job.(status := Cancelled, completedAt := Some(now),
                              errorMessage := Some("Job cancelled by user"));
        Success((jobs[jobId := cancelled], cancelled))
  }

  /** Cancelling twice is cancelling once, whatever the clock says. */
  lemma CancelIdempotent(jobs: Jobs, jobId: string, now: int, later: int)
    requires CancelJob(jobs, jobId, now).Success?
    ensures var (jobs', _) := CancelJob(jobs, jobId, now).value;
      CancelJob(jobs', jobId, later) == CancelJob(jobs, jobId, now)
  {
  }

  /** `retryJob`: only a FAILED job with retries left goes back to the
      queue, one retry further on, with its error and timestamps cleared.
      A null count or limit throws when unboxed. */
  function RetryJob(jobs: Jobs, jobId: string): (r: Result<(Jobs, Job)>)
    ensures jobId !in jobs ==> r == Failure("Job not found: " + jobId)
    ensures jobId in jobs && jobs[jobId].status != Failed ==>
      r == Failure("Can only retry failed jobs. Current status: " + jobs[jobId].status.Name())
    ensures r.Success? <==> (jobId in jobs && jobs[jobId].status == Failed &&
      jobs[jobId].retryCount.Some? && jobs[jobId].maxRetries.Some? &&
      jobs[jobId].retryCount.value < jobs[jobId].maxRetries.value)
    ensures r.Success? ==>
      var (jobs', job) := r.value;
      var before := jobs[jobId];
      jobs' == jobs[jobId := job] &&
      job.status == Queued && job.retryCount == Some(before.retryCount.value + 1) &&
      job.maxRetries == before.maxRetries && job.retryCount.value <= before.maxRetries.value &&
      job.errorMessage.None? && job.startedAt.None? && job.completedAt.None? &&
      job.(status := before.status, retryCount := before.retryCount, errorMessage := before.errorMessage,
           startedAt := before.startedAt, completedAt := before.completedAt) == before
  {
    if jobId !in jobs then Failure("Job not found: " + jobId)
    else
      var job := jobs[jobId];
      if job.status != Failed then Failure("Can only retry failed jobs. Current status: " + job.status.Name())
      else if job.retryCount.None? || job.maxRetries.None? then Failure("NullPointerException")
      else if job.retryCount.value >= job.maxRetries.value then Failure("Job has exceeded maximum retry attempts")
      else
        var retried := job.(status := Queued, retryCount := Some(job.retryCount.value + 1),
                            errorMessage := None, startedAt := None, completedAt := None);
        Success((jobs[jobId := retried], retried))
  }

  /** The service's retry rule agrees with the job's own `canRetry` on
      failed jobs. */
  lemma RetryAgreesWithCanRetry(jobs: Jobs, jobId: string)
    requires jobId in jobs && jobs[jobId].status == Failed
    ensures RetryJob(jobs, jobId).Success? <==> CanRetry(jobs[jobId]) == Success(true)
  {
  }

  /** However a job is failed and retried, it is retried at most
      `maxRetries` times: after `n` retries from a count of 0 the count is
      `n`, so `n <= maxRetries`. */
  lemma {:induction false} RetriesAreBounded(job: Job, failures: seq<(Option<string>, Option<string>, int)>)
    requires job.status == Failed && job.retryCount == Some(0) && job.maxRetries.Some?
    ensures |RetryRun(job, failures)| <= if job.maxRetries.value < 0 then 0 else job.maxRetries.value
  {
    RetryRunCounts(job, failures);
  }

  /** The jobs seen along a run where each retried job fails again with
      the given message, trace and time, until a retry is refused. */
  function RetryRun(job: Job, failures: seq<(Option<string>, Option<string>, int)>): seq<Job>
    decreases |failures|
  {
    var jobs := map[job.jobId := job];
    match RetryJob(jobs, job.jobId)
    case Failure(_) => []
    case Success((_, retried)) =>
      if |failures| == 0 then [retried]
      else
        var (msg, trace, at) := failures[0];
        [retried] + RetryRun(MarkAsFailed(retried, msg, trace, at), failures[1..])
  }

  lemma {:induction false} RetryRunCounts(job: Job, failures: seq<(Option<string>, Option<string>, int)>)
    requires job.status == Failed && job.retryCount.Some? && job.maxRetries.Some? && 0 <= job.retryCount.value
    ensures |RetryRun(job, failures)| <= if job.maxRetries.value < job.retryCount.value then 0
                                         else job.maxRetries.value - job.retryCount.value
    decreases |failures|
  {
    var jobs := map[job.jobId := job];
    if RetryJob(jobs, job.jobId).Success? && |failures| > 0 {
      var retried := RetryJob(jobs, job.jobId).value.1;
      var (msg, trace, at) := failures[0];
      RetryRunCounts(MarkAsFailed(retried, msg, trace, at), failures[1..]);
    }
  }

  // ---------------------------------------------------------------------
  // Choosing the next job

  /** The first job of the least creation time among those satisfying
      `p`, as an index of `queue`. */
  function EarliestWhere(queue: seq<Job>, p: Job -> bool): (r: Option<nat>)
    ensures r.None? <==> forall i :: 0 <= i < |queue| ==> !p(queue[i])
    ensures r.Some? ==> r.value < |queue| && p(queue[r.value])
    ensures r.Some? ==> forall i :: 0 <= i < |queue| && p(queue[i]) ==> queue[r.value].createdAt <= queue[i].createdAt
  {
    if |queue| == 0 then None
    else
      var rest := EarliestWhere(queue[1..], p);
      if !p(queue[0]) then (if rest.None? then None else Some(rest.value + 1))
      else if rest.Some? && queue[rest.value + 1].createdAt < queue[0].createdAt then Some(rest.value + 1)
      else Some(0)
  }

  /** A queued job with exactly priority `level`. */
  function QueuedAt(level: int): Job -> bool {
    (j: Job) => j.status == Queued && j.priority == Some(level)
  }

  /** A queued job at one of the three levels the lookups ask for. */
  predicate QueuedAtLevel(j: Job) {
    QueuedAt(1)(j) || QueuedAt(5)(j) || QueuedAt(10)(j)
  }

  /** `findNextJobToProcess` as written: the oldest queued job of priority
      1, else of priority 5, else of priority 10. */
  function NextJobAsWritten(queue: seq<Job>): (r: Option<Job>)
    ensures r.None? <==> forall i :: 0 <= i < |queue| ==> !QueuedAtLevel(queue[i])
    ensures r.Some? ==> (r.value in queue && r.value.status == Queued &&
      r.value.priority in {Some(1), Some(5), Some(10)})
    ensures r.Some? ==> forall i :: 0 <= i < |queue| && QueuedAtLevel(queue[i]) ==>
      r.value.priority.value <= queue[i].priority.value
    ensures r.Some? ==> forall i :: 0 <= i < |queue| && QueuedAt(r.value.priority.value)(queue[i]) ==>
      r.value.createdAt <= queue[i].createdAt
  {
    match EarliestWhere(queue, QueuedAt(1))
    case Some(i) => Some(queue[i])
    case None =>
      match EarliestWhere(queue, QueuedAt(5))
      case Some(i) => Some(queue[i])
      case None =>
        match EarliestWhere(queue, QueuedAt(10))
        case Some(i) => Some(queue[i])
        case None => None
  }

  /** A queued job of priority 2 is never picked: the lookups ask for the
      three exact values 1, 5 and 10 although the bands they stand for are
      1-3, 4-6 and 7-10. */
  lemma NextJobSkipsOtherPriorities(job: Job)
    requires job.status == Queued && job.priority == Some(2)
    ensures NextJobAsWritten([job]) == None
    ensures NextJobByBand([job]) == Some(job)
  {
  }

  /** Priority bands: 1-3 high, 4-6 normal, 7-10 low. */
  function QueuedInBand(lo: int, hi: int): Job -> bool {
    (j: Job) => j.status == Queued && j.priority.Some? && lo <= j.priority.value <= hi
  }

  /** Next-job selection over the priority bands: the oldest queued job of
      the highest non-empty band. Every queued job with a priority from 1
      to 10 can be chosen. */
  function NextJobByBand(queue: seq<Job>): (r: Option<Job>)
    ensures r.None? <==> forall i :: 0 <= i < |queue| ==> !QueuedInBand(1, 10)(queue[i])
    ensures r.Some? ==> r.value in queue && QueuedInBand(1, 10)(r.value)
    ensures r.Some? ==> forall i :: 0 <= i < |queue| && QueuedInBand(1, 10)(queue[i]) ==>
      Band(r.value.priority.value) <= Band(queue[i].priority.value)
    ensures r.Some? ==> forall i :: (0 <= i < |queue| && QueuedInBand(1, 10)(queue[i]) &&
      Band(queue[i].priority.value) == Band(r.value.priority.value)) ==> r.value.createdAt <= queue[i].createdAt
  {
    match EarliestWhere(queue, QueuedInBand(1, 3))
    case Some(i) => Some(queue[i])
    case None =>
      match EarliestWhere(queue, QueuedInBand(4, 6))
      case Some(i) => Some(queue[i])
      case None =>
        match EarliestWhere(queue, QueuedInBand(7, 10))
        case Some(i) => Some(queue[i])
        case None => None
  }

  /** Every queued job with a priority uses one of the levels 1, 5 and 10. */
  predicate StandardLevels(queue: seq<Job>) {
    forall i :: 0 <= i < |queue| && queue[i].status == Queued && queue[i].priority.Some? ==>
      queue[i].priority.value in {1, 5, 10}
  }

  /** Two conditions that agree on every job of the queue choose the same job. */
  lemma {:induction false} EarliestWhereSame(queue: seq<Job>, p: Job -> bool, q: Job -> bool)
    requires forall i :: 0 <= i < |queue| ==> p(queue[i]) == q(queue[i])
    ensures EarliestWhere(queue, p) == EarliestWhere(queue, q)
  {
    if |queue| > 0 {
      EarliestWhereSame(queue[1..], p, q);
    }
  }

  /** On a queue that uses only the levels 1, 5 and 10, the lookups as
      written choose what the band selection chooses. */
  lemma AsWrittenAgreesOnStandardLevels(queue: seq<Job>)
    requires StandardLevels(queue)
    ensures NextJobAsWritten(queue) == NextJobByBand(queue)
  {
    EarliestWhereSame(queue, QueuedAt(1), QueuedInBand(1, 3));
    EarliestWhereSame(queue, QueuedAt(5), QueuedInBand(4, 6));
    EarliestWhereSame(queue, QueuedAt(10), QueuedInBand(7, 10));
  }

  /** 0 for high, 1 for normal, 2 for low priority. */
  function Band(priority: int): int {
    if priority <= 3 then 0 else if priority <= 6 then 1 else 2
  }

  // ---------------------------------------------------------------------
  // Health

  datatype Health = Healthy | Degraded | Critical

  function Severity(h: Health): int {
    match h
    case Healthy => 0
    case Degraded => 1
    case Critical => 2
  }

  /** `getHealthStatus`: CRITICAL above 5000 queued or 500 failed jobs,
      DEGRADED above 1000 queued or 100 failed, else HEALTHY. */
  function HealthStatus(queued: int, failed: int): (h: Health)
    ensures h == Critical <==> queued > 5000 || failed > 500
    ensures h == Healthy <==> queued <= 1000 && failed <= 100
  {
    var status := if queued > 1000 || failed > 100 then Degraded else Healthy;
    if queued > 5000 || failed > 500 then Critical else status
  }

  /** More queued or failed jobs never make the status better. */
  lemma HealthMonotone(q1: int, f1: int, q2: int, f2: int)
    requires q1 <= q2 && f1 <= f2
    ensures Severity(HealthStatus(q1, f1)) <= Severity(HealthStatus(q2, f2))
  {
  }

  datatype HealthReport = HealthReport(totalJobs: nat, queuedJobs: nat, runningJobs: nat, failedJobs: nat,
                                       systemLoad: nat, status: Health)

  function CountStatus(jobs: seq<Job>, s: Status): (n: nat)
    ensures n <= |jobs|
  {
    if |jobs| == 0 then 0 else CountStatus(jobs[1..], s) + (if jobs[0].status == s then 1 else 0)
  }

  /** The health report of a job table listed as `jobs`: the load is the
      queued plus the running jobs. */
  function HealthOf(jobs: seq<Job>): (h: HealthReport)
    ensures h.totalJobs == |jobs| && h.systemLoad == h.queuedJobs + h.runningJobs
    ensures h.queuedJobs + h.runningJobs + h.failedJobs <= h.totalJobs
    ensures h.status == HealthStatus(h.queuedJobs, h.failedJobs)
  {
    StatusCountsBounded(jobs);
    var q := CountStatus(jobs, Queued);
    var run := CountStatus(jobs, Running);
    var f := CountStatus(jobs, Failed);
    HealthReport(|jobs|, q, run, f, q + run, HealthStatus(q, f))
  }

  lemma {:induction false} StatusCountsBounded(jobs: seq<Job>)
    ensures CountStatus(jobs, Queued) + CountStatus(jobs, Running) + CountStatus(jobs, Failed) <= |jobs|
  {
    if |jobs| > 0 {
      StatusCountsBounded(jobs[1..]);
    }
  }

  /** The average duration of completed jobs that have one, 0 for none. */
  function AverageDuration(durations: seq<Option<int>>): (avg: real)
    ensures Known(durations) == [] ==> avg == 0.0
    ensures Known(durations) != [] ==> avg * |Known(durations)| as real == SumOf(Known(durations)) as real
  {
    var known := Known(durations);
    if |known| == 0 then 0.0 else SumOf(known) as real / |known| as real
  }

  function Known(ds: seq<Option<int>>): seq<int> {
    if |ds| == 0 then [] else (if ds[0].Some? then [ds[0].value] else []) + Known(ds[1..])
  }

  function SumOf(xs: seq<int>): int {
    if |xs| == 0 then 0 else xs[0] + SumOf(xs[1..])
  }
}
