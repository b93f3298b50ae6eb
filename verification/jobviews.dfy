/** Read-only views of jobs: the status response built from a job record
    and the processing-metrics summary with its derived health figures. */
module JobViews {
  import opened Wrappers
  import opened ProcessingJobs

  datatype StatusResponse = StatusResponse(
    jobId: string,
    status: Status,
    processingType: JobType,
    priority: Option<int>,
    inputBucket: string,
    inputObjectKey: string,
    outputBucket: Option<string>,
    outputObjectKey: Option<string>,
    createdAt: int,
    startedAt: Option<int>,
    completedAt: Option<int>,
    processingDurationMs: Option<int>,
    errorMessage: Option<string>,
    stackTrace: Option<string>,
    retryCount: Option<int>,
    maxRetries: Option<int>,
    metadata: Option<map<string, Option<string>>>)

  /** `fromEntity`: every field of the response is the job's field of the
      same name, so the job's fields can be read back from it. */
  function FromEntity(job: Job): (r: StatusResponse)
    ensures ToEntityFields(r, job) == job
  {
    StatusResponse(job.jobId, job.status, job.processingType, job.priority, job.inputBucket,
                   job.inputObjectKey, job.outputBucket, job.outputObjectKey, job.createdAt,
                   job.startedAt, job.completedAt, job.processingDurationMs, job.errorMessage,
                   job.stackTrace, job.retryCount, job.maxRetries, job.metadata)
  }

  /** Writes the response's fields back over a job; the user id, which the
      response does not carry, is kept from `base`. */
  function ToEntityFields(r: StatusResponse, base: Job): Job {
    base.(jobId := r.jobId, status := r.status, processingType := r.processingType, priority := r.priority,
          inputBucket := r.inputBucket, inputObjectKey := r.inputObjectKey, outputBucket := r.outputBucket,
          outputObjectKey := r.outputObjectKey, createdAt := r.createdAt, startedAt := r.startedAt,
          completedAt := r.completedAt, processingDurationMs := r.processingDurationMs,
          errorMessage := r.errorMessage, stackTrace := r.stackTrace, retryCount := r.retryCount,
          maxRetries := r.maxRetries, metadata := r.metadata)
  }

  /** `isTerminal`: COMPLETED, FAILED or CANCELLED. */
  predicate IsTerminal(s: Status) {
    s == Completed || s == Failed || s == Cancelled
  }

  predicate IsRunning(s: Status) {
    s == Running
  }

  /** A running job is never terminal, and a job is in exactly one of
      running, terminal, or waiting (QUEUED or RETRY). */
  lemma RunningIsNotTerminal(s: Status)
    ensures !(IsRunning(s) && IsTerminal(s))
    ensures IsRunning(s) || IsTerminal(s) || s == Queued || s == Retry
  {
  }

  /** Every terminal job state is reachable by the job's own transitions
      from a running job. */
  lemma TerminalStatesReachable(job: Job, msg: Option<string>, trace: Option<string>, now: int)
    ensures IsTerminal(MarkAsCompleted(job, now).status) && IsTerminal(MarkAsFailed(job, msg, trace, now).status)
    ensures !IsTerminal(MarkAsStarted(job, now).status) && IsRunning(MarkAsStarted(job, now).status)
  {
  }

  /** `getStatusDescription`: one fixed sentence per status; a failed job
      gives its error or "Unknown error"; RETRY has no case of its own. */
  function StatusDescription(r: StatusResponse): (d: string)
    ensures r.status == Failed ==> d == "Processing failed: " + r.errorMessage.GetOr("Unknown error")
    ensures r.status == Retry <==> d == "Unknown status"
  {
    match r.status
    case Queued => "Job submitted and waiting to be processed"
    case Running => "Processing in progress"
    case Completed => "Processing completed successfully"
    case Failed => "Processing failed: " + r.errorMessage.GetOr("Unknown error")
    case Cancelled => "Job was cancelled"
    case Retry => "Unknown status"
  }

  /** The assumed running time of a job: five minutes in milliseconds. */
  const EstimatedTotalMs: int := 5 * 60 * 1000

  /** `getEstimatedTimeRemainingMs`: only for a running job with a start
      time, the part of five minutes not yet elapsed, never negative. */
  function EstimatedTimeRemaining(r: StatusResponse, now: int): (t: Option<int>)
    ensures t.Some? <==> IsRunning(r.status) && r.startedAt.Some?
    ensures t.Some? ==> 0 <= t.value <= EstimatedTotalMs || now < r.startedAt.value
    ensures t.Some? ==> (t.value == 0 <==> now - r.startedAt.value >= EstimatedTotalMs)
    ensures t.Some? && now >= r.startedAt.value ==> t.value + (now - r.startedAt.value) >= EstimatedTotalMs
  {
    if !IsRunning(r.status) || r.startedAt.None? then None
    else
      var elapsed := now - r.startedAt.value;
      Some(if EstimatedTotalMs - elapsed > 0 then EstimatedTotalMs - elapsed else 0)
  }

  /** The estimate never grows as time passes. */
  lemma EstimateNonIncreasing(r: StatusResponse, t1: int, t2: int)
    requires t1 <= t2 && EstimatedTimeRemaining(r, t1).Some?
    ensures EstimatedTimeRemaining(r, t2).value <= EstimatedTimeRemaining(r, t1).value
  {
  }

  // ---------------------------------------------------------------------
  // Processing metrics

  datatype SystemStatus = Healthy | Degraded | Critical {
    function Name(): string {
      match this
      case Healthy => "HEALTHY"
      case Degraded => "DEGRADED"
      case Critical => "CRITICAL"
    }
  }

  datatype MetricsResponse = MetricsResponse(
    totalJobsProcessed: int,
    totalJobsSuccessful: int,
    totalJobsFailed: int,
    successRate: real,
    averageProcessingTimeMs: real,
    activeJobs: Option<int>,
    queuedJobs: int,
    systemStatus: Option<string>,
    cpuEfficiency: Option<real>,
    memoryEfficiency: Option<real>,
    ioEfficiency: Option<real>,
    totalWorkers: Option<int>,
    averageImageQuality: Option<real>,
    totalInputDataMb: Option<int>,
    totalOutputDataMb: Option<int>)

  /** The success rate in percent, 0 when nothing was processed. */
  function SuccessRate(total: int, successful: int): (rate: real)
    ensures total <= 0 ==> rate == 0.0
    ensures total > 0 ==> rate * total as real == successful as real * 100.0
    ensures 0 < total && 0 <= successful <= total ==> 0.0 <= rate <= 100.0
  {
    if total > 0 then successful as real / total as real * 100.0 else 0.0
  }

  /** `determineSystemStatus`: HEALTHY at 95% success with fewer than 100
      queued jobs, DEGRADED at 85% with fewer than 500, CRITICAL
      otherwise. The active-job count plays no part. */
  function DetermineSystemStatus(successRate: real, queuedJobs: int): (s: SystemStatus)
    ensures s == SystemStatus.Healthy <==> successRate >= 95.0 && queuedJobs < 100
    ensures s == SystemStatus.Critical <==> successRate < 85.0 || queuedJobs >= 500
  {
    if successRate >= 95.0 && queuedJobs < 100 then SystemStatus.Healthy
    else if successRate >= 85.0 && queuedJobs < 500 then SystemStatus.Degraded
    else SystemStatus.Critical
  }

  function StatusRank(s: SystemStatus): int {
    match s
    case Healthy => 0
    case Degraded => 1
    case Critical => 2
  }

  /** A better success rate and a shorter queue never give a worse status. */
  lemma SystemStatusMonotone(rate1: real, queued1: int, rate2: real, queued2: int)
    requires rate2 <= rate1 && queued1 <= queued2
    ensures StatusRank(DetermineSystemStatus(rate1, queued1)) <= StatusRank(DetermineSystemStatus(rate2, queued2))
  {
  }

  /** `createBasic`: the counts as given, the success rate from them and
      the status from the rate and the queue. */
  function CreateBasic(total: int, successful: int, failed: int, avgTime: real, active: int, queued: int)
    : (m: MetricsResponse)
    ensures m.totalJobsProcessed == total && m.totalJobsSuccessful == successful && m.totalJobsFailed == failed
    ensures m.successRate == SuccessRate(total, successful)
    ensures m.averageProcessingTimeMs == avgTime && m.activeJobs == Some(active) && m.queuedJobs == queued
    ensures m.systemStatus == Some(DetermineSystemStatus(m.successRate, queued).Name())
    ensures IsSystemHealthy(m) <==> m.successRate >= 95.0 && queued < 100
  {
    var rate := SuccessRate(total, successful);
    MetricsResponse(total, successful, failed, rate, avgTime, Some(active), queued,
                    Some(DetermineSystemStatus(rate, queued).Name()),
                    None, None, None, None, None, None, None)
  }

  /** `isSystemHealthy`. */
  predicate IsSystemHealthy(m: MetricsResponse) {
    m.systemStatus == Some("HEALTHY")
  }

  /** With no jobs at all, the system is never reported healthy. */
  lemma EmptySystemIsCritical(avgTime: real, active: int, queued: int)
    ensures DetermineSystemStatus(CreateBasic(0, 0, 0, avgTime, active, queued).successRate, queued) == SystemStatus.Critical
    ensures !IsSystemHealthy(CreateBasic(0, 0, 0, avgTime, active, queued))
  {
  }

  /** The service's metrics: counts per status over the job table and the
      mean duration of completed jobs that have one. */
  function ProcessingMetrics(jobs: seq<Job>): (m: MetricsResponse)
    ensures m.totalJobsProcessed == |jobs|
    ensures m.totalJobsSuccessful == CountStatus(jobs, Completed) && m.totalJobsFailed == CountStatus(jobs, Failed)
    ensures 0.0 <= m.successRate <= 100.0
    ensures m.activeJobs == Some(CountStatus(jobs, Running)) && m.queuedJobs == CountStatus(jobs, Queued)
  {
    CreateBasic(|jobs|, CountStatus(jobs, Completed), CountStatus(jobs, Failed),
                AverageDuration(CompletedDurations(jobs)), CountStatus(jobs, Running), CountStatus(jobs, Queued))
  }

  function CompletedDurations(jobs: seq<Job>): seq<Option<int>> {
    if |jobs| == 0 then []
    else (if jobs[0].status == Completed then [jobs[0].processingDurationMs] else []) + CompletedDurations(jobs[1..])
  }

  /** `getOverallEfficiencyScore`: the mean of the three efficiencies as a
      percentage, or null when any is missing. */
  function OverallEfficiencyScore(m: MetricsResponse): (s: Option<real>)
    ensures s.Some? <==> m.cpuEfficiency.Some? && m.memoryEfficiency.Some? && m.ioEfficiency.Some?
    ensures (s.Some? && 0.0 <= m.cpuEfficiency.value <= 1.0 && 0.0 <= m.memoryEfficiency.value <= 1.0 &&
             0.0 <= m.ioEfficiency.value <= 1.0) ==> 0.0 <= s.value <= 100.0
  {
    if m.cpuEfficiency.None? || m.memoryEfficiency.None? || m.ioEfficiency.None? then None
    else Some((m.cpuEfficiency.value + m.memoryEfficiency.value + m.ioEfficiency.value) / 3.0 * 100.0)
  }

  /** `getCapacityUtilization`: busy workers (active jobs, null as 0) as a
      percentage of the workers, or null without workers. */
  function CapacityUtilization(m: MetricsResponse): (u: Option<real>)
    ensures u.None? <==> m.totalWorkers.None? || m.totalWorkers.value == 0
    ensures u.Some? ==> u.value * m.totalWorkers.value as real == m.activeJobs.GetOr(0) as real * 100.0
  {
    if m.totalWorkers.None? || m.totalWorkers.value == 0 then None
    else Some(m.activeJobs.GetOr(0) as real / m.totalWorkers.value as real * 100.0)
  }

  datatype Trend = Excellent | Good | Fair | Poor | Unknown

  /** `getQualityTrend`: bands at 80, 60 and 40; unknown without a
      quality figure. */
  function QualityTrend(m: MetricsResponse): (t: Trend)
    ensures t == Unknown <==> m.averageImageQuality.None?
    ensures t == Excellent <==> m.averageImageQuality.Some? && m.averageImageQuality.value >= 80.0
    ensures t == Poor <==> m.averageImageQuality.Some? && m.averageImageQuality.value < 40.0
    ensures t == Good ==> 60.0 <= m.averageImageQuality.value < 80.0
    ensures t == Fair ==> 40.0 <= m.averageImageQuality.value < 60.0
  {
    if m.averageImageQuality.None? then Unknown
    else if m.averageImageQuality.value >= 80.0 then Excellent
    else if m.averageImageQuality.value >= 60.0 then Good
    else if m.averageImageQuality.value >= 40.0 then Fair
    else Poor
  }

  /** `getDataEfficiency`: output over input volume; null without both
      figures or with no input. */
  function DataEfficiency(m: MetricsResponse): (e: Option<real>)
    ensures e.None? <==> m.totalInputDataMb.None? || m.totalOutputDataMb.None? || m.totalInputDataMb.value == 0
    ensures e.Some? ==> e.value * m.totalInputDataMb.value as real == m.totalOutputDataMb.value as real
  {
    if m.totalInputDataMb.None? || m.totalOutputDataMb.None? || m.totalInputDataMb.value == 0 then None
    else Some(m.totalOutputDataMb.value as real / m.totalInputDataMb.value as real)
  }
}
