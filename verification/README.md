# astro-data-pipeline, modelled in Dafny

This project models the sequential logic of an astronomical data pipeline and
proves properties about it. The pipeline has four parts:

- a synthetic FITS image generator, written in Python;
- a Java image processor. It runs calibration steps, custom workflows of
  granular steps with intermediate results in S3, a job queue, and a registry
  of workflow versions with activation, rollback and A/B traffic splits;
- a Java catalog service. It handles coordinate rules, cone search,
  cross-matching, catalog quality assessment and variable-star analysis;
- Airflow operators and DAGs that build requests for the processor and judge
  data quality.

Every operation is a pure function over immutable values, or a method with loop
invariants where the source iterates. Maps of entities stand for the
repositories and for the object store. Exceptions become the `Failure` case of
a `Result` that carries the message the code throws. Java doubles are `real`.
NaN and the infinities appear as an explicit `Num` datatype wherever the code
can reach them.

The model leaves some functions uninterpreted and takes them as parameters:

- the square root, `exp`, `pow`, trigonometry and angular distances, each
  constrained only by the facts the proofs need;
- random draws;
- clock readings;
- hash-map iteration order.

| file | module | models |
|---|---|---|
| wrappers.dfy | Wrappers | `Option` and `Result` |
| javatext.dfy | JavaText | the `java.lang.String` operations the code relies on: `split` (with trailing empty strings removed, and with a limit of 2), `trim`, ASCII case conversion, `indexOf`, decimal formatting |
| pyvalues.dfy | PyValues | Python values as the Airflow code sees them: truthiness, `dict.get`, type names |
| numerics.dfy | Numerics | truncation toward zero, as Python's `int()` on a float and Java's `(long)` cast and `longValue()` do |
| sorting.dfy | Sorting | a stable sort by key, standing for `Comparator`-based sorts and `sorted` |
| fitsgen.dfy | FitsGenerator | application/data-simulator/fits_generator.py |
| workflowversions.dfy | WorkflowVersions | the `WorkflowVersion` model class and the registry keys of the com-package `WorkflowVersionService` |
| workflowservice.dfy | WorkflowService | activation, deactivation, rollback, defaults and history in the com-package `WorkflowVersionService` |
| trafficsplit.dfy | TrafficSplitService | traffic validation, A/B setup, version selection, metric deltas and recommendations in the org-package `WorkflowVersionService` |
| jobs.dfy | ProcessingJobs | the `ProcessingJob` entity and `ProcessingJobService` |
| jobviews.dfy | JobViews | `ProcessingMetricsResponse` and `JobStatusResponse` |
| s3service.dfy | S3Storage | path parsing and the object operations of `S3Service` |
| intermediatestorage.dfy | IntermediateStorage | `IntermediateStorageService` |
| customworkflow.dfy | CustomWorkflow | the custom-workflow engine of `GranularProcessingService` |
| algorithms.dfy | AlgorithmRegistry | `AlgorithmRegistryService` |
| processingcontext.dfy | ProcessingContexts | the `ProcessingContext` model class |
| astroutils.dfy | AstroUtils | the image processor's `AstronomicalUtils` |
| astrocalc.dfy | AstroCalc | the catalog service's `AstronomicalCalculations` |
| catalogsearch.dfy | CatalogSearch | `CatalogService` |
| fitsprocessing.dfy | FitsProcessing | the org-package `FitsProcessingService` |
| catalogquality.dfy | CatalogQuality | `CatalogQualityAssessment` |
| variability.dfy | Variability | `VariableStarAnalysis` |
| granularoperators.dfy | GranularOperators | airflow/plugins/granular_processing_operators.py |
| researchdag.dfy | ResearchDag | airflow/dags/research_processing_dag.py |
| qualitymonitoring.dfy | QualityMonitoring | airflow/dags/data_quality_monitoring.py |

## Model

| member | source | states |
|---|---|---|
| FitsGenerator.MagnitudeToFlux | application/data-simulator/fits_generator.py:358-364 | the flux is at least one electron, and it is exactly 10^((25 − mag)/2.5) whenever that value is at least one |
| FitsGenerator.FluxNonIncreasing | application/data-simulator/fits_generator.py:358-364 | for any increasing power-of-ten function, a fainter magnitude never gets more flux than a brighter one |
| FitsGenerator.FieldAreaArcmin2 | application/data-simulator/fits_generator.py:153-154 | the frame area is the pixel count times the square of the pixel scale in arcminutes |
| FitsGenerator.StampSize | application/data-simulator/fits_generator.py:260-262 | the stamp side is always odd; for a non-negative scale it is at least 1 and lies in (6·scale, 6·scale + 2] |
| FitsGenerator.StampCenter | application/data-simulator/fits_generator.py:264 | an odd stamp has its centre index in the exact middle: size = 2·centre + 1 |
| FitsGenerator.ProfileStamp | application/data-simulator/fits_generator.py:265-268 | the stamp is a size × size grid and entry (i, j) is the profile at offset (j − centre, i − centre) |
| FitsGenerator.Scale | application/data-simulator/fits_generator.py:269 | multiplying every pixel by k keeps the shape and multiplies the total by k |
| FitsGenerator.Normalize | application/data-simulator/fits_generator.py:269 | the normalised stamp sums exactly to the requested flux and every pixel keeps its share of the raw total |
| FitsGenerator.ProfileStampPositive | application/data-simulator/fits_generator.py:268 | a profile that is positive everywhere has a positive stamp total, so the normalisation never divides by zero |
| FitsGenerator.SourceStamp | application/data-simulator/fits_generator.py:258-269 | the source stamp is a size × size grid summing exactly to the flux, each pixel proportional to the profile |
| FitsGenerator.ClipAxis | application/data-simulator/fits_generator.py:272-286 | the canvas range lies in [0, extent) and is exactly the overlap with the stamp; the stamp range has the same length, is offset by the origin, and lies in [0, size) when non-empty |
| FitsGenerator.AddStamp | application/data-simulator/fits_generator.py:271-290 | pixels under the stamp gain exactly the matching stamp value; every other pixel, and the whole frame when the overlap is empty, is unchanged |
| FitsGenerator.AddSource | application/data-simulator/fits_generator.py:254-290 | a star or galaxy adds a stamp holding exactly its flux at the truncated corner, changing only the covered pixels |
| FitsGenerator.Deposit | application/data-simulator/fits_generator.py:244 | each step of a track deposits between 0 and the full energy, because the step index is below the track length |
| FitsGenerator.TrackEnergy | application/data-simulator/fits_generator.py:236-244 | the energy a track leaves on any pixel is never negative |
| FitsGenerator.AddCosmicRay | application/data-simulator/fits_generator.py:236-244 | the frame keeps its shape, each pixel gains exactly the energy of the in-bounds steps landing on it, and no pixel decreases |
| FitsGenerator.ClipPixel | application/data-simulator/fits_generator.py:125-127 | the clipped value never exceeds the saturation level, is non-negative, and equals value/gain when that already lies in range |
| FitsGenerator.ToAdu | application/data-simulator/fits_generator.py:124-127 | every final pixel lies in [0, saturation], and pixels already in range are just divided by the gain |
| FitsGenerator.AduCount | application/data-simulator/fits_generator.py:139 | the 16-bit conversion truncates a clipped pixel to the whole number just below it |
| FitsGenerator.DefaultSaturationFitsUint16 | application/data-simulator/fits_generator.py:57 | with the default saturation level of 65000, every stored pixel fits in an unsigned 16-bit integer |
| FitsGenerator.CreateWcs | application/data-simulator/fits_generator.py:366-384 | crpix is the image centre, crval is (ra, dec), cdelt is (−s, s) with s the pixel scale in degrees, and the axes are TAN in degrees |
| WorkflowVersions.EffectiveTraffic | application/image-processor/src/main/java/com/mcgeecahill/astro/processor/model/WorkflowVersion.java:108-110 | the effective traffic is 0 for an inactive version or one without a share, and otherwise it is the share |
| WorkflowVersions.AlgorithmName | application/image-processor/src/main/java/com/mcgeecahill/astro/processor/model/WorkflowVersion.java:122-127 | the name is "default" when there is no configuration or no "algorithm" entry, and otherwise it is that entry's text |
| WorkflowVersions.NumericEntry | application/image-processor/src/main/java/com/mcgeecahill/astro/processor/model/WorkflowVersion.java:132-152 | a metric getter yields a value exactly when the map exists and holds a number under the key, and then it yields that number |
| WorkflowVersions.UsageCount | application/image-processor/src/main/java/com/mcgeecahill/astro/processor/model/WorkflowVersion.java:158-166 | the usage count is 0 when it is missing or not numeric; otherwise it is the statistic truncated toward zero: the whole number at or below a non-negative value, and at or above a negative one, within one of it |
| WorkflowVersions.TruncationIsUnique | application/image-processor/src/main/java/com/mcgeecahill/astro/processor/model/WorkflowVersion.java:162-163 | exactly one whole number lies within one of a value on the side of zero, so those bounds determine `longValue` |
| WorkflowVersions.CreateActive | application/image-processor/src/main/java/com/mcgeecahill/astro/processor/model/WorkflowVersion.java:171-187 | a new version is active, not the default, at 100% traffic, stamped now, with zero usage and the default algorithm name |
| WorkflowVersions.LookupAsWritten | application/image-processor/src/main/java/com/mcgeecahill/astro/processor/service/WorkflowVersionService.java:63-67 | a lookup in the string-keyed registry succeeds exactly when the formatted key is present |
| WorkflowVersions.BuildKeyCollision | application/image-processor/src/main/java/com/mcgeecahill/astro/processor/service/WorkflowVersionService.java:370-372 | the keys of ("a", "b_c") and ("a_b", "c") coincide, so a lookup for one returns the other |
| WorkflowVersions.Lookup | application/image-processor/src/main/java/com/mcgeecahill/astro/processor/service/WorkflowVersionService.java:63-67 | in a registry keyed by the (name, version, type) triple, a lookup finds exactly the version with that identity, or nothing |
| WorkflowVersions.DeactivateOthers | application/image-processor/src/main/java/com/mcgeecahill/astro/processor/service/WorkflowVersionService.java:374-388 | only active versions of the same name and type outside the exclusions are switched off at 0 traffic; every other entry is unchanged |
| WorkflowVersions.SetAsDefault | application/image-processor/src/main/java/com/mcgeecahill/astro/processor/service/WorkflowVersionService.java:391-405 | within the workflow exactly the named version is default; other workflows and all other fields are unchanged |
| WorkflowVersions.Candidates | application/image-processor/src/main/java/com/mcgeecahill/astro/processor/service/WorkflowVersionService.java:337-339 | the candidates are exactly the listed versions that are active and belong to the workflow and type |
| WorkflowVersions.HistoryKeyInjective | application/image-processor/src/main/java/com/mcgeecahill/astro/processor/service/WorkflowVersionService.java:409 | two history keys are equal only for the same workflow name and type |
| WorkflowVersions.LogActivation | application/image-processor/src/main/java/com/mcgeecahill/astro/processor/service/WorkflowVersionService.java:407-427 | the new entry goes first, older entries follow in order, the list is capped at 100, and other workflows' histories are unchanged |
| WorkflowVersions.WorkflowHistory | application/image-processor/src/main/java/com/mcgeecahill/astro/processor/service/WorkflowVersionService.java:322-330 | a negative limit fails; otherwise the result is the first min(limit, length) entries of that workflow's history |
| WorkflowService.Activate | application/image-processor/src/main/java/com/mcgeecahill/astro/processor/service/WorkflowVersionService.java:74-127 | an unknown version or a share other than none, 0 or 100 fails; on success the target is active with the requested share (or 100), production leaves it the only active version, default moves only on request, every other version is as before apart from the switch-off and its default flag, other workflows are untouched, and the activation is logged |
| WorkflowService.ActivatedTarget | application/image-processor/src/main/java/com/mcgeecahill/astro/processor/service/WorkflowVersionService.java:107-116 | the stamped target is active with the requested share and stamps, and default flags change only when asked |
| WorkflowService.ActivatedOthers | application/image-processor/src/main/java/com/mcgeecahill/astro/processor/service/WorkflowVersionService.java:84-104 | when others are switched off no other version of the workflow stays active, and other workflows are untouched |
| WorkflowService.Deactivate | application/image-processor/src/main/java/com/mcgeecahill/astro/processor/service/WorkflowVersionService.java:133-156 | an unknown version fails; otherwise only the target changes, becoming inactive at 0 traffic with the deactivation stamps, and the change is logged |
| WorkflowService.Rollback | application/image-processor/src/main/java/com/mcgeecahill/astro/processor/service/WorkflowVersionService.java:295-316 | an unknown target fails; otherwise the target is the only active version of the workflow, at 100%, with the reason prefixed "Rollback: "; every other version is only switched off if it was active, and other workflows are untouched |
| WorkflowService.LatestIndex | application/image-processor/src/main/java/com/mcgeecahill/astro/processor/service/WorkflowVersionService.java:352-364 | the chosen candidate has the latest activation time, a missing time counting as earliest, and it is the first candidate with that time |
| WorkflowService.ActiveForProcessing | application/image-processor/src/main/java/com/mcgeecahill/astro/processor/service/WorkflowVersionService.java:335-365 | no active version gives none; otherwise the result is an active version of the workflow activated no earlier than any other |
| WorkflowService.ProductionActivationIsSelected | application/image-processor/src/main/java/com/mcgeecahill/astro/processor/service/WorkflowVersionService.java:84-94 | after a production activation, processing selects exactly the activated version |
| WorkflowService.RollbackIsSelected | application/image-processor/src/main/java/com/mcgeecahill/astro/processor/service/WorkflowVersionService.java:298-307 | after a rollback, processing selects exactly the rollback target |
| TrafficSplitService.SumOtherTraffic | application/image-processor/src/main/java/org/stsci/astro/processor/service/WorkflowVersionService.java:361-369 | the loop's total is the traffic of the other active versions of the workflow, whatever order the registry yields its keys in |
| TrafficSplitService.Activate | application/image-processor/src/main/java/org/stsci/astro/processor/service/WorkflowVersionService.java:67-112 | an unknown version fails with its key; a share outside [0, 100] fails before any change; otherwise activation succeeds exactly when others are switched off or the other active traffic plus the new share stays within 100.01, and then the workflow's total traffic stays within 100.01, the target is active with its share and stamped with who, why and when, the default moves to it alone when asked and stays put otherwise, every other version is exactly as the optional switch-off left it apart from that default flag, and other workflows are untouched |
| TrafficSplitService.ActivatedTraffic | application/image-processor/src/main/java/org/stsci/astro/processor/service/WorkflowVersionService.java:361-376 | after activation the workflow's total traffic is the other versions' traffic plus the new share, the quantity the validation bounds |
| TrafficSplitService.SetupAbTest | application/image-processor/src/main/java/org/stsci/astro/processor/service/WorkflowVersionService.java:194-245 | shares not summing to 100 within 0.01 fail first, then a missing A or B; on success A and B are the only active versions of the workflow with their shares, both stamped with the performer, the time and the reason prefixed "A/B test setup: "; every other version is exactly as switching off the other active versions (zero traffic, deactivation time) left it, other workflows are untouched, and an "ab-test" entry heads the history |
| TrafficSplitService.AbVersionsShape | application/image-processor/src/main/java/org/stsci/astro/processor/service/WorkflowVersionService.java:210-223 | after the A/B stamps, A and B are active with their shares and no other version of the workflow is active |
| TrafficSplitService.HashCode | application/image-processor/src/main/java/org/stsci/astro/processor/service/WorkflowVersionService.java:418 | the hash is a signed 32-bit value congruent modulo 2^32 to the polynomial string hash |
| TrafficSplitService.JavaAbs | application/image-processor/src/main/java/org/stsci/astro/processor/service/WorkflowVersionService.java:418 | the absolute value of Integer.MIN_VALUE is itself; every other value maps to its magnitude |
| TrafficSplitService.JavaRem | application/image-processor/src/main/java/org/stsci/astro/processor/service/WorkflowVersionService.java:419 | the remainder takes the sign of the dividend |
| TrafficSplitService.NormalizedHash | application/image-processor/src/main/java/org/stsci/astro/processor/service/WorkflowVersionService.java:418-419 | the normalised hash lies in [0, 99.99] except for a hash of Integer.MIN_VALUE, which gives −36.48 |
| TrafficSplitService.MinimalHashExists | application/image-processor/src/main/java/org/stsci/astro/processor/service/WorkflowVersionService.java:418-419 | the session id "GydZG_" hashes to Integer.MIN_VALUE, so the negative case is reachable |
| TrafficSplitService.FirstCovering | application/image-processor/src/main/java/org/stsci/astro/processor/service/WorkflowVersionService.java:421-427 | the scan stops at the first version whose running total reaches the normalised hash, or finds none |
| TrafficSplitService.SelectByTrafficSplit | application/image-processor/src/main/java/org/stsci/astro/processor/service/WorkflowVersionService.java:416-431 | an empty list gives nothing; otherwise the result is a member of the list: the first whose running total covers the hash, or the first version as the fallback |
| TrafficSplitService.TwoWaySplit | application/image-processor/src/main/java/org/stsci/astro/processor/service/WorkflowVersionService.java:416-431 | with two versions whose shares add up to at least 99.99, a session goes to A when its hash is within A's share and to B otherwise |
| TrafficSplitService.MinimalHashPicksFirst | application/image-processor/src/main/java/org/stsci/astro/processor/service/WorkflowVersionService.java:418-431 | the session hashing to Integer.MIN_VALUE always goes to the first version |
| TrafficSplitService.ActiveForProcessing | application/image-processor/src/main/java/org/stsci/astro/processor/service/WorkflowVersionService.java:320-338 | a null share that the name-then-share sort compares throws; otherwise no active version of the workflow gives nothing, a single one is returned, and several are split by session in share-descending order |
| TrafficSplitService.SortedFirstHasLargestShare | application/image-processor/src/main/java/org/stsci/astro/processor/service/WorkflowVersionService.java:34-41 | after the sort the first candidate of the workflow carries the largest share |
| TrafficSplitService.FallbackIsLargestShare | application/image-processor/src/main/java/org/stsci/astro/processor/service/WorkflowVersionService.java:320-338 | a session that no running total covers goes to a version with the largest share of the workflow |
| TrafficSplitService.MetricsDelta | application/image-processor/src/main/java/org/stsci/astro/processor/service/WorkflowVersionService.java:433-459 | a null map gives no deltas; otherwise exactly the keys numeric in both maps get a delta whose change is comparison − baseline and whose percentage is relative to the baseline, 0 for a zero baseline |
| TrafficSplitService.DeltaOf | application/image-processor/src/main/java/org/stsci/astro/processor/service/WorkflowVersionService.java:442-446 | one delta: comparison = baseline + change, and percent · baseline = change · 100, with 0% for a zero baseline |
| TrafficSplitService.MeanPercentChange | application/image-processor/src/main/java/org/stsci/astro/processor/service/WorkflowVersionService.java:465-483 | the average of the percentage changes, 0 when there are none |
| TrafficSplitService.Recommend | application/image-processor/src/main/java/org/stsci/astro/processor/service/WorkflowVersionService.java:488-498 | a recommendation exactly when both gains exceed 5 or either exceeds 10; "not recommended" exactly when there is no recommendation and either loss exceeds 10; "neutral" otherwise |
| TrafficSplitService.GainMasksLoss | application/image-processor/src/main/java/org/stsci/astro/processor/service/WorkflowVersionService.java:488-494 | a large gain in one dimension is recommended even alongside a large loss in the other |
| TrafficSplitService.SelfComparisonIsNeutral | application/image-processor/src/main/java/org/stsci/astro/processor/service/WorkflowVersionService.java:433-498 | comparing a version with itself gives 0% changes and a neutral verdict |
| ProcessingJobs.BuildJob | application/image-processor/src/main/java/org/stsci/astro/processor/entity/ProcessingJob.java:59-69 | a job built from its required fields has priority 5, retry count 0 and at most 3 retries, with no error, start, end or duration |
| ProcessingJobs.CanRetry | application/image-processor/src/main/java/org/stsci/astro/processor/entity/ProcessingJob.java:203-205 | unboxing a missing count or limit throws; otherwise a retry is allowed exactly when retries remain and the status is FAILED or RETRY |
| ProcessingJobs.IncrementRetryCount | application/image-processor/src/main/java/org/stsci/astro/processor/entity/ProcessingJob.java:207-209 | the count becomes one more than before, a missing count counting as 0, and nothing else changes |
| ProcessingJobs.MarkAsStarted | application/image-processor/src/main/java/org/stsci/astro/processor/entity/ProcessingJob.java:211-214 | the job is RUNNING with the start time set, and nothing else changes |
| ProcessingJobs.EndDuration | application/image-processor/src/main/java/org/stsci/astro/processor/entity/ProcessingJob.java:219-221 | the recorded duration is the time since the start when the job started, and is left alone otherwise |
| ProcessingJobs.MarkAsCompleted | application/image-processor/src/main/java/org/stsci/astro/processor/entity/ProcessingJob.java:216-222 | the job is COMPLETED at the given time; its duration is set only when it has a start time; nothing else changes |
| ProcessingJobs.MarkAsFailed | application/image-processor/src/main/java/org/stsci/astro/processor/entity/ProcessingJob.java:224-232 | the job is FAILED at the given time with the message and trace recorded, the duration set only when it started, and nothing else changed |
| ProcessingJobs.GenerateJobId | application/image-processor/src/main/java/org/stsci/astro/processor/service/ProcessingJobService.java:320-322 | the id is "job_" followed by the first 12 characters of the hyphen-free UUID, and a UUID with fewer than 12 such characters throws |
| ProcessingJobs.SubmitJob | application/image-processor/src/main/java/org/stsci/astro/processor/service/ProcessingJobService.java:44-77 | a submitted job is stored under its new id, QUEUED, with retry count 0, the requested priority or 5, the requested limit or 3, and the request's locations, type and parameters |
| ProcessingJobs.SubmitBatch | application/image-processor/src/main/java/org/stsci/astro/processor/service/ProcessingJobService.java:260-274 | the batch result has exactly the request's keys, each mapped to the id of a job now stored; existing jobs stay |
| ProcessingJobs.CancelJob | application/image-processor/src/main/java/org/stsci/astro/processor/service/ProcessingJobService.java:116-137 | an unknown job or a COMPLETED job throws; a CANCELLED job is returned unchanged; any other job becomes CANCELLED with the end time and the message "Job cancelled by user" |
| ProcessingJobs.CancelIdempotent | application/image-processor/src/main/java/org/stsci/astro/processor/service/ProcessingJobService.java:124-127 | cancelling a job a second time, at any time, changes nothing |
| ProcessingJobs.RetryJob | application/image-processor/src/main/java/org/stsci/astro/processor/service/ProcessingJobService.java:142-165 | an unknown or non-FAILED job throws; a retry succeeds exactly while the count is below the limit, and sets QUEUED, adds one to the count and clears the error and timestamps |
| ProcessingJobs.RetryAgreesWithCanRetry | application/image-processor/src/main/java/org/stsci/astro/processor/service/ProcessingJobService.java:146-152 | for a failed job, the service's retry rule agrees with the job's own canRetry |
| ProcessingJobs.RetriesAreBounded | application/image-processor/src/main/java/org/stsci/astro/processor/service/ProcessingJobService.java:150-152 | a job that fails after every retry is retried at most maxRetries times |
| ProcessingJobs.RetryRunCounts | application/image-processor/src/main/java/org/stsci/astro/processor/service/ProcessingJobService.java:150-155 | a run of retries starting from count c has at most maxRetries − c steps |
| ProcessingJobs.EarliestWhere | application/image-processor/src/main/java/org/stsci/astro/processor/service/ProcessingJobService.java:281-283 | the chosen job satisfies the filter and was created no later than any other that does; none is chosen only when no job does |
| ProcessingJobs.NextJobAsWritten | application/image-processor/src/main/java/org/stsci/astro/processor/service/ProcessingJobService.java:280-302 | nothing is chosen exactly when no job is queued with priority exactly 1, 5 or 10; otherwise the chosen job has the lowest of those levels present and was created no later than any other queued job of its level |
| ProcessingJobs.NextJobSkipsOtherPriorities | application/image-processor/src/main/java/org/stsci/astro/processor/service/ProcessingJobService.java:281-301 | a lone queued job of priority 2 is never picked as written, while the banded rule picks it |
| ProcessingJobs.NextJobByBand | application/image-processor/src/main/java/org/stsci/astro/processor/service/ProcessingJobService.java:280-302 | any queued job of priority 1 to 10 can be chosen; the chosen one is in the best band present and was created no later than any other queued job of that band |
| ProcessingJobs.AsWrittenAgreesOnStandardLevels | application/image-processor/src/main/java/org/stsci/astro/processor/service/ProcessingJobService.java:280-302 | on a queue whose priorities are only 1, 5 and 10, the lookups as written choose the same job as the band selection |
| ProcessingJobs.HealthStatus | application/image-processor/src/main/java/org/stsci/astro/processor/service/ProcessingJobService.java:388-396 | CRITICAL exactly above 5000 queued or 500 failed jobs; HEALTHY exactly at or below 1000 queued and 100 failed |
| ProcessingJobs.HealthMonotone | application/image-processor/src/main/java/org/stsci/astro/processor/service/ProcessingJobService.java:388-396 | more queued or failed jobs never give a better status |
| ProcessingJobs.CountStatus | application/image-processor/src/main/java/org/stsci/astro/processor/service/ProcessingJobService.java:376-379 | a status count never exceeds the number of jobs |
| ProcessingJobs.HealthOf | application/image-processor/src/main/java/org/stsci/astro/processor/service/ProcessingJobService.java:373-399 | the report counts the jobs, its load is queued plus running, the counts fit in the total, and the status follows the thresholds |
| ProcessingJobs.StatusCountsBounded | application/image-processor/src/main/java/org/stsci/astro/processor/service/ProcessingJobService.java:376-379 | the queued, running and failed counts together never exceed the number of jobs |
| ProcessingJobs.AverageDuration | application/image-processor/src/main/java/org/stsci/astro/processor/service/ProcessingJobService.java:244-250 | the average is over the jobs with a recorded duration, and 0 when there are none |
| JobViews.FromEntity | application/image-processor/src/main/java/com/mcgeecahill/astro/processor/dto/JobStatusResponse.java:69-94 | every field of the job can be read back unchanged from the response |
| JobViews.RunningIsNotTerminal | application/image-processor/src/main/java/com/mcgeecahill/astro/processor/dto/JobStatusResponse.java:99-110 | no status is both running and terminal, and every status is running, terminal, QUEUED or RETRY |
| JobViews.TerminalStatesReachable | application/image-processor/src/main/java/com/mcgeecahill/astro/processor/dto/JobStatusResponse.java:99-110 | completing or failing a job makes it terminal, while starting it makes it running and not terminal |
| JobViews.StatusDescription | application/image-processor/src/main/java/com/mcgeecahill/astro/processor/dto/JobStatusResponse.java:115-130 | a failed job's description carries its error or "Unknown error"; RETRY, and only RETRY, falls to "Unknown status" |
| JobViews.EstimatedTimeRemaining | application/image-processor/src/main/java/com/mcgeecahill/astro/processor/dto/JobStatusResponse.java:135-147 | an estimate exists exactly for a running job with a start time; it is the unelapsed part of five minutes, never negative, and 0 exactly once five minutes have passed |
| JobViews.EstimateNonIncreasing | application/image-processor/src/main/java/com/mcgeecahill/astro/processor/dto/JobStatusResponse.java:135-147 | the estimate never grows as time passes |
| JobViews.SuccessRate | application/image-processor/src/main/java/org/stsci/astro/processor/dto/ProcessingMetricsResponse.java:100 | the rate is 100 · successful / total, 0 for no jobs, and within [0, 100] for consistent counts |
| JobViews.DetermineSystemStatus | application/image-processor/src/main/java/org/stsci/astro/processor/dto/ProcessingMetricsResponse.java:118-126 | HEALTHY exactly with a rate of at least 95 and fewer than 100 queued; CRITICAL exactly below 85 or with at least 500 queued |
| JobViews.SystemStatusMonotone | application/image-processor/src/main/java/org/stsci/astro/processor/dto/ProcessingMetricsResponse.java:118-126 | a better rate and a shorter queue never give a worse status |
| JobViews.CreateBasic | application/image-processor/src/main/java/org/stsci/astro/processor/dto/ProcessingMetricsResponse.java:96-113 | the response carries the counts given, the success rate derived from them, and the status derived from the rate and the queue; it is healthy exactly when that status is HEALTHY |
| JobViews.EmptySystemIsCritical | application/image-processor/src/main/java/org/stsci/astro/processor/dto/ProcessingMetricsResponse.java:100-124 | with no jobs the rate is 0, so the system is CRITICAL and never healthy |
| JobViews.ProcessingMetrics | application/image-processor/src/main/java/org/stsci/astro/processor/service/ProcessingJobService.java:237-256 | the metrics count the jobs per status, with a success rate within [0, 100] |
| JobViews.OverallEfficiencyScore | application/image-processor/src/main/java/org/stsci/astro/processor/dto/ProcessingMetricsResponse.java:138-144 | the score exists exactly when all three efficiencies do, and lies in [0, 100] when they lie in [0, 1] |
| JobViews.CapacityUtilization | application/image-processor/src/main/java/org/stsci/astro/processor/dto/ProcessingMetricsResponse.java:149-156 | there is no utilisation without workers; otherwise it is busy workers as a percentage of workers |
| JobViews.QualityTrend | application/image-processor/src/main/java/org/stsci/astro/processor/dto/ProcessingMetricsResponse.java:161-175 | UNKNOWN exactly without a quality figure; EXCELLENT from 80, GOOD from 60, FAIR from 40, POOR below 40 |
| JobViews.DataEfficiency | application/image-processor/src/main/java/org/stsci/astro/processor/dto/ProcessingMetricsResponse.java:180-187 | there is no efficiency without both volumes or with no input; otherwise it is output over input |
| S3Storage.ParseS3Path | application/image-processor/src/main/java/org/stsci/astro/processor/service/S3Service.java:209-221 | a path without "s3://" fails, and so does one with no '/' after the bucket; otherwise the bucket is the text up to the first '/' and the key is the rest, so the path is exactly "s3://bucket/key" |
| S3Storage.ParseS3Url | application/image-processor/src/main/java/org/stsci/astro/processor/service/S3Service.java:37 | parsing the URL storeData reports gives back the bucket and key it was built from |
| S3Storage.RetrieveData | application/image-processor/src/main/java/org/stsci/astro/processor/service/S3Service.java:53-67 | the stored bytes are returned when the bucket answers and the object exists; any failure becomes the one fixed message |
| S3Storage.StoreData | application/image-processor/src/main/java/org/stsci/astro/processor/service/S3Service.java:30-45 | a working bucket stores the bytes under the key and reports "s3://bucket/key"; a failure becomes the one fixed message |
| S3Storage.ObjectExists | application/image-processor/src/main/java/org/stsci/astro/processor/service/S3Service.java:75-91 | an object exists exactly when it can be retrieved, every exception reading as false |
| S3Storage.DeleteObject | application/image-processor/src/main/java/org/stsci/astro/processor/service/S3Service.java:128-144 | only the named object disappears, deleting a missing key succeeds, and a failure becomes the one fixed message |
| S3Storage.DownloadFile | application/image-processor/src/main/java/org/stsci/astro/processor/service/S3Service.java:205-229 | the download succeeds exactly when the path parses and the object can be retrieved, and it returns that object; every failure, a malformed path included, becomes "Failed to download file from S3" |
| S3Storage.UploadFile | application/image-processor/src/main/java/org/stsci/astro/processor/service/S3Service.java:237-261 | the upload succeeds exactly when the path parses and the bucket works; it returns the path given and stores the bytes under the parsed bucket and key |
| S3Storage.UploadThenDownload | application/image-processor/src/main/java/org/stsci/astro/processor/service/S3Service.java:205-261 | whatever is uploaded to a path is downloaded back from it |
| IntermediateStorage.ExtractFilename | application/image-processor/src/main/java/org/stsci/astro/processor/service/storage/IntermediateStorageService.java:185-200 | a missing or blank path gives "unknown.fits"; otherwise the result is the last '/' piece, with ".fits" added unless it already ends so in any letter case |
| IntermediateStorage.ExtractFilenameFails | application/image-processor/src/main/java/org/stsci/astro/processor/service/storage/IntermediateStorageService.java:190-191 | the only failing inputs are non-blank paths made of '/' alone, which split into nothing |
| IntermediateStorage.FitsNamesAreKept | application/image-processor/src/main/java/org/stsci/astro/processor/service/storage/IntermediateStorageService.java:185-200 | a name that is already a FITS file name (no slash, ".fits" in any case) comes back unchanged; since every name the function produces is one, extracting twice gives the same name |
| IntermediateStorage.DirectoryPrefix | application/image-processor/src/main/java/org/stsci/astro/processor/service/storage/IntermediateStorageService.java:169-173 | the custom path is trimmed and ends in exactly the '/' it had or one added |
| IntermediateStorage.BuildIntermediateKey | application/image-processor/src/main/java/org/stsci/astro/processor/service/storage/IntermediateStorageService.java:166-183 | under a non-blank custom path, the key is that directory plus the file name; otherwise it is sessions/{session}/{step}/{timestamp}/{file} |
| IntermediateStorage.StandardKeyIsJoin | application/image-processor/src/main/java/org/stsci/astro/processor/service/storage/IntermediateStorageService.java:181-182 | the standard key is its five segments joined by '/' |
| IntermediateStorage.ParseIntermediateFileInfo | application/image-processor/src/main/java/org/stsci/astro/processor/service/storage/IntermediateStorageService.java:202-237 | a key parses exactly when it has at least four segments beginning with "sessions" and the session id; the step is segment 2, the full path is "intermediate-data/key", and it is a final result exactly when the step is "final" or the key contains "final" |
| IntermediateStorage.StandardKeyRoundTrip | application/image-processor/src/main/java/org/stsci/astro/processor/service/storage/IntermediateStorageService.java:178-218 | a standard key parses back into the step, timestamp and file name it was built from |
| IntermediateStorage.StoreIntermediateResult | application/image-processor/src/main/java/org/stsci/astro/processor/service/storage/IntermediateStorageService.java:29-50 | the result is stored under the built key in the output bucket or "intermediate-data", and the reported location is "bucket/key"; any failure becomes one fixed message |
| IntermediateStorage.ReadLocation | application/image-processor/src/main/java/org/stsci/astro/processor/service/storage/IntermediateStorageService.java:57-62 | a "bucket/key" location reads the object stored under that bucket and key |
| IntermediateStorage.ReadWhatWasStored | application/image-processor/src/main/java/org/stsci/astro/processor/service/storage/IntermediateStorageService.java:40-43 | a location the service reported reads back exactly the bytes stored there |
| IntermediateStorage.DownloadRejectsLocations | application/image-processor/src/main/java/org/stsci/astro/processor/service/storage/IntermediateStorageService.java:62 | downloadFile, which wants "s3://", refuses every location the service itself reports |
| IntermediateStorage.FinalKey | application/image-processor/src/main/java/org/stsci/astro/processor/service/storage/IntermediateStorageService.java:66-75 | a requested key ending in ".fits" is kept; otherwise the source file name is appended with exactly one '/' |
| IntermediateStorage.FinalKeyNamesFile | application/image-processor/src/main/java/org/stsci/astro/processor/service/storage/IntermediateStorageService.java:66-75 | every final key ends in ".fits" in some letter case |
| IntermediateStorage.MoveFinalResultWith | application/image-processor/src/main/java/org/stsci/astro/processor/service/storage/IntermediateStorageService.java:52-90 | with a given reader, the move succeeds exactly when the location splits, the source reads, the final key is built and the target bucket works; the data lands under the final key in the target or "processed-data" bucket |
| IntermediateStorage.MoveFinalResultAsWritten | application/image-processor/src/main/java/org/stsci/astro/processor/service/storage/IntermediateStorageService.java:62 | reading the source through downloadFile, any path without "s3://" makes the move fail |
| IntermediateStorage.MoveAsWrittenRejectsLocations | application/image-processor/src/main/java/org/stsci/astro/processor/service/storage/IntermediateStorageService.java:52-90 | no location the service itself reports can be moved as written |
| IntermediateStorage.MoveFinalResult | application/image-processor/src/main/java/org/stsci/astro/processor/service/storage/IntermediateStorageService.java:52-90 | reading the source as the "bucket/key" location it is, a move succeeds only when that location reads |
| IntermediateStorage.MoveStoredResult | application/image-processor/src/main/java/org/stsci/astro/processor/service/storage/IntermediateStorageService.java:52-90 | moving a stored object to a ".fits" key in a working bucket succeeds and copies exactly the stored bytes there |
| IntermediateStorage.CleanupIntermediateFiles | application/image-processor/src/main/java/org/stsci/astro/processor/service/storage/IntermediateStorageService.java:92-115 | a missing or empty list changes nothing; otherwise exactly the objects some listed location names are deleted, a failing deletion does not stop the rest, and other objects keep their data |
| IntermediateStorage.ListIntermediateResults | application/image-processor/src/main/java/org/stsci/astro/processor/service/storage/IntermediateStorageService.java:117-137 | the result holds exactly the listed keys that parse, ordered by time; a failing bucket, or two or more entries with an unparseable timestamp, makes the listing fail with one message |
| IntermediateStorage.UntimedFilesFailListing | application/image-processor/src/main/java/org/stsci/astro/processor/service/storage/IntermediateStorageService.java:126-128 | two session files whose timestamp segment does not parse cannot be listed |
| IntermediateStorage.CleanupSessionFiles | application/image-processor/src/main/java/org/stsci/astro/processor/service/storage/IntermediateStorageService.java:139-163 | a failed listing deletes nothing; otherwise only listed session files in the intermediate bucket are deleted, final results among them only when they are not to be kept |
| IntermediateStorage.KeepFinalKeepsFinalResults | application/image-processor/src/main/java/org/stsci/astro/processor/service/storage/IntermediateStorageService.java:145-149 | with keepFinalResult set, no final result of the session is ever deleted |
| CustomWorkflow.KindOf | application/image-processor/src/main/java/org/stsci/astro/processor/service/GranularProcessingService.java:403-416 | a step type selects a step exactly when its lower-cased form is that step's name, and none otherwise |
| CustomWorkflow.KindOfIgnoresCase | application/image-processor/src/main/java/org/stsci/astro/processor/service/GranularProcessingService.java:404 | dispatch ignores letter case and each step's own name, in either case, selects it |
| CustomWorkflow.RunStep | application/image-processor/src/main/java/org/stsci/astro/processor/service/GranularProcessingService.java:28-91 | a step succeeds exactly when reading, processing and storing all succeed; success reports the stored location and the algorithm or its default, failure reports the error and leaves the store unchanged |
| CustomWorkflow.StepStoresAtLocation | application/image-processor/src/main/java/org/stsci/astro/processor/service/GranularProcessingService.java:51-58 | a successful step has stored its output under the intermediate key it reports, in the requested or default bucket, and changed nothing else |
| CustomWorkflow.ExecuteWorkflowStep | application/image-processor/src/main/java/org/stsci/astro/processor/service/GranularProcessingService.java:403-416 | an unknown step type throws "Unknown step type: " followed by the type; a known one runs that step |
| CustomWorkflow.StepOutputPath | application/image-processor/src/main/java/org/stsci/astro/processor/service/GranularProcessingService.java:442-447 | every step output path is a directory, ending in '/' |
| CustomWorkflow.StepOutputPathsDiffer | application/image-processor/src/main/java/org/stsci/astro/processor/service/GranularProcessingService.java:442-447 | different steps of one workflow write to different directories |
| CustomWorkflow.StepOutcome | application/image-processor/src/main/java/org/stsci/astro/processor/service/GranularProcessingService.java:296-338 | a step is a success exactly when its response succeeded; a failed optional step is skipped, and only a failed required step aborts, with its message |
| CustomWorkflow.Advance | application/image-processor/src/main/java/org/stsci/astro/processor/service/GranularProcessingService.java:273-339 | one pass of the loop appends exactly one result and keeps the loop's bookkeeping consistent |
| CustomWorkflow.RunSteps | application/image-processor/src/main/java/org/stsci/astro/processor/service/GranularProcessingService.java:273-340 | the loop only appends results, stops at the first abort, and otherwise attempts every step |
| CustomWorkflow.CountsPartition | application/image-processor/src/main/java/org/stsci/astro/processor/service/GranularProcessingService.java:426-436 | the success, failure and skip counts add up to the number of results |
| CustomWorkflow.BuildWorkflowMetrics | application/image-processor/src/main/java/org/stsci/astro/processor/service/GranularProcessingService.java:426-436 | the metrics count the request's steps and split the results by status; the mean step time is the total divided by the number of results and rounded down, or 0 with no results |
| CustomWorkflow.FirstFailed | application/image-processor/src/main/java/org/stsci/astro/processor/service/GranularProcessingService.java:449-455 | the failed step reported is the type of the first failed result, and there is none exactly when no result failed |
| CustomWorkflow.FailedResponse | application/image-processor/src/main/java/org/stsci/astro/processor/service/GranularProcessingService.java:378-391 | a failed workflow reports every result so far, the message, and the first failed step or "unknown" |
| CustomWorkflow.ExecuteWith | application/image-processor/src/main/java/org/stsci/astro/processor/service/GranularProcessingService.java:262-392 | a workflow succeeds only when every step was attempted without abort; success reports the last output, or the moved one, and the intermediate files unless they were cleaned up; failure reports the first failed step; the reader of input locations is a parameter, so `ExecuteAsWritten` (reading with `downloadFile`) and `Execute` (reading "bucket/key" locations) are this function applied to one reader each and inherit these facts |
| CustomWorkflow.AsWrittenAtMostOneStepSucceeds | application/image-processor/src/main/java/org/stsci/astro/processor/service/GranularProcessingService.java:273-354 | reading every input with downloadFile, at most one step of a workflow ever succeeds, and a workflow with a final output path whose step succeeded fails in the move |
| CustomWorkflow.AsWrittenChainBreaks | application/image-processor/src/main/java/org/stsci/astro/processor/service/GranularProcessingService.java:282-294 | as written, the step after a successful step never succeeds, since it cannot read the location it is given |
| CustomWorkflow.CorrectedStepReadsPrevious | application/image-processor/src/main/java/org/stsci/astro/processor/service/GranularProcessingService.java:282-300 | reading inputs as the locations they are, a step after a successful one processes that step's stored output |
| CustomWorkflow.CorrectedChainFeedsOutputs | application/image-processor/src/main/java/org/stsci/astro/processor/service/GranularProcessingService.java:273-300 | with locations read as they are written, two chained steps store the second routine applied to the first routine's output |
| AlgorithmRegistry.NormalizeAlgorithmType | application/image-processor/src/main/java/org/stsci/astro/processor/service/algorithm/AlgorithmRegistryService.java:270-309 | null becomes ""; otherwise the type is lower-cased and trimmed, and a listed alias is replaced by its step name |
| AlgorithmRegistry.StepNamesNormal | application/image-processor/src/main/java/org/stsci/astro/processor/service/algorithm/AlgorithmRegistryService.java:64-198 | every registered step name normalises to itself |
| AlgorithmRegistry.NormalFormsAreNotAliases | application/image-processor/src/main/java/org/stsci/astro/processor/service/algorithm/AlgorithmRegistryService.java:279-307 | a normal form is a registered step name or not an alias, so aliases never chain |
| AlgorithmRegistry.NormalizeIdempotent | application/image-processor/src/main/java/org/stsci/astro/processor/service/algorithm/AlgorithmRegistryService.java:270-309 | normalising twice is normalising once |
| AlgorithmRegistry.NormalizeIgnoresCase | application/image-processor/src/main/java/org/stsci/astro/processor/service/algorithm/AlgorithmRegistryService.java:276 | a type and its lower-cased spelling normalise alike |
| AlgorithmRegistry.NormalizeIgnoresSpace | application/image-processor/src/main/java/org/stsci/astro/processor/service/algorithm/AlgorithmRegistryService.java:276 | a type and its trimmed spelling normalise alike |
| AlgorithmRegistry.GetAvailableAlgorithms | application/image-processor/src/main/java/org/stsci/astro/processor/service/algorithm/AlgorithmRegistryService.java:205-214 | a type normalising to a registered step gets that step's list; every other type, null included, gets the empty list |
| AlgorithmRegistry.Filter | application/image-processor/src/main/java/org/stsci/astro/processor/service/algorithm/AlgorithmRegistryService.java:216-226 | the filtered list holds exactly the algorithms with the flag, no more of them than the input has |
| AlgorithmRegistry.GetSupportedAlgorithms | application/image-processor/src/main/java/org/stsci/astro/processor/service/algorithm/AlgorithmRegistryService.java:216-220 | exactly the available algorithms that are supported |
| AlgorithmRegistry.GetExperimentalAlgorithms | application/image-processor/src/main/java/org/stsci/astro/processor/service/algorithm/AlgorithmRegistryService.java:222-226 | exactly the available algorithms that are experimental |
| AlgorithmRegistry.FindById | application/image-processor/src/main/java/org/stsci/astro/processor/service/algorithm/AlgorithmRegistryService.java:229-232 | the result is the first algorithm carrying the id, and there is none exactly when no algorithm carries it |
| AlgorithmRegistry.GetAlgorithmInfo | application/image-processor/src/main/java/org/stsci/astro/processor/service/algorithm/AlgorithmRegistryService.java:228-233 | a found algorithm is available for the type and carries the id asked for; nothing is found for a null id or an id no available algorithm carries |
| AlgorithmRegistry.IsAlgorithmSupported | application/image-processor/src/main/java/org/stsci/astro/processor/service/algorithm/AlgorithmRegistryService.java:235-238 | an algorithm is supported only when an id is given and a supported available algorithm carries it; a null type or id is never supported |
| AlgorithmRegistry.RegistryIdsDistinct | application/image-processor/src/main/java/org/stsci/astro/processor/service/algorithm/AlgorithmRegistryService.java:17-199 | no step of the registry lists two algorithms with one id |
| AlgorithmRegistry.FindByIdUnique | application/image-processor/src/main/java/org/stsci/astro/processor/service/algorithm/AlgorithmRegistryService.java:229-232 | with distinct ids, looking up an algorithm's id finds that algorithm |
| AlgorithmRegistry.SupportIsMembership | application/image-processor/src/main/java/org/stsci/astro/processor/service/algorithm/AlgorithmRegistryService.java:235-238 | support holds exactly when a supported available algorithm carries the id |
| AlgorithmRegistry.Summarize | application/image-processor/src/main/java/org/stsci/astro/processor/service/algorithm/AlgorithmRegistryService.java:252-254 | a summary counts all, supported and experimental algorithms, the last two within the total |
| AlgorithmRegistry.GetAlgorithmSummary | application/image-processor/src/main/java/org/stsci/astro/processor/service/algorithm/AlgorithmRegistryService.java:244-268 | the summary has one entry per registered step, whose counts are those of the step's available, supported and experimental lists |
| ProcessingContexts.PrefixesDistinct | application/image-processor/src/main/java/org/stsci/astro/processor/model/ProcessingContext.java:92-96 | type prefixes are non-empty, contain no '-', and tell the types apart |
| ProcessingContexts.NamesDistinct | application/image-processor/src/main/java/org/stsci/astro/processor/model/ProcessingContext.java:92-96 | the enum names tell the types apart |
| ProcessingContexts.GenerateProcessingId | application/image-processor/src/main/java/org/stsci/astro/processor/model/ProcessingContext.java:181-194 | every generated identifier starts with its type's prefix and a '-' |
| ProcessingContexts.ParseProcessingType | application/image-processor/src/main/java/org/stsci/astro/processor/model/ProcessingContext.java:199-212 | a null or dash-free identifier is rejected; otherwise the identifier parses to a type exactly when it starts with that type's prefix and a '-' |
| ProcessingContexts.TypeForPrefix | application/image-processor/src/main/java/org/stsci/astro/processor/model/ProcessingContext.java:204-209 | a prefix maps to a type exactly when it is that type's prefix |
| ProcessingContexts.ParseGenerated | application/image-processor/src/main/java/org/stsci/astro/processor/model/ProcessingContext.java:181-212 | parsing a generated identifier gives back the type it was generated for, whatever the version, name, date and UUID |
| ProcessingContexts.PartitionKey | application/image-processor/src/main/java/org/stsci/astro/processor/model/ProcessingContext.java:231-234 | the key is the type's prefix, '_' and the creation year and month as yyyyMM; a missing type or creation time throws |
| ProcessingContexts.YearMonthStamp | application/image-processor/src/main/java/org/stsci/astro/processor/model/ProcessingContext.java:232 | the first seven characters of the ISO date with the '-' removed are the year and month as yyyyMM |
| ProcessingContexts.S3KeyPrefix | application/image-processor/src/main/java/org/stsci/astro/processor/model/ProcessingContext.java:239-251 | production data is filed under "production/", experimental data under its experiment name or "unnamed", other types under their prefix, each ending in the ISO date and the identifier |
| ProcessingContexts.CreateProductionContext | application/image-processor/src/main/java/org/stsci/astro/processor/model/ProcessingContext.java:256-272 | a production context created now for the session, with the observation and instrument at priority 1, whose identifier parses as production |
| ProcessingContexts.CreateExperimentalContext | application/image-processor/src/main/java/org/stsci/astro/processor/model/ProcessingContext.java:275-290 | an experimental context created now for the session and researcher, whose identifier parses as experimental |
| ProcessingContexts.CreateDerivedContext | application/image-processor/src/main/java/org/stsci/astro/processor/model/ProcessingContext.java:295-312 | the derived context keeps the parent's type and contexts, gets a fresh identifier of that type, and its lineage points to the parent, to the chain's root and one step deeper; a null type or a lineage without a depth throws |
| ProcessingContexts.DerivedTwice | application/image-processor/src/main/java/org/stsci/astro/processor/model/ProcessingContext.java:295-312 | two derivations from a fresh context keep its identifier as the root and reach depth 2 |
| AstroUtils.DegreesToHours | application/image-processor/src/main/java/org/stsci/astro/processor/util/AstronomicalUtils.java:16-18 | converting the hours back to degrees gives the degrees given |
| AstroUtils.ArcsecondsToDegrees | application/image-processor/src/main/java/org/stsci/astro/processor/util/AstronomicalUtils.java:37-39 | converting the degrees back to arcseconds gives the arcseconds given |
| AstroUtils.HoursRoundTrip | application/image-processor/src/main/java/org/stsci/astro/processor/util/AstronomicalUtils.java:16-25 | hours to degrees and back is the identity |
| AstroUtils.ArcsecondsRoundTrip | application/image-processor/src/main/java/org/stsci/astro/processor/util/AstronomicalUtils.java:30-39 | degrees to arcseconds and back is the identity |
| AstroUtils.Wrap360 | application/image-processor/src/main/java/org/stsci/astro/processor/util/AstronomicalUtils.java:139-143 | the representative lies in [0, 360) and differs from the input by whole turns |
| AstroUtils.UniqueInTurn | application/image-processor/src/main/java/org/stsci/astro/processor/util/AstronomicalUtils.java:139-143 | two angles in [0, 360) a whole number of turns apart are equal, so the representative is unique |
| AstroUtils.NormalizeRA | application/image-processor/src/main/java/org/stsci/astro/processor/util/AstronomicalUtils.java:139-143 | the two loops end with the angle in [0, 360), whole turns from the input, and leave an angle already in range unchanged |
| AstroUtils.ClampDeclination | application/image-processor/src/main/java/org/stsci/astro/processor/util/AstronomicalUtils.java:148-150 | the result lies in [-90, 90], equals an input already in range, and is the nearer bound otherwise |
| AstroUtils.NormalizedIsValid | application/image-processor/src/main/java/org/stsci/astro/processor/util/AstronomicalUtils.java:132-150 | wrapping the right ascension and clamping the declination always gives a valid coordinate, and change nothing in a valid one below RA 360 |
| AstroUtils.CalculateAirmass | application/image-processor/src/main/java/org/stsci/astro/processor/util/AstronomicalUtils.java:102-110 | altitudes at or below the horizon give infinity; above it, with a positive cosine, the air mass is positive and is the reciprocal of the zenith angle's cosine |
| AstroUtils.AirmassAtZenith | application/image-processor/src/main/java/org/stsci/astro/processor/util/AstronomicalUtils.java:102-110 | the air mass at the zenith is one |
| AstroUtils.JavaDiv | application/image-processor/src/main/java/org/stsci/astro/processor/util/AstronomicalUtils.java:121-122 | Java's int division truncates toward zero: the quotient's magnitude is the whole quotient of the magnitudes and its sign the product of the signs, which for non-negative operands is floor division |
| AstroUtils.JavaDivOdd | application/image-processor/src/main/java/org/stsci/astro/processor/util/AstronomicalUtils.java:121-122 | negating either operand negates the quotient |
| AstroUtils.JulianDateOfJ2000Day | application/image-processor/src/main/java/org/stsci/astro/processor/util/AstronomicalUtils.java:115-126 | 1 January 2000 at 0h is Julian date 2451544.5 |
| AstroUtils.JulianDateYearBoundary | application/image-processor/src/main/java/org/stsci/astro/processor/util/AstronomicalUtils.java:116-119 | the last day of a year and the first of the next are one Julian day apart |
| AstroUtils.JulianDateNextDay | application/image-processor/src/main/java/org/stsci/astro/processor/util/AstronomicalUtils.java:124-126 | successive days of a month are one Julian day apart |
| AstroCalc.JavaRem360 | application/catalog-service/src/main/java/org/stsci/astro/catalog/util/AstronomicalCalculations.java:347 | Java's double remainder by 360 keeps the dividend's sign: in [0, 360) for a non-negative angle and in (-360, 0] for a negative one |
| AstroCalc.NormalizeRa | application/catalog-service/src/main/java/org/stsci/astro/catalog/util/AstronomicalCalculations.java:346-349 | the remainder plus 360 for negative results lands in [0, 360) and agrees with the image processor's loop-based normalisation |
| AstroCalc.ClampDec | application/catalog-service/src/main/java/org/stsci/astro/catalog/util/AstronomicalCalculations.java:354-356 | the clamp lies in [-90, 90] and agrees with the image processor's clamp |
| AstroCalc.ValidityComparedToProcessor | application/catalog-service/src/main/java/org/stsci/astro/catalog/util/AstronomicalCalculations.java:339-341 | this validity excludes RA 360, which the image processor's accepts, and holds exactly when normalising and clamping change nothing |
| AstroCalc.ApplyProperMotion | application/catalog-service/src/main/java/org/stsci/astro/catalog/util/AstronomicalCalculations.java:247-262 | the moved position is always a valid coordinate: the RA moved by the proper motion in milliarcseconds per year, wrapped, and the declination moved and clamped |
| AstroCalc.NoMotionNoChange | application/catalog-service/src/main/java/org/stsci/astro/catalog/util/AstronomicalCalculations.java:247-262 | no motion or no elapsed time leaves a valid coordinate where it is |
| AstroCalc.CreatePoint | application/catalog-service/src/main/java/org/stsci/astro/catalog/util/AstronomicalCalculations.java:365-382 | a point exists exactly when both coordinates are given and valid, and then carries them with SRID 4326 |
| AstroCalc.CalculateSeparation | application/catalog-service/src/main/java/org/stsci/astro/catalog/util/AstronomicalCalculations.java:387-392 | the separation is defined exactly when all four coordinates are given, and is then the angular distance |
| AstroCalc.LocalCatalogDensity | application/catalog-service/src/main/java/org/stsci/astro/catalog/util/AstronomicalCalculations.java:467-480 | a non-zero radius gives the object count over the circle's area, floored at 0.1; a zero radius gives NaN for no objects and infinity otherwise |
| AstroCalc.MatchSignificance | application/catalog-service/src/main/java/org/stsci/astro/catalog/util/AstronomicalCalculations.java:539-543 | the significance times the error, floored at 0.1, is the separation, and lies between 0 and ten times the separation |
| AstroCalc.EffectiveRadius | application/catalog-service/src/main/java/org/stsci/astro/catalog/util/AstronomicalCalculations.java:424-425 | the error radius is zero exactly when separation and positional error both are |
| AstroCalc.DistanceFactor | application/catalog-service/src/main/java/org/stsci/astro/catalog/util/AstronomicalCalculations.java:444 | the distance factor lies in (0, 1] |
| AstroCalc.MatchProbabilityAsWritten | application/catalog-service/src/main/java/org/stsci/astro/catalog/util/AstronomicalCalculations.java:416-453 | the probability is NaN exactly when separation and positional error are both zero, and lies in [0, 1] otherwise |
| AstroCalc.CoincidentMatchIsNaN | application/catalog-service/src/main/java/org/stsci/astro/catalog/util/AstronomicalCalculations.java:424-444 | a coincident match with no positional error, the best there is, gets NaN |
| AstroCalc.MatchProbability | application/catalog-service/src/main/java/org/stsci/astro/catalog/util/AstronomicalCalculations.java:416-453 | the corrected probability always lies in [0, 1], equals the as-written one whenever that is a number, and for a coincident match is the spatial and magnitude factors alone |
| AstroCalc.CatalogPriority | application/catalog-service/src/main/java/org/stsci/astro/catalog/util/AstronomicalCalculations.java:549-570 | the priority is one of four levels, and "STANDARD" exactly when the upper-cased name is none of the ten listed catalogs |
| AstroCalc.PriorityIgnoresCase | application/catalog-service/src/main/java/org/stsci/astro/catalog/util/AstronomicalCalculations.java:551 | the priority does not depend on letter case |
| AstroCalc.PerformMultiCatalogCrossMatch | application/catalog-service/src/main/java/org/stsci/astro/catalog/util/AstronomicalCalculations.java:511-531 | the result holds the haversine separation, a probability in [0, 1] or NaN exactly for the coincident error-free match, the significance and the catalog's priority |
| AstroCalc.RemoveBJ | application/catalog-service/src/main/java/org/stsci/astro/catalog/util/AstronomicalCalculations.java:834 | the result keeps exactly the characters other than 'B' and 'J' |
| AstroCalc.ParseEpochString | application/catalog-service/src/main/java/org/stsci/astro/catalog/util/AstronomicalCalculations.java:824-840 | B1950, J2000 and CURRENT in any case are 1950, 2000 and 2024; anything else is parsed without its B and J, 2000 when that fails |
| AstroCalc.ShiftEpoch | application/catalog-service/src/main/java/org/stsci/astro/catalog/util/AstronomicalCalculations.java:846-869 | both fixed shifts end in a valid coordinate |
| AstroCalc.ShiftRoundTrip | application/catalog-service/src/main/java/org/stsci/astro/catalog/util/AstronomicalCalculations.java:846-869 | shifting back undoes shifting forward for every valid coordinate the forward shift does not push past the pole |
| AstroCalc.ConvertCoordinateEpoch | application/catalog-service/src/main/java/org/stsci/astro/catalog/util/AstronomicalCalculations.java:799-819 | years within 0.01 of each other leave the position as it is; every real conversion ends in a valid coordinate |
| AstroCalc.EpochRoundTrip | application/catalog-service/src/main/java/org/stsci/astro/catalog/util/AstronomicalCalculations.java:799-869 | converting B1950 to J2000 and back returns a valid coordinate away from the north pole to where it started |
| CatalogSearch.RadiusMeters | application/catalog-service/src/main/java/org/stsci/astro/catalog/service/CatalogService.java:42 | the database radius is positive for a positive search radius, and converting it back through 111319.9 metres per degree gives the radius in arcseconds |
| CatalogSearch.Qualifying | application/catalog-service/src/main/java/org/stsci/astro/catalog/service/CatalogService.java:61-81 | the candidates are exactly the rows within the radius, of a requested type and inside the magnitude bounds, each with its own separation |
| CatalogSearch.NearestMatches | application/catalog-service/src/main/java/org/stsci/astro/catalog/service/CatalogService.java:82-84 | the matches are sorted by separation, drawn from the candidates, and as many as the limit allows |
| CatalogSearch.PerformConeSearch | application/catalog-service/src/main/java/org/stsci/astro/catalog/service/CatalogService.java:37-100 | the search fails exactly on a negative result limit or a typeless row within the radius while types are requested; otherwise it returns at most the limit, default 1000, of the candidates sorted by separation, reports their count as both totals, and never reports more results |
| CatalogSearch.ConeSearchMatchesQualify | application/catalog-service/src/main/java/org/stsci/astro/catalog/service/CatalogService.java:61-81 | every returned match is a stored row within the radius that passes the type and magnitude filters |
| CatalogSearch.ConeSearchKeepsNearest | application/catalog-service/src/main/java/org/stsci/astro/catalog/service/CatalogService.java:82-84 | the cap keeps the nearest candidates: no candidate left out is closer than one returned |
| CatalogSearch.MatchConfidence | application/catalog-service/src/main/java/org/stsci/astro/catalog/service/CatalogService.java:297-304 | the confidence is 0 at or beyond the maximum separation and in (0, 1] inside it |
| CatalogSearch.ConfidenceDecreases | application/catalog-service/src/main/java/org/stsci/astro/catalog/service/CatalogService.java:297-304 | the confidence never grows as the separation grows |
| CatalogSearch.FindNearestObject | application/catalog-service/src/main/java/org/stsci/astro/catalog/service/CatalogService.java:105-129 | the result is empty exactly when the query finds no row; otherwise it is the first row with its separation and a confidence in [0, 1] that is 0 exactly at or beyond the maximum separation |
| CatalogSearch.CrossMatchPositions | application/catalog-service/src/main/java/org/stsci/astro/catalog/service/CatalogService.java:135-148 | one result per position that has a neighbour within its radius, default 1 arcsecond: every result is some position's nearest-object match, and the match of the i-th position that found one sits at the index counting the earlier positions that found one, so results follow position order; each confidence is in [0, 1] |
| CatalogSearch.SaveObject | application/catalog-service/src/main/java/org/stsci/astro/catalog/service/CatalogService.java:154-174 | coordinates refresh the position, a positive parallax sets the distance to 1000 over it, a new object gets its creation time, every save sets the update time, and the other fields are kept |
| CatalogSearch.SaveObjectIdempotent | application/catalog-service/src/main/java/org/stsci/astro/catalog/service/CatalogService.java:154-174 | saving an object that has an id twice at one instant is saving it once |
| CatalogSearch.CountSavedAppend | application/catalog-service/src/main/java/org/stsci/astro/catalog/service/CatalogService.java:186-198 | the saved count of two lists is the sum of their counts, so batching does not change it |
| CatalogSearch.BulkImportObjects | application/catalog-service/src/main/java/org/stsci/astro/catalog/service/CatalogService.java:180-207 | the batched loop imports exactly the objects whose save succeeds, whatever the batch boundaries |
| FitsProcessing.WrapLong | application/image-processor/src/main/java/org/stsci/astro/processor/service/FitsProcessingService.java:229 | the value is reduced to a Java long: in range, congruent modulo 2^64, and unchanged when it already fits |
| FitsProcessing.ValidateFitsDataAsWritten | application/image-processor/src/main/java/org/stsci/astro/processor/service/FitsProcessingService.java:218-237 | null data and non-positive dimensions fail with the code's messages; otherwise validation passes exactly when the byte count, wrapped to a long, is within the limit |
| FitsProcessing.HugeImagePassesAsWritten | application/image-processor/src/main/java/org/stsci/astro/processor/service/FitsProcessingService.java:229-230 | a 2147483647 by 2147483647 image, far over any long-sized limit, passes the size check as written |
| FitsProcessing.ValidateFitsData | application/image-processor/src/main/java/org/stsci/astro/processor/service/FitsProcessingService.java:218-237 | with the byte count computed exactly, validation passes exactly when data is present, both dimensions are positive and four bytes per pixel fit the limit |
| FitsProcessing.ValidationAgreesWithoutOverflow | application/image-processor/src/main/java/org/stsci/astro/processor/service/FitsProcessingService.java:229 | both checks agree on every image whose byte count fits in a long |
| FitsProcessing.CalculateBiasLevel | application/image-processor/src/main/java/org/stsci/astro/processor/service/FitsProcessingService.java:257-274 | the nested loops compute the mean of the corner of at most 50 by 50 pixels, or 0 for an image without columns |
| FitsProcessing.BiasWithinCornerRange | application/image-processor/src/main/java/org/stsci/astro/processor/service/FitsProcessingService.java:257-274 | the bias level lies between the darkest and the brightest pixel of the sampled corner |
| FitsProcessing.DarkSubtraction | application/image-processor/src/main/java/org/stsci/astro/processor/service/FitsProcessingService.java:239-255 | the result has the input's shape and no negative pixel; pixels above the bias lose exactly the bias and the others become 0 |
| FitsProcessing.DarkSubtractionKeepsOrder | application/image-processor/src/main/java/org/stsci/astro/processor/service/FitsProcessingService.java:250 | dark subtraction keeps the brightness order of pixels |
| FitsProcessing.FlatValue | application/image-processor/src/main/java/org/stsci/astro/processor/service/FitsProcessingService.java:307-309 | each flat-field value lies in [0.5, 1] |
| FitsProcessing.SimulatedFlatField | application/image-processor/src/main/java/org/stsci/astro/processor/service/FitsProcessingService.java:298-314 | the flat field has the requested shape and every value in [0.5, 1] |
| FitsProcessing.DivideByFlat | application/image-processor/src/main/java/org/stsci/astro/processor/service/FitsProcessingService.java:287-291 | a positive flat value is divided out exactly, any other leaves the pixel; a flat of at least 0.5 at most doubles it |
| FitsProcessing.FlatFieldCorrection | application/image-processor/src/main/java/org/stsci/astro/processor/service/FitsProcessingService.java:276-296 | the result has the input's shape, multiplying each pixel back by its flat value restores the input, and no pixel more than doubles |
| FitsProcessing.Median | application/image-processor/src/main/java/org/stsci/astro/processor/service/FitsProcessingService.java:339-340 | the median is one of the values |
| FitsProcessing.MedianIsOrderStatistic | application/image-processor/src/main/java/org/stsci/astro/processor/service/FitsProcessingService.java:339-340 | the median is the upper median: every sorted arrangement of the values holds it at index size / 2, so the sort's handling of ties does not matter |
| Sorting.SortedArrangementUnique | application/image-processor/src/main/java/org/stsci/astro/processor/service/FitsProcessingService.java:339-339 | two ascending sequences with the same elements, counted with multiplicity, are equal, so sorting the neighbours yields one sequence whatever order they were collected in |
| FitsProcessing.Mad | application/image-processor/src/main/java/org/stsci/astro/processor/service/FitsProcessingService.java:354-361 | the median absolute deviation is never negative |
| FitsProcessing.MadIsDeviation | application/image-processor/src/main/java/org/stsci/astro/processor/service/FitsProcessingService.java:354-361 | the median absolute deviation is the absolute deviation of one of the values from the median |
| FitsProcessing.MadIsOrderStatistic | application/image-processor/src/main/java/org/stsci/astro/processor/service/FitsProcessingService.java:354-361 | the median absolute deviation is the upper median of all the absolute deviations: every sorted arrangement of them holds it at index size / 2 |
| FitsProcessing.RemoveCosmicRays | application/image-processor/src/main/java/org/stsci/astro/processor/service/FitsProcessingService.java:316-352 | the in-place scan keeps the shape and the border; each interior pixel becomes the median of its neighbours as seen at its visit when it is a cosmic ray and stays otherwise; the count is at least the number of changed pixels, and equal to it for a non-negative threshold |
| FitsProcessing.CleaningOnlyLowers | application/image-processor/src/main/java/org/stsci/astro/processor/service/FitsProcessingService.java:344-345 | with a non-negative threshold cleaning only lowers a pixel, to one of its neighbours' values |
| FitsProcessing.SquaredDeviationZero | application/image-processor/src/main/java/org/stsci/astro/processor/service/FitsProcessingService.java:377-382 | the squared deviations are never negative and vanish exactly when every pixel equals the mean |
| FitsProcessing.ImageQuality | application/image-processor/src/main/java/org/stsci/astro/processor/service/FitsProcessingService.java:363-388 | an empty image gives NaN; otherwise the score lies in [0, 100], except that a flat image scores 100 when bright, 0 when dark and NaN when its mean is zero |
| FitsProcessing.UniformImageQuality | application/image-processor/src/main/java/org/stsci/astro/processor/service/FitsProcessingService.java:375-387 | a uniform non-empty image scores 100, 0 or NaN by the sign of its value |
| FitsProcessing.Calibrate | application/image-processor/src/main/java/org/stsci/astro/processor/service/FitsProcessingService.java:57-81 | the enabled steps are listed in the order dark, flat, cosmic; the image is dark-subtracted and then flat-corrected when those are on, and cosmic-ray removal, when on, cleans that image with its count of replacements; with removal off no cosmic rays are counted |
| FitsProcessing.ProcessImage | application/image-processor/src/main/java/org/stsci/astro/processor/service/FitsProcessingService.java:37-124 | validation with the exact pixel-count check (the corrected `ValidateFitsData`) and an image without rows, when a step reads its first row, fail with the processing prefix; otherwise the result lists the enabled steps, holds the image dark-subtracted, flat-corrected and cleaned of cosmic rays as enabled, and scores it in [0, 100] or NaN |
| GranularOperators.ExperimentContext | airflow/plugins/granular_processing_operators.py:134-147 | each research field is in the experiment context exactly when it is truthy, and nothing else is |
| GranularOperators.ProductionContext | airflow/plugins/granular_processing_operators.py:149-158 | the observation and instrument are in the production context exactly when they are truthy, and nothing else is |
| GranularOperators.BuildRequestPayload | airflow/plugins/granular_processing_operators.py:109-164 | the payload holds exactly the keys that have an entry, each with that entry's value |
| GranularOperators.PayloadBaseFields | airflow/plugins/granular_processing_operators.py:111-119 | the seven base keys are always sent and carry the operator's attributes unchanged |
| GranularOperators.PayloadOptionalFields | airflow/plugins/granular_processing_operators.py:121-131 | the calibration path, output bucket, output path and processing id are each sent exactly when truthy, with their values |
| GranularOperators.PayloadExperimentContext | airflow/plugins/granular_processing_operators.py:134-147 | the experiment context is sent exactly for an experimental run with some context field |
| GranularOperators.PayloadProductionContext | airflow/plugins/granular_processing_operators.py:149-158 | the production context is sent exactly for a production run with some context field |
| GranularOperators.PayloadWorkflowPair | airflow/plugins/granular_processing_operators.py:160-162 | the workflow name and version are sent together, exactly when both are truthy, or not at all |
| GranularOperators.ContextsExclusive | airflow/plugins/granular_processing_operators.py:134-158 | a payload never carries both contexts, and carries neither for any other processing type |
| GranularOperators.ExperimentContextPresence | airflow/plugins/granular_processing_operators.py:134-147 | an experimental payload has a context exactly when one of its four fields is given |
| GranularOperators.StepParameters | airflow/plugins/granular_processing_operators.py:261-439 | each step operator adds at least two parameters of its own |
| GranularOperators.OperatorParameters | airflow/plugins/granular_processing_operators.py:277-284 | a missing parameters argument starts from an empty dict and a non-dict one raises; the merged dict has the user's keys and the step's, the step's values winning |
| GranularOperators.MergedParametersTruthy | airflow/plugins/granular_processing_operators.py:277-284 | the merged parameters are never empty, so the base constructor's fallback to an empty dict never applies |
| GranularOperators.StepToWorkflow | airflow/plugins/granular_processing_operators.py:206-214 | exactly the four step endpoints map to a workflow name, and that workflow's endpoint is the step again |
| GranularOperators.WorkflowEndpoint | airflow/plugins/granular_processing_operators.py:778-786 | exactly the four workflow names map to a step endpoint; every other type gets "process" |
| GranularOperators.WorkflowStepRoundTrip | airflow/plugins/granular_processing_operators.py:206-214 | for each workflow name, endpoint then workflow gives the name back |
| GranularOperators.IntermediateResults | airflow/plugins/granular_processing_operators.py:604-657 | "list" requests the session's results URL, "cleanup" reports a simulated cleanup of nothing that keeps the final result as asked, and any other operation raises "Unsupported operation: " with its name |
| ResearchDag.FirstMissing | airflow/dags/research_processing_dag.py:124-127 | the first required field that is absent or falsy, and none exactly when all are present |
| ResearchDag.FirstStepError | airflow/dags/research_processing_dag.py:135-137 | the error of the first step that names no granular step, and none exactly when every step names one |
| ResearchDag.ValidateWorkflowConfig | airflow/dags/research_processing_dag.py:119-150 | validation succeeds exactly when the three required fields are present, the steps form a non-empty list and every step is valid; each failure carries the message of the first check that fails; success hands on the parameters with empty dicts for the missing optional ones |
| ResearchDag.CalibrationKey | airflow/dags/research_processing_dag.py:178-197 | a step has a calibration frame key exactly when it is bias, dark or flat |
| ResearchDag.CreateProcessingRequest | airflow/dags/research_processing_dag.py:171-201 | a missing step raises KeyError and a list or dict step raises TypeError; otherwise the request holds exactly the keys that have an entry, with those entries |
| ResearchDag.RequestDefaults | airflow/dags/research_processing_dag.py:182-194 | every request carries the image, session, bucket, path and algorithm, with "default", an empty dict and true as the defaults for algorithm, parameters and the two flags |
| ResearchDag.RequestCalibrationPath | airflow/dags/research_processing_dag.py:196-199 | a calibration path is sent exactly for bias, dark and flat steps whose frame is given, never for cosmic-ray removal, and is that frame |
| ResearchDag.ValidatedStepsMakeRequests | airflow/dags/research_processing_dag.py:135-201 | every step of a validated chain makes a request and names a step with a workflow behind it |
| QualityMonitoring.Count | airflow/dags/data_quality_monitoring.py:398-400 | a count never exceeds the number of metrics |
| QualityMonitoring.CountPositive | airflow/dags/data_quality_monitoring.py:398-406 | a status is counted exactly when some metric has it |
| QualityMonitoring.CountsWithinTotal | airflow/dags/data_quality_monitoring.py:398-400 | the three counts together never exceed the number of metrics |
| QualityMonitoring.EvaluateOverallQuality | airflow/dags/data_quality_monitoring.py:384-429 | a metric without a status raises KeyError; otherwise the summary pools the three lists, its three counts are the numbers of CRITICAL, WARNING and PASS metrics, and it is CRITICAL exactly when some metric is critical, WARNING exactly when none is and warnings exceed 30 percent, and HEALTHY otherwise |
| QualityMonitoring.CountIsMultiplicity | airflow/dags/data_quality_monitoring.py:398-400 | the count of a status is its multiplicity among the metrics' statuses |
| QualityMonitoring.PoolingAddsCounts | airflow/dags/data_quality_monitoring.py:391-400 | counts of the pooled list are the sums of the three tasks' counts |
| QualityMonitoring.NothingPulledIsHealthy | airflow/dags/data_quality_monitoring.py:391-413 | with no metrics at all the pipeline is healthy |
| CatalogQuality.Format6 | application/catalog-service/src/main/java/com/mcgeecahill/astro/catalog/util/CatalogQualityAssessment.java:445 | `%.6f` rounds to the nearest millionth: the sign is kept and the rounded magnitude is within half a millionth of the value |
| CatalogQuality.DuplicatesAndKeys | application/catalog-service/src/main/java/com/mcgeecahill/astro/catalog/util/CatalogQualityAssessment.java:439-455 | every positioned object either adds a new "ra_dec" key or is counted as a duplicate, so duplicates plus distinct keys equals the positioned objects |
| CatalogQuality.SeenKeys | application/catalog-service/src/main/java/com/mcgeecahill/astro/catalog/util/CatalogQualityAssessment.java:442-451 | a key is in the seen set exactly when some object with both coordinates produces it |
| CatalogQuality.NoDuplicatesMeansDistinct | application/catalog-service/src/main/java/com/mcgeecahill/astro/catalog/util/CatalogQualityAssessment.java:439-455 | the duplicate count is zero exactly when no two positioned objects share a formatted position |
| CatalogQuality.CountDuplicateDetections | application/catalog-service/src/main/java/com/mcgeecahill/astro/catalog/util/CatalogQualityAssessment.java:439-455 | the one-pass count with a seen set equals the number of objects whose key an earlier object has, and never exceeds the positioned objects |
| CatalogQuality.CountSuspicious | application/catalog-service/src/main/java/com/mcgeecahill/astro/catalog/util/CatalogQualityAssessment.java:460-464 | the count of negative-magnitude objects is at most the catalog size and is zero exactly when no object has a negative magnitude |
| CatalogQuality.Merge | application/catalog-service/src/main/java/com/mcgeecahill/astro/catalog/util/CatalogQualityAssessment.java:311 | `merge(name, 1, Integer::sum)` adds the key if missing, increments only that key, and leaves every other entry alone |
| CatalogQuality.MergeFlagsAt | application/catalog-service/src/main/java/com/mcgeecahill/astro/catalog/util/CatalogQualityAssessment.java:308-321 | after one object, a flag is present exactly when it was present or the object has it, and its count grows by one exactly when the object has it |
| CatalogQuality.CountQualityFlags | application/catalog-service/src/main/java/com/mcgeecahill/astro/catalog/util/CatalogQualityAssessment.java:305-325 | a flag name is a key exactly when some object has that flag, and then maps to the number of objects that have it |
| CatalogQuality.Closest | application/catalog-service/src/main/java/com/mcgeecahill/astro/catalog/util/CatalogQualityAssessment.java:337-341 | the result is absent exactly when no candidate has coordinates; otherwise it is a positioned candidate no farther than any other positioned candidate |
| CatalogQuality.FindNearestMatch | application/catalog-service/src/main/java/com/mcgeecahill/astro/catalog/util/CatalogQualityAssessment.java:330-342 | a target without coordinates matches nothing; otherwise the nearest positioned candidate is returned |
| CatalogQuality.Magnitudes | application/catalog-service/src/main/java/com/mcgeecahill/astro/catalog/util/CatalogQualityAssessment.java:166-169 | the non-null magnitudes: a value is kept exactly when some object carries it, there are at most as many as objects, and none exactly when every magnitude is null |
| CatalogQuality.MagnitudesAppend | application/catalog-service/src/main/java/com/mcgeecahill/astro/catalog/util/CatalogQualityAssessment.java:166-169 | the magnitudes of two joined catalogs are those of the first followed by those of the second, so catalog order is kept |
| CatalogQuality.BinIndex | application/catalog-service/src/main/java/com/mcgeecahill/astro/catalog/util/CatalogQualityAssessment.java:206-209 | the bin index is clamped to the last of the twenty bins |
| CatalogQuality.BinMagnitudes | application/catalog-service/src/main/java/com/mcgeecahill/astro/catalog/util/CatalogQualityAssessment.java:201-210 | the bin loop computes the twenty per-bin counts, and every magnitude lands in exactly one bin |
| CatalogQuality.FirstPeak | application/catalog-service/src/main/java/com/mcgeecahill/astro/catalog/util/CatalogQualityAssessment.java:213-219 | the first bin from 1 to 18 that exceeds both neighbours, or none when no such bin exists |
| CatalogQuality.ZeroSizeFillsFirstBin | application/catalog-service/src/main/java/com/mcgeecahill/astro/catalog/util/CatalogQualityAssessment.java:203-209 | with a zero bin size every bin other than the first is empty |
| CatalogQuality.NoPeakAtZeroSize | application/catalog-service/src/main/java/com/mcgeecahill/astro/catalog/util/CatalogQualityAssessment.java:203-219 | with a zero bin size no bin is a peak |
| CatalogQuality.BinMiddle | application/catalog-service/src/main/java/com/mcgeecahill/astro/catalog/util/CatalogQualityAssessment.java:216 | the middle of a peaked bin lies inside the magnitude range |
| CatalogQuality.NoPeakWhenFlat | application/catalog-service/src/main/java/com/mcgeecahill/astro/catalog/util/CatalogQualityAssessment.java:201-221 | magnitudes all equal to the brightest leave no peak |
| CatalogQuality.FindCompletenessTurnover | application/catalog-service/src/main/java/com/mcgeecahill/astro/catalog/util/CatalogQualityAssessment.java:195-222 | the turnover lies between the brightest and faintest magnitude; with under 100 values it is the faintest, and otherwise it is the faintest exactly when no bin peaks |
| CatalogQuality.TurnoverOfPeak | application/catalog-service/src/main/java/com/mcgeecahill/astro/catalog/util/CatalogQualityAssessment.java:213-221 | a peak gives the middle of its bin, strictly brighter than the faintest; no peak gives the faintest |
| CatalogQuality.EstimateCompletenessFromCounts | application/catalog-service/src/main/java/com/mcgeecahill/astro/catalog/util/CatalogQualityAssessment.java:227-238 | with no magnitude at or below the limit the estimate is NaN (zero over zero); otherwise it is always 250/3 percent |
| CatalogQuality.StatisticalCompleteness | application/catalog-service/src/main/java/com/mcgeecahill/astro/catalog/util/CatalogQualityAssessment.java:164-190 | without magnitudes everything is zero and empty; otherwise the estimate is 250/3 percent and the 50 percent limit lies between two of the catalog's magnitudes |
| CatalogQuality.Matched | application/catalog-service/src/main/java/com/mcgeecahill/astro/catalog/util/CatalogQualityAssessment.java:136-146 | every reference object is matched exactly when all have coordinates and the catalog has a positioned object; none is matched exactly when the catalog has none or no reference object is positioned |
| CatalogQuality.PercentOf | application/catalog-service/src/main/java/com/mcgeecahill/astro/catalog/util/CatalogQualityAssessment.java:148 | the percentage is zero exactly for a zero part, 100 exactly for the whole, and below 100 exactly for a smaller part |
| CatalogQuality.BinCompleteness | application/catalog-service/src/main/java/com/mcgeecahill/astro/catalog/util/CatalogQualityAssessment.java:368 | a bin the reference leaves empty is 100 percent complete; otherwise it is 100 exactly when the counts agree and below 100 exactly when the catalog has fewer |
| CatalogQuality.MagnitudeCompleteness | application/catalog-service/src/main/java/com/mcgeecahill/astro/catalog/util/CatalogQualityAssessment.java:347-373 | exactly the five bins "mag_12_14" to "mag_20_22", each the completeness of its two-magnitude range, none negative |
| CatalogQuality.LimitPositions | application/catalog-service/src/main/java/com/mcgeecahill/astro/catalog/util/CatalogQualityAssessment.java:387-392 | the four positions read are in range and in order, so the limits are ordered magnitudes of the catalog and the last is the faintest |
| CatalogQuality.CompletenessLimits | application/catalog-service/src/main/java/com/mcgeecahill/astro/catalog/util/CatalogQualityAssessment.java:378-396 | empty exactly when no magnitude is known; otherwise the four limits are ordered, taken from the catalog's magnitudes, and the faintest bounds them all |
| CatalogQuality.CrossMatchCompleteness | application/catalog-service/src/main/java/com/mcgeecahill/astro/catalog/util/CatalogQualityAssessment.java:128-158 | the completeness is a percentage that is 100 exactly when every reference object is positioned and the catalog has a positioned object, and 0 exactly when nothing can match |
| CatalogQuality.Completeness | application/catalog-service/src/main/java/com/mcgeecahill/astro/catalog/util/CatalogQualityAssessment.java:119-159 | the completeness is always within 0 to 100, and without a non-empty reference it is the statistical estimate |
| CatalogQuality.Percentage | application/catalog-service/src/main/java/com/mcgeecahill/astro/catalog/util/CatalogQualityAssessment.java:277-278 | a share of a positive whole is its percentage; zero over zero is NaN |
| CatalogQuality.HundredMinus | application/catalog-service/src/main/java/com/mcgeecahill/astro/catalog/util/CatalogQualityAssessment.java:278 | `100.0 - x` is finite exactly for a finite x, and NaN stays NaN |
| CatalogQuality.Reliable | application/catalog-service/src/main/java/com/mcgeecahill/astro/catalog/util/CatalogQualityAssessment.java:260-275 | the catalog objects whose nearest reference object lies within the tolerance are at most the catalog |
| CatalogQuality.ReliabilityAsWritten | application/catalog-service/src/main/java/com/mcgeecahill/astro/catalog/util/CatalogQualityAssessment.java:243-300 | an empty catalog gives NaN for both figures; otherwise the false-positive rate is within 0 to 100 and the reliability within -100 to 100 |
| CatalogQuality.Reliability | application/catalog-service/src/main/java/com/mcgeecahill/astro/catalog/util/CatalogQualityAssessment.java:243-300 | both figures are always finite and in range; an empty catalog is 100 percent reliable with no false positives, and a non-empty one is rated as written |
| CatalogQuality.ClampScore | application/catalog-service/src/main/java/com/mcgeecahill/astro/catalog/util/CatalogQualityAssessment.java:485 | the clamp keeps a finite score within 0 to 100, leaves an in-range score unchanged, and passes NaN through |
| CatalogQuality.OverallQualityScore | application/catalog-service/src/main/java/com/mcgeecahill/astro/catalog/util/CatalogQualityAssessment.java:469-486 | a NaN reliability makes the score NaN; a finite one gives a score within 0 to 100 |
| CatalogQuality.EmptyCatalogScoresNaN | application/catalog-service/src/main/java/com/mcgeecahill/astro/catalog/util/CatalogQualityAssessment.java:277-278 | an empty catalog's overall score is NaN, whatever the reference, despite the clamp |
| CatalogQuality.AssessmentScore | application/catalog-service/src/main/java/com/mcgeecahill/astro/catalog/util/CatalogQualityAssessment.java:469-486 | the corrected score is always within 0 to 100 and agrees with the code's score on every non-empty catalog |
| CatalogQuality.WeightedScoreRange | application/catalog-service/src/main/java/com/mcgeecahill/astro/catalog/util/CatalogQualityAssessment.java:475-478 | on in-range inputs the weighted score lies within 8.6 to 98.6, so the clamp never changes it, and a perfect catalog scores 98.6 |
| CatalogQuality.AssessCatalogQuality | application/catalog-service/src/main/java/com/mcgeecahill/astro/catalog/util/CatalogQualityAssessment.java:71-113 | the report holds the completeness, the corrected reliability, the flag counts and an overall score within 0 to 100 |
| Variability.SumSquaresSign | application/catalog-service/src/main/java/org/stsci/astro/catalog/util/VariableStarAnalysis.java:111-112 | a sum of squares is never negative, and is zero when every term is zero |
| Variability.DeviationExpansion | application/catalog-service/src/main/java/org/stsci/astro/catalog/util/VariableStarAnalysis.java:109-116 | the summed squared deviations from any centre equal the sum of squares less twice the centre times the sum plus n times the centre squared |
| Variability.VarianceIsMeanSquaredDeviation | application/catalog-service/src/main/java/org/stsci/astro/catalog/util/VariableStarAnalysis.java:115-116 | the code's variance, mean of squares less squared mean, is the mean squared deviation from the mean and so never negative |
| Variability.Least | application/catalog-service/src/main/java/org/stsci/astro/catalog/util/VariableStarAnalysis.java:126 | the minimum is an element no greater than any element |
| Variability.Greatest | application/catalog-service/src/main/java/org/stsci/astro/catalog/util/VariableStarAnalysis.java:127 | the maximum is an element no less than any element |
| Variability.SumBetween | application/catalog-service/src/main/java/org/stsci/astro/catalog/util/VariableStarAnalysis.java:109-110 | a sum of values within a range lies between n times each bound |
| Variability.Mean | application/catalog-service/src/main/java/org/stsci/astro/catalog/util/VariableStarAnalysis.java:115 | the mean of a non-empty series lies between its least and greatest values |
| Variability.VariabilityIndex | application/catalog-service/src/main/java/org/stsci/astro/catalog/util/VariableStarAnalysis.java:120-123 | the index is finite and non-negative once some error is non-zero; with every error zero it is infinite or NaN |
| Variability.CalculateStatistics | application/catalog-service/src/main/java/org/stsci/astro/catalog/util/VariableStarAnalysis.java:104-131 | the mean lies within the magnitude range, the amplitude is the non-negative range, the rms is the root of the mean squared deviation, and the index behaves as above |
| Variability.MinFrequency | application/catalog-service/src/main/java/org/stsci/astro/catalog/util/VariableStarAnalysis.java:151-152 | a positive span gives a positive lowest frequency, a span of 1000 days or more gives one per 1000 days, and a zero span divides to infinity |
| Variability.FrequencyGrid | application/catalog-service/src/main/java/org/stsci/astro/catalog/util/VariableStarAnalysis.java:155-178 | a thousand samples running from the lowest frequency to one per six minutes, strictly increasing when the range is not empty |
| Variability.BestPeak | application/catalog-service/src/main/java/org/stsci/astro/catalog/util/VariableStarAnalysis.java:174-218 | the best power is non-negative and no sample exceeds it; with no positive power the frequency stays 0, otherwise it is the first sample reaching that power |
| Variability.FirstMatch | application/catalog-service/src/main/java/org/stsci/astro/catalog/util/VariableStarAnalysis.java:244-256 | the class chosen is the first in the order whose condition holds, and none is chosen exactly when no condition holds |
| Variability.PrecedenceWalk | application/catalog-service/src/main/java/org/stsci/astro/catalog/util/VariableStarAnalysis.java:244-247 | RR Lyrae wins when its condition holds; otherwise the choice is made among the classes after it |
| Variability.TailWalk | application/catalog-service/src/main/java/org/stsci/astro/catalog/util/VariableStarAnalysis.java:246-249 | among the later classes, Cepheid comes before long-period variable, which comes before the rest |
| Variability.LastWalk | application/catalog-service/src/main/java/org/stsci/astro/catalog/util/VariableStarAnalysis.java:250-255 | micro-variable comes before irregular, and periodic is the fallback |
| Variability.ClassifyVariableType | application/catalog-service/src/main/java/org/stsci/astro/catalog/util/VariableStarAnalysis.java:233-257 | the class is constant exactly when the index is below 1.5, otherwise the first class whose condition holds; eclipsing binary and unknown never occur |
| Variability.VariableIsNeverConstant | application/catalog-service/src/main/java/org/stsci/astro/catalog/util/VariableStarAnalysis.java:236-238 | a light curve flagged variable is never classed constant |
| Variability.PhaseAsWritten | application/catalog-service/src/main/java/org/stsci/astro/catalog/util/VariableStarAnalysis.java:271 | Java's remainder keeps the offset's sign, so the phase lies in (-1, 1), non-negative for a later observation and non-positive for an earlier one |
| Variability.Phase | application/catalog-service/src/main/java/org/stsci/astro/catalog/util/VariableStarAnalysis.java:271 | the folded phase lies in [0, 1) and agrees with the code's phase for every observation no earlier than the first |
| Variability.PhaseBin | application/catalog-service/src/main/java/org/stsci/astro/catalog/util/VariableStarAnalysis.java:307 | the bin is at most 19, non-negative for a non-negative phase, and negative exactly when the phase is -0.05 or below |
| Variability.OwnBinOccupied | application/catalog-service/src/main/java/org/stsci/astro/catalog/util/VariableStarAnalysis.java:306-310 | every observation's bin holds at least that observation |
| Variability.EveryObservationCounted | application/catalog-service/src/main/java/org/stsci/astro/catalog/util/VariableStarAnalysis.java:322-329 | the scatter counts every observation, since no observed bin is empty |
| Variability.ScatterNonNegative | application/catalog-service/src/main/java/org/stsci/astro/catalog/util/VariableStarAnalysis.java:319-329 | the summed squared distances from the bin means are never negative |
| Variability.PhaseFoldedScatter | application/catalog-service/src/main/java/org/stsci/astro/catalog/util/VariableStarAnalysis.java:299-332 | the scatter is the root of the mean squared distance of each magnitude from its bin's mean, and is never negative |
| Variability.FirstNegative | application/catalog-service/src/main/java/org/stsci/astro/catalog/util/VariableStarAnalysis.java:307-308 | a negative bin index is found exactly when some observation falls into one |
| Variability.Metrics | application/catalog-service/src/main/java/org/stsci/astro/catalog/util/VariableStarAnalysis.java:265-293 | the scatter is reported exactly when one was computed; the autocorrelation timescale is one day and the three moments are always present |
| Variability.BinsAsWritten | application/catalog-service/src/main/java/org/stsci/astro/catalog/util/VariableStarAnalysis.java:269-272 | one bin per observation, each the bin of the code's phase of its offset from the first observation |
| Variability.Bins | application/catalog-service/src/main/java/org/stsci/astro/catalog/util/VariableStarAnalysis.java:269-272 | one bin per observation, each within the twenty bins, from the folded phase |
| Variability.AdditionalMetricsAsWritten | application/catalog-service/src/main/java/org/stsci/astro/catalog/util/VariableStarAnalysis.java:263-294 | the metrics throw exactly when the period is positive and some observation's bin is negative; otherwise the scatter is present exactly for a positive period |
| Variability.AdditionalMetrics | application/catalog-service/src/main/java/org/stsci/astro/catalog/util/VariableStarAnalysis.java:263-294 | with folded phases the metrics never throw; the scatter is present exactly for a positive period and is the scatter of the folded bins |
| Variability.MetricsAgreeOnSortedTimes | application/catalog-service/src/main/java/org/stsci/astro/catalog/util/VariableStarAnalysis.java:268-277 | when no observation precedes the first, the code's metrics succeed and equal the corrected ones |
| Variability.EarlierObservationBins | application/catalog-service/src/main/java/org/stsci/astro/catalog/util/VariableStarAnalysis.java:271 | times 1 then 0 with a period of 2 fold to bins 0 and -10 |
| Variability.EarlierObservationThrows | application/catalog-service/src/main/java/org/stsci/astro/catalog/util/VariableStarAnalysis.java:307-308 | those two observations make the metrics throw an index-out-of-bounds for -10 |
| Variability.PeriodOf | application/catalog-service/src/main/java/org/stsci/astro/catalog/util/VariableStarAnalysis.java:221 | with no positive power the best frequency stays 0 and the period is infinite |
| Variability.Assemble | application/catalog-service/src/main/java/org/stsci/astro/catalog/util/VariableStarAnalysis.java:78-97 | the assembled result has a peak power no sample exceeds, a non-negative amplitude, the variability flag exactly for an index above 1.5 and a power above 10; the period is PeriodOf of the periodogram, amplitude, mean and index are those of CalculateStatistics, and the class is CONSTANT exactly below index 1.5 and otherwise the first match of the precedence order for that period, amplitude and power |
| Variability.AnalyzeVariabilityAsWritten | application/catalog-service/src/main/java/org/stsci/astro/catalog/util/VariableStarAnalysis.java:67-98 | an empty light curve throws before the length check; fewer than ten observations give the insufficient answer |
| Variability.AnalyzeVariability | application/catalog-service/src/main/java/org/stsci/astro/catalog/util/VariableStarAnalysis.java:67-98 | short light curves, empty included, give the insufficient answer; otherwise the period is PeriodOf of the periodogram, amplitude and index are those of CalculateStatistics, a non-constant class is the first match of the precedence order, the flag, peak power and scatter keep the rules above, and it never throws |
| Variability.AnalysisAgreesOnSortedTimes | application/catalog-service/src/main/java/org/stsci/astro/catalog/util/VariableStarAnalysis.java:67-98 | when the first observation is the earliest, the code's analysis succeeds with the corrected answer |
| Variability.EmptyLightCurve | application/catalog-service/src/main/java/org/stsci/astro/catalog/util/VariableStarAnalysis.java:68-71 | an empty light curve throws as written, while the corrected analysis calls it insufficient |
| Variability.EarlyObservationFailsAnalysis | application/catalog-service/src/main/java/org/stsci/astro/catalog/util/VariableStarAnalysis.java:87-88 | a long enough light curve with a positive period and an observation folding to a negative bin makes the whole analysis throw |

## Left out

What the model does not cover:

- I/O and orchestration. This covers FITS file writing, YAML loading, the simulator's CLI and batch loop, HTTP calls, XCom pushes, and the AWS client behind `S3Service`. The model is about the logic around them. The object store is a value in which a failing bucket stands for a rejected request.
- Concurrency. This covers the asynchronous job and processing paths, the scheduler loop, and the thread-safety of the in-memory registries. Each operation is modelled as one atomic step.
- Randomness and the clock. Random draws, UUIDs and clock readings are parameters. The simulator's call order of random draws is therefore a property of the caller.
- Transcendental functions. Square root, `exp`, `pow`, `log10`, the trigonometric functions, `atan2` and the haversine distance are parameters. Each is constrained only by the facts a property needs, such as a positive `exp` or a non-negative root. The Gaussian and Sersic profile values and the Lomb-Scargle powers are inputs for the same reason.
- Floating point. Doubles are real numbers, so rounding is not modelled. `total * 0.3` and `(int) (len * 0.9)` are read exactly, as `3 * total / 10` and `9 * len / 10`. `%.6f` is a sign and a rounded count of millionths. NaN and the infinities are modelled only where the code reaches them.
- Character semantics. `toLowerCase` and `toUpperCase` map ASCII letters only. `String.hashCode` treats each character as one UTF-16 unit, so only Basic Multilingual Plane text is covered.
- Hash-map iteration order. Where it decides an outcome, the order is a parameter: the com-package `getActiveWorkflows` and `getWorkflowVersions` listings, the org-package listing before its sort (equal shares keep that order), and the metric maps the recommendation averages over.
- Null `WorkflowStep.optional`. The flag is a `bool`. In the code, unboxing a null `Boolean` throws.
- `listIntermediateResults` timestamp parsing. The parse is the `instant` parameter; a key whose timestamp does not parse fails the listing.
- The three-argument storage calls. `IntermediateStorageService` calls `uploadFile(bucket, key, data)` and `deleteFile(bucket, key)`. These are modelled as the store's direct `storeData` and `deleteObject`.
- Code outside this model. The com-package `FitsProcessingService` (ImageJ filters), `PhotometricCalibration`, `MetricsCollector`, `ProcessingContextService` and `updateDataLineage` are not part of this model, nor are controllers, repositories, DTOs without behaviour, configuration classes, the performance-testing scripts, the PostGIS initializers and the S3 trigger lambda. These are foreign calls, Spring, JPA or AWS wrappers, or load-test drivers.
- Workflow-version operations outside the listed core. These are `isRecentlyUsed` (it reads the clock), `promote`, `duplicate`, `compare`, `updateWorkflowUsage` and `updateWorkflowMetrics`.
- Celestial mechanics in `AstronomicalCalculations`. Vincenty distances, refraction, aberration, light deflection, nutation and the precession trigonometry are left out. Epoch conversion takes the precession as a parameter. `AstronomicalUtils.angularDistance` and the galactic conversion are left out for the same reason.
- Airflow pieces. The airflow operators `ActiveWorkflowOperator`, `AlgorithmDiscoveryOperator`, `WorkflowComparisonOperator` and `WorkflowPromotionOperator` are left out, and so are the research DAG's `execute_processing_step`, `finalize_processing` and `check_algorithm_availability` tasks. Each is an HTTP call with logging around it.
- GranularOperators.StepParameters: the step operators' `kwargs['parameters'].update(...)` mutates the caller's dict in place. The model returns a new dict, so the aliasing is not modelled.
- PyValues.Show: `str()` of a list, dict or float, in an error message, is a fixed placeholder text.
- ResearchDag.CreateProcessingRequest: parameter values are carried as Python values. Their typed conversion in the request object is not modelled.
- QualityMonitoring.EvaluateOverallQuality: all three task lists are pooled before any `status` is read. A missing `status` therefore fails the evaluation whichever list holds it. The order in which the code would meet it is not modelled.
- CatalogQuality.AssessCatalogQuality: the astrometric, photometric and systematic-error assessments are fixed placeholder values in the code. Only their overall qualities, which enter the score, are modelled. The flag counts that `assessReliability` computes a second time are the same counts and are not repeated.
- ProcessingJobs.SubmitJob: the code does not copy the request's user id to the job. The model follows the code.
- IntermediateStorage.MoveFinalResultWith: the repository's tests expect `retrieveData`/`storeData`, while the code calls `downloadFile`/`uploadFile`. The model follows the code.
- Variability.SumSquaresSign: states only that all-zero terms give a zero sum, not the converse. The converse is not needed for any property here.
- Variability.Mean: states that the mean lies within the range, not that `n` times the mean is the sum. `CalculateStatistics` states the quotient itself.
- Variability.AnalyzeVariability: the light curve's three arrays must have equal lengths. The code indexes them in step and throws on a shorter array. NaN magnitudes and signed zeros are not modelled.
- FitsProcessing.ProcessImage: the FITS reader's output is taken as rectangular rows.
- WorkflowVersions.UsageCount: `longValue()` saturates a double beyond the long range and maps NaN to 0. Reals here are finite and unbounded, so neither case is modelled.
- CustomWorkflow.RunStep: the step routines also receive the step's algorithm name (defaulting to "default", or "lacosmic" for cosmic-ray removal) and its parameters. The routine is a parameter of the model, and what it does with these is not modelled.
- Variability.AnalyzeVariability: the periodogram's frequencies and powers are inputs. `MinFrequency` and `FrequencyGrid` describe the grid the code builds, but the analysis does not compute it, so the NaN or negative grid that identical or unsorted times produce does not reach the analysis in the model.

## Findings

Each finding has two halves in the model. The as-written member models the code and shows the discrepancy. The corrected member states the evidently intended property, and the rest of the model builds on it. Nothing was executed.

| source | as written | input that shows it | evidently intended | confidence | as-written member | corrected member |
|---|---|---|---|---|---|---|
| application/image-processor/src/main/java/org/stsci/astro/processor/service/storage/IntermediateStorageService.java:40-43 | intermediate results are reported as "bucket/key"; the next workflow step and `moveFinalResult` read them with `downloadFile`, which accepts only "s3://" paths (S3Service.java:209-211) | a two-step workflow whose first step succeeds: reading its output, `downloadFile` rejects the location and rethrows as "Failed to download file from S3" (S3Service.java:225-227), so the second step fails with that message and, when it is required, the workflow aborts with "Required step failed: Failed to download file from S3" | a stored result can be read back at the location reported for it | high (not executed) | IntermediateStorage.DownloadRejectsLocations, IntermediateStorage.MoveAsWrittenRejectsLocations, CustomWorkflow.AsWrittenAtMostOneStepSucceeds, CustomWorkflow.AsWrittenChainBreaks | IntermediateStorage.ReadLocation, IntermediateStorage.ReadWhatWasStored, IntermediateStorage.MoveStoredResult, CustomWorkflow.CorrectedStepReadsPrevious, CustomWorkflow.CorrectedChainFeedsOutputs |
| application/catalog-service/src/main/java/org/stsci/astro/catalog/util/VariableStarAnalysis.java:68-71 | the log statement reads `times[times.length - 1]` before the minimum-observation guard | empty arrays: index -1 is out of bounds | a light curve too short to analyse, empty included, gets the insufficient answer | high (not executed) | Variability.AnalyzeVariabilityAsWritten, Variability.EmptyLightCurve | Variability.AnalyzeVariability |
| application/catalog-service/src/main/java/org/stsci/astro/catalog/util/VariableStarAnalysis.java:271 | the phase uses Java's `%`, which keeps the sign of a negative offset, and bin `(int) (phase * 20)` is then negative (line 307) | times [1.0, 0.0] with period 2: phase -0.5, bin -10, `ArrayIndexOutOfBoundsException` | phases folded into [0, 1), so every bin index is in range | high (not executed) | Variability.AdditionalMetricsAsWritten, Variability.EarlierObservationThrows, Variability.EarlyObservationFailsAnalysis | Variability.Phase, Variability.AdditionalMetrics, Variability.AnalysisAgreesOnSortedTimes |
| application/image-processor/src/main/java/com/mcgeecahill/astro/processor/service/WorkflowVersionService.java:370-372 | the registry key is `"%s_%s_%s"` of name, version and type, which is not injective when names contain '_' | ("a", "b_c") and ("a_b", "c") share a key, so one lookup returns the other version | one registry entry per (name, version, type) | medium (not executed) | WorkflowVersions.BuildKeyCollision, WorkflowVersions.LookupAsWritten | WorkflowVersions.Lookup, WorkflowVersions.HistoryKeyInjective |
| application/image-processor/src/main/java/org/stsci/astro/processor/service/ProcessingJobService.java:280-302 | next-job selection queries priorities 1, 5 and 10 only, though its comments name the bands 1-3, 4-6 and 7-10 | a queue holding only a priority-2 job: no job is picked | the oldest job of the most urgent non-empty band | medium (not executed) | ProcessingJobs.NextJobAsWritten, ProcessingJobs.NextJobSkipsOtherPriorities | ProcessingJobs.NextJobByBand |
| application/catalog-service/src/main/java/org/stsci/astro/catalog/util/AstronomicalCalculations.java:425-445 | a zero separation with a zero positional error makes the effective radius 0, and `separation / effectiveRadius` is 0/0 | separation 0, positional error 0: the distance factor and the probability are NaN, which the final clamp passes through | a probability in [0, 1]; a coincident match is as likely as it gets | high (not executed) | AstroCalc.MatchProbabilityAsWritten, AstroCalc.CoincidentMatchIsNaN | AstroCalc.MatchProbability |
| application/image-processor/src/main/java/org/stsci/astro/processor/service/FitsProcessingService.java:229 | `(long) width * height * 4` wraps around for huge images, so the size check can pass | width = height = 2147483647: the product wraps to a negative value, below any limit | images larger than the limit are rejected | medium (not executed) | FitsProcessing.ValidateFitsDataAsWritten, FitsProcessing.HugeImagePassesAsWritten | FitsProcessing.ValidateFitsData, FitsProcessing.ValidationAgreesWithoutOverflow |
| application/catalog-service/src/main/java/com/mcgeecahill/astro/catalog/util/CatalogQualityAssessment.java:294-295 | reliability and false-positive rate divide by the catalog size; the overall score's clamp (line 485) lets the resulting NaN through | an empty catalog: reliability 0/0 is NaN and the overall score is NaN | an overall score in [0, 100] for every catalog | high (not executed) | CatalogQuality.ReliabilityAsWritten, CatalogQuality.EmptyCatalogScoresNaN | CatalogQuality.Reliability, CatalogQuality.AssessmentScore |
