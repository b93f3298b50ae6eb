/** The data-quality monitoring DAG's verdict: the metrics the three check
    tasks collected are pooled, counted by status, and the overall status
    picks the DAG task that runs next. */
module QualityMonitoring {
  import opened Wrappers
  import opened PyValues

  /** A collected metric: a dict whose "status" entry the verdict reads. */
  type Metric = map<string, PyValue>

  datatype Overall = Critical | Warning | Healthy {
    function Name(): string {
      match this
      case Critical => "CRITICAL"
      case Warning => "WARNING"
      case Healthy => "HEALTHY"
    }

    /** The branch task the verdict selects. */
    function NextTask(): string {
      match this
      case Critical => "send_critical_alert"
      case Warning => "send_warning_alert"
      case Healthy => "log_healthy_status"
    }
  }

  datatype QualitySummary = QualitySummary(
    overallStatus: Overall, totalMetrics: nat, criticalIssues: nat, warnings: nat, passingChecks: nat,
    metrics: seq<Metric>)

  /** A pulled metric list, or `[]` when that DAG task pushed nothing. */
  function Pulled(metrics: Option<seq<Metric>>): seq<Metric> {
    if metrics.Some? then metrics.value else []
  }

  predicate HasStatus(ms: seq<Metric>) {
    forall i :: 0 <= i < |ms| ==> "status" in ms[i]
  }

  /** The number of metrics whose status is `status`. */
  function Count(ms: seq<Metric>, status: string): (n: nat)
    requires HasStatus(ms)
    ensures n <= |ms|
  {
    if |ms| == 0 then 0
    else (if ms[0]["status"] == PyStr(status) then 1 else 0) + Count(ms[1..], status)
  }

  /** A status is counted exactly when some metric has it. */
  lemma {:induction false} CountPositive(ms: seq<Metric>, status: string)
    requires HasStatus(ms)
    ensures Count(ms, status) > 0 <==> exists i :: 0 <= i < |ms| && ms[i]["status"] == PyStr(status)
  {
    if |ms| > 0 {
      CountPositive(ms[1..], status);
      if Count(ms[1..], status) > 0 {
        var i :| 0 <= i < |ms[1..]| && ms[1..][i]["status"] == PyStr(status);
        assert ms[i + 1] == ms[1..][i];
      }
      if exists i :: 0 <= i < |ms| && ms[i]["status"] == PyStr(status) {
        var i :| 0 <= i < |ms| && ms[i]["status"] == PyStr(status);
        if i > 0 {
          assert ms[1..][i - 1] == ms[i];
        }
      }
    }
  }

  /** The statuses of the metrics, in order. */
  function Statuses(ms: seq<Metric>): (r: seq<PyValue>)
    requires HasStatus(ms)
    ensures |r| == |ms| && forall i :: 0 <= i < |ms| ==> r[i] == ms[i]["status"]
  {
    seq(|ms|, i requires 0 <= i < |ms| => ms[i]["status"])
  }

  /** `Count` is how often the status occurs among the metrics' statuses. */
  lemma {:induction false} CountIsMultiplicity(ms: seq<Metric>, status: string)
    requires HasStatus(ms)
    ensures Count(ms, status) == multiset(Statuses(ms))[PyStr(status)]
  {
    if |ms| > 0 {
      assert Statuses(ms) == [ms[0]["status"]] + Statuses(ms[1..]);
      CountIsMultiplicity(ms[1..], status);
    } else {
      assert Statuses(ms) == [];
    }
  }

  /** Counting the pooled list is counting each part. */
  lemma {:induction false} CountAppend(a: seq<Metric>, b: seq<Metric>, status: string)
    requires HasStatus(a) && HasStatus(b)
    ensures HasStatus(a + b)
    ensures Count(a + b, status) == Count(a, status) + Count(b, status)
  {
    if |a| > 0 {
      assert (a + b)[1..] == a[1..] + b;
      CountAppend(a[1..], b, status);
    } else {
      assert a + b == b;
    }
  }

  /** The three counts never exceed the number of metrics: the statuses
      are distinct, so no metric is counted twice. */
  lemma {:induction false} CountsWithinTotal(ms: seq<Metric>)
    requires HasStatus(ms)
    ensures Count(ms, "CRITICAL") + Count(ms, "WARNING") + Count(ms, "PASS") <= |ms|
  {
    if |ms| > 0 {
      CountsWithinTotal(ms[1..]);
    }
  }

  /** "More than 30% warnings", with the product `total * 0.3` read as the
      real number it stands for. */
  predicate TooManyWarnings(warnings: nat, total: nat) {
    10 * warnings > 3 * total
  }

  /** `evaluate_overall_quality`: the summary pushed and the branch chosen.
      A metric without a "status" raises `KeyError`. */
  function EvaluateOverallQuality(processing: Option<seq<Metric>>, catalog: Option<seq<Metric>>,
                                  consistency: Option<seq<Metric>>): (r: Result<QualitySummary>)
    ensures var all := Pulled(processing) + Pulled(catalog) + Pulled(consistency);
            && (r.Failure? <==> exists i :: 0 <= i < |all| && "status" !in all[i])
            && (r.Failure? ==> r.error == "'status'")
            && (r.Success? ==>
                  && r.value.metrics == all && r.value.totalMetrics == |all|
                  && HasStatus(all)
                  && r.value.criticalIssues == Count(all, "CRITICAL")
                  && r.value.warnings == Count(all, "WARNING")
                  && r.value.passingChecks == Count(all, "PASS")
                  && r.value.criticalIssues + r.value.warnings + r.value.passingChecks <= |all|
                  && (r.value.overallStatus == Critical <==>
                        exists i :: 0 <= i < |all| && all[i]["status"] == PyStr("CRITICAL"))
                  && (r.value.overallStatus == Warning <==>
                        r.value.criticalIssues == 0 && TooManyWarnings(r.value.warnings, |all|))
                  && (r.value.overallStatus == Healthy <==>
                        r.value.criticalIssues == 0 && !TooManyWarnings(r.value.warnings, |all|)))
  {
    var all := Pulled(processing) + Pulled(catalog) + Pulled(consistency);
    if !HasStatus(all) then Failure("'status'")
    else
      var critical := Count(all, "CRITICAL");
      var warning := Count(all, "WARNING");
      var passing := Count(all, "PASS");
      CountPositive(all, "CRITICAL");
      CountsWithinTotal(all);
      var status := if critical > 0 then Critical
                    else if TooManyWarnings(warning, |all|) then Warning
                    else Healthy;
      Success(QualitySummary(status, |all|, critical, warning, passing, all))
  }

  /** The counts of the pooled list are the sums of the three tasks'
      counts, so splitting the checks across tasks changes no verdict. */
  lemma PoolingAddsCounts(processing: seq<Metric>, catalog: seq<Metric>, consistency: seq<Metric>, status: string)
    requires HasStatus(processing) && HasStatus(catalog) && HasStatus(consistency)
    ensures HasStatus(processing + catalog + consistency)
    ensures Count(processing + catalog + consistency, status)
            == Count(processing, status) + Count(catalog, status) + Count(consistency, status)
  {
    CountAppend(processing, catalog, status);
    CountAppend(processing + catalog, consistency, status);
  }

  /** With no metrics at all the pipeline is healthy. */
  lemma NothingPulledIsHealthy()
    ensures EvaluateOverallQuality(None, Some([]), None) == Success(QualitySummary(Healthy, 0, 0, 0, 0, []))
  {
  }
}
