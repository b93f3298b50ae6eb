/** Workflow versions of the image processor and the in-memory registry that
    activates, deactivates, rolls back and picks them.

    The registry maps a (workflow name, version, processing type) key to a
    version record and keeps a newest-first activation history per workflow
    and type. Java objects are mutated in place there; here every operation
    returns the new registry. Clock readings are integer parameters, and a
    null `LocalDateTime` is `None`.
 */
module WorkflowVersions {
  import opened Wrappers
  import opened ProcessingContexts
  import opened Numerics

  /** A value of a `Map<String, Object>`: a `Number`, or anything else,
      represented by its `toString()`. */
  datatype Value = Num(x: real) | Text(s: string)

  type Metrics = map<string, Value>

  datatype WorkflowVersion = WorkflowVersion(
    workflowName: string,
    workflowVersion: string,
    processingType: ProcessingType,
    isActive: Option<bool>,
    isDefault: Option<bool>,
    trafficSplit: Option<real>,
    createdAt: Option<int>,
    activatedAt: Option<int>,
    deactivatedAt: Option<int>,
    activatedBy: Option<string>,
    deactivatedBy: Option<string>,
    activationReason: Option<string>,
    deactivationReason: Option<string>,
    performanceMetrics: Option<Metrics>,
    qualityMetrics: Option<Metrics>,
    usageStatistics: Option<Metrics>,
    algorithmConfiguration: Option<Metrics>)

  // ---------------------------------------------------------------------
  // Helpers of the version record

  /** `isCurrentlyActive`: `Boolean.TRUE.equals(isActive)`, so null is false. */
  predicate IsCurrentlyActive(v: WorkflowVersion) {
    v.isActive == Some(true)
  }

  /** `isDefaultVersion`: `Boolean.TRUE.equals(isDefault)`. */
  predicate IsDefaultVersion(v: WorkflowVersion) {
    v.isDefault == Some(true)
  }

  /** `getEffectiveTrafficPercentage`: the traffic share of an active
      version, and 0 for an inactive one or one without a share. */
  function EffectiveTraffic(v: WorkflowVersion): (p: real)
    ensures !IsCurrentlyActive(v) || v.trafficSplit.None? ==> p == 0.0
    ensures IsCurrentlyActive(v) && v.trafficSplit.Some? ==> p == v.trafficSplit.value
  {
    if IsCurrentlyActive(v) then v.trafficSplit.GetOr(0.0) else 0.0
  }

  /** `toString()` of a map value; `renderNumber` is `Number.toString`. */
  function ValueText(value: Value, renderNumber: real -> string): string {
    match value
    case Num(x) => renderNumber(x)
    case Text(s) => s
  }

  /** `getAlgorithmName`: the configured "algorithm" entry as text, or
      "default" when there is no configuration or no such entry. */
  function AlgorithmName(v: WorkflowVersion, renderNumber: real -> string): (name: string)
    ensures v.algorithmConfiguration.None? || "algorithm" !in v.algorithmConfiguration.value ==>
      name == "default"
    ensures v.algorithmConfiguration.Some? && "algorithm" in v.algorithmConfiguration.value ==>
      name == ValueText(v.algorithmConfiguration.value["algorithm"], renderNumber)
  {
    if v.algorithmConfiguration.Some? && "algorithm" in v.algorithmConfiguration.value
    then ValueText(v.algorithmConfiguration.value["algorithm"], renderNumber)
    else "default"
  }

  /** A numeric entry of a possibly-null metrics map, or null. */
  function NumericEntry(m: Option<Metrics>, key: string): (r: Option<real>)
    ensures r.Some? <==> m.Some? && key in m.value && m.value[key].Num?
    ensures r.Some? ==> m.value[key] == Num(r.value)
  {
    if m.Some? && key in m.value && m.value[key].Num? then Some(m.value[key].x) else None
  }

  /** `getAverageProcessingTime`: the numeric "avg_processing_time_ms"
      performance metric, or null. */
  function AverageProcessingTime(v: WorkflowVersion): Option<real> {
    NumericEntry(v.performanceMetrics, "avg_processing_time_ms")
  }

  /** `getQualityScore`: the numeric "quality_score" quality metric, or null. */
  function QualityScore(v: WorkflowVersion): Option<real> {
    NumericEntry(v.qualityMetrics, "quality_score")
  }

  /** `getUsageCount`: the numeric "usage_count" statistic truncated to a
      whole number, and 0 when it is missing or not a number. */
  function UsageCount(v: WorkflowVersion): (n: int)
    ensures NumericEntry(v.usageStatistics, "usage_count").None? ==> n == 0
    ensures NumericEntry(v.usageStatistics, "usage_count").Some? ==>
      var x := NumericEntry(v.usageStatistics, "usage_count").value;
      (0.0 <= x ==> 0 <= n && n as real <= x < n as real + 1.0) &&
      (x < 0.0 ==> n <= 0 && n as real - 1.0 < x <= n as real)
  {
    match NumericEntry(v.usageStatistics, "usage_count")
    case Some(x) => Trunc(x)
    case None => 0
  }

  /** Truncation toward zero is the only whole number within one of `x`
      on the side of zero, so `UsageCount` is determined by its bounds. */
  lemma {:induction false} TruncationIsUnique(x: real, m: int)
    requires 0.0 <= x ==> 0 <= m && m as real <= x < m as real + 1.0
    requires x < 0.0 ==> m <= 0 && m as real - 1.0 < x <= m as real
    ensures m == Trunc(x)
  {
    var n := Trunc(x);
    if x >= 0.0 {
      assert n as real <= x < n as real + 1.0;
    } else {
      assert n as real - 1.0 < x <= n as real;
    }
  }

  /** `createActive`: a new version that is active, not the default, takes
      all of the traffic and has been used zero times. */
  function CreateActive(name: string, version: string, t: ProcessingType,
                        activatedBy: Option<string>, reason: Option<string>, now: int): (v: WorkflowVersion)
    ensures v.workflowName == name && v.workflowVersion == version && v.processingType == t
    ensures IsCurrentlyActive(v) && !IsDefaultVersion(v) && EffectiveTraffic(v) == 100.0
    ensures v.createdAt == Some(now) && v.activatedAt == Some(now)
    ensures v.activatedBy == activatedBy && v.activationReason == reason
    ensures UsageCount(v) == 0 && AlgorithmName(v, _ => "") == "default"
  {
    WorkflowVersion(name, version, t, Some(true), Some(false), Some(100.0), Some(now), Some(now), None,
                    activatedBy, None, reason, None, None, None, Some(map["usage_count" := Num(0.0)]), None)
  }

  // ---------------------------------------------------------------------
  // Registry keys

  /** The registry key `String.format("%s_%s_%s", name, version, type)` as
      the service writes it. */
  function BuildKeyAsWritten(name: string, version: string, t: ProcessingType): string {
    name + "_" + version + "_" + t.Name()
  }

  /** The string key is not injective: a workflow "a" at version "b_c" and
      a workflow "a_b" at version "c" share one registry slot, so a lookup
      for one of them finds the other. */
  lemma BuildKeyCollision()
    ensures BuildKeyAsWritten("a", "b_c", Production) == BuildKeyAsWritten("a_b", "c", Production)
    ensures LookupAsWritten(map[BuildKeyAsWritten("a_b", "c", Production) := Sample("a_b", "c", Production)],
                            "a", "b_c", Production) == Some(Sample("a_b", "c", Production))
  {
    assert BuildKeyAsWritten("a", "b_c", Production) == "a_b_c_PRODUCTION";
    assert BuildKeyAsWritten("a_b", "c", Production) == "a_b_c_PRODUCTION";
  }

  /** `getWorkflowVersion` over the string-keyed map. */
  function LookupAsWritten(versions: map<string, WorkflowVersion>, name: string, version: string,
                           t: ProcessingType): (r: Option<WorkflowVersion>)
    ensures r.Some? <==> BuildKeyAsWritten(name, version, t) in versions
  {
    var k := BuildKeyAsWritten(name, version, t);
    if k in versions then Some(versions[k]) else None
  }

  /** A version with only its identity set, as a sample registry entry. */
  function Sample(name: string, version: string, t: ProcessingType): WorkflowVersion {
    WorkflowVersion(name, version, t, None, None, None, None, None, None,
                    None, None, None, None, None, None, None, None)
  }

  /** The registry key with its three parts kept apart: one slot per
      (name, version, type). */
  datatype VersionKey = VersionKey(name: string, version: string, ptype: ProcessingType)

  function KeyOf(v: WorkflowVersion): VersionKey {
    VersionKey(v.workflowName, v.workflowVersion, v.processingType)
  }

  type Versions = map<VersionKey, WorkflowVersion>

  /** Every entry sits under its own key. */
  predicate WellKeyed(vs: Versions) {
    forall k :: k in vs ==> KeyOf(vs[k]) == k
  }

  /** Looking up (name, version, type) in a well-keyed registry finds that
      very version, or nothing. */
  function Lookup(vs: Versions, name: string, version: string, t: ProcessingType): (r: Option<WorkflowVersion>)
    requires WellKeyed(vs)
    ensures r.Some? <==> exists v :: v in vs.Values && KeyOf(v) == VersionKey(name, version, t)
    ensures r.Some? ==> (r.value in vs.Values &&
      r.value.workflowName == name && r.value.workflowVersion == version && r.value.processingType == t)
  {
    var k := VersionKey(name, version, t);
    if k in vs then Some(vs[k])
    else
      assert forall v :: v in vs.Values ==> KeyOf(v) != k;
      None
  }

  /** Text of a key in error messages. */
  function KeyText(name: string, version: string, t: ProcessingType): string {
    BuildKeyAsWritten(name, version, t)
  }

  // ---------------------------------------------------------------------
  // Registry-wide updates

  /** Member of workflow `name` with type `t`. */
  predicate InWorkflow(v: WorkflowVersion, name: string, t: ProcessingType) {
    v.workflowName == name && v.processingType == t
  }

  function Deactivated(v: WorkflowVersion, now: int): WorkflowVersion {
    v.(isActive := Some(false), deactivatedAt := Some(now), trafficSplit := Some(0.0))
  }

  /** `deactivateOtherVersions`: every active version of the workflow whose
      version is not excluded is switched off with zero traffic; nothing
      else changes. */
  function DeactivateOthers(vs: Versions, name: string, t: ProcessingType, exclude: set<string>, now: int): (r: Versions)
    ensures r.Keys == vs.Keys
    ensures forall k :: k in vs ==>
      if InWorkflow(vs[k], name, t) && vs[k].workflowVersion !in exclude && IsCurrentlyActive(vs[k])
      then r[k] == Deactivated(vs[k], now) && !IsCurrentlyActive(r[k]) && EffectiveTraffic(r[k]) == 0.0
      else r[k] == vs[k]
    ensures WellKeyed(vs) ==> WellKeyed(r)
    ensures forall k :: k in r && InWorkflow(r[k], name, t) && r[k].workflowVersion !in exclude ==>
      !IsCurrentlyActive(r[k])
  {
    map k | k in vs ::
      if InWorkflow(vs[k], name, t) && vs[k].workflowVersion !in exclude && IsCurrentlyActive(vs[k])
      then Deactivated(vs[k], now) else vs[k]
  }

  /** `setAsDefault`: the default flag is cleared on every other version of
      the workflow and set on (name, version, type) when it exists. */
  function SetAsDefault(vs: Versions, name: string, t: ProcessingType, version: string): (r: Versions)
    requires WellKeyed(vs)
    ensures r.Keys == vs.Keys && WellKeyed(r)
    ensures forall k :: k in r && InWorkflow(r[k], name, t) ==>
      (IsDefaultVersion(r[k]) <==> r[k].workflowVersion == version)
    ensures forall k :: k in vs && !InWorkflow(vs[k], name, t) ==> r[k] == vs[k]
    ensures forall k :: k in vs ==> r[k] == vs[k].(isDefault := r[k].isDefault)
  {
    var cleared := ClearDefaults(vs, name, t, version);
    var key := VersionKey(name, version, t);
    if key in cleared then cleared[key := cleared[key].(isDefault := Some(true))] else cleared
  }

  /** The default flag cleared on every version of the workflow other than
      `version`. */
  function ClearDefaults(vs: Versions, name: string, t: ProcessingType, version: string): (r: Versions)
    requires WellKeyed(vs)
    ensures r.Keys == vs.Keys && WellKeyed(r)
    ensures forall k :: k in r && InWorkflow(r[k], name, t) && r[k].workflowVersion != version ==>
      !IsDefaultVersion(r[k])
    ensures forall k :: k in vs && !(InWorkflow(vs[k], name, t) && vs[k].workflowVersion != version) ==> r[k] == vs[k]
    ensures forall k :: k in vs ==> r[k] == vs[k].(isDefault := r[k].isDefault)
  {
    map k | k in vs ::
      if InWorkflow(vs[k], name, t) && vs[k].workflowVersion != version
      then vs[k].(isDefault := Some(false)) else vs[k]
  }

  /** Active versions of the workflow, in listing order. */
  function Candidates(listing: seq<WorkflowVersion>, name: string, t: ProcessingType): (c: seq<WorkflowVersion>)
    ensures forall v :: v in c <==> v in listing && InWorkflow(v, name, t) && IsCurrentlyActive(v)
  {
    if |listing| == 0 then []
    else
      var rest := Candidates(listing[1..], name, t);
      if InWorkflow(listing[0], name, t) && IsCurrentlyActive(listing[0]) then [listing[0]] + rest else rest
  }

  // ---------------------------------------------------------------------
  // Activation history

  datatype HistoryEntry = HistoryEntry(workflowName: string, workflowVersion: string,
                                       processingType: ProcessingType, action: string,
                                       performedAt: int, performedBy: Option<string>, reason: Option<string>)

  type History = map<string, seq<HistoryEntry>>

  const HistoryCap: nat := 100

  /** The history list of a workflow and type: `name + "_" + type`. */
  function HistoryKey(name: string, t: ProcessingType): string {
    name + "_" + t.Name()
  }

  /** Unlike the registry key, the history key is injective: type names
      contain no '_', so the text after the last '_' is the type. */
  lemma {:induction false} HistoryKeyInjective(n1: string, t1: ProcessingType, n2: string, t2: ProcessingType)
    requires HistoryKey(n1, t1) == HistoryKey(n2, t2)
    ensures n1 == n2 && t1 == t2
  {
    var s := HistoryKey(n1, t1);
    NamesDistinct(t1, t2);
    NamesDistinct(t2, t1);
    TrailingRunAfter(n1 + "_", t1.Name());
    TrailingRunAfter(n2 + "_", t2.Name());
    assert |t1.Name()| == |t2.Name()|;
    assert t1.Name() == s[|s| - |t1.Name()|..] == t2.Name();
    assert n1 == s[..|n1|] == n2;
  }

  /** Length of the longest suffix of `s` without `c`. */
  function TrailingRun(s: string, c: char): nat
    decreases |s|
  {
    if |s| == 0 || s[|s| - 1] == c then 0 else TrailingRun(s[..|s| - 1], c) + 1
  }

  lemma {:induction false} TrailingRunAfter(p: string, q: string)
    requires |p| > 0 && p[|p| - 1] == '_' && '_' !in q
    ensures TrailingRun(p + q, '_') == |q|
    decreases |q|
  {
    if |q| == 0 {
      assert p + q == p;
    } else {
      var s := p + q;
      assert s[..|s| - 1] == p + q[..|q| - 1];
      TrailingRunAfter(p, q[..|q| - 1]);
    }
  }

  /** `logActivation`: the new entry goes first in its workflow's list and
      the list keeps at most 100 entries, dropping the oldest; the lists of
      other workflows are untouched. */
  function LogActivation(h: History, name: string, version: string, t: ProcessingType, action: string,
                         performedBy: Option<string>, reason: Option<string>, now: int): (r: History)
    ensures HistoryKey(name, t) in r
    ensures var prev := if HistoryKey(name, t) in h then h[HistoryKey(name, t)] else [];
      var l := r[HistoryKey(name, t)];
      |l| == (if |prev| + 1 <= HistoryCap then |prev| + 1 else HistoryCap) &&
      l[0] == HistoryEntry(name, version, t, action, now, performedBy, reason) &&
      forall i :: 1 <= i < |l| ==> l[i] == prev[i - 1]
    ensures forall k :: k != HistoryKey(name, t) ==> (k in r <==> k in h) && (k in h ==> r[k] == h[k])
  {
    var key := HistoryKey(name, t);
    var prev := if key in h then h[key] else [];
    var added := [HistoryEntry(name, version, t, action, now, performedBy, reason)] + prev;
    h[key := if |added| > HistoryCap then added[..HistoryCap] else added]
  }

  /** `getWorkflowHistory`: the first `limit` entries of the list for the
      workflow and type, or of the list keyed by the bare name when no type
      is given; a negative limit throws. */
  function WorkflowHistory(h: History, name: string, t: Option<ProcessingType>, limit: int): (r: Result<seq<HistoryEntry>>)
    ensures r.Failure? <==> limit < 0
    ensures r.Success? ==>
      var key := if t.Some? then HistoryKey(name, t.value) else name;
      var l := if key in h then h[key] else [];
      r.value <= l && |r.value| == if limit < |l| then limit else |l|
  {
    if limit < 0 then Failure("IllegalArgumentException")
    else
      var key := if t.Some? then HistoryKey(name, t.value) else name;
      var l := if key in h then h[key] else [];
      Success(if limit < |l| then l[..limit] else l)
  }

  /** The whole registry. */
  datatype Registry = Registry(versions: Versions, history: History)

  /** What an operation returns: the new registry and the version record
      the Java method hands back. */
  datatype Outcome = Outcome(registry: Registry, version: WorkflowVersion)
}
