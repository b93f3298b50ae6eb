/** The deterministic workflow-version service: every activation is all or
    nothing (traffic 0 or 100), production keeps a single active version,
    and processing picks the most recently activated active version.
 */
module WorkflowService {
  import opened Wrappers
  import opened ProcessingContexts
  import opened WorkflowVersions

  datatype ActivationRequest = ActivationRequest(
    activatedBy: Option<string>,
    reason: Option<string>,
    trafficSplitPercentage: Option<real>,
    deactivateOthers: Option<bool>,
    setAsDefault: Option<bool>)

  /** Traffic this service accepts: none given, 0 or 100. */
  predicate DeterministicTraffic(traffic: Option<real>) {
    traffic.None? || traffic.value == 0.0 || traffic.value == 100.0
  }

  /** Other versions of the workflow are switched off for every production
      activation and for other types only when the request asks for it. */
  predicate DeactivatesOthers(t: ProcessingType, req: ActivationRequest) {
    t == Production || req.deactivateOthers == Some(true)
  }

  /** `activateWorkflow`. An unknown (name, version, type) or a traffic
      share other than 0 or 100 fails, and a failure leaves the registry as
      it was. Otherwise the target becomes active with the requested share
      (100 when none is given); for production, or when asked, it is then
      the only active version of its workflow; when asked it becomes the
      only default; versions of other workflows are untouched and the
      activation is logged. */
  function Activate(reg: Registry, name: string, version: string, t: ProcessingType,
                    req: ActivationRequest, now: int): (r: Result<Outcome>)
    requires WellKeyed(reg.versions)
    ensures VersionKey(name, version, t) !in reg.versions ==>
      r == Failure("Workflow version not found: " + KeyText(name, version, t))
    ensures VersionKey(name, version, t) in reg.versions && !DeterministicTraffic(req.trafficSplitPercentage) ==>
      r.Failure?
    ensures r.Success? <==> VersionKey(name, version, t) in reg.versions && DeterministicTraffic(req.trafficSplitPercentage)
    ensures r.Success? ==>
      var key := VersionKey(name, version, t);
      var vs := r.value.registry.versions;
      var target := r.value.version;
      vs.Keys == reg.versions.Keys && WellKeyed(vs) && vs[key] == target &&
      IsCurrentlyActive(target) &&
      target.trafficSplit == Some(req.trafficSplitPercentage.GetOr(100.0)) &&
      target.activatedAt == Some(now) &&
      target.activatedBy == req.activatedBy && target.activationReason == req.reason &&
      (DeactivatesOthers(t, req) ==>
        forall k :: k in vs && InWorkflow(vs[k], name, t) && IsCurrentlyActive(vs[k]) ==> k == key) &&
      (req.setAsDefault == Some(true) ==>
        forall k :: k in vs && InWorkflow(vs[k], name, t) ==> (IsDefaultVersion(vs[k]) <==> k == key)) &&
      (req.setAsDefault != Some(true) ==>
        forall k :: k in vs ==> vs[k].isDefault == reg.versions[k].isDefault) &&
      (forall k :: k in vs && !InWorkflow(reg.versions[k], name, t) ==> vs[k] == reg.versions[k]) &&
      (forall k :: k in vs && k != key ==>
        vs[k] == Prepared(reg.versions, name, version, t, DeactivatesOthers(t, req), now)[k].(isDefault := vs[k].isDefault)) &&
      r.value.registry.history ==
        LogActivation(reg.history, name, version, t, "activate", req.activatedBy, req.reason, now)
  {
    var key := VersionKey(name, version, t);
    if key !in reg.versions then Failure("Workflow version not found: " + KeyText(name, version, t))
    else if !DeterministicTraffic(req.trafficSplitPercentage) then
      if t == Production
      then Failure("Production workflows do not support traffic splitting. Use 100% or deactivate.")
      else Failure("All workflows require deterministic processing. Use 100% activation or deactivate.")
    else
      var off := DeactivatesOthers(t, req);
      var vs := ActivatedVersions(reg.versions, name, version, t, req, off, now);
      var prepared := Prepared(reg.versions, name, version, t, off, now);
      assert forall k :: k in vs && k != key ==> vs[k] == prepared[k].(isDefault := vs[k].isDefault);
      ActivatedTarget(reg.versions, name, version, t, req, off, now);
      ActivatedOthers(reg.versions, name, version, t, req, off, now);
      var h := LogActivation(reg.history, name, version, t, "activate", req.activatedBy, req.reason, now);
      Success(Outcome(Registry(vs, h), vs[key]))
  }

  /** The target of an activation with the request's stamps applied. */
  function Activated(v: WorkflowVersion, req: ActivationRequest, now: int): WorkflowVersion {
    v.(isActive := Some(true), activatedAt := Some(now),
       activatedBy := req.activatedBy, activationReason := req.reason,
       trafficSplit := Some(req.trafficSplitPercentage.GetOr(100.0)))
  }

  /** The registry before the target is stamped: the other versions of
      the workflow switched off when `switchOff` holds. */
  function Prepared(vs: Versions, name: string, version: string, t: ProcessingType,
                    switchOff: bool, now: int): (r: Versions)
    ensures r.Keys == vs.Keys
    ensures WellKeyed(vs) ==> WellKeyed(r)
  {
    if switchOff then DeactivateOthers(vs, name, t, {version}, now) else vs
  }

  /** The registry after a successful activation: others switched off when
      `switchOff` holds, the target stamped, and the default moved when
      asked. */
  function ActivatedVersions(vs: Versions, name: string, version: string, t: ProcessingType,
                             req: ActivationRequest, switchOff: bool, now: int): (r: Versions)
    requires WellKeyed(vs) && VersionKey(name, version, t) in vs
    ensures r.Keys == vs.Keys && WellKeyed(r)
    ensures forall k :: k in vs && k != VersionKey(name, version, t) ==>
      r[k] == Prepared(vs, name, version, t, switchOff, now)[k].(isDefault := r[k].isDefault)
  {
    var key := VersionKey(name, version, t);
    var vs1 := Prepared(vs, name, version, t, switchOff, now);
    var vs2 := vs1[key := Activated(vs1[key], req, now)];
    if req.setAsDefault == Some(true) then SetAsDefault(vs2, name, t, version) else vs2
  }

  /** The target is active with the requested share and stamps, and the
      default flag is moved only when the request asks for it. */
  lemma ActivatedTarget(vs: Versions, name: string, version: string, t: ProcessingType,
                        req: ActivationRequest, switchOff: bool, now: int)
    requires WellKeyed(vs) && VersionKey(name, version, t) in vs
    ensures var r := ActivatedVersions(vs, name, version, t, req, switchOff, now);
      var target := r[VersionKey(name, version, t)];
      IsCurrentlyActive(target) &&
      target.trafficSplit == Some(req.trafficSplitPercentage.GetOr(100.0)) &&
      target.activatedAt == Some(now) &&
      target.activatedBy == req.activatedBy && target.activationReason == req.reason &&
      (req.setAsDefault == Some(true) ==>
        forall k :: k in r && InWorkflow(r[k], name, t) ==> (IsDefaultVersion(r[k]) <==> k == VersionKey(name, version, t))) &&
      (req.setAsDefault != Some(true) ==>
        forall k :: k in r ==> r[k].isDefault == vs[k].isDefault)
  {
    var key := VersionKey(name, version, t);
    var vs1 := Prepared(vs, name, version, t, switchOff, now);
    var vs2 := vs1[key := Activated(vs1[key], req, now)];
    assert WellKeyed(vs2);
    assert forall k :: k in vs1 ==> vs1[k].isDefault == vs[k].isDefault;
  }

  /** Other versions: none of the workflow stays active when others are
      switched off, and other workflows are untouched. */
  lemma ActivatedOthers(vs: Versions, name: string, version: string, t: ProcessingType,
                        req: ActivationRequest, switchOff: bool, now: int)
    requires WellKeyed(vs) && VersionKey(name, version, t) in vs
    ensures var r := ActivatedVersions(vs, name, version, t, req, switchOff, now);
      (switchOff ==>
        forall k :: k in r && InWorkflow(r[k], name, t) && IsCurrentlyActive(r[k]) ==> k == VersionKey(name, version, t)) &&
      (forall k :: k in r && !InWorkflow(vs[k], name, t) ==> r[k] == vs[k])
  {
    var key := VersionKey(name, version, t);
    var vs1 := Prepared(vs, name, version, t, switchOff, now);
    var vs2 := vs1[key := Activated(vs1[key], req, now)];
    assert WellKeyed(vs2);
    var r := ActivatedVersions(vs, name, version, t, req, switchOff, now);
    if switchOff {
      forall k | k in r && InWorkflow(r[k], name, t) && IsCurrentlyActive(r[k])
        ensures k == key
      {
        assert r[k].isActive == vs2[k].isActive;
      }
    }
  }

  /** `deactivateWorkflow`: an unknown version fails; otherwise the target
      is inactive with zero traffic, stamped with who and why, every other
      version is untouched and the deactivation is logged. */
  function Deactivate(reg: Registry, name: string, version: string, t: ProcessingType,
                      deactivatedBy: Option<string>, reason: Option<string>, now: int): (r: Result<Outcome>)
    requires WellKeyed(reg.versions)
    ensures r.Success? <==> VersionKey(name, version, t) in reg.versions
    ensures r.Success? ==>
      var key := VersionKey(name, version, t);
      var vs := r.value.registry.versions;
      var target := r.value.version;
      vs.Keys == reg.versions.Keys && WellKeyed(vs) && vs[key] == target &&
      !IsCurrentlyActive(target) && target.trafficSplit == Some(0.0) && EffectiveTraffic(target) == 0.0 &&
      target.deactivatedAt == Some(now) && target.deactivatedBy == deactivatedBy &&
      target.deactivationReason == reason &&
      (forall k :: k in vs && k != key ==> vs[k] == reg.versions[k]) &&
      r.value.registry.history ==
        LogActivation(reg.history, name, version, t, "deactivate", deactivatedBy, reason, now)
  {
    var key := VersionKey(name, version, t);
    if key !in reg.versions then Failure("Workflow version not found: " + KeyText(name, version, t))
    else
      var target := reg.versions[key].(isActive := Some(false), deactivatedAt := Some(now),
                                       deactivatedBy := deactivatedBy, deactivationReason := reason,
                                       trafficSplit := Some(0.0));
      var h := LogActivation(reg.history, name, version, t, "deactivate", deactivatedBy, reason, now);
      Success(Outcome(Registry(reg.versions[key := target], h), target))
  }

  /** `rollbackWorkflow`: an unknown target fails; otherwise the target is
      the only active version of its workflow, at 100% traffic, with the
      reason prefixed "Rollback: "; other workflows are untouched. */
  function Rollback(reg: Registry, name: string, t: ProcessingType, targetVersion: string,
                    performedBy: Option<string>, reason: Option<string>, now: int): (r: Result<Outcome>)
    requires WellKeyed(reg.versions)
    ensures r.Success? <==> VersionKey(name, targetVersion, t) in reg.versions
    ensures r.Success? ==>
      var key := VersionKey(name, targetVersion, t);
      var vs := r.value.registry.versions;
      var target := r.value.version;
      vs.Keys == reg.versions.Keys && WellKeyed(vs) && vs[key] == target &&
      IsCurrentlyActive(target) && EffectiveTraffic(target) == 100.0 &&
      target.activatedAt == Some(now) && target.activatedBy == performedBy &&
      target.activationReason == Some("Rollback: " + FormatArg(reason)) &&
      (forall k :: k in vs && InWorkflow(vs[k], name, t) && IsCurrentlyActive(vs[k]) ==> k == key) &&
      (forall k :: k in vs && !InWorkflow(reg.versions[k], name, t) ==> vs[k] == reg.versions[k]) &&
      (forall k :: k in vs && k != key ==>
        vs[k] == DeactivateOthers(reg.versions, name, t, {targetVersion}, now)[k]) &&
      r.value.registry.history ==
        LogActivation(reg.history, name, targetVersion, t, "rollback", performedBy, reason, now)
  {
    var key := VersionKey(name, targetVersion, t);
    if key !in reg.versions then Failure("Target version not found: " + targetVersion)
    else
      var vs1 := DeactivateOthers(reg.versions, name, t, {targetVersion}, now);
      var target := vs1[key].(isActive := Some(true), activatedAt := Some(now),
                              activatedBy := performedBy,
                              activationReason := Some("Rollback: " + FormatArg(reason)),
                              trafficSplit := Some(100.0));
      var h := LogActivation(reg.history, name, targetVersion, t, "rollback", performedBy, reason, now);
      Success(Outcome(Registry(vs1[key := target], h), target))
  }

  // ---------------------------------------------------------------------
  // Choosing the version that processes a request

  /** Activation times compared with a missing time as the earliest one
      (`LocalDateTime.MIN`). */
  predicate NotLater(a: Option<int>, b: Option<int>) {
    a.None? || (b.Some? && a.value <= b.value)
  }

  /** Index of the element `Stream.max` returns for "latest activation
      first": a latest one, and the first of several equally late ones,
      since `maxBy` keeps the element it holds on a tie. */
  function LatestIndex(c: seq<WorkflowVersion>): (i: nat)
    requires |c| > 0
    ensures i < |c|
    ensures forall j :: 0 <= j < |c| ==> NotLater(c[j].activatedAt, c[i].activatedAt)
    ensures forall j :: 0 <= j < i ==> !NotLater(c[i].activatedAt, c[j].activatedAt)
  {
    if |c| == 1 then 0
    else
      var j := LatestIndex(c[..|c| - 1]);
      assert c[..|c| - 1][j] == c[j];
      if NotLater(c[|c| - 1].activatedAt, c[j].activatedAt) then j else |c| - 1
  }

  /** `getActiveWorkflowForProcessing` over `listing`, the registry's
      active versions in the order `getActiveWorkflows` returns them: no
      candidate gives nothing, a single one is returned, and among several
      the latest activated wins. */
  function ActiveForProcessing(listing: seq<WorkflowVersion>, name: string, t: ProcessingType): (r: Option<WorkflowVersion>)
    ensures r.None? <==> forall v :: v in listing ==> !(InWorkflow(v, name, t) && IsCurrentlyActive(v))
    ensures r.Some? ==> r.value in listing && InWorkflow(r.value, name, t) && IsCurrentlyActive(r.value)
    ensures r.Some? ==> forall v :: v in listing && InWorkflow(v, name, t) && IsCurrentlyActive(v) ==>
      NotLater(v.activatedAt, r.value.activatedAt)
  {
    var c := Candidates(listing, name, t);
    if |c| == 0 then None
    else if |c| == 1 then
      assert c[0] in c;
      Some(c[0])
    else
      var i := LatestIndex(c);
      assert c[i] in c;
      assert forall v :: v in c ==> NotLater(v.activatedAt, c[i].activatedAt);
      Some(c[i])
  }

  /** A registry in which one version is the only active version of its
      workflow: processing picks it from any listing of the registry. */
  lemma SoleActiveIsSelected(vs: Versions, key: VersionKey, name: string, t: ProcessingType,
                             listing: seq<WorkflowVersion>)
    requires key in vs && InWorkflow(vs[key], name, t) && IsCurrentlyActive(vs[key])
    requires forall k :: k in vs && InWorkflow(vs[k], name, t) && IsCurrentlyActive(vs[k]) ==> k == key
    requires forall v :: v in listing <==> v in vs.Values
    ensures ActiveForProcessing(listing, name, t) == Some(vs[key])
  {
    assert vs[key] in vs.Values;
    var c := Candidates(listing, name, t);
    assert vs[key] in c;
    forall v | v in c
      ensures v == vs[key]
    {
      var k :| k in vs && vs[k] == v;
      assert k == key;
    }
    assert c[0] in c;
  }

  /** Once a production version has been activated, processing of that
      workflow picks exactly it, whatever order the registry lists its
      versions in. */
  lemma ProductionActivationIsSelected(reg: Registry, name: string, version: string, req: ActivationRequest,
                                       now: int, listing: seq<WorkflowVersion>)
    requires WellKeyed(reg.versions)
    requires Activate(reg, name, version, Production, req, now).Success?
    requires forall v :: v in listing <==> v in Activate(reg, name, version, Production, req, now).value.registry.versions.Values
    ensures ActiveForProcessing(listing, name, Production) == Some(Activate(reg, name, version, Production, req, now).value.version)
  {
    var o := Activate(reg, name, version, Production, req, now).value;
    SoleActiveIsSelected(o.registry.versions, VersionKey(name, version, Production), name, Production, listing);
  }

  /** A rollback likewise leaves the target as the version processing uses. */
  lemma RollbackIsSelected(reg: Registry, name: string, t: ProcessingType, targetVersion: string,
                           performedBy: Option<string>, reason: Option<string>, now: int,
                           listing: seq<WorkflowVersion>)
    requires WellKeyed(reg.versions)
    requires Rollback(reg, name, t, targetVersion, performedBy, reason, now).Success?
    requires forall v :: v in listing <==>
      v in Rollback(reg, name, t, targetVersion, performedBy, reason, now).value.registry.versions.Values
    ensures ActiveForProcessing(listing, name, t) ==
      Some(Rollback(reg, name, t, targetVersion, performedBy, reason, now).value.version)
  {
    var o := Rollback(reg, name, t, targetVersion, performedBy, reason, now).value;
    SoleActiveIsSelected(o.registry.versions, VersionKey(name, targetVersion, t), name, t, listing);
  }
}
