/** The traffic-splitting workflow-version service: an activation may take
    any share in [0, 100] as long as the workflow's active shares stay
    within 100%, two versions can share traffic as an A/B test, and a
    session is routed by a hash of its identifier. It also compares two
    versions' metrics and turns the comparison into a recommendation.

    Deactivation, rollback, `setAsDefault` and the history log are the same
    as in `WorkflowService` and `WorkflowVersions`.
 */
module TrafficSplitService {
  import opened Wrappers
  import opened ProcessingContexts
  import opened WorkflowVersions
  import WorkflowService
  import Sorting

  // ---------------------------------------------------------------------
  // Sums of traffic shares over the registry

  /** Sum of `f` over a finite set of keys. */
  ghost function SumOver(ks: set<VersionKey>, f: VersionKey -> real): real
    decreases ks
  {
    if ks == {} then 0.0
    else
      var k :| k in ks;
      f(k) + SumOver(ks - {k}, f)
  }

  /** The sum does not depend on the order keys are taken in: any key can
      be split off first. */
  lemma {:induction false} SumOverRemove(ks: set<VersionKey>, k: VersionKey, f: VersionKey -> real)
    requires k in ks
    ensures SumOver(ks, f) == f(k) + SumOver(ks - {k}, f)
    decreases ks
  {
    var j :| j in ks && SumOver(ks, f) == f(j) + SumOver(ks - {j}, f);
    if j != k {
      SumOverRemove(ks - {j}, k, f);
      SumOverRemove(ks - {k}, j, f);
      assert ks - {j} - {k} == ks - {k} - {j};
    }
  }

  /** Functions that agree on the keys have the same sum. */
  lemma {:induction false} SumOverCongruent(ks: set<VersionKey>, f: VersionKey -> real, g: VersionKey -> real)
    requires forall k :: k in ks ==> f(k) == g(k)
    ensures SumOver(ks, f) == SumOver(ks, g)
    decreases ks
  {
    if ks != {} {
      var k :| k in ks && SumOver(ks, f) == f(k) + SumOver(ks - {k}, f);
      SumOverRemove(ks, k, g);
      SumOverCongruent(ks - {k}, f, g);
    }
  }

  /** A function that vanishes on the keys sums to zero. */
  lemma {:induction false} SumOverZero(ks: set<VersionKey>, f: VersionKey -> real)
    requires forall k :: k in ks ==> f(k) == 0.0
    ensures SumOver(ks, f) == 0.0
    decreases ks
  {
    if ks != {} {
      var k :| k in ks && SumOver(ks, f) == f(k) + SumOver(ks - {k}, f);
      SumOverZero(ks - {k}, f);
    }
  }

  /** The share `validateTrafficAllocation` counts for a key: the stored
      share (null as 0) of an active version of the workflow other than
      `version`. */
  function OtherShare(vs: Versions, name: string, t: ProcessingType, version: string): VersionKey -> real {
    k => if k in vs && InWorkflow(vs[k], name, t) && vs[k].workflowVersion != version && IsCurrentlyActive(vs[k])
         then vs[k].trafficSplit.GetOr(0.0) else 0.0
  }

  /** The share of a key among all active versions of the workflow. */
  function ActiveShare(vs: Versions, name: string, t: ProcessingType): VersionKey -> real {
    k => if k in vs && InWorkflow(vs[k], name, t) && IsCurrentlyActive(vs[k])
         then vs[k].trafficSplit.GetOr(0.0) else 0.0
  }

  /** Total traffic of the active versions of the workflow other than `version`. */
  ghost function OtherTraffic(vs: Versions, name: string, t: ProcessingType, version: string): real {
    SumOver(vs.Keys, OtherShare(vs, name, t, version))
  }

  /** Total traffic of the active versions of the workflow. */
  ghost function WorkflowTraffic(vs: Versions, name: string, t: ProcessingType): real {
    SumOver(vs.Keys, ActiveShare(vs, name, t))
  }

  /** The sum in `validateTrafficAllocation`, taken over the registry in
      whatever order its keys come. */
  method SumOtherTraffic(vs: Versions, name: string, t: ProcessingType, version: string) returns (total: real)
    ensures total == OtherTraffic(vs, name, t, version)
  {
    var f := OtherShare(vs, name, t, version);
    var remaining := vs.Keys;
    total := 0.0;
    while remaining != {}
      invariant remaining <= vs.Keys
      invariant total + SumOver(remaining, f) == SumOver(vs.Keys, f)
      decreases remaining
    {
      var k :| k in remaining;
      SumOverRemove(remaining, k, f);
      total := total + f(k);
      remaining := remaining - {k};
    }
  }

  /** An activation limit of 100% with 0.01 of slack for rounding. */
  const AllocationLimit: real := 100.01

  /** A share a single activation may request. */
  predicate ShareInRange(traffic: Option<real>) {
    traffic.None? || (0.0 <= traffic.value <= 100.0)
  }

  /** `activateWorkflow`. An unknown version fails, then a share outside
      [0, 100], then (unless the others are switched off first) a share
      that together with the other active versions' shares exceeds 100.01.
      On success the target is active with the requested share (100 when
      none is given), the workflow's active shares add up to at most
      100.01, and other workflows are untouched. */
  method Activate(reg: Registry, name: string, version: string, t: ProcessingType,
                  req: WorkflowService.ActivationRequest, now: int) returns (r: Result<Outcome>)
    requires WellKeyed(reg.versions)
    ensures VersionKey(name, version, t) !in reg.versions ==>
      r == Failure("Workflow version not found: " + KeyText(name, version, t))
    ensures VersionKey(name, version, t) in reg.versions && !ShareInRange(req.trafficSplitPercentage) ==>
      r == Failure("Traffic split percentage must be between 0 and 100")
    ensures r.Success? <==>
      VersionKey(name, version, t) in reg.versions && ShareInRange(req.trafficSplitPercentage) &&
      (req.deactivateOthers == Some(true) ||
       OtherTraffic(reg.versions, name, t, version) + req.trafficSplitPercentage.GetOr(100.0) <= AllocationLimit)
    ensures r.Success? ==>
      var key := VersionKey(name, version, t);
      var vs := r.value.registry.versions;
      var target := r.value.version;
      vs.Keys == reg.versions.Keys && WellKeyed(vs) && vs[key] == target &&
      IsCurrentlyActive(target) &&
      target.trafficSplit == Some(req.trafficSplitPercentage.GetOr(100.0)) &&
      target.activatedAt == Some(now) &&
      target.activatedBy == req.activatedBy && target.activationReason == req.reason &&
      WorkflowTraffic(vs, name, t) <= AllocationLimit &&
      (req.deactivateOthers == Some(true) ==>
        forall k :: k in vs && InWorkflow(vs[k], name, t) && IsCurrentlyActive(vs[k]) ==> k == key) &&
      (req.setAsDefault == Some(true) ==>
        forall k :: k in vs && InWorkflow(vs[k], name, t) ==> (IsDefaultVersion(vs[k]) <==> k == key)) &&
      (req.setAsDefault != Some(true) ==>
        forall k :: k in vs ==> vs[k].isDefault == reg.versions[k].isDefault) &&
      (forall k :: k in vs && !InWorkflow(reg.versions[k], name, t) ==> vs[k] == reg.versions[k]) &&
      (forall k :: k in vs && k != key ==>
        vs[k] == WorkflowService.Prepared(reg.versions, name, version, t, req.deactivateOthers == Some(true), now)[k]
                   .(isDefault := vs[k].isDefault)) &&
      r.value.registry.history ==
        LogActivation(reg.history, name, version, t, "activate", req.activatedBy, req.reason, now)
  {
    var key := VersionKey(name, version, t);
    if key !in reg.versions {
      return Failure("Workflow version not found: " + KeyText(name, version, t));
    }
    if !ShareInRange(req.trafficSplitPercentage) {
      return Failure("Traffic split percentage must be between 0 and 100");
    }
    var share := req.trafficSplitPercentage.GetOr(100.0);
    var off := req.deactivateOthers == Some(true);
    var vs1 := WorkflowService.Prepared(reg.versions, name, version, t, off, now);
    if off {
      SumOverZero(vs1.Keys, OtherShare(vs1, name, t, version));
    }
    var others := SumOtherTraffic(vs1, name, t, version);
    if others + share > AllocationLimit {
      return Failure("Total traffic allocation would exceed 100%");
    }
    var vs := WorkflowService.ActivatedVersions(reg.versions, name, version, t, req, off, now);
    assert forall k :: k in vs && k != key ==> vs[k] == vs1[k].(isDefault := vs[k].isDefault);
    WorkflowService.ActivatedTarget(reg.versions, name, version, t, req, off, now);
    WorkflowService.ActivatedOthers(reg.versions, name, version, t, req, off, now);
    ActivatedTraffic(vs1, vs, name, version, t, share);
    var h := LogActivation(reg.history, name, version, t, "activate", req.activatedBy, req.reason, now);
    r := Success(Outcome(Registry(vs, h), vs[key]));
  }

  /** Stamping the target with `share` (and moving the default flag, which
      no share depends on) makes the workflow's traffic the others' traffic
      plus `share`. */
  lemma ActivatedTraffic(before: Versions, after: Versions, name: string, version: string,
                         t: ProcessingType, share: real)
    requires WellKeyed(before) && WellKeyed(after) && after.Keys == before.Keys
    requires VersionKey(name, version, t) in after
    requires IsCurrentlyActive(after[VersionKey(name, version, t)])
    requires after[VersionKey(name, version, t)].trafficSplit == Some(share)
    requires forall k :: k in before && k != VersionKey(name, version, t) ==>
      after[k] == before[k].(isDefault := after[k].isDefault)
    ensures WorkflowTraffic(after, name, t) == OtherTraffic(before, name, t, version) + share
  {
    var key := VersionKey(name, version, t);
    var ks := after.Keys;
    var f := ActiveShare(after, name, t);
    var g := OtherShare(before, name, t, version);
    SumOverRemove(ks, key, f);
    SumOverRemove(ks, key, g);
    assert KeyOf(after[key]) == key;
    assert f(key) == share;
    assert g(key) == 0.0;
    forall k | k in ks - {key}
      ensures f(k) == g(k)
    {
      assert KeyOf(before[k]) == k;
    }
    SumOverCongruent(ks - {key}, f, g);
  }

  // ---------------------------------------------------------------------
  // A/B tests

  datatype AbOutcome = AbOutcome(registry: Registry, versionA: WorkflowVersion, versionB: WorkflowVersion)

  /** The two shares of an A/B test add up to 100 within 0.01. */
  predicate SharesSumToHundred(shareA: real, shareB: real) {
    var d := shareA + shareB - 100.0;
    -0.01 <= d <= 0.01
  }

  function AbStamp(v: WorkflowVersion, share: real, performedBy: Option<string>, reason: Option<string>,
                   now: int): WorkflowVersion {
    v.(isActive := Some(true), trafficSplit := Some(share), activatedAt := Some(now),
       activatedBy := performedBy, activationReason := Some("A/B test setup: " + FormatArg(reason)))
  }

  /** `setupABTest`. Shares that do not add up to 100 within 0.01 fail
      first, then a missing version A, then a missing version B. On
      success A and B are the only active versions of the workflow, B
      carries its share (and A its share, unless A and B are the same
      version), other workflows are untouched and the setup is logged
      under the version name "A/B-test". `renderDouble` is Java's
      `Double.toString`. */
  function SetupAbTest(reg: Registry, name: string, t: ProcessingType, versionA: string, versionB: string,
                       shareA: real, shareB: real, performedBy: Option<string>, reason: Option<string>,
                       now: int, renderDouble: real -> string): (r: Result<AbOutcome>)
    requires WellKeyed(reg.versions)
    ensures !SharesSumToHundred(shareA, shareB) ==> r == Failure("Traffic percentages must sum to 100%")
    ensures SharesSumToHundred(shareA, shareB) && VersionKey(name, versionA, t) !in reg.versions ==>
      r == Failure("Version A not found: " + versionA)
    ensures r.Success? <==> (SharesSumToHundred(shareA, shareB) &&
      VersionKey(name, versionA, t) in reg.versions && VersionKey(name, versionB, t) in reg.versions)
    ensures r.Success? ==>
      var ka := VersionKey(name, versionA, t);
      var kb := VersionKey(name, versionB, t);
      var vs := r.value.registry.versions;
      vs.Keys == reg.versions.Keys && WellKeyed(vs) &&
      vs[ka] == r.value.versionA && vs[kb] == r.value.versionB &&
      IsCurrentlyActive(vs[ka]) && IsCurrentlyActive(vs[kb]) &&
      vs[kb].trafficSplit == Some(shareB) &&
      (versionA != versionB ==> vs[ka].trafficSplit == Some(shareA)) &&
      (forall k :: k in vs && InWorkflow(vs[k], name, t) && IsCurrentlyActive(vs[k]) ==> k == ka || k == kb) &&
      (forall k :: k in vs && !InWorkflow(reg.versions[k], name, t) ==> vs[k] == reg.versions[k]) &&
      (forall k :: k in vs && k != ka && k != kb ==>
        vs[k] == DeactivateOthers(reg.versions, name, t, {versionA, versionB}, now)[k]) &&
      (forall k :: k in {ka, kb} ==>
        vs[k].activatedAt == Some(now) && vs[k].activatedBy == performedBy &&
        vs[k].activationReason == Some("A/B test setup: " + FormatArg(reason))) &&
      HistoryKey(name, t) in r.value.registry.history &&
      |r.value.registry.history[HistoryKey(name, t)]| > 0 &&
      r.value.registry.history[HistoryKey(name, t)][0].workflowVersion == "A/B-test" &&
      r.value.registry.history[HistoryKey(name, t)][0].action == "ab-test"
  {
    var ka := VersionKey(name, versionA, t);
    var kb := VersionKey(name, versionB, t);
    if !SharesSumToHundred(shareA, shareB) then Failure("Traffic percentages must sum to 100%")
    else if ka !in reg.versions then Failure("Version A not found: " + versionA)
    else if kb !in reg.versions then Failure("Version B not found: " + versionB)
    else
      var vs := AbVersions(reg.versions, name, t, versionA, versionB, shareA, shareB, performedBy, reason, now);
      AbVersionsShape(reg.versions, name, t, versionA, versionB, shareA, shareB, performedBy, reason, now);
      var note := "A/B test: " + versionA + " (" + renderDouble(shareA) + "%) vs " + versionB
                  + " (" + renderDouble(shareB) + "%). " + FormatArg(reason);
      var h := LogActivation(reg.history, name, "A/B-test", t, "ab-test", performedBy, Some(note), now);
      Success(AbOutcome(Registry(vs, h), vs[ka], vs[kb]))
  }

  /** The registry after a successful A/B setup. */
  function AbVersions(vs: Versions, name: string, t: ProcessingType, versionA: string, versionB: string,
                      shareA: real, shareB: real, performedBy: Option<string>, reason: Option<string>,
                      now: int): (r: Versions)
    requires WellKeyed(vs) && VersionKey(name, versionA, t) in vs && VersionKey(name, versionB, t) in vs
    ensures r.Keys == vs.Keys && WellKeyed(r)
  {
    var ka := VersionKey(name, versionA, t);
    var kb := VersionKey(name, versionB, t);
    var vs1 := DeactivateOthers(vs, name, t, {versionA, versionB}, now);
    var vs2 := vs1[ka := AbStamp(vs1[ka], shareA, performedBy, reason, now)];
    vs2[kb := AbStamp(vs2[kb], shareB, performedBy, reason, now)]
  }

  /** After an A/B setup, A and B are active with their shares and are
      the only active versions of the workflow; other workflows keep their
      versions. */
  lemma AbVersionsShape(vs: Versions, name: string, t: ProcessingType, versionA: string, versionB: string,
                        shareA: real, shareB: real, performedBy: Option<string>, reason: Option<string>,
                        now: int)
    requires WellKeyed(vs) && VersionKey(name, versionA, t) in vs && VersionKey(name, versionB, t) in vs
    ensures var r := AbVersions(vs, name, t, versionA, versionB, shareA, shareB, performedBy, reason, now);
      var ka := VersionKey(name, versionA, t);
      var kb := VersionKey(name, versionB, t);
      IsCurrentlyActive(r[ka]) && IsCurrentlyActive(r[kb]) &&
      r[kb].trafficSplit == Some(shareB) &&
      (versionA != versionB ==> r[ka].trafficSplit == Some(shareA)) &&
      (forall k :: k in r && InWorkflow(r[k], name, t) && IsCurrentlyActive(r[k]) ==> k == ka || k == kb) &&
      (forall k :: k in r && !InWorkflow(vs[k], name, t) ==> r[k] == vs[k]) &&
      (forall k :: k in r && k != ka && k != kb ==>
        r[k] == DeactivateOthers(vs, name, t, {versionA, versionB}, now)[k]) &&
      (forall k :: k in {ka, kb} ==>
        r[k].activatedAt == Some(now) && r[k].activatedBy == performedBy &&
        r[k].activationReason == Some("A/B test setup: " + FormatArg(reason)))
  {
    var ka := VersionKey(name, versionA, t);
    var kb := VersionKey(name, versionB, t);
    var vs1 := DeactivateOthers(vs, name, t, {versionA, versionB}, now);
    var vs2 := vs1[ka := AbStamp(vs1[ka], shareA, performedBy, reason, now)];
    assert WellKeyed(vs2);
  }

  // ---------------------------------------------------------------------
  // Routing a session by the hash of its identifier

  const TwoTo31: int := 0x8000_0000
  const TwoTo32: int := 0x1_0000_0000

  /** `String.hashCode` before the reinterpretation as a signed 32-bit
      value: h = 31 h + c over the characters, modulo 2^32. */
  function UnsignedHash(s: string): (h: nat)
    ensures h < TwoTo32
  {
    if |s| == 0 then 0 else (31 * UnsignedHash(s[..|s| - 1]) + s[|s| - 1] as int) % TwoTo32
  }

  /** `String.hashCode`: a signed 32-bit value. */
  function HashCode(s: string): (h: int)
    ensures -TwoTo31 <= h < TwoTo31
    ensures h % TwoTo32 == UnsignedHash(s)
  {
    var u := UnsignedHash(s);
    if u >= TwoTo31 then u - TwoTo32 else u
  }

  /** `Math.abs` on an `int`: the most negative value is its own negation
      in 32 bits and stays negative. */
  function JavaAbs(x: int): (a: int)
    requires -TwoTo31 <= x < TwoTo31
    ensures x == -TwoTo31 ==> a == x
    ensures x != -TwoTo31 ==> 0 <= a < TwoTo31 && (a == x || a == -x)
  {
    if x == -TwoTo31 then x else if x < 0 then -x else x
  }

  /** Java's `%`: the remainder takes the sign of the dividend. */
  function JavaRem(a: int, b: int): (m: int)
    requires b > 0
    ensures 0 <= a ==> m == a % b
    ensures a < 0 ==> -b < m <= 0
  {
    if a >= 0 then a % b else -((-a) % b)
  }

  /** `(Math.abs(sessionId.hashCode()) % 10000) / 100.0`: a point of
      [0, 99.99] on the percentage scale, except for the one hash value
      whose absolute value is negative, which lands at -36.48. */
  function NormalizedHash(sessionId: string): (x: real)
    ensures HashCode(sessionId) != -TwoTo31 ==> 0.0 <= x <= 99.99
    ensures HashCode(sessionId) == -TwoTo31 ==> x == -36.48
  {
    var hash := JavaAbs(HashCode(sessionId));
    JavaRem(hash, 10000) as real / 100.0
  }

  /** A session identifier whose hash is `Integer.MIN_VALUE`: the negative
      case is reachable. */
  lemma MinimalHashExists()
    ensures HashCode("GydZG_") == -TwoTo31
    ensures NormalizedHash("GydZG_") == -36.48
  {
    assert "GydZG_"[..5] == "GydZG" && "GydZG"[..4] == "GydZ" && "GydZ"[..3] == "Gyd";
    assert "Gyd"[..2] == "Gy" && "Gy"[..1] == "G" && "G"[..0] == "";
    assert UnsignedHash("G") == 71;
    assert UnsignedHash("Gy") == 2322;
    assert UnsignedHash("Gyd") == 72082;
    assert UnsignedHash("GydZ") == 2234632;
    assert UnsignedHash("GydZG") == 69273663;
    assert UnsignedHash("GydZG_") == TwoTo31;
  }

  /** Sum of the effective shares of `vs`. */
  function Cumulative(vs: seq<WorkflowVersion>): real {
    if |vs| == 0 then 0.0 else Cumulative(vs[..|vs| - 1]) + EffectiveTraffic(vs[|vs| - 1])
  }

  /** The running total after the version at index `i`. */
  function RunningTotal(vs: seq<WorkflowVersion>, i: nat): real
    requires i < |vs|
  {
    Cumulative(vs[..i + 1])
  }

  /** The loop of `selectVersionByTrafficSplit` from position `i` on, with
      `acc` the shares before `i`: the first index whose running total
      reaches `x`. */
  function FirstCovering(vs: seq<WorkflowVersion>, x: real, i: nat): (r: Option<nat>)
    requires i <= |vs|
    ensures r.Some? ==> i <= r.value < |vs| && x <= RunningTotal(vs, r.value)
    ensures r.Some? ==> forall j :: i <= j < r.value ==> x > RunningTotal(vs, j)
    ensures r.None? ==> forall j :: i <= j < |vs| ==> x > RunningTotal(vs, j)
    decreases |vs| - i
  {
    if i == |vs| then None
    else if x <= RunningTotal(vs, i) then Some(i)
    else FirstCovering(vs, x, i + 1)
  }

  /** `selectVersionByTrafficSplit`: walking the versions with a running
      total of their effective shares, the first whose total reaches the
      session's point; the first version when no total does; nothing for
      an empty list. */
  function SelectByTrafficSplit(vs: seq<WorkflowVersion>, sessionId: string): (r: Option<WorkflowVersion>)
    ensures r.None? <==> |vs| == 0
    ensures r.Some? ==> r.value in vs
    ensures forall i :: (0 <= i < |vs| && NormalizedHash(sessionId) <= RunningTotal(vs, i) &&
      (forall j :: 0 <= j < i ==> NormalizedHash(sessionId) > RunningTotal(vs, j))) ==>
      r == Some(vs[i])
    ensures (forall j :: 0 <= j < |vs| ==> NormalizedHash(sessionId) > RunningTotal(vs, j)) && |vs| > 0 ==>
      r == Some(vs[0])
  {
    var x := NormalizedHash(sessionId);
    match FirstCovering(vs, x, 0)
    case Some(i) =>
      assert forall k :: (0 <= k < |vs| && x <= RunningTotal(vs, k) &&
        (forall j :: 0 <= j < k ==> x > RunningTotal(vs, j))) ==> k == i;
      Some(vs[i])
    case None => if |vs| == 0 then None else Some(vs[0])
  }

  /** For a two-way split whose shares are non-negative and cover the
      scale, a session goes to A exactly when its point is at most A's
      share, and to B otherwise. */
  lemma TwoWaySplit(a: WorkflowVersion, b: WorkflowVersion, sessionId: string)
    requires 0.0 <= EffectiveTraffic(a) && 0.0 <= EffectiveTraffic(b)
    requires EffectiveTraffic(a) + EffectiveTraffic(b) >= 99.99
    requires HashCode(sessionId) != -TwoTo31
    ensures NormalizedHash(sessionId) <= EffectiveTraffic(a) ==> SelectByTrafficSplit([a, b], sessionId) == Some(a)
    ensures NormalizedHash(sessionId) > EffectiveTraffic(a) ==> SelectByTrafficSplit([a, b], sessionId) == Some(b)
  {
    var vs := [a, b];
    assert vs[..1] == [a];
    assert vs[..2] == vs;
    assert Cumulative(vs[..1]) == EffectiveTraffic(a) by {
      assert [a][..0] == [];
    }
    assert Cumulative(vs) == EffectiveTraffic(a) + EffectiveTraffic(b);
  }

  /** The session whose hash is `Integer.MIN_VALUE` goes to the first
      version whenever that version's share is not negative. */
  lemma MinimalHashPicksFirst(vs: seq<WorkflowVersion>)
    requires |vs| > 0 && 0.0 <= EffectiveTraffic(vs[0])
    ensures SelectByTrafficSplit(vs, "GydZG_") == Some(vs[0])
  {
    MinimalHashExists();
    assert vs[..1] == [vs[0]];
    assert Cumulative(vs[..1]) == EffectiveTraffic(vs[0]) by {
      assert [vs[0]][..0] == [];
    }
  }

  /** The share `getActiveWorkflows` sorts on, negated so that an
      ascending sort puts the largest share first. */
  function ShareDescending(v: WorkflowVersion): real {
    -(v.trafficSplit.GetOr(0.0))
  }

  /** The active versions of type `t`, in listing order. */
  function ActiveOfType(listing: seq<WorkflowVersion>, t: ProcessingType): (a: seq<WorkflowVersion>)
    ensures forall v :: v in a <==> v in listing && IsCurrentlyActive(v) && v.processingType == t
  {
    if |listing| == 0 then []
    else
      var rest := ActiveOfType(listing[1..], t);
      if IsCurrentlyActive(listing[0]) && listing[0].processingType == t then [listing[0]] + rest else rest
  }

  /** `getActiveWorkflows` sorts on the name and then on the share, so the
      shares of two versions with the same name are compared, and
      `Comparator.reverseOrder` throws when one of them is null. */
  predicate NullShareCompared(active: seq<WorkflowVersion>) {
    exists i, j :: 0 <= i < |active| && 0 <= j < |active| && i != j &&
      active[i].workflowName == active[j].workflowName && active[i].trafficSplit.None?
  }

  /** The candidates in the order `getActiveWorkflows` gives them. The sort
      runs over every active version of the type, but the versions of one
      workflow share their name, so among them only the share decides,
      largest first, with equal shares kept in listing order. */
  function SortedCandidates(listing: seq<WorkflowVersion>, name: string, t: ProcessingType): (c: seq<WorkflowVersion>)
    ensures forall v :: v in c <==> v in Candidates(listing, name, t)
  {
    var c := Sorting.SortBy(Candidates(listing, name, t), ShareDescending);
    assert forall v :: v in c <==> v in multiset(c);
    c
  }

  /** `getActiveWorkflowForProcessing` of this service: a null share that
      the sort compares throws; otherwise no candidate gives nothing, one
      is returned, and several, sorted, are split by session. */
  function ActiveForProcessing(listing: seq<WorkflowVersion>, name: string, t: ProcessingType,
                               sessionId: string): (r: Result<Option<WorkflowVersion>>)
    ensures r.Failure? <==> NullShareCompared(ActiveOfType(listing, t))
    ensures r.Failure? ==> r.error == "NullPointerException"
    ensures r.Success? ==>
      (r.value.None? <==> forall v :: v in listing ==> !(InWorkflow(v, name, t) && IsCurrentlyActive(v)))
    ensures r.Success? && r.value.Some? ==>
      r.value.value in listing && InWorkflow(r.value.value, name, t) && IsCurrentlyActive(r.value.value)
    ensures r.Success? && |Candidates(listing, name, t)| > 1 ==>
      r.value == SelectByTrafficSplit(SortedCandidates(listing, name, t), sessionId)
  {
    if NullShareCompared(ActiveOfType(listing, t)) then Failure("NullPointerException")
    else
      var c := SortedCandidates(listing, name, t);
      if |c| == 0 then Success(None)
      else if |c| == 1 then
        assert c[0] in c;
        Success(Some(c[0]))
      else Success(SelectByTrafficSplit(c, sessionId))
  }

  /** The first sorted candidate has the largest share of the workflow. */
  lemma SortedFirstHasLargestShare(listing: seq<WorkflowVersion>, name: string, t: ProcessingType)
    requires |Candidates(listing, name, t)| > 0
    ensures var c := SortedCandidates(listing, name, t);
      |c| > 0 && forall v :: v in Candidates(listing, name, t) ==> v.trafficSplit.GetOr(0.0) <= c[0].trafficSplit.GetOr(0.0)
  {
    var c := SortedCandidates(listing, name, t);
    assert c == Sorting.SortBy(Candidates(listing, name, t), ShareDescending);
    assert Candidates(listing, name, t)[0] in c;
    forall v | v in Candidates(listing, name, t)
      ensures v.trafficSplit.GetOr(0.0) <= c[0].trafficSplit.GetOr(0.0)
    {
      var j :| 0 <= j < |c| && c[j] == v;
      assert ShareDescending(c[0]) <= ShareDescending(c[j]);
    }
  }

  /** A session that no running total covers goes to a version of the
      workflow with the largest share. */
  lemma FallbackIsLargestShare(listing: seq<WorkflowVersion>, name: string, t: ProcessingType, sessionId: string)
    requires !NullShareCompared(ActiveOfType(listing, t)) && |Candidates(listing, name, t)| > 0
    requires var c := SortedCandidates(listing, name, t);
      forall j :: 0 <= j < |c| ==> NormalizedHash(sessionId) > RunningTotal(c, j)
    ensures var r := ActiveForProcessing(listing, name, t, sessionId);
      r.Success? && r.value.Some? &&
      forall v :: v in Candidates(listing, name, t) ==> v.trafficSplit.GetOr(0.0) <= r.value.value.trafficSplit.GetOr(0.0)
  {
    SortedFirstHasLargestShare(listing, name, t);
    var c := SortedCandidates(listing, name, t);
    if |c| == 1 {
      assert ActiveForProcessing(listing, name, t, sessionId).value == Some(c[0]);
    } else {
      assert SelectByTrafficSplit(c, sessionId) == Some(c[0]);
    }
  }

  // ---------------------------------------------------------------------
  // Comparing two versions

  datatype Delta = Delta(baseline: real, comparison: real, absoluteChange: real, percentChange: real)

  /** Keys whose value is a number in both maps. */
  predicate NumericInBoth(b: Metrics, c: Metrics, k: string) {
    k in b && b[k].Num? && k in c && c[k].Num?
  }

  /** `calculateMetricsDelta`: for each key numeric in both maps, the two
      values, their difference and the difference as a percentage of the
      baseline (0 for a zero baseline); empty when either map is null. */
  function MetricsDelta(baseline: Option<Metrics>, comparison: Option<Metrics>): (d: map<string, Delta>)
    ensures baseline.None? || comparison.None? ==> d == map[]
    ensures baseline.Some? && comparison.Some? ==>
      forall k :: k in d <==> NumericInBoth(baseline.value, comparison.value, k)
    ensures baseline.Some? && comparison.Some? ==> forall k :: k in d ==>
      NumericInBoth(baseline.value, comparison.value, k) &&
      Num(d[k].baseline) == baseline.value[k] && Num(d[k].comparison) == comparison.value[k] &&
      d[k].comparison == d[k].baseline + d[k].absoluteChange &&
      (d[k].baseline == 0.0 ==> d[k].percentChange == 0.0) &&
      (d[k].baseline != 0.0 ==> d[k].percentChange * d[k].baseline == d[k].absoluteChange * 100.0)
  {
    if baseline.None? || comparison.None? then map[]
    else
      var b := baseline.value;
      var c := comparison.value;
      map k | k in b.Keys && NumericInBoth(b, c, k) :: DeltaOf(b[k].x, c[k].x)
  }

  function DeltaOf(base: real, comp: real): (d: Delta)
    ensures d.baseline == base && d.comparison == comp && comp == base + d.absoluteChange
    ensures base == 0.0 ==> d.percentChange == 0.0
    ensures base != 0.0 ==> d.percentChange * base == d.absoluteChange * 100.0
  {
    var change := comp - base;
    Delta(base, comp, change, if base != 0.0 then change / base * 100.0 else 0.0)
  }

  function SumPercent(ds: seq<Delta>): real {
    if |ds| == 0 then 0.0 else SumPercent(ds[..|ds| - 1]) + ds[|ds| - 1].percentChange
  }

  /** The average percentage change over the deltas, 0 for none. */
  function MeanPercentChange(ds: seq<Delta>): (m: real)
    ensures |ds| == 0 ==> m == 0.0
    ensures |ds| > 0 ==> m * |ds| as real == SumPercent(ds)
  {
    if |ds| == 0 then 0.0 else SumPercent(ds) / |ds| as real
  }

  datatype Verdict = RecommendBoth | RecommendPerformance | RecommendQuality | NotRecommended | Neutral {
    function Message(): string {
      match this
      case RecommendBoth => "RECOMMEND: Significant improvements in both performance and quality"
      case RecommendPerformance => "RECOMMEND: Significant performance improvement"
      case RecommendQuality => "RECOMMEND: Significant quality improvement"
      case NotRecommended => "NOT RECOMMENDED: Performance or quality degradation detected"
      case Neutral => "NEUTRAL: Minor differences detected, consider business requirements"
    }
    predicate Recommends() {
      this == RecommendBoth || this == RecommendPerformance || this == RecommendQuality
    }
  }

  /** `generateRecommendation` on the two average improvements: an
      improvement above 5 in both, or above 10 in either, recommends the
      version; otherwise a drop below -10 in either advises against it;
      otherwise the difference is neutral. */
  function Recommend(performance: real, quality: real): (v: Verdict)
    ensures v.Recommends() <==> (performance > 5.0 && quality > 5.0) || performance > 10.0 || quality > 10.0
    ensures v == NotRecommended <==> !v.Recommends() && (performance < -10.0 || quality < -10.0)
    ensures v == Neutral <==> (-10.0 <= performance <= 10.0 && -10.0 <= quality <= 10.0 &&
      !(performance > 5.0 && quality > 5.0))
    ensures v == RecommendBoth <==> performance > 5.0 && quality > 5.0
  {
    if performance > 5.0 && quality > 5.0 then RecommendBoth
    else if performance > 10.0 then RecommendPerformance
    else if quality > 10.0 then RecommendQuality
    else if performance < -10.0 || quality < -10.0 then NotRecommended
    else Neutral
  }

  /** The recommendation for two lists of deltas (the values of the two
      delta maps, in iteration order). */
  function GenerateRecommendation(performance: seq<Delta>, quality: seq<Delta>): string {
    Recommend(MeanPercentChange(performance), MeanPercentChange(quality)).Message()
  }

  /** Because improvements are checked before degradations, a large gain
      in one dimension is recommended even alongside a large loss in the
      other. */
  lemma GainMasksLoss()
    ensures Recommend(20.0, -50.0) == RecommendPerformance
    ensures Recommend(-50.0, 20.0) == RecommendQuality
  {
  }

  /** Comparing a version with itself changes nothing and is neutral. */
  lemma SelfComparisonIsNeutral(m: Metrics)
    ensures forall k :: k in MetricsDelta(Some(m), Some(m)) ==> MetricsDelta(Some(m), Some(m))[k].percentChange == 0.0
    ensures Recommend(0.0, 0.0) == Neutral
  {
  }
}
