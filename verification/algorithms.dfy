/** The registry of image-processing algorithms: for each of the four
    calibration steps, the algorithms that implement it, each flagged as
    supported and/or experimental. Step names arrive in many spellings and
    are normalised before lookup. */
module AlgorithmRegistry {
  import opened Wrappers
  import opened JavaText

  /** One registered algorithm. Its description and parameter help texts
      carry no behaviour and are not modelled. */
  datatype AlgorithmInfo = AlgorithmInfo(id: string, name: string, version: string, supported: bool,
                                         experimental: bool)

  const DarkAlgorithms: seq<AlgorithmInfo> := [
    AlgorithmInfo("default", "Standard Dark Subtraction", "1.0", true, false),
    AlgorithmInfo("scaled-dark", "Exposure-Scaled Dark Subtraction", "1.1", true, false),
    AlgorithmInfo("adaptive-dark", "Adaptive Dark Subtraction", "2.0", true, true)
  ]

  const FlatAlgorithms: seq<AlgorithmInfo> := [
    AlgorithmInfo("default", "Standard Flat Field Correction", "1.0", true, false),
    AlgorithmInfo("illumination-corrected", "Illumination-Corrected Flat Field", "1.2", true, false)
  ]

  const CosmicAlgorithms: seq<AlgorithmInfo> := [
    AlgorithmInfo("lacosmic", "L.A.Cosmic", "1.0", true, false),
    AlgorithmInfo("lacosmic-v2", "L.A.Cosmic Enhanced", "2.0", true, false),
    AlgorithmInfo("median-filter", "Median Filter Cosmic Ray Removal", "1.0", true, false),
    AlgorithmInfo("neural-cr", "Neural Network Cosmic Ray Detection", "0.1", false, true)
  ]

  const BiasAlgorithms: seq<AlgorithmInfo> := [
    AlgorithmInfo("default", "Standard Bias Subtraction", "1.0", true, false),
    AlgorithmInfo("robust-bias", "Robust Bias Subtraction", "1.1", true, false)
  ]

  /** The step names `initializeRegistry` registers. */
  const StepNames: set<string> := {"dark-subtraction", "flat-correction", "cosmic-ray-removal", "bias-subtraction"}

  /** The registry entry of a step name. */
  function AlgorithmsOf(step: string): seq<AlgorithmInfo>
    requires step in StepNames
  {
    if step == "dark-subtraction" then DarkAlgorithms
    else if step == "flat-correction" then FlatAlgorithms
    else if step == "cosmic-ray-removal" then CosmicAlgorithms
    else BiasAlgorithms
  }

  /** The spellings, already lower-cased and trimmed, that stand for a
      registered step name. */
  function Alias(t: string): Option<string> {
    if t in {"dark", "dark_subtraction", "darksubtraction"} then Some("dark-subtraction")
    else if t in {"flat", "flat_correction", "flatcorrection", "flat_field", "flatfield"} then Some("flat-correction")
    else if t in {"cosmic", "cosmic_ray", "cosmicray", "cosmic_rays", "cosmicrays", "cosmic_ray_removal",
                  "cosmicrayremoval"} then Some("cosmic-ray-removal")
    else if t in {"bias", "bias_subtraction", "biassubtraction"} then Some("bias-subtraction")
    else None
  }

  /** `normalizeAlgorithmType`: null is "", anything else is lower-cased
      and trimmed, and a known alias becomes its step name. */
  function NormalizeAlgorithmType(t: Option<string>): (r: string)
    ensures t.None? ==> r == ""
    ensures t.Some? && Alias(Trim(ToLower(t.value))).Some? ==> r == Alias(Trim(ToLower(t.value))).value
    ensures t.Some? && Alias(Trim(ToLower(t.value))).None? ==> r == Trim(ToLower(t.value))
  {
    if t.None? then ""
    else
      var n := Trim(ToLower(t.value));
      match Alias(n)
      case Some(step) => step
      case None => n
  }

  /** A word of lower-case letters and dashes. */
  predicate IsPlainWord(s: string) {
    forall k :: 0 <= k < |s| ==> 'a' <= s[k] <= 'z' || s[k] == '-'
  }

  /** A plain word is unchanged by lower-casing and trimming. */
  lemma PlainWordNormal(s: string)
    requires IsPlainWord(s) && |s| > 0
    ensures Trim(ToLower(s)) == s
  {
    assert ToLower(s) == s;
    TrimShape(s);
    assert TrimStart(s) == s by {
      assert !IsTrimmable(s[0]);
    }
    assert TrimEnd(s) == s by {
      assert !IsTrimmable(s[|s| - 1]);
    }
  }

  /** Each registered step name is its own normal form. */
  lemma StepNamesNormal(step: string)
    requires step in StepNames
    ensures Trim(ToLower(step)) == step && Alias(step).None?
    ensures NormalizeAlgorithmType(Some(step)) == step
  {
    StepNamePlain(step);
    PlainWordNormal(step);
    StepNameIsNoAlias(step);
  }

  /** No step name is an alias: each differs from its underscored
      spelling at the first dash. */
  lemma StepNameIsNoAlias(step: string)
    requires step in StepNames
    ensures Alias(step).None?
  {
    if step == "dark-subtraction" {
      assert step[4] != "dark_subtraction"[4];
    } else if step == "flat-correction" {
      assert step[4] != "flat_correction"[4] && step[4] != "flat_field"[4];
    } else if step == "cosmic-ray-removal" {
      assert step[6] != "cosmic_ray_removal"[6] && step[6] != "cosmic_ray"[6] && step[6] != "cosmic_rays"[6];
    } else {
      assert step[4] != "bias_subtraction"[4];
    }
  }

  /** The step names are words of lower-case letters and dashes. */
  lemma StepNamePlain(step: string)
    requires step in StepNames
    ensures IsPlainWord(step) && |step| > 0
  {
    if step == "dark-subtraction" {
      assert IsPlainWord("dark-subtraction");
    } else if step == "flat-correction" {
      assert IsPlainWord("flat-correction");
    } else if step == "cosmic-ray-removal" {
      assert IsPlainWord("cosmic-ray-removal");
    } else {
      assert IsPlainWord("bias-subtraction");
    }
  }

  /** Every alias names a registered step, so a normal form is a registered
      step name or no alias at all. */
  lemma NormalFormsAreNotAliases(t: Option<string>)
    ensures NormalizeAlgorithmType(t) in StepNames || Alias(NormalizeAlgorithmType(t)).None?
  {
    var r := NormalizeAlgorithmType(t);
    assert Alias(r).Some? ==> t.Some? && Alias(Trim(ToLower(t.value))).Some?;
  }

  /** Normalising is idempotent. */
  lemma NormalizeIdempotent(t: Option<string>)
    ensures NormalizeAlgorithmType(Some(NormalizeAlgorithmType(t))) == NormalizeAlgorithmType(t)
  {
    var r := NormalizeAlgorithmType(t);
    if r in StepNames {
      StepNamesNormal(r);
    } else {
      NormalFormsAreNotAliases(t);
      if t.None? {
        assert Trim(ToLower(r)) == r by { assert r == ""; }
      } else {
        assert r == Trim(ToLower(t.value));
        LowerTrimmedIsFixed(t.value);
      }
      UnaliasedNormalIsFixed(r);
    }
  }

  /** A lower-case, trimmed spelling that is no alias normalises to itself. */
  lemma UnaliasedNormalIsFixed(r: string)
    requires Trim(ToLower(r)) == r && Alias(r).None?
    ensures NormalizeAlgorithmType(Some(r)) == r
  {
  }

  /** Lower-casing and trimming a second time changes nothing. */
  lemma LowerTrimmedIsFixed(s: string)
    ensures Trim(ToLower(Trim(ToLower(s)))) == Trim(ToLower(s))
  {
    var n := Trim(ToLower(s));
    TrimToLowerCommute(s);
    ToLowerIdempotent(Trim(s));
    TrimIdempotent(ToLower(s));
    TrimToLowerCommute(n);
  }

  /** Letter case does not change the outcome. */
  lemma NormalizeIgnoresCase(s: string)
    ensures NormalizeAlgorithmType(Some(ToLower(s))) == NormalizeAlgorithmType(Some(s))
  {
    ToLowerIdempotent(s);
  }

  /** Surrounding white space does not change the outcome. */
  lemma NormalizeIgnoresSpace(s: string)
    ensures NormalizeAlgorithmType(Some(Trim(s))) == NormalizeAlgorithmType(Some(s))
  {
    TrimToLowerCommute(s);
    TrimIdempotent(ToLower(s));
    TrimToLowerCommute(Trim(s));
  }

  /** `getAvailableAlgorithms`: an unknown type yields the empty list. */
  function GetAvailableAlgorithms(t: Option<string>): (r: seq<AlgorithmInfo>)
    ensures NormalizeAlgorithmType(t) in StepNames ==> r == AlgorithmsOf(NormalizeAlgorithmType(t))
    ensures NormalizeAlgorithmType(t) !in StepNames ==> r == []
    ensures t.None? ==> r == []
  {
    var n := NormalizeAlgorithmType(t);
    if n in StepNames then AlgorithmsOf(n) else []
  }

  function Supported(a: AlgorithmInfo): bool { a.supported }
  function Experimental(a: AlgorithmInfo): bool { a.experimental }

  /** The algorithms of `algos` with the flag, in their order. */
  function Filter(algos: seq<AlgorithmInfo>, flag: AlgorithmInfo -> bool): (r: seq<AlgorithmInfo>)
    ensures |r| <= |algos|
    ensures forall a :: a in r <==> a in algos && flag(a)
    ensures |r| == Count(algos, flag)
  {
    if |algos| == 0 then []
    else
      var rest := Filter(algos[..|algos| - 1], flag);
      var last := algos[|algos| - 1];
      assert algos == algos[..|algos| - 1] + [last];
      if flag(last) then rest + [last] else rest
  }

  function Count(algos: seq<AlgorithmInfo>, flag: AlgorithmInfo -> bool): nat {
    if |algos| == 0 then 0
    else Count(algos[..|algos| - 1], flag) + (if flag(algos[|algos| - 1]) then 1 else 0)
  }

  /** `getSupportedAlgorithms`. */
  function GetSupportedAlgorithms(t: Option<string>): (r: seq<AlgorithmInfo>)
    ensures forall a :: a in r <==> a in GetAvailableAlgorithms(t) && a.supported
  {
    Filter(GetAvailableAlgorithms(t), Supported)
  }

  /** `getExperimentalAlgorithms`. */
  function GetExperimentalAlgorithms(t: Option<string>): (r: seq<AlgorithmInfo>)
    ensures forall a :: a in r <==> a in GetAvailableAlgorithms(t) && a.experimental
  {
    Filter(GetAvailableAlgorithms(t), Experimental)
  }

  /** The first algorithm of `algos` with the given id. */
  function FindById(algos: seq<AlgorithmInfo>, id: string): (r: Option<AlgorithmInfo>)
    ensures r.None? <==> forall k :: 0 <= k < |algos| ==> algos[k].id != id
    ensures r.Some? ==> exists k :: (0 <= k < |algos| && algos[k] == r.value && r.value.id == id &&
      forall j :: 0 <= j < k ==> algos[j].id != id)
  {
    if |algos| == 0 then None
    else if algos[0].id == id then Some(algos[0])
    else
      var rest := FindById(algos[1..], id);
      assert forall k :: 1 <= k < |algos| ==> algos[k] == algos[1..][k - 1];
      if rest.Some? then
        var k :| 0 <= k < |algos[1..]| && algos[1..][k] == rest.value && rest.value.id == id &&
          forall j :: 0 <= j < k ==> algos[1..][j].id != id;
        assert algos[k + 1] == rest.value;
        rest
      else rest
  }

  /** `getAlgorithmInfo`: a null id equals no id. */
  function GetAlgorithmInfo(t: Option<string>, id: Option<string>): (r: Option<AlgorithmInfo>)
    ensures id.None? ==> r.None?
    ensures r.Some? ==> r.value in GetAvailableAlgorithms(t) && id == Some(r.value.id)
    ensures id.Some? && r.None? ==> forall a :: a in GetAvailableAlgorithms(t) ==> a.id != id.value
  {
    if id.None? then None else FindById(GetAvailableAlgorithms(t), id.value)
  }

  /** `isAlgorithmSupported`. */
  function IsAlgorithmSupported(t: Option<string>, id: Option<string>): (r: bool)
    ensures r ==> id.Some? && exists a :: a in GetSupportedAlgorithms(t) && a.id == id.value
    ensures t.None? || id.None? ==> !r
  {
    var info := GetAlgorithmInfo(t, id);
    info.Some? && info.value.supported
  }

  predicate DistinctIds(algos: seq<AlgorithmInfo>) {
    forall i, j :: 0 <= i < j < |algos| ==> algos[i].id != algos[j].id
  }

  /** No step of the registry lists two algorithms with one id. */
  lemma RegistryIdsDistinct(step: string)
    requires step in StepNames
    ensures DistinctIds(AlgorithmsOf(step))
  {
    if step == "dark-subtraction" {
      assert DistinctIds(DarkAlgorithms);
    } else if step == "flat-correction" {
      assert DistinctIds(FlatAlgorithms);
    } else if step == "cosmic-ray-removal" {
      assert DistinctIds(CosmicAlgorithms);
    } else {
      assert DistinctIds(BiasAlgorithms);
    }
  }

  /** With distinct ids, the first algorithm with an id is the only one. */
  lemma FindByIdUnique(algos: seq<AlgorithmInfo>, a: AlgorithmInfo)
    requires DistinctIds(algos) && a in algos
    ensures FindById(algos, a.id) == Some(a)
  {
    var k :| 0 <= k < |algos| && algos[k] == a;
    var found := FindById(algos, a.id);
    var k' :| 0 <= k' < |algos| && algos[k'] == found.value && found.value.id == a.id;
    assert k == k';
  }

  /** Since ids within a step are distinct, support is exactly membership
      among the step's supported algorithms. */
  lemma SupportIsMembership(t: Option<string>, id: string)
    ensures IsAlgorithmSupported(t, Some(id)) <==> exists a :: a in GetSupportedAlgorithms(t) && a.id == id
  {
    var algos := GetAvailableAlgorithms(t);
    if NormalizeAlgorithmType(t) in StepNames {
      RegistryIdsDistinct(NormalizeAlgorithmType(t));
    }
    assert DistinctIds(algos);
    if exists a :: a in GetSupportedAlgorithms(t) && a.id == id {
      var a :| a in GetSupportedAlgorithms(t) && a.id == id;
      FindByIdUnique(algos, a);
    }
  }

  datatype TypeSummary = TypeSummary(total: nat, supported: nat, experimental: nat, algorithms: seq<AlgorithmInfo>)

  /** One step's entry of `getAlgorithmSummary`. */
  function Summarize(algos: seq<AlgorithmInfo>): (s: TypeSummary)
    ensures s.supported <= s.total && s.experimental <= s.total && s.total == |algos|
    ensures s.supported == |Filter(algos, Supported)| && s.experimental == |Filter(algos, Experimental)|
  {
    var supported := Filter(algos, Supported);
    var experimental := Filter(algos, Experimental);
    TypeSummary(|algos|, |supported|, |experimental|, algos)
  }

  /** `getAlgorithmSummary`: one entry per registered step. */
  function GetAlgorithmSummary(): (m: map<string, TypeSummary>)
    ensures m.Keys == StepNames
    ensures forall t :: t in m ==> (m[t].total == |GetAvailableAlgorithms(Some(t))| &&
      m[t].supported == |GetSupportedAlgorithms(Some(t))| && m[t].experimental == |GetExperimentalAlgorithms(Some(t))|)
  {
    var m := map t | t in StepNames :: Summarize(AlgorithmsOf(t));
    forall t | t in m
      ensures m[t].total == |GetAvailableAlgorithms(Some(t))|
      ensures m[t].supported == |GetSupportedAlgorithms(Some(t))|
      ensures m[t].experimental == |GetExperimentalAlgorithms(Some(t))|
    {
      StepNamesNormal(t);
      assert GetAvailableAlgorithms(Some(t)) == AlgorithmsOf(t);
    }
    m
  }
}
