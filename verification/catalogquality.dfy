/** The catalog quality assessment: completeness (from a cross-match with
    a reference catalog, or from the magnitude distribution alone),
    reliability (from the cross-match, or from duplicates and suspicious
    objects), quality-flag counts, and the weighted overall score.

    Doubles are reals; where the code divides zero by zero the result is a
    `Num`. The angular distance between two positions is a parameter. */
module CatalogQuality {
  import opened Wrappers
  import opened Sorting
  import opened AstroCalc

  /** The attributes of an astronomical object the assessment reads. */
  datatype CatalogObject = CatalogObject(
    ra: Option<real>, dec: Option<real>, magnitude: Option<real>,
    magnitudeError: Option<real>, classificationConfidence: Option<real>)

  predicate HasCoordinates(o: CatalogObject) {
    o.ra.Some? && o.dec.Some?
  }

  // ---------------------------------------------------------------------
  // Duplicate detections

  /** What `%.6f` prints for a number: its sign and its value in
      millionths, rounded half up. The printed text and this pair
      determine each other. */
  datatype Fixed6 = Fixed6(negative: bool, millionths: nat)

  function Format6(x: real): (f: Fixed6)
    ensures f.negative <==> x < 0.0
    ensures f.millionths as real <= Abs(x) * 1000000.0 + 0.5 < f.millionths as real + 1.0
  {
    var scaled := Abs(x) * 1000000.0 + 0.5;
    Fixed6(x < 0.0, scaled.Floor)
  }

  function Abs(x: real): (a: real)
    ensures a >= 0.0 && (a == x || a == -x)
  {
    if x < 0.0 then -x else x
  }

  /** The text "ra_dec" two objects are compared by; the separator occurs in
      neither number, so the pair of formatted values stands for it. */
  datatype DuplicateKey = DuplicateKey(ra: Fixed6, dec: Fixed6)

  function Key(o: CatalogObject): DuplicateKey
    requires HasCoordinates(o)
  {
    DuplicateKey(Format6(o.ra.value), Format6(o.dec.value))
  }

  /** The keys of the objects with both coordinates. */
  function Seen(catalog: seq<CatalogObject>): set<DuplicateKey> {
    if |catalog| == 0 then {}
    else
      var last := catalog[|catalog| - 1];
      Seen(catalog[..|catalog| - 1]) + (if HasCoordinates(last) then {Key(last)} else {})
  }

  /** The objects with both coordinates. */
  function Positioned(catalog: seq<CatalogObject>): (n: nat)
    ensures n <= |catalog|
  {
    if |catalog| == 0 then 0
    else Positioned(catalog[..|catalog| - 1]) + (if HasCoordinates(catalog[|catalog| - 1]) then 1 else 0)
  }

  /** The objects whose key an earlier object already has. */
  function Duplicates(catalog: seq<CatalogObject>): nat {
    if |catalog| == 0 then 0
    else
      var init := catalog[..|catalog| - 1];
      var last := catalog[|catalog| - 1];
      Duplicates(init) + (if HasCoordinates(last) && Key(last) in Seen(init) then 1 else 0)
  }

  /** Every positioned object either adds a new key or is a duplicate. */
  lemma {:induction false} DuplicatesAndKeys(catalog: seq<CatalogObject>)
    ensures Duplicates(catalog) + |Seen(catalog)| == Positioned(catalog)
  {
    if |catalog| > 0 {
      var init := catalog[..|catalog| - 1];
      var last := catalog[|catalog| - 1];
      DuplicatesAndKeys(init);
      if HasCoordinates(last) && Key(last) !in Seen(init) {
        assert |Seen(init) + {Key(last)}| == |Seen(init)| + 1;
      } else if HasCoordinates(last) {
        assert Seen(init) + {Key(last)} == Seen(init);
      }
    }
  }

  /** A key is seen exactly when some positioned object has it. */
  lemma {:induction false} SeenKeys(catalog: seq<CatalogObject>, k: DuplicateKey)
    ensures k in Seen(catalog) <==> exists i :: 0 <= i < |catalog| && HasCoordinates(catalog[i]) && Key(catalog[i]) == k
  {
    if |catalog| > 0 {
      var init := catalog[..|catalog| - 1];
      SeenKeys(init, k);
      if exists i :: 0 <= i < |init| && HasCoordinates(init[i]) && Key(init[i]) == k {
        var i :| 0 <= i < |init| && HasCoordinates(init[i]) && Key(init[i]) == k;
        assert catalog[i] == init[i];
      }
      if exists i :: 0 <= i < |catalog| && HasCoordinates(catalog[i]) && Key(catalog[i]) == k {
        var i :| 0 <= i < |catalog| && HasCoordinates(catalog[i]) && Key(catalog[i]) == k;
        if i < |init| {
          assert init[i] == catalog[i];
        }
      }
    }
  }

  /** No duplicate is counted exactly when no two positioned objects share
      a key. */
  lemma {:induction false} NoDuplicatesMeansDistinct(catalog: seq<CatalogObject>)
    ensures Duplicates(catalog) == 0 <==>
              forall i, j :: 0 <= i < j < |catalog| && HasCoordinates(catalog[i]) && HasCoordinates(catalog[j])
                             ==> Key(catalog[i]) != Key(catalog[j])
  {
    if |catalog| > 0 {
      var init := catalog[..|catalog| - 1];
      var last := catalog[|catalog| - 1];
      NoDuplicatesMeansDistinct(init);
      if HasCoordinates(last) {
        SeenKeys(init, Key(last));
      }
      assert forall i :: 0 <= i < |init| ==> init[i] == catalog[i];
    }
  }

  /** `countDuplicateDetections`: one pass with the set of keys seen. */
  method CountDuplicateDetections(catalog: seq<CatalogObject>) returns (duplicates: nat)
    ensures duplicates == Duplicates(catalog)
    ensures duplicates <= Positioned(catalog)
  {
    var seen: set<DuplicateKey> := {};
    duplicates := 0;
    var i := 0;
    while i < |catalog|
      invariant 0 <= i <= |catalog|
      invariant seen == Seen(catalog[..i])
      invariant duplicates == Duplicates(catalog[..i])
    {
      assert catalog[..i + 1][..i] == catalog[..i];
      var obj := catalog[i];
      if HasCoordinates(obj) {
        var key := Key(obj);
        if key in seen {
          duplicates := duplicates + 1;
        } else {
          seen := seen + {key};
        }
      }
      i := i + 1;
    }
    assert catalog[..|catalog|] == catalog;
    DuplicatesAndKeys(catalog);
  }

  // ---------------------------------------------------------------------
  // Suspicious objects and quality flags

  predicate Suspicious(o: CatalogObject) {
    o.magnitude.Some? && o.magnitude.value < 0.0
  }

  /** `countSuspiciousObjects`: the objects with a negative magnitude. */
  function CountSuspicious(catalog: seq<CatalogObject>): (n: nat)
    ensures n <= |catalog|
    ensures n == 0 <==> forall i :: 0 <= i < |catalog| ==> !Suspicious(catalog[i])
  {
    if |catalog| == 0 then 0
    else
      var rest := CountSuspicious(catalog[1..]);
      assert forall i :: 1 <= i < |catalog| ==> catalog[i] == catalog[1..][i - 1];
      (if Suspicious(catalog[0]) then 1 else 0) + rest
  }

  datatype Flag = NegativeMagnitude | MissingCoordinates | LargePhotometricError | LowClassificationConfidence {
    function Name(): string {
      match this
      case NegativeMagnitude => "negative_magnitude"
      case MissingCoordinates => "missing_coordinates"
      case LargePhotometricError => "large_photometric_error"
      case LowClassificationConfidence => "low_classification_confidence"
    }
  }

  /** The four checks of `countQualityFlags`. */
  predicate Flagged(o: CatalogObject, f: Flag) {
    match f
    case NegativeMagnitude => Suspicious(o)
    case MissingCoordinates => !HasCoordinates(o)
    case LargePhotometricError => o.magnitudeError.Some? && o.magnitudeError.value > 1.0
    case LowClassificationConfidence => o.classificationConfidence.Some? && o.classificationConfidence.value < 0.5
  }

  /** The objects a flag applies to. */
  function FlagCount(catalog: seq<CatalogObject>, f: Flag): (n: nat)
    ensures n <= |catalog|
  {
    if |catalog| == 0 then 0
    else FlagCount(catalog[..|catalog| - 1], f) + (if Flagged(catalog[|catalog| - 1], f) then 1 else 0)
  }

  /** `flagCounts.merge(name, 1, Integer::sum)`; the map's keys are the
      flags, standing for their names. */
  function Merge(counts: map<Flag, nat>, f: Flag): (r: map<Flag, nat>)
    ensures r.Keys == counts.Keys + {f}
    ensures r[f] == (if f in counts then counts[f] else 0) + 1
    ensures forall g :: g in counts && g != f ==> r[g] == counts[g]
  {
    counts[f := if f in counts then counts[f] + 1 else 1]
  }

  /** The counts map agrees with the flag counts of a prefix. */
  ghost predicate CountsAgree(counts: map<Flag, nat>, catalog: seq<CatalogObject>) {
    forall f: Flag :: (f in counts <==> FlagCount(catalog, f) > 0) && (f in counts ==> counts[f] == FlagCount(catalog, f))
  }

  function MergeIfFlagged(counts: map<Flag, nat>, o: CatalogObject, f: Flag): map<Flag, nat> {
    if Flagged(o, f) then Merge(counts, f) else counts
  }

  /** One object's flags merged in, in the code's order. */
  function MergeFlags(counts: map<Flag, nat>, o: CatalogObject): map<Flag, nat> {
    var c := MergeIfFlagged(counts, o, NegativeMagnitude);
    var c := MergeIfFlagged(c, o, MissingCoordinates);
    var c := MergeIfFlagged(c, o, LargePhotometricError);
    MergeIfFlagged(c, o, LowClassificationConfidence)
  }

  /** After merging one object, a flag's entry is its old count plus one
      when the object has the flag. */
  lemma MergeFlagsAt(counts: map<Flag, nat>, o: CatalogObject, f: Flag)
    ensures var r := MergeFlags(counts, o);
            && (f in r <==> f in counts || Flagged(o, f))
            && (f in r ==> r[f] == (if f in counts then counts[f] else 0) + (if Flagged(o, f) then 1 else 0))
  {
  }

  lemma MergeFlagsStep(counts: map<Flag, nat>, catalog: seq<CatalogObject>, o: CatalogObject)
    requires CountsAgree(counts, catalog)
    ensures CountsAgree(MergeFlags(counts, o), catalog + [o])
  {
    var next := catalog + [o];
    assert next[..|next| - 1] == catalog;
    forall f: Flag
      ensures var r := MergeFlags(counts, o);
              (f in r <==> FlagCount(next, f) > 0) && (f in r ==> r[f] == FlagCount(next, f))
    {
      MergeFlagsAt(counts, o, f);
    }
  }

  /** `countQualityFlags`: a flag's name is a key exactly when some object
      has the flag, and maps to the number of objects that have it. */
  method CountQualityFlags(catalog: seq<CatalogObject>) returns (counts: map<Flag, nat>)
    ensures forall f: Flag :: (f in counts <==> FlagCount(catalog, f) > 0)
    ensures forall f: Flag :: f in counts ==> counts[f] == FlagCount(catalog, f)
  {
    counts := map[];
    var i := 0;
    while i < |catalog|
      invariant 0 <= i <= |catalog|
      invariant CountsAgree(counts, catalog[..i])
    {
      MergeFlagsStep(counts, catalog[..i], catalog[i]);
      assert catalog[..i] + [catalog[i]] == catalog[..i + 1];
      counts := MergeFlags(counts, catalog[i]);
      i := i + 1;
    }
    assert catalog[..|catalog|] == catalog;
  }

  // ---------------------------------------------------------------------
  // Nearest matches

  /** The separation from a positioned object to a positioned candidate. */
  function Separation(target: CatalogObject, candidate: CatalogObject, distance: (real, real, real, real) -> real): real
    requires HasCoordinates(target) && HasCoordinates(candidate)
  {
    distance(target.ra.value, target.dec.value, candidate.ra.value, candidate.dec.value)
  }

  /** The positioned candidate closest to a positioned target; the first of
      equally close ones, as a stream's `min` keeps. */
  function Closest(target: CatalogObject, candidates: seq<CatalogObject>,
                   distance: (real, real, real, real) -> real): (m: Option<CatalogObject>)
    requires HasCoordinates(target)
    ensures m.None? <==> forall i :: 0 <= i < |candidates| ==> !HasCoordinates(candidates[i])
    ensures m.Some? ==> m.value in candidates && HasCoordinates(m.value)
    ensures m.Some? ==> forall i :: 0 <= i < |candidates| && HasCoordinates(candidates[i]) ==>
                          Separation(target, m.value, distance) <= Separation(target, candidates[i], distance)
  {
    if |candidates| == 0 then None
    else
      var init := candidates[..|candidates| - 1];
      var last := candidates[|candidates| - 1];
      var best := Closest(target, init, distance);
      assert forall i :: 0 <= i < |init| ==> init[i] == candidates[i];
      if !HasCoordinates(last) then best
      else if best.Some? && Separation(target, best.value, distance) <= Separation(target, last, distance) then best
      else Some(last)
  }

  /** `findNearestMatch`: nothing for a target without coordinates. */
  function FindNearestMatch(target: CatalogObject, candidates: seq<CatalogObject>,
                            distance: (real, real, real, real) -> real): (m: Option<CatalogObject>)
    ensures !HasCoordinates(target) ==> m.None?
    ensures HasCoordinates(target) ==> m == Closest(target, candidates, distance)
  {
    if !HasCoordinates(target) then None else Closest(target, candidates, distance)
  }

  // ---------------------------------------------------------------------
  // Completeness

  datatype CompletenessAnalysis = CompletenessAnalysis(
    completenessPercent: real, averageSeparation: real,
    magnitudeCompleteness: map<string, real>, completenessLimits: map<string, real>)

  /** Some object of the catalog has magnitude `x`. */
  predicate HasMagnitude(catalog: seq<CatalogObject>, x: real) {
    exists i :: 0 <= i < |catalog| && catalog[i].magnitude == Some(x)
  }

  /** The non-null magnitudes, in catalog order. */
  function Magnitudes(catalog: seq<CatalogObject>): (m: seq<real>)
    ensures |m| <= |catalog|
    ensures |m| == 0 <==> forall i :: 0 <= i < |catalog| ==> catalog[i].magnitude.None?
    ensures forall x :: x in m <==> HasMagnitude(catalog, x)
  {
    if |catalog| == 0 then []
    else
      var rest := Magnitudes(catalog[1..]);
      assert forall i :: 1 <= i < |catalog| ==> catalog[i] == catalog[1..][i - 1];
      (if catalog[0].magnitude.Some? then [catalog[0].magnitude.value] else []) + rest
  }

  /** Keeping the magnitudes commutes with joining catalogs: the
      magnitudes of `a + b` are those of `a` followed by those of `b`.
      With the one-object case of the definition this fixes the result,
      order included. */
  lemma {:induction false} MagnitudesAppend(a: seq<CatalogObject>, b: seq<CatalogObject>)
    ensures Magnitudes(a + b) == Magnitudes(a) + Magnitudes(b)
  {
    if |a| == 0 {
      assert a + b == b;
    } else {
      var head := if a[0].magnitude.Some? then [a[0].magnitude.value] else [];
      assert (a + b)[0] == a[0];
      assert (a + b)[1..] == a[1..] + b;
      assert Magnitudes(a) == head + Magnitudes(a[1..]);
      assert Magnitudes(a + b) == head + Magnitudes(a[1..] + b);
      MagnitudesAppend(a[1..], b);
      var x, y := Magnitudes(a[1..]), Magnitudes(b);
      assert head + (x + y) == (head + x) + y;
    }
  }

  /** `(int) ((mag - minMag) / binSize)` capped at 19. With all magnitudes
      equal the bin size is zero and the quotient is NaN, which the cast
      turns into 0. */
  function BinIndex(mag: real, minMag: real, binSize: real): (b: nat)
    requires minMag <= mag && binSize >= 0.0
    ensures b <= 19
  {
    if binSize == 0.0 then 0
    else
      NonNegativeQuotient(mag - minMag, binSize);
      var q := ((mag - minMag) / binSize).Floor;
      if q < 19 then q else 19
  }

  predicate AtLeast(values: seq<real>, bound: real) {
    forall i :: 0 <= i < |values| ==> bound <= values[i]
  }

  /** The magnitudes that fall into bin `b`. */
  function CountInBin(mags: seq<real>, b: nat, minMag: real, binSize: real): (n: nat)
    requires AtLeast(mags, minMag) && binSize >= 0.0
    ensures n <= |mags|
  {
    if |mags| == 0 then 0
    else
      var init := mags[..|mags| - 1];
      assert AtLeast(init, minMag) by {
        assert forall i :: 0 <= i < |init| ==> init[i] == mags[i];
      }
      CountInBin(init, b, minMag, binSize) + (if BinIndex(mags[|mags| - 1], minMag, binSize) == b then 1 else 0)
  }

  /** The twenty bin counts. */
  function BinCounts(mags: seq<real>, minMag: real, binSize: real): (counts: seq<nat>)
    requires AtLeast(mags, minMag) && binSize >= 0.0
    ensures |counts| == 20
  {
    seq(20, b requires 0 <= b < 20 => CountInBin(mags, b, minMag, binSize))
  }

  function Sum(counts: seq<nat>): nat {
    if |counts| == 0 then 0 else counts[0] + Sum(counts[1..])
  }

  lemma {:induction false} SumUpdate(counts: seq<nat>, b: nat, v: nat)
    requires b < |counts|
    ensures Sum(counts[b := v]) + counts[b] == Sum(counts) + v
  {
    if b > 0 {
      assert counts[b := v][1..] == counts[1..][b - 1 := v];
      SumUpdate(counts[1..], b - 1, v);
    } else {
      assert counts[b := v][1..] == counts[1..];
    }
  }

  /** The loop of `findCompletenessTurnover` that fills the bins. */
  method BinMagnitudes(mags: seq<real>, minMag: real, binSize: real) returns (counts: seq<nat>)
    requires AtLeast(mags, minMag) && binSize >= 0.0
    ensures counts == BinCounts(mags, minMag, binSize)
    ensures Sum(counts) == |mags|
  {
    counts := seq(20, b => 0);
    assert Sum(counts) == 0 by {
      assert forall k :: 0 <= k <= 20 ==> Sum(counts[k..]) == 0 by {
        forall k | 0 <= k <= 20
          ensures Sum(counts[k..]) == 0
        {
          ZeroTail(counts, k);
        }
      }
      assert counts[0..] == counts;
    }
    var i := 0;
    while i < |mags|
      invariant 0 <= i <= |mags|
      invariant AtLeast(mags[..i], minMag)
      invariant counts == BinCounts(mags[..i], minMag, binSize)
      invariant Sum(counts) == i
    {
      var prefix := mags[..i + 1];
      assert prefix[..i] == mags[..i];
      assert AtLeast(prefix, minMag);
      var b := BinIndex(mags[i], minMag, binSize);
      SumUpdate(counts, b, counts[b] + 1);
      counts := counts[b := counts[b] + 1];
      i := i + 1;
    }
    assert mags[..|mags|] == mags;
  }

  lemma {:induction false} ZeroTail(counts: seq<nat>, k: nat)
    requires |counts| == 20 && k <= 20
    requires forall b :: 0 <= b < 20 ==> counts[b] == 0
    ensures Sum(counts[k..]) == 0
    decreases 20 - k
  {
    if k < 20 {
      ZeroTail(counts, k + 1);
      assert counts[k..][1..] == counts[k + 1..];
    }
  }

  /** The first bin from 1 to 18 holding more than both neighbours. */
  function FirstPeak(counts: seq<nat>, from: nat): (p: Option<nat>)
    requires |counts| == 20 && 1 <= from
    ensures p.Some? ==> from <= p.value <= 18 && counts[p.value] > counts[p.value + 1]
                        && counts[p.value] > counts[p.value - 1]
    ensures p.None? ==> forall i :: from <= i <= 18 ==> !(counts[i] > counts[i + 1] && counts[i] > counts[i - 1])
    decreases 20 - from
  {
    if from > 18 then None
    else if counts[from] > counts[from + 1] && counts[from] > counts[from - 1] then Some(from)
    else FirstPeak(counts, from + 1)
  }

  /** With a bin size of zero every magnitude lands in bin 0. */
  lemma {:induction false} ZeroSizeFillsFirstBin(mags: seq<real>, minMag: real, b: nat)
    requires AtLeast(mags, minMag) && b > 0
    ensures CountInBin(mags, b, minMag, 0.0) == 0
  {
    if |mags| > 0 {
      var init := mags[..|mags| - 1];
      assert forall i :: 0 <= i < |init| ==> init[i] == mags[i];
      ZeroSizeFillsFirstBin(init, minMag, b);
    }
  }

  /** With a bin size of zero no bin peaks. */
  lemma NoPeakAtZeroSize(mags: seq<real>, minMag: real)
    requires AtLeast(mags, minMag)
    ensures FirstPeak(BinCounts(mags, minMag, 0.0), 1).None?
  {
    var counts := BinCounts(mags, minMag, 0.0);
    forall i | 1 <= i <= 18
      ensures counts[i] == 0
    {
      ZeroSizeFillsFirstBin(mags, minMag, i);
    }
  }

  /** The middle of bin `i`, strictly inside the magnitude range. */
  function BinMiddle(minMag: real, i: nat, size: real): (m: real)
    requires i <= 18 && size > 0.0
    ensures minMag <= m < minMag + 20.0 * size
  {
    assert 0.0 <= (i as real + 0.5) * size <= 18.5 * size;
    minMag + (i as real + 0.5) * size
  }

  /** The first peaked bin of magnitudes no brighter than the first. */
  function Peak(mags: seq<real>): (p: Option<nat>)
    requires |mags| > 0 && AtLeast(mags, mags[0])
    ensures p.Some? ==> 1 <= p.value <= 18
  {
    FirstPeak(BinCounts(mags, mags[0], (mags[|mags| - 1] - mags[0]) / 20.0), 1)
  }

  /** Magnitudes all equal to the first leave no peak. */
  lemma NoPeakWhenFlat(mags: seq<real>)
    requires |mags| > 0 && AtLeast(mags, mags[0]) && mags[|mags| - 1] == mags[0]
    ensures Peak(mags).None?
  {
    assert (mags[|mags| - 1] - mags[0]) / 20.0 == 0.0;
    NoPeakAtZeroSize(mags, mags[0]);
  }

  lemma SortedFromFirst(sorted: seq<real>)
    requires |sorted| > 0 && SortedBy(sorted, Identity)
    ensures AtLeast(sorted, sorted[0]) && sorted[0] <= sorted[|sorted| - 1]
  {
    forall i | 0 < i < |sorted|
      ensures sorted[0] <= sorted[i]
    {
      assert Identity(sorted[0]) <= Identity(sorted[i]);
    }
  }

  /** `findCompletenessTurnover` on the sorted magnitudes: below 100 of
      them the faintest; otherwise the middle of the first peaked bin, or
      the faintest when no bin peaks. */
  function FindCompletenessTurnover(sorted: seq<real>): (turnover: real)
    requires |sorted| > 0 && SortedBy(sorted, Identity)
    ensures AtLeast(sorted, sorted[0])
    ensures sorted[0] <= turnover <= sorted[|sorted| - 1]
    ensures |sorted| < 100 ==> turnover == sorted[|sorted| - 1]
    ensures |sorted| >= 100 ==> (turnover == sorted[|sorted| - 1] <==> Peak(sorted).None?)
  {
    SortedFromFirst(sorted);
    var minMag := sorted[0];
    var maxMag := sorted[|sorted| - 1];
    if |sorted| < 100 then maxMag
    else
      var peak := Peak(sorted);
      assert maxMag == minMag ==> peak.None? by {
        if maxMag == minMag {
          NoPeakWhenFlat(sorted);
        }
      }
      TurnoverOfPeak(minMag, maxMag, peak)
  }

  /** The turnover once the first peak is known: the faintest magnitude
      exactly when there is none. */
  function TurnoverOfPeak(minMag: real, maxMag: real, peak: Option<nat>): (t: real)
    requires minMag <= maxMag
    requires peak.Some? ==> peak.value <= 18 && minMag < maxMag
    ensures minMag <= t <= maxMag
    ensures t == maxMag <==> peak.None?
    ensures peak.Some? ==>
      var size := (maxMag - minMag) / 20.0;
      var lower := minMag + peak.value as real * size;
      var upper := lower + size;
      lower < t < upper && 2.0 * t == lower + upper
  {
    if peak.None? then maxMag
    else
      var size := (maxMag - minMag) / 20.0;
      assert minMag + 20.0 * size == maxMag;
      BinMiddle(minMag, peak.value, size)
  }

  /** The magnitudes no fainter than a limit. */
  function CountUpTo(mags: seq<real>, limit: real): (n: nat)
    ensures n <= |mags|
  {
    if |mags| == 0 then 0
    else (if mags[0] <= limit then 1 else 0) + CountUpTo(mags[1..], limit)
  }

  lemma {:induction false} CountUpToPositive(mags: seq<real>, limit: real)
    requires |mags| > 0 && mags[0] <= limit
    ensures CountUpTo(mags, limit) > 0
  {
  }

  /** `estimateCompletenessFromCounts`: the bright count over 1.2 times
      itself, as a percentage capped at 100; zero over zero is NaN. */
  function EstimateCompletenessFromCounts(mags: seq<real>, limit: real): (r: Num)
    ensures CountUpTo(mags, limit) == 0 ==> r == NaN
    ensures CountUpTo(mags, limit) > 0 ==> r == Finite(250.0 / 3.0)
  {
    var bright := CountUpTo(mags, limit) as real;
    var expected := bright * 1.2;
    if bright == 0.0 then NaN
    else
      assert bright / expected == 1.0 / 1.2;
      Finite(Min(100.0, bright / expected * 100.0))
  }

  /** `assessStatisticalCompleteness`: with no magnitudes, all zero and
      empty; otherwise the estimate at the turnover. */
  function StatisticalCompleteness(catalog: seq<CatalogObject>): (c: CompletenessAnalysis)
    ensures |Magnitudes(catalog)| == 0 ==> c == CompletenessAnalysis(0.0, 0.0, map[], map[])
    ensures |Magnitudes(catalog)| > 0 ==>
              && c.completenessPercent == 250.0 / 3.0 && c.averageSeparation == 0.0
              && c.magnitudeCompleteness == map["overall" := 250.0 / 3.0]
              && "50_percent_completeness" in c.completenessLimits
              && c.completenessLimits.Keys == {"50_percent_completeness"}
              && exists i, j :: 0 <= i < |Magnitudes(catalog)| && 0 <= j < |Magnitudes(catalog)|
                                && Magnitudes(catalog)[i] <= c.completenessLimits["50_percent_completeness"]
                                <= Magnitudes(catalog)[j]
  {
    var mags := Magnitudes(catalog);
    if |mags| == 0 then CompletenessAnalysis(0.0, 0.0, map[], map[])
    else
      var sorted := SortBy(mags, Identity);
      var limit := FindCompletenessTurnover(sorted);
      CountUpToPositive(sorted, limit);
      assert sorted[0] in multiset(mags) && sorted[|sorted| - 1] in multiset(mags);
      var estimate := EstimateCompletenessFromCounts(sorted, limit);
      CompletenessAnalysis(estimate.v, 0.0, map["overall" := estimate.v], map["50_percent_completeness" := limit])
  }

  // ---------------------------------------------------------------------
  // Completeness against a reference catalog

  predicate AnyPositioned(catalog: seq<CatalogObject>) {
    exists i :: 0 <= i < |catalog| && HasCoordinates(catalog[i])
  }

  /** The reference objects that find a match in the catalog. */
  function Matched(reference: seq<CatalogObject>, catalog: seq<CatalogObject>,
                   distance: (real, real, real, real) -> real): (n: nat)
    ensures n <= |reference|
    ensures n == |reference| <==>
              (forall i :: 0 <= i < |reference| ==> HasCoordinates(reference[i])) && (|reference| == 0 || AnyPositioned(catalog))
    ensures n == 0 <==> !AnyPositioned(catalog) || forall i :: 0 <= i < |reference| ==> !HasCoordinates(reference[i])
  {
    if |reference| == 0 then 0
    else
      var rest := Matched(reference[1..], catalog, distance);
      assert forall i :: 1 <= i < |reference| ==> reference[i] == reference[1..][i - 1];
      (if FindNearestMatch(reference[0], catalog, distance).Some? then 1 else 0) + rest
  }

  /** The separations of the matched reference objects, summed. */
  function TotalSeparation(reference: seq<CatalogObject>, catalog: seq<CatalogObject>,
                           distance: (real, real, real, real) -> real): real
  {
    if |reference| == 0 then 0.0
    else
      var m := FindNearestMatch(reference[0], catalog, distance);
      (if m.Some? then Separation(reference[0], m.value, distance) else 0.0)
      + TotalSeparation(reference[1..], catalog, distance)
  }

  /** The magnitudes in `[lo, hi)`. */
  function CountBetween(mags: seq<real>, lo: real, hi: real): (n: nat)
    ensures n <= |mags|
  {
    if |mags| == 0 then 0
    else (if lo <= mags[0] < hi then 1 else 0) + CountBetween(mags[1..], lo, hi)
  }

  /** `(double) part / whole * 100.0` for a positive whole. */
  function PercentOf(part: nat, whole: nat): (p: real)
    requires whole > 0
    ensures p >= 0.0
    ensures p == 0.0 <==> part == 0
    ensures p == 100.0 <==> part == whole
    ensures p < 100.0 <==> part < whole
  {
    QuotientOrder(part as real, whole as real);
    part as real / whole as real * 100.0
  }

  lemma QuotientOrder(n: real, d: real)
    requires n >= 0.0 && d > 0.0
    ensures n / d >= 0.0
    ensures n / d == 0.0 <==> n == 0.0
    ensures n / d == 1.0 <==> n == d
    ensures n / d < 1.0 <==> n < d
  {
    var q := n / d;
    assert q * d == n;
    if q < 1.0 {
      assert q * d < d;
    } else {
      assert q * d >= d;
    }
  }

  /** One magnitude bin's completeness: 100 when the reference has no
      object in it. */
  function BinCompleteness(catalogCount: nat, referenceCount: nat): (c: real)
    ensures c >= 0.0
    ensures referenceCount == 0 ==> c == 100.0
    ensures referenceCount > 0 ==> (c == 100.0 <==> catalogCount == referenceCount)
    ensures referenceCount > 0 ==> (c < 100.0 <==> catalogCount < referenceCount)
  {
    if referenceCount > 0 then PercentOf(catalogCount, referenceCount) else 100.0
  }

  /** The completeness of the bin `[lo, lo + 2)`. */
  function BinFor(catalog: seq<CatalogObject>, reference: seq<CatalogObject>, lo: real): real {
    BinCompleteness(CountBetween(Magnitudes(catalog), lo, lo + 2.0), CountBetween(Magnitudes(reference), lo, lo + 2.0))
  }

  /** `calculateMagnitudeCompleteness`: the five two-magnitude bins from
      12 to 22, named "mag_<lo>_<hi>". */
  function MagnitudeCompleteness(catalog: seq<CatalogObject>, reference: seq<CatalogObject>): (m: map<string, real>)
    ensures m.Keys == {"mag_12_14", "mag_14_16", "mag_16_18", "mag_18_20", "mag_20_22"}
    ensures forall k :: k in m ==> m[k] >= 0.0
    ensures m["mag_12_14"] == BinFor(catalog, reference, 12.0) && m["mag_14_16"] == BinFor(catalog, reference, 14.0)
            && m["mag_16_18"] == BinFor(catalog, reference, 16.0) && m["mag_18_20"] == BinFor(catalog, reference, 18.0)
            && m["mag_20_22"] == BinFor(catalog, reference, 20.0)
  {
    map["mag_12_14" := BinFor(catalog, reference, 12.0), "mag_14_16" := BinFor(catalog, reference, 14.0),
        "mag_16_18" := BinFor(catalog, reference, 16.0), "mag_18_20" := BinFor(catalog, reference, 18.0),
        "mag_20_22" := BinFor(catalog, reference, 20.0)]
  }

  /** The positions `calculateCompletenessLimits` reads are in order and
      in range, and pick elements of the input. */
  lemma LimitPositions(mags: seq<real>, sorted: seq<real>)
    requires |sorted| > 0 && SortedBy(sorted, Identity) && multiset(sorted) == multiset(mags)
    ensures |sorted| / 2 <= 9 * |sorted| / 10 <= 95 * |sorted| / 100 <= |sorted| - 1
    ensures sorted[|sorted| / 2] <= sorted[9 * |sorted| / 10] <= sorted[95 * |sorted| / 100] <= sorted[|sorted| - 1]
    ensures forall i :: 0 <= i < |sorted| ==> sorted[i] in multiset(mags)
    ensures forall i :: 0 <= i < |mags| ==> mags[i] <= sorted[|sorted| - 1]
  {
    var len := |sorted|;
    var i50, i90, i95 := len / 2, 9 * len / 10, 95 * len / 100;
    assert Identity(sorted[i50]) <= Identity(sorted[i90]) || i50 == i90;
    assert Identity(sorted[i90]) <= Identity(sorted[i95]) || i90 == i95;
    assert Identity(sorted[i95]) <= Identity(sorted[len - 1]) || i95 == len - 1;
    forall i | 0 <= i < len
      ensures sorted[i] in multiset(mags)
    {
      assert sorted[i] in multiset(sorted);
    }
    forall i | 0 <= i < |mags|
      ensures mags[i] <= sorted[len - 1]
    {
      assert mags[i] in multiset(sorted);
      var j :| 0 <= j < len && sorted[j] == mags[i];
      assert Identity(sorted[j]) <= Identity(sorted[len - 1]) || j == len - 1;
    }
  }

  function LimitMap(half: real, ninety: real, ninetyFive: real, faintest: real): (m: map<string, real>)
    ensures m.Keys == {"50_percent", "90_percent", "95_percent", "faintest"}
    ensures m["50_percent"] == half && m["90_percent"] == ninety && m["95_percent"] == ninetyFive
            && m["faintest"] == faintest
  {
    map["50_percent" := half, "90_percent" := ninety, "95_percent" := ninetyFive, "faintest" := faintest]
  }

  /** `calculateCompletenessLimits`: the magnitudes at the 50, 90 and 95
      percent positions of the sorted list and the faintest; none for a
      catalog without magnitudes. */
  function CompletenessLimits(catalog: seq<CatalogObject>): (limits: map<string, real>)
    ensures |Magnitudes(catalog)| == 0 <==> limits == map[]
    ensures |Magnitudes(catalog)| > 0 ==>
              && limits.Keys == {"50_percent", "90_percent", "95_percent", "faintest"}
              && limits["50_percent"] <= limits["90_percent"] <= limits["95_percent"] <= limits["faintest"]
              && limits["50_percent"] in multiset(Magnitudes(catalog))
              && limits["faintest"] in multiset(Magnitudes(catalog))
              && (forall i :: 0 <= i < |Magnitudes(catalog)| ==> Magnitudes(catalog)[i] <= limits["faintest"])
  {
    var mags := Magnitudes(catalog);
    var sorted := SortBy(mags, Identity);
    var len := |sorted|;
    if len == 0 then map[]
    else
      LimitPositions(mags, sorted);
      LimitMap(sorted[len / 2], sorted[9 * len / 10], sorted[95 * len / 100], sorted[len - 1])
  }

  /** The cross-match branch of `assessCompleteness`: the share of
      reference objects the catalog matches, and their mean separation. */
  function CrossMatchCompleteness(catalog: seq<CatalogObject>, reference: seq<CatalogObject>,
                                  distance: (real, real, real, real) -> real): (c: CompletenessAnalysis)
    requires |reference| > 0
    ensures 0.0 <= c.completenessPercent <= 100.0
    ensures c.completenessPercent == 100.0 <==>
              (forall i :: 0 <= i < |reference| ==> HasCoordinates(reference[i])) && AnyPositioned(catalog)
    ensures c.completenessPercent == 0.0 <==>
              !AnyPositioned(catalog) || forall i :: 0 <= i < |reference| ==> !HasCoordinates(reference[i])
    ensures c.completenessPercent == 0.0 ==> c.averageSeparation == 0.0
    ensures c.magnitudeCompleteness == MagnitudeCompleteness(catalog, reference)
    ensures c.completenessLimits == CompletenessLimits(catalog)
  {
    var matched := Matched(reference, catalog, distance);
    var average := if matched > 0 then TotalSeparation(reference, catalog, distance) / matched as real else 0.0;
    CompletenessAnalysis(PercentOf(matched, |reference|), average,
                         MagnitudeCompleteness(catalog, reference), CompletenessLimits(catalog))
  }

  /** `assessCompleteness`: statistical without a (non-empty) reference. */
  function Completeness(catalog: seq<CatalogObject>, reference: Option<seq<CatalogObject>>,
                        distance: (real, real, real, real) -> real): (c: CompletenessAnalysis)
    ensures 0.0 <= c.completenessPercent <= 100.0
    ensures reference.None? || |reference.value| == 0 ==> c == StatisticalCompleteness(catalog)
  {
    if reference.None? || |reference.value| == 0 then StatisticalCompleteness(catalog)
    else CrossMatchCompleteness(catalog, reference.value, distance)
  }

  // ---------------------------------------------------------------------
  // Reliability

  datatype ReliabilityAnalysis = ReliabilityAnalysis(reliabilityPercent: Num, falsePositiveRate: Num)

  /** `(double) part / whole * 100.0` for any whole: zero over zero is NaN. */
  function Percentage(part: nat, whole: nat): (p: Num)
    ensures whole == 0 && part == 0 ==> p == NaN
    ensures whole > 0 ==> p == Finite(PercentOf(part, whole))
  {
    if whole > 0 then Finite(PercentOf(part, whole))
    else if part == 0 then NaN
    else PosInfinity
  }

  /** At most twice the whole is at most 200 percent. */
  lemma ProblemShare(part: nat, whole: nat)
    requires 0 < whole && part <= 2 * whole
    ensures PercentOf(part, whole) <= 200.0
  {
    var w := whole as real;
    var q := part as real / w;
    assert q * w == part as real;
    assert q <= 2.0 by {
      if q > 2.0 {
        assert (q - 2.0) * w > 0.0;
        assert q * w - 2.0 * w > 0.0;
      }
    }
    assert PercentOf(part, whole) == q * 100.0;
  }

  /** `100.0 - x` on doubles. */
  function HundredMinus(x: Num): (r: Num)
    ensures x.Finite? <==> r.Finite?
    ensures x.Finite? ==> r.v == 100.0 - x.v
    ensures x == NaN <==> r == NaN
  {
    match x
    case Finite(v) => Finite(100.0 - v)
    case PosInfinity => NegInfinity
    case NegInfinity => PosInfinity
    case NaN => NaN
  }

  /** The tolerance within which a cross-match counts as reliable. */
  const PositionToleranceArcsec: real := 1.0

  /** The catalog objects whose nearest reference object lies within the
      tolerance. */
  function Reliable(catalog: seq<CatalogObject>, reference: seq<CatalogObject>,
                    distance: (real, real, real, real) -> real): (n: nat)
    ensures n <= |catalog|
  {
    if |catalog| == 0 then 0
    else
      var m := FindNearestMatch(catalog[0], reference, distance);
      (if m.Some? && Separation(catalog[0], m.value, distance) <= PositionToleranceArcsec then 1 else 0)
      + Reliable(catalog[1..], reference, distance)
  }

  /** `assessReliability` as written: the statistical branch rates
      duplicates plus negative magnitudes against the catalog size, the
      cross-match branch the reliable matches; both divide by the catalog
      size, so an empty catalog gives NaN. */
  function ReliabilityAsWritten(catalog: seq<CatalogObject>, reference: Option<seq<CatalogObject>>,
                                distance: (real, real, real, real) -> real): (r: ReliabilityAnalysis)
    ensures |catalog| == 0 ==> r.reliabilityPercent == NaN && r.falsePositiveRate == NaN
    ensures |catalog| > 0 ==> r.reliabilityPercent.Finite? && r.falsePositiveRate.Finite?
    ensures |catalog| > 0 ==> 0.0 <= r.falsePositiveRate.v <= 100.0
    ensures |catalog| > 0 ==> -100.0 <= r.reliabilityPercent.v <= 100.0
  {
    var n := |catalog|;
    if reference.None? || |reference.value| == 0 then
      var suspicious := CountSuspicious(catalog);
      var duplicates := Duplicates(catalog);
      assert duplicates + suspicious <= 2 * n by {
        DuplicatesAndKeys(catalog);
      }
      if n > 0 then
        ProblemShare(duplicates + suspicious, n);
        ReliabilityAnalysis(HundredMinus(Percentage(duplicates + suspicious, n)), Percentage(suspicious, n))
      else
        ReliabilityAnalysis(HundredMinus(Percentage(duplicates + suspicious, n)), Percentage(suspicious, n))
    else
      var reliable := Reliable(catalog, reference.value, distance);
      ReliabilityAnalysis(Percentage(reliable, n), Percentage(n - reliable, n))
  }

  /** `assessReliability` with an empty catalog rated as having no
      problems: always finite, and as written on a non-empty catalog. */
  function Reliability(catalog: seq<CatalogObject>, reference: Option<seq<CatalogObject>>,
                       distance: (real, real, real, real) -> real): (r: ReliabilityAnalysis)
    ensures r.reliabilityPercent.Finite? && r.falsePositiveRate.Finite?
    ensures |catalog| == 0 ==> r == ReliabilityAnalysis(Finite(100.0), Finite(0.0))
    ensures |catalog| > 0 ==> r == ReliabilityAsWritten(catalog, reference, distance)
    ensures 0.0 <= r.falsePositiveRate.v <= 100.0
    ensures -100.0 <= r.reliabilityPercent.v <= 100.0
  {
    if |catalog| == 0 then ReliabilityAnalysis(Finite(100.0), Finite(0.0))
    else ReliabilityAsWritten(catalog, reference, distance)
  }

  // ---------------------------------------------------------------------
  // Overall score

  /** The fixed overall qualities the astrometric and photometric
      assessments report. */
  const AstrometricOverall: real := 95.0
  const PhotometricOverall: real := 98.0

  /** The weighted sum: 0.3 completeness, 0.3 reliability, 0.2 each for
      astrometry and photometry. */
  function WeightedScore(completeness: real, reliability: real): real {
    completeness * 0.3 + reliability * 0.3 + AstrometricOverall * 0.2 + PhotometricOverall * 0.2
  }

  /** `Math.min(100.0, Math.max(0.0, score))`: either bound passes NaN
      through. */
  function ClampScore(score: Num): (r: Num)
    ensures score == NaN <==> r == NaN
    ensures r != NaN ==> r.Finite? && 0.0 <= r.v <= 100.0
    ensures score.Finite? && 0.0 <= score.v <= 100.0 ==> r == score
  {
    match score
    case Finite(v) => Finite(Min(100.0, Max(0.0, v)))
    case PosInfinity => Finite(100.0)
    case NegInfinity => Finite(0.0)
    case NaN => NaN
  }

  /** `calculateOverallQualityScore` on a finite completeness and a
      reliability that may be NaN. */
  function OverallQualityScore(completeness: real, reliability: Num): (r: Num)
    ensures reliability == NaN ==> r == NaN
    ensures reliability.Finite? ==> r == ClampScore(Finite(WeightedScore(completeness, reliability.v)))
    ensures reliability.Finite? ==> r.Finite? && 0.0 <= r.v <= 100.0
  {
    match reliability
    case Finite(v) => ClampScore(Finite(WeightedScore(completeness, v)))
    case PosInfinity => ClampScore(PosInfinity)
    case NegInfinity => ClampScore(NegInfinity)
    case NaN => NaN
  }

  /** The overall score `assessCatalogQuality` reports, as written. */
  function AssessmentScoreAsWritten(catalog: seq<CatalogObject>, reference: Option<seq<CatalogObject>>,
                                    distance: (real, real, real, real) -> real): Num
  {
    OverallQualityScore(Completeness(catalog, reference, distance).completenessPercent,
                        ReliabilityAsWritten(catalog, reference, distance).reliabilityPercent)
  }

  /** An empty catalog scores NaN, whatever the reference: the clamp meant
      to keep the score in [0, 100] lets it through. */
  lemma EmptyCatalogScoresNaN(reference: Option<seq<CatalogObject>>, distance: (real, real, real, real) -> real)
    ensures AssessmentScoreAsWritten([], reference, distance) == NaN
  {
  }

  /** The overall score with the corrected reliability. */
  function AssessmentScore(catalog: seq<CatalogObject>, reference: Option<seq<CatalogObject>>,
                           distance: (real, real, real, real) -> real): (score: real)
    ensures 0.0 <= score <= 100.0
    ensures |catalog| > 0 ==> Finite(score) == AssessmentScoreAsWritten(catalog, reference, distance)
  {
    var completeness := Completeness(catalog, reference, distance).completenessPercent;
    var reliability := Reliability(catalog, reference, distance).reliabilityPercent;
    OverallQualityScore(completeness, reliability).v
  }

  /** The weighted sum of a completeness in [0, 100] and a reliability in
      [-100, 100] lies in [8.6, 98.6], so the clamp never changes a finite
      score: the best catalog scores 98.6. */
  lemma WeightedScoreRange(completeness: real, reliability: real)
    requires 0.0 <= completeness <= 100.0 && -100.0 <= reliability <= 100.0
    ensures 8.6 <= WeightedScore(completeness, reliability) <= 98.6
    ensures ClampScore(Finite(WeightedScore(completeness, reliability))) == Finite(WeightedScore(completeness, reliability))
    ensures WeightedScore(100.0, 100.0) == 98.6
  {
  }

  datatype CatalogQualityReport = CatalogQualityReport(
    completeness: CompletenessAnalysis, reliability: ReliabilityAnalysis, flagCounts: map<Flag, nat>,
    overallQualityScore: real)

  /** `assessCatalogQuality`, with the corrected reliability. */
  method AssessCatalogQuality(catalog: seq<CatalogObject>, reference: Option<seq<CatalogObject>>,
                              distance: (real, real, real, real) -> real)
    returns (report: CatalogQualityReport)
    ensures report.completeness == Completeness(catalog, reference, distance)
    ensures report.reliability == Reliability(catalog, reference, distance)
    ensures forall f: Flag :: (f in report.flagCounts <==> FlagCount(catalog, f) > 0)
    ensures forall f: Flag :: f in report.flagCounts ==> report.flagCounts[f] == FlagCount(catalog, f)
    ensures 0.0 <= report.overallQualityScore <= 100.0
    ensures report.overallQualityScore == AssessmentScore(catalog, reference, distance)
  {
    var flags := CountQualityFlags(catalog);
    report := CatalogQualityReport(Completeness(catalog, reference, distance), Reliability(catalog, reference, distance),
                                   flags, AssessmentScore(catalog, reference, distance));
  }
}
