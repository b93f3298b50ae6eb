/** The catalog service's astronomical helpers: right ascension wrapping
    with Java's floating-point remainder, declination clamping, coordinate
    validity, proper motion, point creation, catalog density, match
    probability and significance, catalog priority, and epoch parsing and
    conversion.

    Doubles are reals. Where the code can produce an IEEE infinity or NaN,
    the result is a `Num`. Trigonometric and exponential functions are
    parameters, with only the facts the properties need. */
module AstroCalc {
  import opened Wrappers
  import opened JavaText
  import AstroUtils
  import opened Numerics

  /** A double as far as the code reaches: finite, infinite, or NaN. */
  datatype Num = Finite(v: real) | PosInfinity | NegInfinity | NaN

  /** `Math.PI` as a double. */
  const Pi: real := 3.141592653589793

  function Max(a: real, b: real): real { if a >= b then a else b }
  function Min(a: real, b: real): real { if a <= b then a else b }

  // ---------------------------------------------------------------------
  // Right ascension and declination

  /** Java's `a % 360.0` on doubles: the remainder of the quotient
      truncated toward zero, which keeps the sign of `a`. */
  function JavaRem360(a: real): (r: real)
    ensures 0.0 <= a ==> 0.0 <= r < 360.0
    ensures a < 0.0 ==> -360.0 < r <= 0.0
  {
    a - 360.0 * Trunc(a / 360.0) as real
  }

  /** `a / b` on doubles with finite operands: a zero divisor gives the
      infinity of the dividend's sign, or NaN when the dividend is zero
      too. */
  function Quotient(a: real, b: real): Num {
    if b != 0.0 then Finite(a / b)
    else if a > 0.0 then PosInfinity
    else if a < 0.0 then NegInfinity
    else NaN
  }

  /** Java's `x < c`, `x > c` and `x >= c` for a double `x` and a finite
      `c`: every comparison with NaN is false. */
  predicate Lt(x: Num, c: real) {
    x == NegInfinity || (x.Finite? && x.v < c)
  }

  predicate Gt(x: Num, c: real) {
    x == PosInfinity || (x.Finite? && x.v > c)
  }

  predicate Ge(x: Num, c: real) {
    x == PosInfinity || (x.Finite? && x.v >= c)
  }

  lemma PositiveProduct(x: real, y: real)
    requires x > 0.0 && y > 0.0
    ensures x * y > 0.0
  {
  }

  /** Non-negative over positive. */
  lemma NonNegativeQuotient(a: real, b: real)
    requires 0.0 <= a && 0.0 < b
    ensures 0.0 <= a / b
    ensures 0.0 < a ==> 0.0 < a / b
  {
  }

  /** A product, with the signs the statistics below rely on. Squares are
      written `Times(x, x)`. */
  function Times(x: real, y: real): (p: real)
    ensures x > 0.0 && y > 0.0 ==> p > 0.0
    ensures x < 0.0 && y < 0.0 ==> p > 0.0
    ensures x == 0.0 || y == 0.0 ==> p == 0.0
  {
    if x > 0.0 && y > 0.0 then PositiveProduct(x, y); x * y
    else if x < 0.0 && y < 0.0 then PositiveProduct(-x, -y); x * y
    else x * y
  }

  /** `normalizeRa`: the Java remainder by 360, shifted up by 360 when
      negative. It is the same wrap to [0, 360) as the image processor's
      `normalizeRA`. */
  function NormalizeRa(ra: real): (r: real)
    ensures 0.0 <= r < 360.0
    ensures r == AstroUtils.Wrap360(ra)
  {
    var m := JavaRem360(ra);
    var r := if m < 0.0 then m + 360.0 else m;
    assert AstroUtils.IsWholeTurns(r - ra) by {
      var t := Trunc(ra / 360.0);
      var k := if m < 0.0 then 1 - t else -t;
      assert (r - ra) / 360.0 == k as real;
    }
    assert AstroUtils.IsWholeTurns(r - AstroUtils.Wrap360(ra)) by {
      WholeTurnsDifference(r, ra, AstroUtils.Wrap360(ra));
    }
    AstroUtils.UniqueInTurn(r, AstroUtils.Wrap360(ra));
    r
  }

  lemma WholeTurnsDifference(a: real, b: real, c: real)
    requires AstroUtils.IsWholeTurns(a - b) && AstroUtils.IsWholeTurns(c - b)
    ensures AstroUtils.IsWholeTurns(a - c)
  {
    var p := ((a - b) / 360.0).Floor;
    var q := ((c - b) / 360.0).Floor;
    assert (a - c) / 360.0 == (p - q) as real;
  }

  /** `clampDec`: the same clamp to [-90, 90] as the image processor's
      `clampDeclination`. */
  function ClampDec(dec: real): (d: real)
    ensures -90.0 <= d <= 90.0
    ensures d == AstroUtils.ClampDeclination(dec)
  {
    Max(-90.0, Min(90.0, dec))
  }

  /** `isValidCoordinates`: right ascension in [0, 360), declination in
      [-90, 90]. */
  predicate IsValidCoordinates(ra: real, dec: real) {
    0.0 <= ra < 360.0 && -90.0 <= dec <= 90.0
  }

  /** The catalog's validity differs from the image processor's only in
      refusing right ascension 360; a coordinate is valid exactly when
      normalising and clamping leave it unchanged. */
  lemma ValidityComparedToProcessor(ra: real, dec: real)
    ensures IsValidCoordinates(ra, dec) <==> AstroUtils.IsValidCoordinate(ra, dec) && ra != 360.0
    ensures IsValidCoordinates(ra, dec) <==> NormalizeRa(ra) == ra && ClampDec(dec) == dec
  {
    if IsValidCoordinates(ra, dec) {
      AstroUtils.NormalizedIsValid(ra, dec);
    }
  }

  /** `applyProperMotion`: proper motion in milliarcseconds per year over
      `epochDiff` years, then the right ascension wrapped and the
      declination clamped. */
  function ApplyProperMotion(ra0: real, dec0: real, pmRa: real, pmDec: real, epochDiff: real): (r: (real, real))
    ensures IsValidCoordinates(r.0, r.1)
    ensures r.0 == NormalizeRa(ra0 + pmRa / 3600000.0 * epochDiff)
    ensures r.1 == ClampDec(dec0 + pmDec / 3600000.0 * epochDiff)
  {
    (NormalizeRa(ra0 + pmRa / (3600.0 * 1000.0) * epochDiff), ClampDec(dec0 + pmDec / (3600.0 * 1000.0) * epochDiff))
  }

  /** No motion, or no elapsed time, leaves a valid coordinate where it
      is. */
  lemma NoMotionNoChange(ra: real, dec: real, pmRa: real, pmDec: real, epochDiff: real)
    requires IsValidCoordinates(ra, dec)
    requires epochDiff == 0.0 || (pmRa == 0.0 && pmDec == 0.0)
    ensures ApplyProperMotion(ra, dec, pmRa, pmDec, epochDiff) == (ra, dec)
  {
    ZeroFactor(pmRa / 3600000.0, epochDiff);
    ZeroFactor(pmDec / 3600000.0, epochDiff);
    assert ra + pmRa / 3600000.0 * epochDiff == ra && dec + pmDec / 3600000.0 * epochDiff == dec;
    ValidityComparedToProcessor(ra, dec);
  }

  lemma ZeroFactor(x: real, y: real)
    requires x == 0.0 || y == 0.0
    ensures x * y == 0.0
  {
  }

  // ---------------------------------------------------------------------
  // Points and separations

  /** A geometry point: x is the right ascension, y the declination. */
  datatype Point = Point(x: real, y: real, srid: int)

  const Wgs84: int := 4326

  /** `createPoint`: null for a missing or invalid coordinate. */
  function CreatePoint(ra: Option<real>, dec: Option<real>): (p: Option<Point>)
    ensures p.Some? <==> ra.Some? && dec.Some? && IsValidCoordinates(ra.value, dec.value)
    ensures p.Some? ==> p.value == Point(ra.value, dec.value, Wgs84)
  {
    if ra.None? || dec.None? then None
    else if !IsValidCoordinates(ra.value, dec.value) then None
    else Some(Point(ra.value, dec.value, Wgs84))
  }

  /** `calculateSeparation`: NaN (here `None`) when any coordinate is
      missing, otherwise the angular distance in arcseconds that
      `distance` computes. */
  function CalculateSeparation(ra1: Option<real>, dec1: Option<real>, ra2: Option<real>, dec2: Option<real>,
                               distance: (real, real, real, real) -> real): (r: Option<real>)
    ensures r.Some? <==> ra1.Some? && dec1.Some? && ra2.Some? && dec2.Some?
    ensures r.Some? ==> r.value == distance(ra1.value, dec1.value, ra2.value, dec2.value)
  {
    if ra1.None? || dec1.None? || ra2.None? || dec2.None? then None
    else Some(distance(ra1.value, dec1.value, ra2.value, dec2.value))
  }

  // ---------------------------------------------------------------------
  // Cross-match statistics

  /** `Math.PI * r * r`: positive exactly when the radius is not zero. */
  function CircleArea(r: real): (a: real)
    ensures r != 0.0 ==> a > 0.0
    ensures r == 0.0 ==> a == 0.0
  {
    Pi * Times(r, r)
  }

  /** `calculateLocalCatalogDensity`: objects per square arcminute in the
      search circle, at least 0.1. A zero radius divides by a zero area:
      a positive count gives infinity, a negative one the floor 0.1, and
      a zero count NaN, which `Math.max` passes through. */
  function LocalCatalogDensity(objectCount: int, searchRadiusArcsec: real): (d: Num)
    ensures searchRadiusArcsec != 0.0 ==>
      d == Finite(Max(0.1, objectCount as real / CircleArea(searchRadiusArcsec / 60.0)))
    ensures d.Finite? ==> d.v >= 0.1
    ensures d == NaN <==> searchRadiusArcsec == 0.0 && objectCount == 0
    ensures d == PosInfinity <==> searchRadiusArcsec == 0.0 && objectCount > 0
    ensures d != NegInfinity
  {
    var area := CircleArea(searchRadiusArcsec / 60.0);
    if area == 0.0 then
      if objectCount > 0 then PosInfinity else if objectCount < 0 then Finite(0.1) else NaN
    else
      Finite(Max(0.1, objectCount as real / area))
  }

  /** `calculateMatchSignificance`: the separation in units of the
      positional error, which is floored at 0.1 arcseconds. */
  function MatchSignificance(separation: real, positionalError: real): (s: real)
    ensures s * Max(0.1, positionalError) == separation
    ensures separation >= 0.0 ==> 0.0 <= s <= separation * 10.0
  {
    separation / Max(0.1, positionalError)
  }

  /** The facts about `Math.exp` the probability needs: it is positive,
      and at most 1 for arguments that are not positive. */
  ghost predicate ExpLike(exp: real -> real) {
    (forall x :: exp(x) > 0.0) && (forall x :: x <= 0.0 ==> exp(x) <= 1.0)
  }

  /** The facts about `Math.sqrt` the probability needs: the root of
      zero is zero and the root of a positive number is positive. */
  ghost predicate SqrtLike(sqrt: real -> real) {
    sqrt(0.0) == 0.0 && forall x :: x > 0.0 ==> sqrt(x) > 0.0
  }

  /** The error radius: positional error and a tenth of the separation
      added in quadrature. It is zero only when both are. */
  function EffectiveRadius(separation: real, positionalError: real, sqrt: real -> real): (r: real)
    requires SqrtLike(sqrt)
    ensures separation == 0.0 && positionalError == 0.0 ==> r == 0.0
    ensures separation != 0.0 || positionalError != 0.0 ==> r > 0.0
  {
    sqrt(Times(positionalError, positionalError) + Times(separation * 0.1, separation * 0.1))
  }

  /** The spatial (Poisson) and magnitude (Gaussian) factors of the match
      probability; both are exponentials and so positive. A missing
      magnitude difference (`None`) stands for NaN, which the code tests
      for and then leaves the magnitude factor at 1. */
  function SpatialAndMagnitude(separation: real, catalogDensity: real, positionalError: real,
                               magnitudeDiff: Option<real>, exp: real -> real, sqrt: real -> real): (p: real)
    requires ExpLike(exp) && SqrtLike(sqrt)
    ensures p > 0.0
  {
    var radius := EffectiveRadius(separation, positionalError, sqrt);
    var area := CircleArea(radius / 60.0);
    var spatial := exp(-(catalogDensity * area));
    var magnitude := if magnitudeDiff.None? then 1.0
                     else exp(-0.5 * Times(magnitudeDiff.value / 0.2, magnitudeDiff.value / 0.2));
    Times(spatial, magnitude)
  }

  /** The distance factor: a Gaussian in the separation over the error
      radius, so in (0, 1]. */
  function DistanceFactor(separation: real, radius: real, exp: real -> real): (f: real)
    requires ExpLike(exp) && radius != 0.0
    ensures 0.0 < f <= 1.0
  {
    exp(-Times(separation / radius, separation / radius))
  }

  /** `Math.min(1.0, Math.max(0.0, x))`. */
  function Clamp01(x: real): (r: real)
    ensures 0.0 <= r <= 1.0
    ensures 0.0 <= x <= 1.0 ==> r == x
  {
    Min(1.0, Max(0.0, x))
  }

  /** `calculateStatisticalMatchProbability` as written. The distance
      factor divides the separation by the error radius; when both the
      separation and the positional error are zero that is 0/0, the NaN
      survives `Math.min` and `Math.max`, and the result is NaN instead of
      a probability. */
  function MatchProbabilityAsWritten(separation: real, catalogDensity: real, positionalError: real,
                                     magnitudeDiff: Option<real>, exp: real -> real, sqrt: real -> real): (p: Num)
    requires ExpLike(exp) && SqrtLike(sqrt)
    ensures p == NaN <==> separation == 0.0 && positionalError == 0.0
    ensures p.Finite? ==> 0.0 <= p.v <= 1.0
  {
    var radius := EffectiveRadius(separation, positionalError, sqrt);
    if radius == 0.0 then NaN
    else
      Finite(Clamp01(SpatialAndMagnitude(separation, catalogDensity, positionalError, magnitudeDiff, exp, sqrt)
                     * DistanceFactor(separation, radius, exp)))
  }

  /** A coincident position with zero positional error, the best match
      there is, gets no probability at all as written. */
  lemma CoincidentMatchIsNaN(catalogDensity: real, magnitudeDiff: Option<real>, exp: real -> real, sqrt: real -> real)
    requires ExpLike(exp) && SqrtLike(sqrt)
    ensures MatchProbabilityAsWritten(0.0, catalogDensity, 0.0, magnitudeDiff, exp, sqrt) == NaN
  {
  }

  /** The match probability with the distance factor taken as 1 when the
      error radius is zero, its limit as the separation goes to zero:
      always a probability, equal to the code's value whenever that is a
      number, and for a coincident position the spatial and magnitude
      factors alone. */
  function MatchProbability(separation: real, catalogDensity: real, positionalError: real,
                            magnitudeDiff: Option<real>, exp: real -> real, sqrt: real -> real): (p: real)
    requires ExpLike(exp) && SqrtLike(sqrt)
    ensures 0.0 <= p <= 1.0
    ensures MatchProbabilityAsWritten(separation, catalogDensity, positionalError, magnitudeDiff, exp, sqrt) != NaN ==>
      MatchProbabilityAsWritten(separation, catalogDensity, positionalError, magnitudeDiff, exp, sqrt) == Finite(p)
    ensures separation == 0.0 && positionalError == 0.0 ==>
      p == Clamp01(SpatialAndMagnitude(separation, catalogDensity, positionalError, magnitudeDiff, exp, sqrt))
  {
    var radius := EffectiveRadius(separation, positionalError, sqrt);
    var distance := if radius == 0.0 then 1.0 else DistanceFactor(separation, radius, exp);
    Clamp01(SpatialAndMagnitude(separation, catalogDensity, positionalError, magnitudeDiff, exp, sqrt) * distance)
  }

  /** `determineCatalogPriority`: the upper-cased catalog name against the
      hierarchy of missions; anything else is "STANDARD". */
  function CatalogPriority(catalogName: string): (p: string)
    ensures p in {"HIGHEST", "HIGH", "MEDIUM", "STANDARD"}
    ensures p == "STANDARD" <==>
      ToUpper(catalogName) !in {"HST", "HUBBLE", "JWST", "WEBB", "GAIA", "GAIA_DR3", "2MASS", "WISE", "SDSS", "PANSTARRS"}
  {
    var n := ToUpper(catalogName);
    if n == "HST" || n == "HUBBLE" then "HIGHEST"
    else if n == "JWST" || n == "WEBB" then "HIGHEST"
    else if n == "GAIA" || n == "GAIA_DR3" then "HIGH"
    else if n == "2MASS" || n == "WISE" then "MEDIUM"
    else if n == "SDSS" || n == "PANSTARRS" then "MEDIUM"
    else "STANDARD"
  }

  lemma ToUpperOfLower(s: string)
    ensures ToUpper(ToLower(s)) == ToUpper(s)
    ensures ToUpper(ToUpper(s)) == ToUpper(s)
  {
  }

  /** The priority does not depend on letter case. */
  lemma PriorityIgnoresCase(catalogName: string)
    ensures CatalogPriority(ToLower(catalogName)) == CatalogPriority(catalogName)
    ensures CatalogPriority(ToUpper(catalogName)) == CatalogPriority(catalogName)
  {
    ToUpperOfLower(catalogName);
  }

  /** `performMultiCatalogCrossMatch`'s result. */
  datatype CrossMatchResult = CrossMatchResult(separation: real, matchProbability: Num,
                                               statisticalSignificance: real, catalogPriority: string)

  /** `performMultiCatalogCrossMatch`: the haversine separation (the
      parameter `haversine`) and the statistics above. */
  function PerformMultiCatalogCrossMatch(targetRa: real, targetDec: real, candidateRa: real, candidateDec: real,
                                         catalogName: string, catalogDensity: real, positionalError: real,
                                         magnitudeDiff: Option<real>, haversine: (real, real, real, real) -> real,
                                         exp: real -> real, sqrt: real -> real): (r: CrossMatchResult)
    requires ExpLike(exp) && SqrtLike(sqrt)
    ensures r.separation == haversine(targetRa, targetDec, candidateRa, candidateDec)
    ensures r.matchProbability == NaN <==> r.separation == 0.0 && positionalError == 0.0
    ensures r.matchProbability.Finite? ==> 0.0 <= r.matchProbability.v <= 1.0
    ensures r.statisticalSignificance * Max(0.1, positionalError) == r.separation
    ensures r.catalogPriority == CatalogPriority(catalogName)
  {
    var separation := haversine(targetRa, targetDec, candidateRa, candidateDec);
    CrossMatchResult(separation,
                     MatchProbabilityAsWritten(separation, catalogDensity, positionalError, magnitudeDiff, exp, sqrt),
                     MatchSignificance(separation, positionalError), CatalogPriority(catalogName))
  }

  // ---------------------------------------------------------------------
  // Epochs

  /** `epoch.replaceAll("[BJ]", "")`: every upper-case B and J removed. */
  function RemoveBJ(s: string): (r: string)
    ensures forall c :: c in r <==> c in s && c != 'B' && c != 'J'
    ensures |r| <= |s|
  {
    if |s| == 0 then ""
    else
      var rest := RemoveBJ(s[1..]);
      assert forall c :: c in s <==> c == s[0] || c in s[1..];
      if s[0] == 'B' || s[0] == 'J' then rest else [s[0]] + rest
  }

  /** `parseEpochString`: the named epochs B1950, J2000 and CURRENT (2024)
      in any letter case; otherwise the text without B and J read as a
      double (the parameter `parseDouble`, `None` for a
      NumberFormatException), and 2000 when that fails. */
  function ParseEpochString(epoch: string, parseDouble: string -> Option<real>): (year: real)
    ensures ToUpper(epoch) == "B1950" ==> year == 1950.0
    ensures ToUpper(epoch) == "J2000" ==> year == 2000.0
    ensures ToUpper(epoch) == "CURRENT" ==> year == 2024.0
    ensures ToUpper(epoch) !in {"B1950", "J2000", "CURRENT"} ==>
      year == parseDouble(RemoveBJ(epoch)).GetOr(2000.0)
  {
    var n := ToUpper(epoch);
    if n == "B1950" then 1950.0
    else if n == "J2000" then 2000.0
    else if n == "CURRENT" then 2024.0
    else parseDouble(RemoveBJ(epoch)).GetOr(2000.0)
  }

  const B1950Shift: (real, real) := (0.640 / 3600.0, 0.280 / 3600.0)

  /** `transformB1950ToJ2000` and `transformJ2000ToB1950`: a fixed shift
      one way or the other, then the usual wrap and clamp. */
  function ShiftEpoch(ra: real, dec: real, forward: bool): (r: (real, real))
    ensures IsValidCoordinates(r.0, r.1)
  {
    var sign := if forward then 1.0 else -1.0;
    (NormalizeRa(ra + sign * B1950Shift.0), ClampDec(dec + sign * B1950Shift.1))
  }

  /** Shifting back undoes shifting forward for every valid coordinate
      whose declination stays below the pole after the shift. */
  lemma ShiftRoundTrip(ra: real, dec: real)
    requires IsValidCoordinates(ra, dec) && dec + B1950Shift.1 <= 90.0
    ensures var there := ShiftEpoch(ra, dec, true);
      ShiftEpoch(there.0, there.1, false) == (ra, dec)
  {
    var there := ShiftEpoch(ra, dec, true);
    var back := NormalizeRa(there.0 - B1950Shift.0);
    assert AstroUtils.IsWholeTurns(there.0 - (ra + B1950Shift.0));
    assert AstroUtils.IsWholeTurns(back - (there.0 - B1950Shift.0));
    assert AstroUtils.IsWholeTurns(back - ra) by {
      var p := ((there.0 - (ra + B1950Shift.0)) / 360.0).Floor;
      var q := ((back - (there.0 - B1950Shift.0)) / 360.0).Floor;
      assert (back - ra) / 360.0 == (p + q) as real;
    }
    AstroUtils.UniqueInTurn(back, ra);
  }

  /** `convertCoordinateEpoch`: nothing to do when the years are within
      0.01 of each other; the fixed shift for exactly "B1950" to "J2000"
      and back (case matters here, unlike in the year parsing); otherwise
      precession, whose trigonometry is the parameter `precess`, followed
      by the wrap and clamp. */
  function ConvertCoordinateEpoch(ra: real, dec: real, fromEpoch: string, toEpoch: string,
                                  parseDouble: string -> Option<real>,
                                  precess: (real, real, real, real) -> (real, real)): (r: (real, real))
    ensures var fromYear := ParseEpochString(fromEpoch, parseDouble);
      var toYear := ParseEpochString(toEpoch, parseDouble);
      (-0.01 < fromYear - toYear < 0.01 ==> r == (ra, dec)) &&
      (!(-0.01 < fromYear - toYear < 0.01) ==> IsValidCoordinates(r.0, r.1))
    ensures IsValidCoordinates(ra, dec) ==> IsValidCoordinates(r.0, r.1)
  {
    var fromYear := ParseEpochString(fromEpoch, parseDouble);
    var toYear := ParseEpochString(toEpoch, parseDouble);
    if -0.01 < fromYear - toYear < 0.01 then (ra, dec)
    else if fromEpoch == "B1950" && toEpoch == "J2000" then ShiftEpoch(ra, dec, true)
    else if fromEpoch == "J2000" && toEpoch == "B1950" then ShiftEpoch(ra, dec, false)
    else
      var raw := precess(ra, dec, fromYear, toYear);
      (NormalizeRa(raw.0), ClampDec(raw.1))
  }

  /** Converting B1950 to J2000 and back returns a valid coordinate that
      is not too close to the north pole to where it started. */
  lemma EpochRoundTrip(ra: real, dec: real, parseDouble: string -> Option<real>,
                       precess: (real, real, real, real) -> (real, real))
    requires IsValidCoordinates(ra, dec) && dec + B1950Shift.1 <= 90.0
    ensures var j := ConvertCoordinateEpoch(ra, dec, "B1950", "J2000", parseDouble, precess);
      ConvertCoordinateEpoch(j.0, j.1, "J2000", "B1950", parseDouble, precess) == (ra, dec)
  {
    assert ToUpper("B1950") == "B1950";
    assert ToUpper("J2000") == "J2000";
    ShiftRoundTrip(ra, dec);
  }
}
