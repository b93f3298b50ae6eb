/** The image processor's astronomical helpers: unit conversions, right
    ascension wrapping, declination clamping, coordinate validity, the
    plane-parallel air mass and the Julian date of a calendar day.
 */
module AstroUtils {

  // ---------------------------------------------------------------------
  // Unit conversions

  /** Hours of right ascension in `degrees` (15 degrees per hour). */
  function DegreesToHours(degrees: real): (hours: real)
    ensures HoursToDegrees(hours) == degrees
  {
    degrees / 15.0
  }

  function HoursToDegrees(hours: real): real {
    hours * 15.0
  }

  function DegreesToArcseconds(degrees: real): real {
    degrees * 3600.0
  }

  /** Degrees in `arcseconds` (3600 arcseconds per degree). */
  function ArcsecondsToDegrees(arcseconds: real): (degrees: real)
    ensures DegreesToArcseconds(degrees) == arcseconds
  {
    arcseconds / 3600.0
  }

  lemma HoursRoundTrip(hours: real)
    ensures DegreesToHours(HoursToDegrees(hours)) == hours
  {
  }

  lemma ArcsecondsRoundTrip(degrees: real)
    ensures ArcsecondsToDegrees(DegreesToArcseconds(degrees)) == degrees
  {
  }

  // ---------------------------------------------------------------------
  // Right ascension and declination

  /** `d` is a whole number of turns of 360 degrees. */
  predicate IsWholeTurns(d: real) {
    (d / 360.0).Floor as real * 360.0 == d
  }

  /** The representative of `ra` modulo 360 in [0, 360). */
  function Wrap360(ra: real): (r: real)
    ensures 0.0 <= r < 360.0
    ensures IsWholeTurns(r - ra)
  {
    var q := (ra / 360.0).Floor;
    var r := ra - q as real * 360.0;
    WholeTurns(r - ra, -q);
    r
  }

  /** A multiple of 360 is a whole number of turns. */
  lemma WholeTurns(d: real, k: int)
    requires d == k as real * 360.0
    ensures IsWholeTurns(d)
  {
    assert d / 360.0 == k as real;
  }

  /** Two angles in [0, 360) a whole number of turns apart are equal. */
  lemma UniqueInTurn(a: real, b: real)
    requires 0.0 <= a < 360.0 && 0.0 <= b < 360.0
    requires IsWholeTurns(a - b)
    ensures a == b
  {
    var m := ((a - b) / 360.0).Floor;
    assert m as real * 360.0 == a - b;
  }

  /** `normalizeRA`: add or subtract whole turns until `ra` lies in
      [0, 360). The result is the value's representative modulo 360, so
      angles already in range come back unchanged. */
  method NormalizeRA(ra: real) returns (r: real)
    ensures 0.0 <= r < 360.0
    ensures IsWholeTurns(r - ra)
    ensures r == Wrap360(ra)
    ensures 0.0 <= ra < 360.0 ==> r == ra
  {
    r := ra;
    ghost var k: int := 0;
    while r < 0.0
      invariant r == ra + 360.0 * k as real
      invariant ra < 0.0 ==> r < 360.0
      invariant 0.0 <= ra ==> r == ra
      decreases if r < 0.0 then (-r).Floor + 1 else 0
    {
      r := r + 360.0;
      k := k + 1;
    }
    while r >= 360.0
      invariant r == ra + 360.0 * k as real
      invariant 0.0 <= r
      invariant 0.0 <= ra < 360.0 ==> r == ra
      decreases r.Floor
    {
      r := r - 360.0;
      k := k - 1;
    }
    WholeTurns(r - ra, k);
    assert IsWholeTurns(r - Wrap360(ra)) by {
      var q := (ra / 360.0).Floor;
      assert Wrap360(ra) == ra - q as real * 360.0;
      WholeTurns(r - Wrap360(ra), k + q);
    }
    UniqueInTurn(r, Wrap360(ra));
  }

  /** `clampDeclination`: `dec` limited to the closed range [-90, 90]. */
  function ClampDeclination(dec: real): (d: real)
    ensures -90.0 <= d <= 90.0
    ensures -90.0 <= dec <= 90.0 ==> d == dec
    ensures dec > 90.0 ==> d == 90.0
    ensures dec < -90.0 ==> d == -90.0
  {
    var upper := if 90.0 <= dec then 90.0 else dec;
    if -90.0 >= upper then -90.0 else upper
  }

  /** `isValidCoordinate`: both ranges closed, so RA 360 is accepted. */
  predicate IsValidCoordinate(ra: real, dec: real) {
    0.0 <= ra <= 360.0 && -90.0 <= dec <= 90.0
  }

  /** Wrapping the right ascension and clamping the declination always
      yields a valid coordinate, and a valid one below RA 360 is left as is. */
  lemma NormalizedIsValid(ra: real, dec: real)
    ensures IsValidCoordinate(Wrap360(ra), ClampDeclination(dec))
    ensures IsValidCoordinate(ra, dec) && ra < 360.0 ==>
      Wrap360(ra) == ra && ClampDeclination(dec) == dec
  {
    if 0.0 <= ra < 360.0 {
      UniqueInTurn(Wrap360(ra), ra);
    }
  }

  // ---------------------------------------------------------------------
  // Air mass

  datatype Airmass = Infinite | Finite(value: real)

  /** `calculateAirmass`: infinite at or below the horizon, otherwise the
      secant of the zenith angle. `cosDeg` is the cosine of an angle in
      degrees; a zero cosine divides to infinity as in IEEE arithmetic. */
  function CalculateAirmass(altitude: real, cosDeg: real -> real): (m: Airmass)
    ensures altitude <= 0.0 ==> m == Infinite
    ensures 0.0 < altitude && cosDeg(90.0 - altitude) > 0.0 ==> m.Finite? && m.value > 0.0
    ensures m.Finite? ==> m.value * cosDeg(90.0 - altitude) == 1.0
  {
    if altitude <= 0.0 then Infinite
    else
      var c := cosDeg(90.0 - altitude);
      if c == 0.0 then Infinite else Finite(1.0 / c)
  }

  /** At the zenith the air mass is one. */
  lemma AirmassAtZenith(cosDeg: real -> real)
    requires cosDeg(0.0) == 1.0
    ensures CalculateAirmass(90.0, cosDeg) == Finite(1.0)
  {
  }

  // ---------------------------------------------------------------------
  // Julian date

  function Magnitude(x: int): nat { if x < 0 then -x else x }

  /** Java's `int / int`: the quotient truncated toward zero, so its
      magnitude is the whole quotient of the magnitudes and its sign is the
      product of the operands' signs. */
  function JavaDiv(a: int, b: int): (q: int)
    requires b != 0
    ensures Magnitude(q) == Magnitude(a) / Magnitude(b)
    ensures q > 0 ==> (a > 0) == (b > 0)
    ensures q < 0 ==> (a > 0) != (b > 0)
    ensures 0 <= a && 0 < b ==> q == a / b
  {
    NaturalQuotient(Magnitude(a), Magnitude(b));
    var m := Magnitude(a) / Magnitude(b);
    if (a < 0) == (b < 0) then m else -m
  }

  /** The whole quotient of two naturals is a natural, and zero for a zero
      dividend. */
  lemma NaturalQuotient(x: nat, y: nat)
    requires y > 0
    ensures 0 <= x / y
    ensures x == 0 ==> x / y == 0
  {
  }

  /** Truncation is symmetric about zero: negating either operand negates
      the quotient, which floor division does not do. */
  lemma JavaDivOdd(a: int, b: int)
    requires b != 0
    ensures JavaDiv(-a, b) == -JavaDiv(a, b)
    ensures JavaDiv(a, -b) == -JavaDiv(a, b)
  {
    assert Magnitude(-a) == Magnitude(a) && Magnitude(-b) == Magnitude(b);
  }

  /** The Julian-date formula once January and February have been counted
      as months 13 and 14 of the previous year. */
  function JulianDateShifted(year: int, month: int, day: int): real {
    var a := JavaDiv(year, 100);
    var b := 2 - a + JavaDiv(a, 4);
    (365.25 * (year + 4716) as real).Floor as real
      + (30.6001 * (month + 1) as real).Floor as real
      + day as real + b as real - 1524.5
  }

  /** `calculateJulianDate`: the Julian date at 0h of the given day, with
      January and February moved to the end of the previous year. */
  function JulianDate(year: int, month: int, day: int): real
  {
    if month <= 2 then JulianDateShifted(year - 1, month + 12, day)
    else JulianDateShifted(year, month, day)
  }

  /** Midnight starting 1 January 2000 is JD 2451544.5, half a day before
      the J2000 epoch. */
  lemma JulianDateOfJ2000Day()
    ensures JulianDate(2000, 1, 1) == 2451544.5
  {
    assert JavaDiv(1999, 100) == 19;
    assert JavaDiv(19, 4) == 4;
    assert (365.25 * 6715.0).Floor == 2452653;
    assert (30.6001 * 14.0).Floor == 428;
  }

  /** Because January is counted as month 13 of the previous year, the
      last day of a year and the first day of the next are one day apart. */
  lemma JulianDateYearBoundary(year: int)
    ensures JulianDate(year + 1, 1, 1) == JulianDate(year, 12, 31) + 1.0
  {
    assert (30.6001 * 14.0).Floor == 428;
    assert (30.6001 * 13.0).Floor == 397;
  }

  /** Successive days of a month are one Julian day apart. */
  lemma JulianDateNextDay(year: int, month: int, day: int)
    ensures JulianDate(year, month, day + 1) == JulianDate(year, month, day) + 1.0
  {
  }
}
