/** The synthetic-image compositor of the data simulator: flux from
    magnitude, the odd-sized source stamp, the edge-clipped addition of a
    stamp to the canvas, cosmic-ray tracks, the gain and saturation clip, and
    the world-coordinate parameters.

    Random draws (positions, magnitudes, angles, energies) are parameters,
    and so are the transcendental profile values (Gaussian and Sersic), which
    enter as a function from the pixel offset to the centre to a value.
 */
module FitsGenerator {
  import AstroUtils
  import opened Numerics

  type Image = seq<seq<real>>

  /** `img` is an `h` by `w` array indexed `img[row][column]`. */
  predicate IsGrid(img: Image, h: int, w: int) {
    |img| == h && forall r :: 0 <= r < |img| ==> |img[r]| == w
  }

  function Max(a: int, b: int): int { if a >= b then a else b }
  function Min(a: int, b: int): int { if a <= b then a else b }

  // ---------------------------------------------------------------------
  // Magnitudes and fluxes

  const ZeroPoint: real := 25.0

  ghost predicate Monotone(f: real -> real) {
    forall a, b :: a <= b ==> f(a) <= f(b)
  }

  /** Electrons for a source of magnitude `mag`: 10^((25 - mag)/2.5), never
      less than one electron. `pow10` stands for 10^x. */
  function MagnitudeToFlux(mag: real, pow10: real -> real): (flux: real)
    ensures flux >= 1.0
    ensures flux == 1.0 || flux == pow10((ZeroPoint - mag) / 2.5)
    ensures pow10((ZeroPoint - mag) / 2.5) >= 1.0 ==> flux == pow10((ZeroPoint - mag) / 2.5)
  {
    var raw := pow10((ZeroPoint - mag) / 2.5);
    if 1.0 >= raw then 1.0 else raw
  }

  /** Fainter sources (larger magnitudes) never get more flux. */
  lemma FluxNonIncreasing(m1: real, m2: real, pow10: real -> real)
    requires m1 <= m2
    requires Monotone(pow10)
    ensures MagnitudeToFlux(m1, pow10) >= MagnitudeToFlux(m2, pow10)
  {
    assert (ZeroPoint - m2) / 2.5 <= (ZeroPoint - m1) / 2.5;
  }

  /** Sky area of an `h` by `w` frame in square arcminutes, for a pixel
      scale in arcseconds: the quantity the star and galaxy densities are
      multiplied by. */
  function FieldAreaArcmin2(h: nat, w: nat, pixelScaleArcsec: real): (area: real)
    ensures area == (h * w) as real * (pixelScaleArcsec / 60.0) * (pixelScaleArcsec / 60.0)
  {
    var deg := pixelScaleArcsec / 3600.0;
    (h as real * deg) * (w as real * deg) * 3600.0
  }

  /** Expected cosmic-ray hits for a rate per pixel per hour. */
  function ExpectedHits(rate: real, h: nat, w: nat, exposureSeconds: real): real {
    rate * (h * w) as real * (exposureSeconds / 3600.0)
  }

  // ---------------------------------------------------------------------
  // Stamps

  /** Side of the square stamp for a profile of scale `scale` (sigma for a
      star, the effective radius for a galaxy): `int(6 * scale) + 1`, bumped
      to the next odd number. */
  function StampSize(scale: real): (size: int)
    ensures size % 2 == 1
    ensures 0.0 <= scale ==> 1 <= size && 6.0 * scale < size as real <= 6.0 * scale + 2.0
  {
    var s := Trunc(6.0 * scale) + 1;
    if s % 2 == 0 then s + 1 else s
  }

  /** `size // 2`: the stamp's central row and column. */
  function StampCenter(size: int): (center: int)
    ensures size % 2 == 1 ==> size == 2 * center + 1
  {
    size / 2
  }

  /** The profile sampled on a `size` by `size` grid, row `i` and column
      `j` sitting at offset (j - center, i - center) from the centre. */
  function ProfileStamp(size: nat, profile: (int, int) -> real): (stamp: Image)
    ensures IsGrid(stamp, size, size)
    ensures forall i, j :: 0 <= i < size && 0 <= j < size ==>
      stamp[i][j] == profile(j - StampCenter(size), i - StampCenter(size))
  {
    seq(size, i requires 0 <= i < size =>
      seq(size, j requires 0 <= j < size => profile(j - StampCenter(size), i - StampCenter(size))))
  }

  function RowTotal(row: seq<real>): real
    decreases |row|
  {
    if |row| == 0 then 0.0 else RowTotal(row[..|row| - 1]) + row[|row| - 1]
  }

  /** The sum of each row, in row order. */
  function RowTotals(img: Image): (sums: seq<real>)
    ensures |sums| == |img|
    ensures forall i :: 0 <= i < |img| ==> sums[i] == RowTotal(img[i])
  {
    seq(|img|, i requires 0 <= i < |img| => RowTotal(img[i]))
  }

  /** Sum of every value of the array (`np.sum`): the sum of the row sums. */
  function Total(img: Image): real {
    RowTotal(RowTotals(img))
  }

  /** Every value of `img` multiplied by `k`; the total scales with it. */
  function Scale(img: Image, k: real): (r: Image)
    ensures |r| == |img|
    ensures forall i :: 0 <= i < |img| ==> |r[i]| == |img[i]|
    ensures forall i, j :: 0 <= i < |img| && 0 <= j < |img[i]| ==> r[i][j] == img[i][j] * k
    ensures Total(r) == Total(img) * k
  {
    var r := seq(|img|, i requires 0 <= i < |img| =>
      seq(|img[i]|, j requires 0 <= j < |img[i]| => img[i][j] * k));
    assert ScaledImage(img, r, k) by {
      forall i | 0 <= i < |img| ensures ScaledRow(img[i], r[i], k) {
      }
    }
    TotalScaledRows(img, r, k);
    r
  }

  /** `raw / np.sum(raw) * flux`: the stamp then holds exactly `flux`, and
      every pixel keeps its share of the raw total. */
  function Normalize(raw: Image, flux: real): (r: Image)
    requires Total(raw) != 0.0
    ensures |r| == |raw|
    ensures forall i :: 0 <= i < |raw| ==> |r[i]| == |raw[i]|
    ensures Total(r) == flux
    ensures forall i, j :: 0 <= i < |raw| && 0 <= j < |raw[i]| ==> r[i][j] * Total(raw) == raw[i][j] * flux
  {
    var t := Total(raw);
    var k := flux / t;
    var r := Scale(raw, k);
    forall i, j | 0 <= i < |raw| && 0 <= j < |raw[i]|
      ensures r[i][j] * t == raw[i][j] * flux
    {
      ShareOfTotal(raw[i][j], k, t, flux);
    }
    r
  }

  /** `scaled` is `row` with every value multiplied by `k`. */
  predicate ScaledRow(row: seq<real>, scaled: seq<real>, k: real) {
    |scaled| == |row| && forall j :: 0 <= j < |row| ==> scaled[j] == row[j] * k
  }

  /** `scaled` is `img` with every value multiplied by `k`. */
  predicate ScaledImage(img: Image, scaled: Image, k: real) {
    |scaled| == |img| && forall i :: 0 <= i < |img| ==> ScaledRow(img[i], scaled[i], k)
  }

  /** Scaling both parts of a sum scales the sum. */
  lemma ScaledSum(s: real, x: real, y: real, t: real, a: real, b: real, k: real)
    requires s == x + y && x == a * k && y == b * k && t == a + b
    ensures s == t * k
  {
  }

  lemma {:induction false} RowTotalScaled(row: seq<real>, scaled: seq<real>, k: real)
    requires ScaledRow(row, scaled, k)
    ensures RowTotal(scaled) == RowTotal(row) * k
    decreases |row|
  {
    if |row| > 0 {
      var n := |row| - 1;
      ScaledRowPrefix(row, scaled, k);
      RowTotalScaled(row[..n], scaled[..n], k);
      ScaledSum(RowTotal(scaled), RowTotal(scaled[..n]), scaled[n], RowTotal(row), RowTotal(row[..n]), row[n], k);
    }
  }

  lemma ScaledRowPrefix(row: seq<real>, scaled: seq<real>, k: real)
    requires ScaledRow(row, scaled, k) && |row| > 0
    ensures ScaledRow(row[..|row| - 1], scaled[..|row| - 1], k)
    ensures scaled[|row| - 1] == row[|row| - 1] * k
  {
  }

  /** Scaling every value scales every row sum, hence the total. */
  lemma TotalScaledRows(img: Image, scaled: Image, k: real)
    requires ScaledImage(img, scaled, k)
    ensures Total(scaled) == Total(img) * k
  {
    var sums, scaledSums := RowTotals(img), RowTotals(scaled);
    forall i | 0 <= i < |img| ensures scaledSums[i] == sums[i] * k {
      RowTotalScaled(img[i], scaled[i], k);
    }
    RowTotalScaled(sums, scaledSums, k);
  }

  lemma {:induction false} RowTotalPositive(row: seq<real>)
    requires |row| >= 1
    requires forall j :: 0 <= j < |row| ==> row[j] > 0.0
    ensures RowTotal(row) > 0.0
    decreases |row|
  {
    if |row| > 1 {
      RowTotalPositive(row[..|row| - 1]);
    }
  }

  lemma TotalPositive(img: Image)
    requires |img| >= 1
    requires forall i :: 0 <= i < |img| ==> |img[i]| >= 1
    requires forall i, j :: 0 <= i < |img| && 0 <= j < |img[i]| ==> img[i][j] > 0.0
    ensures Total(img) > 0.0
  {
    forall i | 0 <= i < |img| ensures RowTotals(img)[i] > 0.0 {
      RowTotalPositive(img[i]);
    }
    RowTotalPositive(RowTotals(img));
  }

  /** The normalised stamp of a star (Gaussian) or galaxy (Sersic): the
      sampled profile scaled so that the whole stamp holds exactly `flux`,
      every pixel keeping its share of the profile. The sampled profile must
      have a positive sum, which `ProfileStampPositive` gives for the
      everywhere-positive Gaussian and Sersic profiles. */
  function SourceStamp(size: nat, profile: (int, int) -> real, flux: real): (stamp: Image)
    requires 1 <= size
    requires Total(ProfileStamp(size, profile)) > 0.0
    ensures IsGrid(stamp, size, size)
    ensures Total(stamp) == flux
    ensures SharesOf(stamp, ProfileStamp(size, profile), size, flux)
  {
    NormalizeGrid(ProfileStamp(size, profile), size, flux)
  }

  /** `Normalize` on a square grid. */
  function NormalizeGrid(raw: Image, size: nat, flux: real): (stamp: Image)
    requires IsGrid(raw, size, size) && Total(raw) != 0.0
    ensures IsGrid(stamp, size, size)
    ensures Total(stamp) == flux
    ensures SharesOf(stamp, raw, size, flux)
  {
    Normalize(raw, flux)
  }

  /** Every pixel of `stamp` is the same share of `flux` as the matching
      pixel of `raw` is of the total of `raw`. */
  predicate SharesOf(stamp: Image, raw: Image, size: nat, flux: real)
    requires IsGrid(stamp, size, size) && IsGrid(raw, size, size)
  {
    forall i, j :: 0 <= i < size && 0 <= j < size ==> stamp[i][j] * Total(raw) == raw[i][j] * flux
  }

  lemma ProfileStampPositive(size: nat, profile: (int, int) -> real)
    requires 1 <= size
    requires forall dx, dy :: profile(dx, dy) > 0.0
    ensures Total(ProfileStamp(size, profile)) > 0.0
  {
    var raw := ProfileStamp(size, profile);
    forall i, j | 0 <= i < |raw| && 0 <= j < |raw[i]|
      ensures raw[i][j] > 0.0
    {
      assert raw[i][j] == profile(j - StampCenter(size), i - StampCenter(size));
    }
    TotalPositive(raw);
  }

  lemma ShareOfTotal(v: real, k: real, t: real, flux: real)
    requires t != 0.0 && k == flux / t
    ensures v * k * t == v * flux
  {
    assert k * t == flux;
  }

  // ---------------------------------------------------------------------
  // Edge clipping

  /** Half-open index range [lo, hi). */
  datatype Span = Span(lo: int, hi: int) {
    predicate Contains(p: int) { lo <= p < hi }
    predicate IsEmpty() { hi <= lo }
  }

  /** One axis of the clipped addition: the canvas range written
      (`img_x_start:img_x_end`) and the stamp range read
      (`psf_x_start:psf_x_end`). */
  datatype AxisClip = AxisClip(canvas: Span, stamp: Span)

  /** Clipping of a stamp of side `size` whose first column sits at
      `origin` against a canvas axis of length `extent`. The canvas range is
      exactly the set of canvas positions the stamp covers, and the stamp
      range has the same length and lies inside the stamp. */
  function ClipAxis(origin: int, size: nat, extent: nat): (c: AxisClip)
    ensures 0 <= c.canvas.lo && c.canvas.hi <= extent
    ensures c.stamp.lo == c.canvas.lo - origin
    ensures c.stamp.hi - c.stamp.lo == c.canvas.hi - c.canvas.lo
    ensures !c.canvas.IsEmpty() ==> 0 <= c.stamp.lo && c.stamp.hi <= size
    ensures forall p :: c.canvas.Contains(p) <==> 0 <= p < extent && origin <= p < origin + size
  {
    var lo := Max(0, origin);
    var hi := Min(extent, origin + size);
    AxisClip(Span(lo, hi), Span(lo - origin, lo - origin + (hi - lo)))
  }

  /** Pixel (r, c) lies under a `size` by `size` stamp whose corner is at
      column `x0`, row `y0`. */
  predicate Covered(size: int, x0: int, y0: int, r: int, c: int) {
    x0 <= c < x0 + size && y0 <= r < y0 + size
  }

  /** The value pixel (r, c) should hold once the stamp is added. */
  function Stamped(image: Image, h: nat, w: nat, stamp: Image, size: nat, x0: int, y0: int, r: int, c: int): real
    requires IsGrid(image, h, w) && IsGrid(stamp, size, size)
    requires 0 <= r < h && 0 <= c < w
  {
    if Covered(size, x0, y0, r, c) then image[r][c] + stamp[r - y0][c - x0] else image[r][c]
  }

  /** The clipped slice addition `image[ys, xs] += stamp[ps, qs]`. Every
      covered pixel receives the stamp value under it and every other pixel
      keeps its value, so a stamp entirely off the canvas changes nothing. */
  method AddStamp(image: Image, h: nat, w: nat, stamp: Image, size: nat, x0: int, y0: int)
    returns (out: Image)
    requires IsGrid(image, h, w) && IsGrid(stamp, size, size)
    ensures IsGrid(out, h, w)
    ensures forall r, c :: 0 <= r < h && 0 <= c < w && Covered(size, x0, y0, r, c) ==>
      out[r][c] == image[r][c] + stamp[r - y0][c - x0]
    ensures forall r, c :: 0 <= r < h && 0 <= c < w && !Covered(size, x0, y0, r, c) ==>
      out[r][c] == image[r][c]
  {
    var cx := ClipAxis(x0, size, w);
    var cy := ClipAxis(y0, size, h);
    out := image;
    if cx.canvas.hi > cx.canvas.lo && cy.canvas.hi > cy.canvas.lo {
      var r := cy.canvas.lo;
      while r < cy.canvas.hi
        invariant cy.canvas.lo <= r <= cy.canvas.hi
        invariant IsGrid(out, h, w)
        invariant forall i, j :: 0 <= i < h && 0 <= j < w ==>
          out[i][j] == if i < r then Stamped(image, h, w, stamp, size, x0, y0, i, j) else image[i][j]
      {
        var row := out[r];
        var c := cx.canvas.lo;
        while c < cx.canvas.hi
          invariant cx.canvas.lo <= c <= cx.canvas.hi
          invariant |row| == w
          invariant forall j :: 0 <= j < w ==>
            row[j] == if j < c then Stamped(image, h, w, stamp, size, x0, y0, r, j) else image[r][j]
        {
          row := row[c := row[c] + stamp[cy.stamp.lo + (r - cy.canvas.lo)][cx.stamp.lo + (c - cx.canvas.lo)]];
          c := c + 1;
        }
        out := out[r := row];
        r := r + 1;
      }
    }
    assert forall i, j :: 0 <= i < h && 0 <= j < w ==>
      out[i][j] == Stamped(image, h, w, stamp, size, x0, y0, i, j);
  }

  /** A source of profile `profile`, scale `scale` and flux `flux` added at
      the (fractional) position (x, y): the stamp corner is
      `int(x - center)`, `int(y - center)`, truncated toward zero. */
  method AddSource(image: Image, h: nat, w: nat, x: real, y: real, flux: real,
                   scale: real, profile: (int, int) -> real)
    returns (out: Image, stamp: Image, x0: int, y0: int)
    requires IsGrid(image, h, w)
    requires 0.0 <= scale
    requires forall dx, dy :: profile(dx, dy) > 0.0
    ensures IsGrid(stamp, StampSize(scale), StampSize(scale))
    ensures Total(stamp) == flux
    ensures SharesOf(stamp, ProfileStamp(|stamp|, profile), |stamp|, flux)
    ensures x0 == Trunc(x - StampCenter(|stamp|) as real) && y0 == Trunc(y - StampCenter(|stamp|) as real)
    ensures IsGrid(out, h, w)
    ensures forall r, c :: 0 <= r < h && 0 <= c < w && !Covered(|stamp|, x0, y0, r, c) ==>
      out[r][c] == image[r][c]
    ensures forall r, c :: 0 <= r < h && 0 <= c < w && Covered(|stamp|, x0, y0, r, c) ==>
      out[r][c] == image[r][c] + stamp[r - y0][c - x0]
  {
    var size := StampSize(scale);
    var center := StampCenter(size);
    ProfileStampPositive(size, profile);
    stamp := SourceStamp(size, profile, flux);
    assert |stamp| == size;
    x0 := Trunc(x - center as real);
    y0 := Trunc(y - center as real);
    out := AddStamp(image, h, w, stamp, size, x0, y0);
  }

  // ---------------------------------------------------------------------
  // Cosmic rays

  /** Energy step `i` of a track of `length` steps leaves behind. */
  function Deposit(energy: real, i: nat, length: nat): (e: real)
    requires i < length
    ensures 0.0 <= energy ==> 0.0 <= e <= energy
  {
    energy * (1.0 - i as real / length as real)
  }

  /** Column and row step `i` of a track starting at (x, y) lands on. */
  function TrackColumn(x: int, i: nat, cosAngle: real): int { x + Trunc(i as real * cosAngle) }
  function TrackRow(y: int, i: nat, sinAngle: real): int { y + Trunc(i as real * sinAngle) }

  /** Everything the first `upto` steps of a track deposit on pixel
      (r, c); steps landing off the canvas deposit nothing anywhere. */
  function TrackEnergy(x: int, y: int, cosAngle: real, sinAngle: real, energy: real,
                       length: nat, r: int, c: int, upto: nat): (e: real)
    requires upto <= length
    ensures 0.0 <= energy ==> 0.0 <= e
    decreases upto
  {
    if upto == 0 then 0.0
    else
      var i := upto - 1;
      TrackEnergy(x, y, cosAngle, sinAngle, energy, length, r, c, i) +
      (if TrackColumn(x, i, cosAngle) == c && TrackRow(y, i, sinAngle) == r
       then Deposit(energy, i, length) else 0.0)
  }

  /** One cosmic-ray hit: `length` steps from (x, y) along the direction
      (cos, sin), step `i` adding `energy * (1 - i/length)` to the pixel it
      lands on when that pixel lies inside the canvas. */
  method AddCosmicRay(image: Image, h: nat, w: nat, x: int, y: int, energy: real,
                      length: nat, cosAngle: real, sinAngle: real)
    returns (out: Image)
    requires IsGrid(image, h, w)
    requires 1 <= length
    ensures IsGrid(out, h, w)
    ensures forall r, c :: 0 <= r < h && 0 <= c < w ==>
      out[r][c] == image[r][c] + TrackEnergy(x, y, cosAngle, sinAngle, energy, length, r, c, length)
    ensures 0.0 <= energy ==> forall r, c :: 0 <= r < h && 0 <= c < w ==> image[r][c] <= out[r][c]
  {
    out := image;
    var i := 0;
    while i < length
      invariant 0 <= i <= length
      invariant IsGrid(out, h, w)
      invariant forall r, c :: 0 <= r < h && 0 <= c < w ==>
        out[r][c] == image[r][c] + TrackEnergy(x, y, cosAngle, sinAngle, energy, length, r, c, i)
    {
      var nx := TrackColumn(x, i, cosAngle);
      var ny := TrackRow(y, i, sinAngle);
      if 0 <= nx < w && 0 <= ny < h {
        out := out[ny := out[ny][nx := out[ny][nx] + Deposit(energy, i, length)]];
      }
      i := i + 1;
    }
  }

  // ---------------------------------------------------------------------
  // Conversion to ADU

  /** `np.clip(v / gain, 0, saturation)`, i.e. `min(saturation, max(v / gain, 0))`. */
  function ClipPixel(v: real, gain: real, saturation: real): (p: real)
    requires gain != 0.0
    ensures p <= saturation
    ensures 0.0 <= saturation ==> 0.0 <= p
    ensures 0.0 <= v / gain <= saturation ==> p == v / gain
  {
    var a := v / gain;
    var lo := if a >= 0.0 then a else 0.0;
    if saturation <= lo then saturation else lo
  }

  /** The whole frame divided by the gain and clipped to [0, saturation]. */
  function ToAdu(image: Image, h: nat, w: nat, gain: real, saturation: real): (out: Image)
    requires IsGrid(image, h, w) && gain != 0.0 && 0.0 <= saturation
    ensures IsGrid(out, h, w)
    ensures forall r, c :: 0 <= r < h && 0 <= c < w ==> 0.0 <= out[r][c] <= saturation
    ensures forall r, c :: 0 <= r < h && 0 <= c < w && 0.0 <= image[r][c] / gain <= saturation ==>
      out[r][c] == image[r][c] / gain
  {
    seq(h, r requires 0 <= r < h =>
      seq(w, c requires 0 <= c < w => ClipPixel(image[r][c], gain, saturation)))
  }

  const DefaultSaturation: real := 65000.0
  const Uint16Max: int := 65535

  /** `astype(np.uint16)` of a clipped pixel: truncation, which cannot wrap
      while the saturation level fits in 16 bits. */
  function AduCount(p: real): (n: int)
    requires 0.0 <= p
    ensures 0 <= n && n as real <= p < n as real + 1.0
  {
    Trunc(p)
  }

  lemma DefaultSaturationFitsUint16(v: real, gain: real)
    requires gain != 0.0
    ensures 0 <= AduCount(ClipPixel(v, gain, DefaultSaturation)) <= Uint16Max
  {
  }

  // ---------------------------------------------------------------------
  // World coordinates

  datatype Wcs = Wcs(crpix: (real, real), crval: (real, real), cdelt: (real, real),
                     ctype: (string, string), cunit: (string, string))

  /** Tangent-plane WCS centred on the frame: reference pixel at the centre,
      reference value at the target, and a pixel step of the plate scale with
      RA decreasing along x. */
  function CreateWcs(ra: real, dec: real, width: nat, height: nat, pixelScaleArcsec: real): (wcs: Wcs)
    ensures 2.0 * wcs.crpix.0 == width as real && 2.0 * wcs.crpix.1 == height as real
    ensures wcs.crval == (ra, dec)
    ensures wcs.cdelt.0 == -wcs.cdelt.1
    ensures AstroUtils.DegreesToArcseconds(wcs.cdelt.1) == pixelScaleArcsec
    ensures 0.0 < pixelScaleArcsec ==> wcs.cdelt.0 < 0.0 < wcs.cdelt.1
    ensures wcs.ctype == ("RA---TAN", "DEC--TAN") && wcs.cunit == ("deg", "deg")
  {
    var step := pixelScaleArcsec / 3600.0;
    Wcs((width as real / 2.0, height as real / 2.0), (ra, dec), (-step, step),
        ("RA---TAN", "DEC--TAN"), ("deg", "deg"))
  }
}
