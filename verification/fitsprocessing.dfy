/** The image processor's calibration pipeline for one FITS image: input
    validation, dark subtraction against a bias level estimated from the
    top-left corner, flat-field correction against a simulated vignetting
    flat, in-place median cosmic-ray replacement, and the quality score.

    An image is the `float[][]` the FITS reader produces, as rows of reals;
    the reader yields rows of equal length. `Math.sqrt` is a parameter with
    only the facts the properties need. */
module FitsProcessing {
  import opened Wrappers
  import opened Sorting
  import opened JavaText
  import AstroCalc

  type Image = seq<seq<real>>

  /** At least one row, and every row as long as the first: the code reads
      `imageData[0].length` as the width of the whole image. */
  predicate Rectangular(img: Image) {
    |img| > 0 && forall i :: 0 <= i < |img| ==> |img[i]| == |img[0]|
  }

  predicate SameShape(a: Image, b: Image) {
    |a| == |b| && forall i :: 0 <= i < |a| ==> |a[i]| == |b[i]|
  }

  function Abs(x: real): real { if x < 0.0 then -x else x }

  // ---------------------------------------------------------------------
  // Validation

  type Int32 = x: int | -0x8000_0000 <= x < 0x8000_0000

  /** What validation sees of a loaded image: the pixel array (`None` for
      null) and the NAXIS1/NAXIS2 header values. */
  datatype FitsImageData = FitsImageData(imageData: Option<Image>, width: Int32, height: Int32)

  /** An int as `String.valueOf` prints it. */
  function IntText(n: int): string {
    if n < 0 then "-" + Decimal(-n) else Decimal(n)
  }

  /** A value reduced to a Java `long`, with two's-complement wrap-around. */
  function WrapLong(x: int): (r: int)
    ensures -0x8000_0000_0000_0000 <= r < 0x8000_0000_0000_0000
    ensures (x - r) % 0x1_0000_0000_0000_0000 == 0
    ensures -0x8000_0000_0000_0000 <= x < 0x8000_0000_0000_0000 ==> r == x
  {
    var m := x % 0x1_0000_0000_0000_0000;
    if m >= 0x8000_0000_0000_0000 then m - 0x1_0000_0000_0000_0000 else m
  }

  /** `(long) width * height * 4` evaluated in `long` arithmetic. */
  function ImageSizeBytesAsWritten(width: Int32, height: Int32): int {
    WrapLong(WrapLong(width * height) * 4)
  }

  function SizeError(bytes: int, maxImageSizeBytes: int): string {
    "Image size exceeds maximum limit: " + IntText(bytes) + " > " + IntText(maxImageSizeBytes)
  }

  /** `validateFitsData` as written: the byte count of the image wraps
      around for dimensions whose product reaches 2^61, and a wrapped,
      negative count passes the size limit. */
  function ValidateFitsDataAsWritten(data: FitsImageData, maxImageSizeBytes: int): (r: Result<()>)
    ensures data.imageData.None? ==> r == Failure("Image data is null")
    ensures data.imageData.Some? && (data.width <= 0 || data.height <= 0) ==>
              r == Failure("Invalid image dimensions: " + IntText(data.width) + "x" + IntText(data.height))
    ensures r.Success? <==>
              data.imageData.Some? && data.width > 0 && data.height > 0
              && ImageSizeBytesAsWritten(data.width, data.height) <= maxImageSizeBytes
  {
    if data.imageData.None? then Failure("Image data is null")
    else if data.width <= 0 || data.height <= 0 then
      Failure("Invalid image dimensions: " + IntText(data.width) + "x" + IntText(data.height))
    else
      var bytes := ImageSizeBytesAsWritten(data.width, data.height);
      if bytes > maxImageSizeBytes then Failure(SizeError(bytes, maxImageSizeBytes))
      else Success(())
  }

  /** The largest image the header can describe slips through the
      as-written check under any limit that fits in a `long`, though it
      needs close to 2^64 bytes. */
  lemma HugeImagePassesAsWritten(maxImageSizeBytes: int)
    requires 0 <= maxImageSizeBytes < 0x8000_0000_0000_0000
    ensures ValidateFitsDataAsWritten(FitsImageData(Some([[0.0]]), 0x7FFF_FFFF, 0x7FFF_FFFF), maxImageSizeBytes).Success?
    ensures 0x7FFF_FFFF * 0x7FFF_FFFF * 4 > maxImageSizeBytes
  {
    assert WrapLong(0x7FFF_FFFF * 0x7FFF_FFFF) == 0x7FFF_FFFF * 0x7FFF_FFFF;
    assert WrapLong(0x7FFF_FFFF * 0x7FFF_FFFF * 4) == 0x7FFF_FFFF * 0x7FFF_FFFF * 4 - 0x1_0000_0000_0000_0000;
  }

  /** `validateFitsData` with the byte count computed exactly: null data,
      non-positive dimensions and images above the limit are rejected, in
      that order, with the code's messages. */
  function ValidateFitsData(data: FitsImageData, maxImageSizeBytes: int): (r: Result<()>)
    ensures data.imageData.None? ==> r == Failure("Image data is null")
    ensures data.imageData.Some? && (data.width <= 0 || data.height <= 0) ==>
              r == Failure("Invalid image dimensions: " + IntText(data.width) + "x" + IntText(data.height))
    ensures r.Success? <==>
              data.imageData.Some? && data.width > 0 && data.height > 0
              && data.width * data.height * 4 <= maxImageSizeBytes
  {
    if data.imageData.None? then Failure("Image data is null")
    else if data.width <= 0 || data.height <= 0 then
      Failure("Invalid image dimensions: " + IntText(data.width) + "x" + IntText(data.height))
    else
      var bytes := data.width * data.height * 4;
      if bytes > maxImageSizeBytes then Failure(SizeError(bytes, maxImageSizeBytes))
      else Success(())
  }

  /** Both checks agree on every image whose byte count fits in a `long`. */
  lemma ValidationAgreesWithoutOverflow(data: FitsImageData, maxImageSizeBytes: int)
    requires data.width * data.height * 4 < 0x8000_0000_0000_0000
    ensures ValidateFitsDataAsWritten(data, maxImageSizeBytes) == ValidateFitsData(data, maxImageSizeBytes)
  {
    if data.imageData.Some? && data.width > 0 && data.height > 0 {
      assert 0 < data.width * data.height <= data.width * data.height * 4;
      assert ImageSizeBytesAsWritten(data.width, data.height) == data.width * data.height * 4;
    }
  }

  // ---------------------------------------------------------------------
  // Bias level and dark subtraction

  /** Sum of the first `w` pixels of a row. */
  function RowSum(row: seq<real>, w: nat): real
    requires w <= |row|
  {
    if w == 0 then 0.0 else RowSum(row, w - 1) + row[w - 1]
  }

  /** Sum of the `h`-by-`w` block at the top-left corner. */
  function BlockSum(img: Image, h: nat, w: nat): real
    requires h <= |img| && forall i :: 0 <= i < h ==> w <= |img[i]|
  {
    if h == 0 then 0.0 else BlockSum(img, h - 1, w) + RowSum(img[h - 1], w)
  }

  /** The sampled corner: at most 50 rows by at most 50 columns. */
  function BlockHeight(img: Image): nat { if |img| < 50 then |img| else 50 }
  function BlockWidth(img: Image): nat requires |img| > 0 { if |img[0]| < 50 then |img[0]| else 50 }

  /** The bias level: the mean of the sampled corner, or 0 when the image
      has no columns. */
  function BiasLevel(img: Image): real
    requires Rectangular(img)
  {
    var h, w := BlockHeight(img), BlockWidth(img);
    if h * w > 0 then BlockSum(img, h, w) / (h * w) as real else 0.0
  }

  /** `calculateBiasLevel`: the corner pixels added up row by row. */
  method CalculateBiasLevel(img: Image) returns (bias: real)
    requires Rectangular(img)
    ensures BlockWidth(img) > 0 ==>
              bias == BlockSum(img, BlockHeight(img), BlockWidth(img)) / (BlockHeight(img) * BlockWidth(img)) as real
    ensures BlockWidth(img) == 0 ==> bias == 0.0
  {
    var h, w := BlockHeight(img), BlockWidth(img);
    var sum := 0.0;
    var count := 0;
    var i := 0;
    while i < h
      invariant 0 <= i <= h
      invariant sum == BlockSum(img, i, w) && count == i * w
    {
      var j := 0;
      while j < w
        invariant 0 <= j <= w
        invariant sum == BlockSum(img, i, w) + RowSum(img[i], j) && count == i * w + j
      {
        sum := sum + img[i][j];
        count := count + 1;
        j := j + 1;
      }
      i := i + 1;
    }
    bias := if count > 0 then sum / count as real else 0.0;
  }

  lemma {:induction false} RowSumBounds(row: seq<real>, w: nat, lo: real, hi: real)
    requires w <= |row| && forall j :: 0 <= j < w ==> lo <= row[j] <= hi
    ensures w as real * lo <= RowSum(row, w) <= w as real * hi
  {
    if w > 0 {
      RowSumBounds(row, w - 1, lo, hi);
      assert (w - 1) as real * lo + lo == w as real * lo;
      assert (w - 1) as real * hi + hi == w as real * hi;
    }
  }

  lemma {:induction false} BlockSumBounds(img: Image, h: nat, w: nat, lo: real, hi: real)
    requires h <= |img| && forall i :: 0 <= i < h ==> w <= |img[i]|
    requires forall i, j :: 0 <= i < h && 0 <= j < w ==> lo <= img[i][j] <= hi
    ensures (h * w) as real * lo <= BlockSum(img, h, w) <= (h * w) as real * hi
  {
    if h > 0 {
      BlockSumBounds(img, h - 1, w, lo, hi);
      RowSumBounds(img[h - 1], w, lo, hi);
      assert (h * w) as real == ((h - 1) * w) as real + w as real;
    }
  }

  lemma QuotientBounds(s: real, n: real, lo: real, hi: real)
    requires n > 0.0 && n * lo <= s <= n * hi
    ensures lo <= s / n <= hi
  {
  }

  /** The bias level lies between the darkest and the brightest sampled
      pixel; in particular a uniform corner gives its own value. */
  lemma BiasWithinCornerRange(img: Image, lo: real, hi: real)
    requires Rectangular(img) && |img[0]| > 0
    requires forall i, j :: 0 <= i < BlockHeight(img) && 0 <= j < BlockWidth(img) ==> lo <= img[i][j] <= hi
    ensures lo <= BiasLevel(img) <= hi
  {
    var h, w := BlockHeight(img), BlockWidth(img);
    BlockSumBounds(img, h, w, lo, hi);
    assert h * w > 0;
    QuotientBounds(BlockSum(img, h, w), (h * w) as real, lo, hi);
  }

  /** `applyDarkSubtraction`: the bias level taken off every pixel, with
      pixels below the bias clipped to zero. */
  function DarkSubtraction(img: Image): (r: Image)
    requires Rectangular(img)
    ensures SameShape(r, img)
    ensures forall i, j :: 0 <= i < |r| && 0 <= j < |r[i]| ==> 0.0 <= r[i][j]
    ensures forall i, j :: 0 <= i < |r| && 0 <= j < |r[i]| && BiasLevel(img) <= img[i][j] ==>
              r[i][j] + BiasLevel(img) == img[i][j]
    ensures forall i, j :: 0 <= i < |r| && 0 <= j < |r[i]| && img[i][j] <= BiasLevel(img) ==> r[i][j] == 0.0
  {
    var bias := BiasLevel(img);
    seq(|img|, i requires 0 <= i < |img| =>
      seq(|img[i]|, j requires 0 <= j < |img[i]| => AstroCalc.Max(0.0, img[i][j] - bias)))
  }

  /** Dark subtraction keeps the brightness order of pixels. */
  lemma DarkSubtractionKeepsOrder(img: Image, i: nat, j: nat, k: nat, l: nat)
    requires Rectangular(img)
    requires i < |img| && j < |img[i]| && k < |img| && l < |img[k]| && img[i][j] <= img[k][l]
    ensures DarkSubtraction(img)[i][j] <= DarkSubtraction(img)[k][l]
  {
  }

  // ---------------------------------------------------------------------
  // Flat field

  lemma SquareSumNonNegative(x: real, y: real)
    ensures 0.0 <= AstroCalc.Times(x, x) + AstroCalc.Times(y, y)
  {
  }

  /** The simulated flat at row `i`, column `j` of a `height`-by-`width`
      image: one less a fifth of the distance from the centre over the
      distance from the centre to the corner, floored at 0.5. */
  function FlatValue(i: nat, j: nat, height: nat, width: nat, sqrt: real -> real): (f: real)
    requires AstroCalc.SqrtLike(sqrt) && i < height && j < width
    ensures 0.5 <= f <= 1.0
  {
    var cx, cy := width as real / 2.0, height as real / 2.0;
    var maxDistance := sqrt(AstroCalc.Times(cx, cx) + AstroCalc.Times(cy, cy));
    var dx, dy := j as real - cx, i as real - cy;
    SquareSumNonNegative(dx, dy);
    var distance := sqrt(AstroCalc.Times(dx, dx) + AstroCalc.Times(dy, dy));
    assert 0.0 < AstroCalc.Times(cx, cx) + AstroCalc.Times(cy, cy);
    AstroCalc.NonNegativeQuotient(distance, maxDistance);
    AstroCalc.Max(0.5, 1.0 - (distance / maxDistance) * 0.2)
  }

  /** `generateSimulatedFlatField`. */
  function SimulatedFlatField(height: nat, width: nat, sqrt: real -> real): (flat: Image)
    requires AstroCalc.SqrtLike(sqrt)
    ensures |flat| == height && forall i :: 0 <= i < height ==> |flat[i]| == width
    ensures forall i, j :: 0 <= i < height && 0 <= j < width ==> 0.5 <= flat[i][j] <= 1.0
  {
    seq(height, i requires 0 <= i < height =>
      seq(width, j requires 0 <= j < width => FlatValue(i, j, height, width, sqrt)))
  }

  /** One pixel of the flat-field correction: divided by a positive flat
      value, copied otherwise. Dividing by a flat of at least 0.5 at most
      doubles the pixel. */
  function DivideByFlat(x: real, f: real): (q: real)
    ensures 0.0 < f ==> q * f == x
    ensures f <= 0.0 ==> q == x
    ensures 0.5 <= f ==> Abs(q) <= 2.0 * Abs(x)
  {
    if f > 0.0 then x / f else x
  }

  /** `applyFlatFieldCorrection`: each pixel divided by the simulated flat
      at its position; multiplying back by the flat restores the input. */
  function FlatFieldCorrection(img: Image, sqrt: real -> real): (r: Image)
    requires Rectangular(img) && AstroCalc.SqrtLike(sqrt)
    ensures SameShape(r, img)
    ensures forall i, j :: 0 <= i < |r| && 0 <= j < |r[i]| ==>
              r[i][j] * FlatValue(i, j, |img|, |img[0]|, sqrt) == img[i][j]
    ensures forall i, j :: 0 <= i < |r| && 0 <= j < |r[i]| ==> Abs(r[i][j]) <= 2.0 * Abs(img[i][j])
  {
    FlatCorrectionRestores(img, sqrt);
    DivideRows(img, SimulatedFlatField(|img|, |img[0]|, sqrt))
  }

  /** Each corrected pixel times its flat value is the input pixel, and at
      most doubles it, since the flat is at least 0.5. */
  lemma FlatCorrectionRestores(img: Image, sqrt: real -> real)
    requires Rectangular(img) && AstroCalc.SqrtLike(sqrt)
    ensures var r := DivideRows(img, SimulatedFlatField(|img|, |img[0]|, sqrt));
      && (forall i, j :: 0 <= i < |r| && 0 <= j < |r[i]| ==>
            r[i][j] * FlatValue(i, j, |img|, |img[0]|, sqrt) == img[i][j])
      && (forall i, j :: 0 <= i < |r| && 0 <= j < |r[i]| ==> Abs(r[i][j]) <= 2.0 * Abs(img[i][j]))
  {
    var flat := SimulatedFlatField(|img|, |img[0]|, sqrt);
    var r := DivideRows(img, flat);
    forall i, j | 0 <= i < |r| && 0 <= j < |r[i]|
      ensures r[i][j] * FlatValue(i, j, |img|, |img[0]|, sqrt) == img[i][j]
      ensures Abs(r[i][j]) <= 2.0 * Abs(img[i][j])
    {
      var f := FlatValue(i, j, |img|, |img[0]|, sqrt);
      FlatFieldAt(|img|, |img[0]|, sqrt, i, j);
      assert r[i][j] == DivideByFlat(img[i][j], f);
    }
  }

  lemma FlatFieldAt(height: nat, width: nat, sqrt: real -> real, i: nat, j: nat)
    requires AstroCalc.SqrtLike(sqrt) && i < height && j < width
    ensures SimulatedFlatField(height, width, sqrt)[i][j] == FlatValue(i, j, height, width, sqrt)
  {
  }

  /** Every row of `img` divided by the matching row of `flat`. */
  function DivideRows(img: Image, flat: Image): (r: Image)
    requires |flat| == |img| && forall i :: 0 <= i < |img| ==> |flat[i]| == |img[i]|
    ensures |r| == |img| && forall i :: 0 <= i < |img| ==> |r[i]| == |img[i]| && r[i] == DivideRow(img[i], flat[i])
  {
    seq(|img|, i requires 0 <= i < |img| => DivideRow(img[i], flat[i]))
  }

  /** One row of the flat-field correction. */
  function DivideRow(row: seq<real>, flatRow: seq<real>): (r: seq<real>)
    requires |flatRow| == |row|
    ensures |r| == |row| && forall j :: 0 <= j < |r| ==> r[j] == DivideByFlat(row[j], flatRow[j])
  {
    seq(|row|, j requires 0 <= j < |row| => DivideByFlat(row[j], flatRow[j]))
  }

  // ---------------------------------------------------------------------
  // Cosmic rays

  /** Every sorted arrangement of `values` holds `m` at index `size / 2`. */
  ghost predicate IsUpperMedian(m: real, values: seq<real>) {
    forall s :: SortedBy(s, Identity) && multiset(s) == multiset(values) ==>
      |s| == |values| > |values| / 2 && m == s[|values| / 2]
  }

  /** The element at index `size / 2` once sorted: the upper median. */
  function Median(values: seq<real>): (m: real)
    requires |values| > 0
    ensures m in values
  {
    var sorted := SortBy(values, Identity);
    assert sorted[|values| / 2] in multiset(sorted);
    sorted[|values| / 2]
  }

  /** The median is the order statistic at index `size / 2`: every sorted
      arrangement of the values holds it there, so the sort's tie-breaking
      does not matter. */
  lemma MedianIsOrderStatistic(values: seq<real>)
    requires |values| > 0
    ensures IsUpperMedian(Median(values), values)
  {
    var sorted := SortBy(values, Identity);
    forall s | SortedBy(s, Identity) && multiset(s) == multiset(values)
      ensures |s| == |values| > |values| / 2 && Median(values) == s[|values| / 2]
    {
      SortedArrangementUnique(s, sorted);
    }
  }

  /** The absolute deviations of the values from `median`, in order. */
  function Deviations(values: seq<real>, median: real): seq<real> {
    seq(|values|, k requires 0 <= k < |values| => Abs(values[k] - median))
  }

  /** `d` is the deviation of one of the values from `median`. */
  ghost predicate IsDeviation(d: real, values: seq<real>, median: real) {
    exists k :: 0 <= k < |values| && d == Abs(values[k] - median)
  }

  /** `calculateMAD`: the median of the absolute deviations from `median`. */
  function Mad(values: seq<real>, median: real): (mad: real)
    requires |values| > 0
    ensures 0.0 <= mad
  {
    var deviations := Deviations(values, median);
    assert forall d :: d in deviations ==> 0.0 <= d;
    Median(deviations)
  }

  /** The median absolute deviation is the deviation of one of the values
      from `median`. */
  lemma MadIsDeviation(values: seq<real>, median: real)
    requires |values| > 0
    ensures IsDeviation(Mad(values, median), values, median)
  {
  }

  /** The median absolute deviation is the order statistic at index
      `size / 2` of all the absolute deviations. */
  lemma MadIsOrderStatistic(values: seq<real>, median: real)
    requires |values| > 0
    ensures IsUpperMedian(Mad(values, median), Deviations(values, median))
  {
    MedianIsOrderStatistic(Deviations(values, median));
  }

  /** A pixel above the neighbour median by more than `threshold` MADs,
      with a non-zero MAD. */
  predicate IsCosmicRay(pixel: real, neighbours: seq<real>, threshold: real)
    requires |neighbours| > 0
  {
    var median := Median(neighbours);
    var mad := Mad(neighbours, median);
    pixel > median + AstroCalc.Times(threshold, mad) && mad > 0.0
  }

  /** Positions the scan visits: neither the first nor the last row or
      column. */
  predicate Interior(img: Image, a: int, b: int)
    requires |img| > 0
  {
    1 <= a < |img| - 1 && 1 <= b < |img[0]| - 1
  }

  /** The eight neighbours of an interior position, read from `img`, row by
      row as the code collects them. */
  function Neighbours(img: Image, a: int, b: int): (n: seq<real>)
    requires Rectangular(img) && Interior(img, a, b)
    ensures |n| == 8
  {
    [img[a - 1][b - 1], img[a - 1][b], img[a - 1][b + 1],
     img[a][b - 1], img[a][b + 1],
     img[a + 1][b - 1], img[a + 1][b], img[a + 1][b + 1]]
  }

  /** The neighbours as the in-place scan finds them at (a, b): the row
      above and the pixel to the left already hold their cleaned values
      (`out`), the rest still hold the input's (`img`). */
  function NeighboursAtVisit(img: Image, out: Image, a: int, b: int): (n: seq<real>)
    requires Rectangular(img) && SameShape(out, img) && Interior(img, a, b)
    ensures |n| == 8
  {
    [out[a - 1][b - 1], out[a - 1][b], out[a - 1][b + 1],
     out[a][b - 1], img[a][b + 1],
     img[a + 1][b - 1], img[a + 1][b], img[a + 1][b + 1]]
  }

  /** What the scan leaves at (a, b): the median of its neighbours at the
      visit when the input pixel is a cosmic ray there, the input pixel
      otherwise. */
  predicate CleanedAt(img: Image, out: Image, a: int, b: int, threshold: real)
    requires Rectangular(img) && SameShape(out, img) && Interior(img, a, b)
  {
    out[a][b] == CleanedValue(img[a][b], NeighboursAtVisit(img, out, a, b), threshold)
  }

  /** A pixel after its visit: the neighbour median if it is a cosmic ray,
      itself otherwise. */
  function CleanedValue(pixel: real, neighbours: seq<real>, threshold: real): real
    requires |neighbours| > 0
  {
    if IsCosmicRay(pixel, neighbours, threshold) then Median(neighbours) else pixel
  }

  /** Row-major order of positions. */
  predicate Before(a: int, b: int, i: int, j: int) {
    a < i || (a == i && b < j)
  }

  /** Number of positions among the first `n` of a row where two rows
      differ. */
  function RowChanges(x: seq<real>, y: seq<real>, n: nat): nat
    requires n <= |x| == |y|
  {
    if n == 0 then 0 else RowChanges(x, y, n - 1) + (if x[n - 1] != y[n - 1] then 1 else 0)
  }

  /** Number of pixels among the first `m` rows where two images differ. */
  function Changes(x: Image, y: Image, m: nat): nat
    requires SameShape(x, y) && m <= |x|
  {
    if m == 0 then 0 else Changes(x, y, m - 1) + RowChanges(x[m - 1], y[m - 1], |x[m - 1]|)
  }

  lemma {:induction false} RowChangesUpdate(x: seq<real>, y: seq<real>, b: nat, v: real, n: nat)
    requires n <= |x| == |y| && b < |y| && x[b] == y[b]
    ensures RowChanges(x, y[b := v], n) == RowChanges(x, y, n) + (if b < n && v != x[b] then 1 else 0)
  {
    if n > 0 {
      RowChangesUpdate(x, y, b, v, n - 1);
    }
  }

  lemma {:induction false} ChangesUpdate(x: Image, y: Image, a: nat, b: nat, v: real, m: nat)
    requires SameShape(x, y) && m <= |x| && a < |y| && b < |y[a]| && x[a][b] == y[a][b]
    ensures SameShape(x, y[a := y[a][b := v]])
    ensures Changes(x, y[a := y[a][b := v]], m) == Changes(x, y, m) + (if a < m && v != x[a][b] then 1 else 0)
  {
    if m > 0 {
      ChangesUpdate(x, y, a, b, v, m - 1);
      if a == m - 1 {
        RowChangesUpdate(x[a], y[a], b, v, |x[a]|);
      }
    }
  }

  /** Replacing pixel (i, j), which comes after (a, b), leaves what the scan
      did at (a, b) intact. */
  lemma LaterUpdateKeepsCleaned(img: Image, cur: Image, i: int, j: int, v: real, a: int, b: int, threshold: real)
    requires Rectangular(img) && SameShape(cur, img) && Interior(img, i, j) && Interior(img, a, b)
    requires Before(a, b, i, j) && CleanedAt(img, cur, a, b, threshold)
    ensures SameShape(cur[i := cur[i][j := v]], img)
    ensures CleanedAt(img, cur[i := cur[i][j := v]], a, b, threshold)
  {
    var next := cur[i := cur[i][j := v]];
    assert SameShape(next, img);
    assert next[a - 1] == cur[a - 1];
    assert next[a][b - 1] == cur[a][b - 1] && next[a][b] == cur[a][b];
    var n := NeighboursAtVisit(img, next, a, b);
    assert n == NeighboursAtVisit(img, cur, a, b);
    assert CleanedAt(img, next, a, b, threshold) by {
      assert next[a][b] == cur[a][b];
    }
  }

  /** The pixel the scan is at holds its cleaned value once written. */
  lemma CleanedNow(img: Image, cur: Image, i: int, j: int, v: real, threshold: real)
    requires Rectangular(img) && SameShape(cur, img) && Interior(img, i, j)
    requires cur[i][j] == img[i][j] && cur[i][j + 1] == img[i][j + 1]
    requires cur[i + 1][j - 1] == img[i + 1][j - 1] && cur[i + 1][j] == img[i + 1][j]
    requires cur[i + 1][j + 1] == img[i + 1][j + 1]
    requires v == CleanedValue(cur[i][j], Neighbours(cur, i, j), threshold)
    ensures SameShape(cur[i := cur[i][j := v]], img)
    ensures CleanedAt(img, cur[i := cur[i][j := v]], i, j, threshold)
  {
    var next := cur[i := cur[i][j := v]];
    assert SameShape(next, img);
    assert next[i - 1] == cur[i - 1] && next[i][j - 1] == cur[i][j - 1] && next[i][j] == v;
    assert Neighbours(cur, i, j) == NeighboursAtVisit(img, next, i, j);
  }

  /** One visit of the scan: writing the cleaned value at (i, j) extends
      what is known about positions before it to (i, j) itself. */
  lemma ScanStep(img: Image, cur: Image, i: int, j: int, v: real, threshold: real)
    requires Rectangular(img) && SameShape(cur, img) && Interior(img, i, j)
    requires cur[i][j] == img[i][j] && cur[i][j + 1] == img[i][j + 1]
    requires cur[i + 1][j - 1] == img[i + 1][j - 1] && cur[i + 1][j] == img[i + 1][j]
    requires cur[i + 1][j + 1] == img[i + 1][j + 1]
    requires forall a, b :: Interior(img, a, b) && Before(a, b, i, j) ==> CleanedAt(img, cur, a, b, threshold)
    requires v == CleanedValue(cur[i][j], Neighbours(cur, i, j), threshold)
    ensures SameShape(cur[i := cur[i][j := v]], img)
    ensures forall a, b :: Interior(img, a, b) && Before(a, b, i, j + 1) ==>
              CleanedAt(img, cur[i := cur[i][j := v]], a, b, threshold)
  {
    var next := cur[i := cur[i][j := v]];
    assert SameShape(next, img);
    CleanedNow(img, cur, i, j, v, threshold);
    forall a, b | Interior(img, a, b) && Before(a, b, i, j + 1)
      ensures CleanedAt(img, next, a, b, threshold)
    {
      if Before(a, b, i, j) {
        LaterUpdateKeepsCleaned(img, cur, i, j, v, a, b, threshold);
      } else {
        assert a == i && b == j;
      }
    }
  }

  /** Writing at (i, j) leaves every position the scan has not reached
      yet, and every border position, as in the input. */
  lemma UntouchedStep(img: Image, cur: Image, i: int, j: int, v: real)
    requires Rectangular(img) && SameShape(cur, img) && Interior(img, i, j)
    requires forall a, b :: 0 <= a < |img| && 0 <= b < |img[a]| && !(Interior(img, a, b) && Before(a, b, i, j)) ==>
               cur[a][b] == img[a][b]
    ensures SameShape(cur[i := cur[i][j := v]], img)
    ensures forall a, b :: 0 <= a < |img| && 0 <= b < |img[a]| && !(Interior(img, a, b) && Before(a, b, i, j + 1)) ==>
              cur[i := cur[i][j := v]][a][b] == img[a][b]
  {
    var next := cur[i := cur[i][j := v]];
    assert SameShape(next, img);
  }

  lemma {:induction false} NoChanges(x: Image, m: nat)
    requires m <= |x|
    ensures Changes(x, x, m) == 0
  {
    if m > 0 {
      NoChanges(x, m - 1);
      NoRowChanges(x[m - 1], |x[m - 1]|);
    }
  }

  lemma {:induction false} NoRowChanges(x: seq<real>, n: nat)
    requires n <= |x|
    ensures RowChanges(x, x, n) == 0
  {
    if n > 0 {
      NoRowChanges(x, n - 1);
    }
  }

  /** Every position the scan has not cleaned before (i, j) still holds
      the input's value. */
  ghost predicate Untouched(img: Image, out: Image, i: int, j: int)
    requires Rectangular(img) && SameShape(out, img)
  {
    forall a, b :: 0 <= a < |img| && 0 <= b < |img[a]| && !(Interior(img, a, b) && Before(a, b, i, j)) ==>
      out[a][b] == img[a][b]
  }

  /** Every interior position before (i, j) holds its cleaned value. */
  ghost predicate CleanedBefore(img: Image, out: Image, i: int, j: int, threshold: real)
    requires Rectangular(img) && SameShape(out, img)
  {
    forall a, b :: Interior(img, a, b) && Before(a, b, i, j) ==> CleanedAt(img, out, a, b, threshold)
  }

  /** The count of replacements against the pixels that changed. */
  predicate CountMatches(img: Image, out: Image, detected: nat, threshold: real)
    requires SameShape(out, img)
  {
    Changes(img, out, |img|) <= detected && (0.0 <= threshold ==> detected == Changes(img, out, |img|))
  }

  /** Visiting (i, j) moves the scan on by one position. */
  lemma VisitPixel(img: Image, out: Image, i: int, j: int, threshold: real)
    requires Rectangular(img) && SameShape(out, img) && Interior(img, i, j)
    requires Untouched(img, out, i, j) && CleanedBefore(img, out, i, j, threshold)
    ensures var next := out[i := out[i][j := CleanedValue(out[i][j], Neighbours(out, i, j), threshold)]];
            SameShape(next, img) && Untouched(img, next, i, j + 1) && CleanedBefore(img, next, i, j + 1, threshold)
    ensures out[i][j] == img[i][j]
  {
    var v := CleanedValue(out[i][j], Neighbours(out, i, j), threshold);
    assert !Before(i, j, i, j) && !Before(i, j + 1, i, j);
    assert !Before(i + 1, j - 1, i, j) && !Before(i + 1, j, i, j) && !Before(i + 1, j + 1, i, j);
    ScanStep(img, out, i, j, v, threshold);
    UntouchedStep(img, out, i, j, v);
  }

  lemma RewriteSame(s: Image, i: int, j: int)
    requires 0 <= i < |s| && 0 <= j < |s[i]|
    ensures s[i := s[i][j := s[i][j]]] == s
  {
    assert s[i][j := s[i][j]] == s[i];
  }

  /** Having reached the end of row i is having reached the start of
      row i + 1. */
  lemma NextRow(img: Image, out: Image, i: int, j: int, threshold: real)
    requires Rectangular(img) && SameShape(out, img) && 1 <= j && (|img[0]| >= 2 ==> j == |img[0]| - 1)
    requires |img[0]| < 2 ==> j == 1
    requires Untouched(img, out, i, j) && CleanedBefore(img, out, i, j, threshold)
    ensures Untouched(img, out, i + 1, 1) && CleanedBefore(img, out, i + 1, 1, threshold)
  {
  }

  /** The body of the inner loop of `removeCosmicRays`: the pixel at
      (i, j) compared with the median and MAD of its neighbours, and
      replaced by the median when it is a cosmic ray. */
  method CleanPixel(img: Image, cur: Image, i: int, j: int, threshold: real, counted: nat)
    returns (out: Image, detected: nat)
    requires Rectangular(img) && SameShape(cur, img) && Interior(img, i, j)
    requires Untouched(img, cur, i, j) && CleanedBefore(img, cur, i, j, threshold)
    requires CountMatches(img, cur, counted, threshold)
    ensures SameShape(out, img)
    ensures Untouched(img, out, i, j + 1) && CleanedBefore(img, out, i, j + 1, threshold)
    ensures CountMatches(img, out, detected, threshold)
  {
    var neighbours := Neighbours(cur, i, j);
    var pixel := cur[i][j];
    var median := Median(neighbours);
    VisitPixel(img, cur, i, j, threshold);
    CountStep(img, cur, i, j, threshold, counted);
    if IsCosmicRay(pixel, neighbours, threshold) {
      out := cur[i := cur[i][j := median]];
      detected := counted + 1;
    } else {
      RewriteSame(cur, i, j);
      out, detected := cur, counted;
    }
  }

  /** A cosmic ray found with a non-negative threshold lies strictly above
      its neighbour median, so replacing it changes the pixel. */
  lemma CosmicRayMoves(pixel: real, neighbours: seq<real>, threshold: real)
    requires |neighbours| > 0 && 0.0 <= threshold && IsCosmicRay(pixel, neighbours, threshold)
    ensures Median(neighbours) < pixel
  {
  }

  /** Visiting (i, j) keeps the count of replacements in step with the
      pixels that changed. */
  lemma CountStep(img: Image, cur: Image, i: int, j: int, threshold: real, counted: nat)
    requires Rectangular(img) && SameShape(cur, img) && Interior(img, i, j) && cur[i][j] == img[i][j]
    requires CountMatches(img, cur, counted, threshold)
    ensures var neighbours := Neighbours(cur, i, j);
            var next := cur[i := cur[i][j := CleanedValue(cur[i][j], neighbours, threshold)]];
            SameShape(next, img) &&
            CountMatches(img, next, counted + (if IsCosmicRay(cur[i][j], neighbours, threshold) then 1 else 0),
                         threshold)
  {
    var neighbours := Neighbours(cur, i, j);
    var v := CleanedValue(cur[i][j], neighbours, threshold);
    ChangesUpdate(img, cur, i, j, v, |img|);
    if IsCosmicRay(cur[i][j], neighbours, threshold) && 0.0 <= threshold {
      CosmicRayMoves(cur[i][j], neighbours, threshold);
    }
  }

  /** The inner loop of `removeCosmicRays`: row i cleaned left to right. */
  method CleanRow(img: Image, start: Image, i: int, threshold: real, counted: nat) returns (out: Image, detected: nat)
    requires Rectangular(img) && SameShape(start, img) && 1 <= i < |img| - 1
    requires Untouched(img, start, i, 1) && CleanedBefore(img, start, i, 1, threshold)
    requires CountMatches(img, start, counted, threshold)
    ensures SameShape(out, img)
    ensures Untouched(img, out, i + 1, 1) && CleanedBefore(img, out, i + 1, 1, threshold)
    ensures CountMatches(img, out, detected, threshold)
  {
    var width := |img[0]|;
    out, detected := start, counted;
    var j := 1;
    while j < width - 1
      invariant 1 <= j && (width >= 2 ==> j <= width - 1) && (width < 2 ==> j == 1)
      invariant SameShape(out, img)
      invariant Untouched(img, out, i, j) && CleanedBefore(img, out, i, j, threshold)
      invariant CountMatches(img, out, detected, threshold)
    {
      out, detected := CleanPixel(img, out, i, j, threshold, detected);
      j := j + 1;
    }
    NextRow(img, out, i, j, threshold);
  }

  /** What `removeCosmicRays` makes of `img`: the shape and the border
      kept, every interior pixel cleaned against its neighbours as they
      stand at its visit, and the count of replacements. */
  ghost predicate CosmicRaysCleaned(img: Image, out: Image, threshold: real, detected: nat)
    requires Rectangular(img)
  {
    && SameShape(out, img)
    && (forall a, b :: 0 <= a < |img| && 0 <= b < |img[a]| && !Interior(img, a, b) ==> out[a][b] == img[a][b])
    && (forall a, b :: Interior(img, a, b) ==> CleanedAt(img, out, a, b, threshold))
    && Changes(img, out, |img|) <= detected
    && (0.0 <= threshold ==> detected == Changes(img, out, |img|))
  }

  /** `removeCosmicRays`: interior pixels visited row by row, each compared
      with the median and MAD of its eight neighbours as they stand at that
      moment, and replaced by the median when it is a cosmic ray. Border
      rows and columns are never touched; the count is the number of
      replacements, so at least the number of changed pixels, and exactly
      that number for a non-negative threshold. */
  method RemoveCosmicRays(img: Image, threshold: real) returns (out: Image, detected: nat)
    requires Rectangular(img)
    ensures SameShape(out, img)
    ensures forall a, b :: 0 <= a < |img| && 0 <= b < |img[a]| && !Interior(img, a, b) ==> out[a][b] == img[a][b]
    ensures forall a, b :: Interior(img, a, b) ==> CleanedAt(img, out, a, b, threshold)
    ensures Changes(img, out, |img|) <= detected
    ensures 0.0 <= threshold ==> detected == Changes(img, out, |img|)
    ensures CosmicRaysCleaned(img, out, threshold, detected)
  {
    var height := |img|;
    out := img;
    detected := 0;
    NoChanges(img, height);
    var i := 1;
    while i < height - 1
      invariant 1 <= i && (height >= 2 ==> i <= height - 1)
      invariant SameShape(out, img)
      invariant Untouched(img, out, i, 1) && CleanedBefore(img, out, i, 1, threshold)
      invariant CountMatches(img, out, detected, threshold)
    {
      out, detected := CleanRow(img, out, i, threshold, detected);
      i := i + 1;
    }
  }

  /** With a non-negative threshold cleaning only ever lowers a pixel: a
      cosmic ray lies strictly above the median that replaces it. */
  lemma CleaningOnlyLowers(img: Image, out: Image, a: int, b: int, threshold: real)
    requires Rectangular(img) && SameShape(out, img) && Interior(img, a, b)
    requires 0.0 <= threshold && CleanedAt(img, out, a, b, threshold)
    ensures out[a][b] <= img[a][b]
    ensures out[a][b] != img[a][b] ==> out[a][b] in NeighboursAtVisit(img, out, a, b)
  {
  }

  // ---------------------------------------------------------------------
  // Quality score

  function PixelCount(img: Image): nat {
    if |img| == 0 then 0 else PixelCount(img[..|img| - 1]) + |img[|img| - 1]|
  }

  function RowTotal(row: seq<real>): real {
    if |row| == 0 then 0.0 else RowTotal(row[..|row| - 1]) + row[|row| - 1]
  }

  function PixelSum(img: Image): real {
    if |img| == 0 then 0.0 else PixelSum(img[..|img| - 1]) + RowTotal(img[|img| - 1])
  }

  function RowSquaredDeviation(row: seq<real>, mean: real): real {
    if |row| == 0 then 0.0
    else RowSquaredDeviation(row[..|row| - 1], mean) + AstroCalc.Times(row[|row| - 1] - mean, row[|row| - 1] - mean)
  }

  /** The sum of squared deviations from `mean` over every pixel. */
  function SquaredDeviation(img: Image, mean: real): real {
    if |img| == 0 then 0.0
    else SquaredDeviation(img[..|img| - 1], mean) + RowSquaredDeviation(img[|img| - 1], mean)
  }

  lemma {:induction false} RowSquaredDeviationZero(row: seq<real>, mean: real)
    ensures 0.0 <= RowSquaredDeviation(row, mean)
    ensures RowSquaredDeviation(row, mean) == 0.0 <==> forall j :: 0 <= j < |row| ==> row[j] == mean
  {
    if |row| > 0 {
      var d := row[|row| - 1] - mean;
      RowSquaredDeviationZero(row[..|row| - 1], mean);
      assert 0.0 <= AstroCalc.Times(d, d);
      assert AstroCalc.Times(d, d) == 0.0 <==> d == 0.0;
      assert forall j :: 0 <= j < |row| - 1 ==> row[..|row| - 1][j] == row[j];
    }
  }

  /** The squared deviations vanish exactly when every pixel equals the
      mean, and are never negative. */
  lemma {:induction false} SquaredDeviationZero(img: Image, mean: real)
    ensures 0.0 <= SquaredDeviation(img, mean)
    ensures SquaredDeviation(img, mean) == 0.0 <==>
              forall i, j :: 0 <= i < |img| && 0 <= j < |img[i]| ==> img[i][j] == mean
  {
    if |img| > 0 {
      var last := img[|img| - 1];
      SquaredDeviationZero(img[..|img| - 1], mean);
      RowSquaredDeviationZero(last, mean);
      assert forall i :: 0 <= i < |img| - 1 ==> img[..|img| - 1][i] == img[i];
    }
  }

  /** `calculateImageQuality`: mean over standard deviation, times ten,
      clamped to [0, 100]. An empty image divides zero by zero; a uniform
      image divides by a zero deviation, which the clamps turn into 100 or
      0 for a non-zero mean and leave NaN for a zero mean. */
  function ImageQuality(img: Image, sqrt: real -> real): (q: AstroCalc.Num)
    requires AstroCalc.SqrtLike(sqrt)
    ensures PixelCount(img) == 0 ==> q == AstroCalc.NaN
    ensures q.Finite? || q.NaN?
    ensures q.Finite? ==> 0.0 <= q.v <= 100.0
    ensures PixelCount(img) > 0 ==>
              var mean := PixelSum(img) / PixelCount(img) as real;
              && (SquaredDeviation(img, mean) > 0.0 ==> q.Finite? && 0.0 <= q.v <= 100.0)
              && (SquaredDeviation(img, mean) == 0.0 ==>
                    q == if mean > 0.0 then AstroCalc.Finite(100.0)
                         else if mean < 0.0 then AstroCalc.Finite(0.0)
                         else AstroCalc.NaN)
  {
    var count := PixelCount(img);
    if count == 0 then AstroCalc.NaN
    else
      var mean := PixelSum(img) / count as real;
      var variance := SquaredDeviation(img, mean) / count as real;
      SquaredDeviationZero(img, mean);
      AstroCalc.NonNegativeQuotient(SquaredDeviation(img, mean), count as real);
      var deviation := sqrt(variance);
      if deviation > 0.0 then
        AstroCalc.Finite(AstroCalc.Min(100.0, AstroCalc.Max(0.0, mean / deviation * 10.0)))
      else if mean > 0.0 then AstroCalc.Finite(100.0)
      else if mean < 0.0 then AstroCalc.Finite(0.0)
      else AstroCalc.NaN
  }

  /** A uniform, non-empty image has no quality score unless it is bright
      or dark: its deviation is zero. */
  lemma UniformImageQuality(img: Image, c: real, sqrt: real -> real)
    requires AstroCalc.SqrtLike(sqrt) && PixelCount(img) > 0
    requires forall i, j :: 0 <= i < |img| && 0 <= j < |img[i]| ==> img[i][j] == c
    ensures ImageQuality(img, sqrt) == if c > 0.0 then AstroCalc.Finite(100.0)
                                       else if c < 0.0 then AstroCalc.Finite(0.0)
                                       else AstroCalc.NaN
  {
    PixelSumUniform(img, c);
    ProductOverFactor(PixelSum(img), PixelCount(img) as real, c);
    SquaredDeviationZero(img, c);
  }

  lemma ProductOverFactor(s: real, n: real, c: real)
    requires n > 0.0 && s == n * c
    ensures s / n == c
  {
  }

  /** The sum of `n` copies of `c`. */
  function Copies(n: nat, c: real): real {
    if n == 0 then 0.0 else Copies(n - 1, c) + c
  }

  lemma {:induction false} CopiesAdd(a: nat, b: nat, c: real)
    ensures Copies(a + b, c) == Copies(a, c) + Copies(b, c)
    decreases b
  {
    if b > 0 {
      CopiesAdd(a, b - 1, c);
    }
  }

  lemma {:induction false} CopiesProduct(n: nat, c: real)
    ensures Copies(n, c) == n as real * c
  {
    if n > 0 {
      CopiesProduct(n - 1, c);
      assert (n - 1) as real * c + c == n as real * c;
    }
  }

  lemma {:induction false} RowTotalUniform(row: seq<real>, c: real)
    requires forall j :: 0 <= j < |row| ==> row[j] == c
    ensures RowTotal(row) == Copies(|row|, c)
  {
    if |row| > 0 {
      RowTotalUniform(row[..|row| - 1], c);
    }
  }

  /** Every pixel equal to `c` makes the pixel sum `c` times the count. */
  lemma PixelSumUniform(img: Image, c: real)
    requires forall i, j :: 0 <= i < |img| && 0 <= j < |img[i]| ==> img[i][j] == c
    ensures PixelSum(img) == PixelCount(img) as real * c
  {
    PixelSumCopies(img, c);
    CopiesProduct(PixelCount(img), c);
  }

  lemma {:induction false} PixelSumCopies(img: Image, c: real)
    requires forall i, j :: 0 <= i < |img| && 0 <= j < |img[i]| ==> img[i][j] == c
    ensures PixelSum(img) == Copies(PixelCount(img), c)
  {
    if |img| > 0 {
      var init, last := img[..|img| - 1], img[|img| - 1];
      assert forall i, j :: 0 <= i < |init| && 0 <= j < |init[i]| ==> init[i][j] == img[i][j];
      PixelSumCopies(init, c);
      RowTotalUniform(last, c);
      CopiesAdd(PixelCount(init), |last|, c);
    }
  }

  // ---------------------------------------------------------------------
  // The pipeline

  datatype ProcessingStep = DarkSubtractionStep | FlatCorrectionStep | CosmicRayRemovalStep

  /** The calibration switches, the cosmic-ray threshold and the memory
      limit of the processing configuration. */
  datatype CalibrationConfig = CalibrationConfig(
    enableDarkSubtraction: bool, enableFlatCorrection: bool, enableCosmicRayRemoval: bool,
    cosmicRayThreshold: real, maxImageSizeBytes: int)

  /** The parts of a processing result the calibration decides. */
  datatype ProcessingOutcome = ProcessingOutcome(
    processed: Image, completedSteps: seq<ProcessingStep>, cosmicRaysRemoved: nat, qualityScore: AstroCalc.Num)

  /** Every row of an image, if any, as long as the first. */
  predicate EqualRows(img: Image) {
    forall i :: 0 <= i < |img| ==> |img[i]| == |img[0]|
  }

  /** The steps a configuration switches on, in pipeline order. */
  function EnabledSteps(config: CalibrationConfig): seq<ProcessingStep> {
    (if config.enableDarkSubtraction then [DarkSubtractionStep] else [])
    + (if config.enableFlatCorrection then [FlatCorrectionStep] else [])
    + (if config.enableCosmicRayRemoval then [CosmicRayRemovalStep] else [])
  }

  lemma ShapeCarriesOver(a: Image, b: Image, c: Image)
    requires Rectangular(a) && SameShape(b, a) && SameShape(c, b)
    ensures Rectangular(c) && SameShape(c, a)
  {
  }

  /** The image after the enabled dark and flat steps, in that order. */
  function DarkThenFlat(img: Image, config: CalibrationConfig, sqrt: real -> real): (r: Image)
    requires Rectangular(img) && AstroCalc.SqrtLike(sqrt)
    ensures Rectangular(r) && SameShape(r, img)
  {
    var dark := if config.enableDarkSubtraction then DarkSubtraction(img) else img;
    ShapeCarriesOver(img, img, dark);
    if config.enableFlatCorrection then
      var flat := FlatFieldCorrection(dark, sqrt);
      ShapeCarriesOver(img, dark, flat);
      flat
    else dark
  }

  /** The enabled calibration steps applied in order: dark subtraction,
      then flat-field correction, then cosmic-ray removal on what they
      leave. */
  method Calibrate(img: Image, config: CalibrationConfig, sqrt: real -> real)
    returns (processed: Image, steps: seq<ProcessingStep>, removed: nat)
    requires Rectangular(img) && AstroCalc.SqrtLike(sqrt)
    ensures SameShape(processed, img)
    ensures steps == EnabledSteps(config)
    ensures !config.enableCosmicRayRemoval ==> processed == DarkThenFlat(img, config, sqrt) && removed == 0
    ensures config.enableCosmicRayRemoval ==>
      CosmicRaysCleaned(DarkThenFlat(img, config, sqrt), processed, config.cosmicRayThreshold, removed)
  {
    var base := DarkThenFlat(img, config, sqrt);
    processed, steps, removed := base, [], 0;
    if config.enableDarkSubtraction {
      steps := steps + [DarkSubtractionStep];
    }
    assert steps == if config.enableDarkSubtraction then [DarkSubtractionStep] else [];
    if config.enableFlatCorrection {
      steps := steps + [FlatCorrectionStep];
    }
    assert steps == (if config.enableDarkSubtraction then [DarkSubtractionStep] else [])
                    + (if config.enableFlatCorrection then [FlatCorrectionStep] else []);
    if config.enableCosmicRayRemoval {
      var cleaned, count := RemoveCosmicRays(base, config.cosmicRayThreshold);
      ShapeCarriesOver(img, base, cleaned);
      processed, steps, removed := cleaned, steps + [CosmicRayRemovalStep], count;
    }
  }

  const ProcessingFailure: string := "Failed to process FITS image: "

  /** The message of the exception every step throws on an image without
      rows, when it reads `imageData[0]`. */
  const NoFirstRow: string := "Index 0 out of bounds for length 0"

  /** The synchronous part of `processImage`: validation, then the enabled
      calibration steps in order, then the quality score. Any exception is
      rethrown with the processing-failure prefix. */
  method ProcessImage(data: FitsImageData, config: CalibrationConfig, sqrt: real -> real)
    returns (r: Result<ProcessingOutcome>)
    requires AstroCalc.SqrtLike(sqrt)
    requires data.imageData.Some? ==> EqualRows(data.imageData.value)
    ensures ValidateFitsData(data, config.maxImageSizeBytes).Failure? ==>
              r == Failure(ProcessingFailure + ValidateFitsData(data, config.maxImageSizeBytes).error)
    ensures (ValidateFitsData(data, config.maxImageSizeBytes).Success? && |data.imageData.value| == 0
             && EnabledSteps(config) != []) ==> r == Failure(ProcessingFailure + NoFirstRow)
    ensures r.Success? <==>
              ValidateFitsData(data, config.maxImageSizeBytes).Success?
              && (|data.imageData.value| > 0 || EnabledSteps(config) == [])
    ensures r.Success? ==>
              && r.value.completedSteps == EnabledSteps(config)
              && SameShape(r.value.processed, data.imageData.value)
              && (!config.enableCosmicRayRemoval ==> r.value.cosmicRaysRemoved == 0)
              && (|data.imageData.value| == 0 ==> r.value.processed == [])
              && r.value.qualityScore == ImageQuality(r.value.processed, sqrt)
    ensures r.Success? && |data.imageData.value| > 0 ==>
              var staged := DarkThenFlat(data.imageData.value, config, sqrt);
              && (!config.enableCosmicRayRemoval ==> r.value.processed == staged)
              && (config.enableCosmicRayRemoval ==>
                    CosmicRaysCleaned(staged, r.value.processed, config.cosmicRayThreshold, r.value.cosmicRaysRemoved))
              && (r.value.qualityScore.Finite? ==> 0.0 <= r.value.qualityScore.v <= 100.0)
  {
    var valid := ValidateFitsData(data, config.maxImageSizeBytes);
    if valid.Failure? {
      return Failure(ProcessingFailure + valid.error);
    }
    var img := data.imageData.value;
    if |img| == 0 && EnabledSteps(config) != [] {
      return Failure(ProcessingFailure + NoFirstRow);
    }
    var processed, steps, removed := img, [], 0;
    if |img| > 0 {
      processed, steps, removed := Calibrate(img, config, sqrt);
    }
    var quality := ImageQuality(processed, sqrt);
    return Success(ProcessingOutcome(processed, steps, removed, quality));
  }
}
