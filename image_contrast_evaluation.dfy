/**
 * The contrast scorer. A decoded image is a row-major buffer of 3-byte pixels
 * in blue, green, red order. The image is cut into horizontal and vertical
 * stripes; the centre row of every horizontal stripe and the centre column of
 * every vertical stripe are scanned, and the score is the mean absolute
 * luminance difference between consecutive scanned pixels.
 *
 * The luminance cache (a WCAG 2.0 relative-luminance table built with
 * floating-point `pow`) is a parameter: a total function from a red, green,
 * blue triple to a real.
 */
module ImageContrastEvaluation {
  import opened Wrappers

  /** A Java `byte`: signed. */
  newtype int8 = x: int | -128 <= x < 128

  /** The luminance cache, read as `luminance[r][g][b]` with every channel in 0..255. */
  type Luminance = (int, int, int) -> real

  const BytesPerPixel: int := 3

  /** The only image layout the scorer accepts, another byte-backed layout, or a layout not backed by bytes. */
  datatype ImageKind = ThreeByteBgr | OtherByteType | NonByteType

  /** UnsupportedImageTypeException, or the ClassCastException of the buffer cast. */
  datatype ScoreError = UnsupportedImageType | ClassCast

  /** A Java `double` score: a real quotient, or NaN when it is 0 / 0. */
  datatype Score = Average(value: real) | NaN

  function Min(a: int, b: int): int
  {
    if a <= b then a else b
  }

  function Abs(x: real): (r: real)
    ensures 0.0 <= r && (r == x || r == -x)
  {
    if x < 0.0 then -x else x
  }

  /** `b & 0xFF`: a signed byte read back as an unsigned channel value. */
  function Unsigned(b: int8): (u: int)
    ensures 0 <= u < 256
    ensures u % 256 == b as int % 256
  {
    if b < 0 then b as int + 256 else b as int
  }

  // ---------------------------------------------------------------------
  // Arithmetic helpers

  lemma MulLeq(a: int, b: int, c: int)
    requires 0 <= a <= b && 0 <= c
    ensures 0 <= a * c <= b * c
  {
  }

  lemma MulSucc(a: int, b: int)
    ensures a * b + b == (a + 1) * b
  {
  }

  lemma MulDivCancel(a: int, b: int)
    requires 0 <= a && 0 < b
    ensures a * b / b == a
  {
    var q := a * b / b;
    if q < a {
      MulLeq(q + 1, a, b);
    } else if q > a {
      MulLeq(a + 1, q, b);
    }
  }

  // ---------------------------------------------------------------------
  // One scanned line

  /** Byte offset of the `j`-th pixel of a line that starts at `start` with stride `incr`. */
  function Offset(start: int, incr: int, j: int): int
  {
    start + j * incr
  }

  /** Byte `k` of the buffer; the specification reads 0 outside it (the scorer never does). */
  function ByteAt(s: seq<int8>, k: int): int8
  {
    if 0 <= k < |s| then s[k] else 0
  }

  /**
   * Luminance of the pixel whose first byte is at offset `k`: the table is
   * indexed red (byte k + 2), green (byte k + 1), blue (byte k).
   */
  function PixelLuminance(lum: Luminance, s: seq<int8>, k: int): real
  {
    lum(Unsigned(ByteAt(s, k + 2)), Unsigned(ByteAt(s, k + 1)), Unsigned(ByteAt(s, k)))
  }

  /** Absolute luminance difference between the pixels at offsets `k1` and `k0`. */
  function Contrast(lum: Luminance, s: seq<int8>, k1: int, k0: int): real
  {
    Abs(PixelLuminance(lum, s, k1) - PixelLuminance(lum, s, k0))
  }

  /**
   * The terms that getPixelLineContrastsSum adds up for a line of `n` pixels:
   * one absolute luminance difference per pair of consecutive pixels.
   */
  function LineDiffs(lum: Luminance, s: seq<int8>, start: int, incr: int, n: nat): (d: seq<real>)
    ensures |d| == if n == 0 then 0 else n - 1
  {
    if n <= 1 then []
    else LineDiffs(lum, s, start, incr, n - 1) + [Contrast(lum, s, Offset(start, incr, n - 1), Offset(start, incr, n - 2))]
  }

  /** Term `j` of a line compares its pixels `j + 1` and `j`. */
  lemma {:induction false} LineDiffsAt(lum: Luminance, s: seq<int8>, start: int, incr: int, n: nat, j: int)
    requires 0 <= j < n - 1
    ensures LineDiffs(lum, s, start, incr, n)[j] == Contrast(lum, s, Offset(start, incr, j + 1), Offset(start, incr, j))
  {
    if j < n - 2 {
      LineDiffsAt(lum, s, start, incr, n - 1, j);
    }
  }

  function Sum(xs: seq<real>): real
  {
    if xs == [] then 0.0 else Sum(xs[..|xs| - 1]) + xs[|xs| - 1]
  }

  lemma {:induction false} SumConcat(a: seq<real>, b: seq<real>)
    ensures Sum(a + b) == Sum(a) + Sum(b)
  {
    if b == [] {
      assert a + b == a;
    } else {
      assert (a + b)[..|a + b| - 1] == a + b[..|b| - 1];
      SumConcat(a, b[..|b| - 1]);
    }
  }

  ghost predicate AllWithin(d: seq<real>, lo: real, hi: real)
  {
    forall j :: 0 <= j < |d| ==> lo <= d[j] <= hi
  }

  /** A sum of `|d|` terms, each in [lo, hi], lies in [|d| * lo, |d| * hi]. */
  lemma {:induction false} SumWithin(d: seq<real>, lo: real, hi: real)
    requires AllWithin(d, lo, hi)
    ensures |d| as real * lo <= Sum(d) <= |d| as real * hi
  {
    if d != [] {
      var n := |d| - 1;
      SumWithin(d[..n], lo, hi);
      assert Sum(d) == Sum(d[..n]) + d[n];
      assert |d| as real * lo == n as real * lo + lo && |d| as real * hi == n as real * hi + hi;
    }
  }

  /** A sum of `|d|` terms all equal to `c` is `|d| * c`. */
  lemma SumConstant(d: seq<real>, c: real)
    requires AllWithin(d, c, c)
    ensures Sum(d) == |d| as real * c
  {
    SumWithin(d, c, c);
  }

  /**
   * The number of pixels the loop of getPixelLineContrastsSum visits: the
   * offsets start, start + incr, ... that do not pass `stop` (always at least
   * the first one, which is read before the loop).
   */
  function LinePixels(start: int, incr: int, stop: int): (n: nat)
    requires 0 < incr
    ensures 1 <= n
    ensures forall j :: 1 <= j < n ==> Offset(start, incr, j) <= stop
    ensures stop < Offset(start, incr, n)
  {
    if stop < start then 1
    else
      var q := (stop - start) / incr;
      OffsetsUpTo(start, incr, q);
      q + 1
  }

  lemma OffsetsUpTo(start: int, incr: int, q: int)
    requires 0 < incr && 0 <= q
    ensures forall j :: 0 <= j <= q ==> Offset(start, incr, j) <= Offset(start, incr, q)
  {
    forall j | 0 <= j <= q
      ensures Offset(start, incr, j) <= Offset(start, incr, q)
    {
      MulLeq(j, q, incr);
    }
  }

  /** Offsets grow with the pixel number: one that comes before another belongs to an earlier pixel. */
  lemma OffsetOrder(start: int, incr: int, k: int, n: int)
    requires 0 < incr && Offset(start, incr, k) < Offset(start, incr, n)
    ensures k < n
  {
    if n <= k {
      MulLeq(n, k, incr);
    }
  }

  /** A line whose stop is its `n`-th pixel has exactly `n` pixels. */
  lemma LinePixelsExact(start: int, incr: int, n: nat)
    requires 0 < incr && 1 <= n
    ensures LinePixels(start, incr, Offset(start, incr, n - 1)) == n
  {
    MulLeq(0, n - 1, incr);
    MulDivCancel(n - 1, incr);
  }

  /**
   * getPixelLineContrastsSum: reads the first pixel at `startIndex`, then
   * every `indexIncrement` bytes while the offset does not pass `stopIndex`,
   * and sums the absolute luminance differences of consecutive pixels.
   */
  method PixelLineContrastsSum(bytes: array<int8>, lum: Luminance, startIndex: int, indexIncrement: int, stopIndex: int)
    returns (sum: real)
    requires 0 <= startIndex && 0 < indexIncrement
    requires startIndex + 2 < bytes.Length && stopIndex + 2 < bytes.Length
    ensures sum == Sum(LineDiffs(lum, bytes[..], startIndex, indexIncrement, LinePixels(startIndex, indexIncrement, stopIndex)))
  {
    ghost var s := bytes[..];
    ghost var n := LinePixels(startIndex, indexIncrement, stopIndex);
    var index := startIndex;
    var prevLuminance := lum(Unsigned(bytes[index + 2]), Unsigned(bytes[index + 1]), Unsigned(bytes[index]));
    sum := 0.0;
    index := index + indexIncrement;
    ghost var k: nat := 1;
    while index <= stopIndex
      invariant 1 <= k <= n
      invariant index == Offset(startIndex, indexIncrement, k)
      invariant prevLuminance == PixelLuminance(lum, s, Offset(startIndex, indexIncrement, k - 1))
      invariant sum == Sum(LineDiffs(lum, s, startIndex, indexIncrement, k))
      decreases stopIndex - index
    {
      OffsetOrder(startIndex, indexIncrement, k, n);
      var curLuminance := lum(Unsigned(bytes[index + 2]), Unsigned(bytes[index + 1]), Unsigned(bytes[index]));
      assert curLuminance == PixelLuminance(lum, s, index);
      LineStep(lum, s, startIndex, indexIncrement, k);
      sum := sum + Abs(curLuminance - prevLuminance);
      prevLuminance := curLuminance;
      MulSucc(k, indexIncrement);
      index := index + indexIncrement;
      k := k + 1;
    }
    if n >= 2 {
      OffsetOrder(startIndex, indexIncrement, n - 1, k);
    }
  }

  /** One more pixel adds the difference between it and the one before to the line's sum. */
  lemma LineStep(lum: Luminance, s: seq<int8>, start: int, incr: int, k: nat)
    requires 1 <= k
    ensures Sum(LineDiffs(lum, s, start, incr, k + 1))
            == Sum(LineDiffs(lum, s, start, incr, k)) + Contrast(lum, s, Offset(start, incr, k), Offset(start, incr, k - 1))
  {
    var after := LineDiffs(lum, s, start, incr, k + 1);
    assert after[..|after| - 1] == LineDiffs(lum, s, start, incr, k);
  }

  // ---------------------------------------------------------------------
  // Stripe geometry

  /**
   * Number of stripes along a side of `dimension` pixels, given the truncated
   * product `(int)(dimension * sampleCoverage)`; when that is 0 the scorer
   * falls back to min(dimension, 100) stripes.
   */
  function StripesCount(dimension: int, truncated: int): (count: int)
    requires 1 <= dimension && 0 <= truncated <= dimension
    ensures 1 <= count <= dimension
  {
    if truncated == 0 then Min(dimension, 100) else truncated
  }

  /** Stripe size, the truncating quotient `dimension / count`: never zero. */
  function StripesSize(dimension: int, count: int): (size: int)
    requires 1 <= count <= dimension
    ensures 1 <= size && size * count <= dimension
  {
    dimension / count
  }

  /** The centre line of stripe `i`, `size * i + size / 2`, lies inside the image. */
  function StripeCenter(dimension: int, count: int, i: int): (c: int)
    requires 1 <= count <= dimension && 0 <= i < count
    ensures 0 <= c < dimension
  {
    var size := StripesSize(dimension, count);
    MulLeq(i + 1, count, size);
    size * i + size / 2
  }

  /** A buffer of `width * height` 3-byte pixels. */
  ghost predicate IsImage(s: seq<int8>, width: int, height: int)
  {
    1 <= width && 1 <= height && |s| == width * height * BytesPerPixel
  }

  /** First byte of row `y`. */
  function RowStart(width: int, y: int): int
  {
    y * width * BytesPerPixel
  }

  /** First byte of column `x`. */
  function ColumnStart(x: int): int
  {
    x * BytesPerPixel
  }

  /** First byte of the pixel at column `x`, row `y`. */
  function PixelByte(width: int, x: int, y: int): int
  {
    (y * width + x) * BytesPerPixel
  }

  /** The three bytes of the pixel at column `x`, row `y` lie inside the buffer. */
  lemma PixelInBounds(width: int, height: int, x: int, y: int)
    requires 0 <= x < width && 0 <= y < height
    ensures 0 <= PixelByte(width, x, y) && PixelByte(width, x, y) + 2 < width * height * BytesPerPixel
  {
    MulLeq(y + 1, height, width);
  }

  /** Pixel `j` of the scan of row `y` is the pixel at column `j`, row `y`. */
  lemma RowOffset(width: int, y: int, j: int)
    ensures Offset(RowStart(width, y), BytesPerPixel, j) == PixelByte(width, j, y)
  {
  }

  /** Pixel `j` of the scan of column `x` is the pixel at column `x`, row `j`. */
  lemma ColumnOffset(width: int, x: int, j: int)
    ensures Offset(ColumnStart(x), width * BytesPerPixel, j) == PixelByte(width, x, j)
  {
  }

  // ---------------------------------------------------------------------
  // The whole score

  /** Terms accumulated by the first `k` horizontal stripes, in order: the centre row of each, left to right. */
  function RowsDiffs(lum: Luminance, s: seq<int8>, width: int, height: int, count: int, k: nat): seq<real>
    requires 1 <= width && 1 <= count <= height && k <= count
  {
    if k == 0 then []
    else
      RowsDiffs(lum, s, width, height, count, k - 1)
      + LineDiffs(lum, s, RowStart(width, StripeCenter(height, count, k - 1)), BytesPerPixel, width)
  }

  /** Terms accumulated by the first `k` vertical stripes: the centre column of each, top to bottom. */
  function ColumnsDiffs(lum: Luminance, s: seq<int8>, width: int, height: int, count: int, k: nat): seq<real>
    requires 1 <= height && 1 <= count <= width && k <= count
  {
    if k == 0 then []
    else
      ColumnsDiffs(lum, s, width, height, count, k - 1)
      + LineDiffs(lum, s, ColumnStart(StripeCenter(width, count, k - 1)), width * BytesPerPixel, height)
  }

  /** `k` scanned rows contribute `width - 1` terms each. */
  lemma {:induction false} RowsDiffsLength(lum: Luminance, s: seq<int8>, width: int, height: int, count: int, k: nat)
    requires 1 <= width && 1 <= count <= height && k <= count
    ensures |RowsDiffs(lum, s, width, height, count, k)| == k * (width - 1)
  {
    if k > 0 {
      RowsDiffsLength(lum, s, width, height, count, k - 1);
      var line := LineDiffs(lum, s, RowStart(width, StripeCenter(height, count, k - 1)), BytesPerPixel, width);
      assert |RowsDiffs(lum, s, width, height, count, k)| == (k - 1) * (width - 1) + |line|;
      MulSucc(k - 1, width - 1);
    }
  }

  /** `k` scanned columns contribute `height - 1` terms each. */
  lemma {:induction false} ColumnsDiffsLength(lum: Luminance, s: seq<int8>, width: int, height: int, count: int, k: nat)
    requires 1 <= height && 1 <= count <= width && k <= count
    ensures |ColumnsDiffs(lum, s, width, height, count, k)| == k * (height - 1)
  {
    if k > 0 {
      ColumnsDiffsLength(lum, s, width, height, count, k - 1);
      var line := LineDiffs(lum, s, ColumnStart(StripeCenter(width, count, k - 1)), width * BytesPerPixel, height);
      assert |ColumnsDiffs(lum, s, width, height, count, k)| == (k - 1) * (height - 1) + |line|;
      MulSucc(k - 1, height - 1);
    }
  }

  /**
   * Every term the scorer adds to `sum`. Its length is the scorer's divisor
   * `hCount * (width - 1) + vCount * (height - 1)`.
   */
  function SampledDiffs(lum: Luminance, s: seq<int8>, width: int, height: int, hCount: int, vCount: int): (d: seq<real>)
    requires 1 <= width && 1 <= height && 1 <= hCount <= height && 1 <= vCount <= width
    ensures |d| == hCount * (width - 1) + vCount * (height - 1)
  {
    RowsDiffsLength(lum, s, width, height, hCount, hCount);
    ColumnsDiffsLength(lum, s, width, height, vCount, vCount);
    RowsDiffs(lum, s, width, height, hCount, hCount) + ColumnsDiffs(lum, s, width, height, vCount, vCount)
  }

  /**
   * The score of a 3-byte BGR image: the mean of the sampled terms, or NaN
   * (0.0 / 0.0) when there are none.
   */
  function ContrastScore(lum: Luminance, s: seq<int8>, width: int, height: int, hTruncated: int, vTruncated: int): Score
    requires IsImage(s, width, height) && 0 <= hTruncated <= height && 0 <= vTruncated <= width
  {
    var d := SampledDiffs(lum, s, width, height, StripesCount(height, hTruncated), StripesCount(width, vTruncated));
    if |d| == 0 then NaN else Average(Sum(d) / |d| as real)
  }

  /**
   * Scanning the centre row of horizontal stripe `i` as the scorer does (first
   * byte `y * width * 3`, stride 3, stop `start + (width - 1) * 3`) stays in the
   * buffer, visits `width` pixels and adds exactly that row's terms.
   */
  lemma RowScan(lum: Luminance, s: seq<int8>, width: int, height: int, count: int, i: int, y: int, start: int, stop: int)
    requires IsImage(s, width, height) && 1 <= count <= height && 0 <= i < count
    requires y == StripeCenter(height, count, i) && start == RowStart(width, y)
    requires stop == Offset(start, BytesPerPixel, width - 1)
    ensures 0 <= start && start + 2 < |s| && stop + 2 < |s|
    ensures LinePixels(start, BytesPerPixel, stop) == width
    ensures Sum(RowsDiffs(lum, s, width, height, count, i + 1))
            == Sum(RowsDiffs(lum, s, width, height, count, i)) + Sum(LineDiffs(lum, s, start, BytesPerPixel, width))
  {
    PixelInBounds(width, height, 0, y);
    PixelInBounds(width, height, width - 1, y);
    RowOffset(width, y, 0);
    RowOffset(width, y, width - 1);
    LinePixelsExact(start, BytesPerPixel, width);
    SumConcat(RowsDiffs(lum, s, width, height, count, i), LineDiffs(lum, s, start, BytesPerPixel, width));
  }

  /**
   * Scanning the centre column of vertical stripe `i` as the scorer does (first
   * byte `x * 3`, stride `width * 3`, stop `start + (height - 1) * width * 3`)
   * stays in the buffer, visits `height` pixels and adds exactly that column's terms.
   */
  lemma ColumnScan(lum: Luminance, s: seq<int8>, width: int, height: int, count: int, i: int, x: int, start: int, stop: int)
    requires IsImage(s, width, height) && 1 <= count <= width && 0 <= i < count
    requires x == StripeCenter(width, count, i) && start == ColumnStart(x)
    requires stop == Offset(start, width * BytesPerPixel, height - 1)
    ensures 0 <= start && start + 2 < |s| && stop + 2 < |s|
    ensures LinePixels(start, width * BytesPerPixel, stop) == height
    ensures Sum(ColumnsDiffs(lum, s, width, height, count, i + 1))
            == Sum(ColumnsDiffs(lum, s, width, height, count, i)) + Sum(LineDiffs(lum, s, start, width * BytesPerPixel, height))
  {
    PixelInBounds(width, height, x, 0);
    PixelInBounds(width, height, x, height - 1);
    ColumnOffset(width, x, 0);
    ColumnOffset(width, x, height - 1);
    LinePixelsExact(start, width * BytesPerPixel, height);
    SumConcat(ColumnsDiffs(lum, s, width, height, count, i), LineDiffs(lum, s, start, width * BytesPerPixel, height));
  }

  /**
   * The first loop of getImageContrastScore: the contrast sums of the centre
   * rows of the `count` horizontal stripes, top to bottom.
   */
  method HorizontalStripesSum(bytes: array<int8>, lum: Luminance, width: int, height: int, count: int)
    returns (sum: real)
    requires IsImage(bytes[..], width, height) && 1 <= count <= height
    ensures sum == Sum(RowsDiffs(lum, bytes[..], width, height, count, count))
  {
    ghost var s := bytes[..];
    var horizontalStripesSize := height / count;
    sum := 0.0;
    var i := 0;
    while i < count
      invariant 0 <= i <= count
      invariant sum == Sum(RowsDiffs(lum, s, width, height, count, i))
    {
      var centerPixelsRowY := horizontalStripesSize * i + horizontalStripesSize / 2;
      assert centerPixelsRowY == StripeCenter(height, count, i);
      var startIndex := centerPixelsRowY * width * BytesPerPixel;
      assert startIndex == RowStart(width, centerPixelsRowY);
      var indexIncrement := BytesPerPixel;
      var stopIndex := startIndex + (width - 1) * indexIncrement;
      assert stopIndex == Offset(startIndex, indexIncrement, width - 1);
      RowScan(lum, s, width, height, count, i, centerPixelsRowY, startIndex, stopIndex);
      var lineSum := PixelLineContrastsSum(bytes, lum, startIndex, indexIncrement, stopIndex);
      sum := sum + lineSum;
      i := i + 1;
    }
  }

  /**
   * The second loop of getImageContrastScore: the contrast sums of the centre
   * columns of the `count` vertical stripes, left to right.
   */
  method VerticalStripesSum(bytes: array<int8>, lum: Luminance, width: int, height: int, count: int)
    returns (sum: real)
    requires IsImage(bytes[..], width, height) && 1 <= count <= width
    ensures sum == Sum(ColumnsDiffs(lum, bytes[..], width, height, count, count))
  {
    ghost var s := bytes[..];
    var verticalStripesSize := width / count;
    sum := 0.0;
    var i := 0;
    while i < count
      invariant 0 <= i <= count
      invariant sum == Sum(ColumnsDiffs(lum, s, width, height, count, i))
    {
      var centerPixelsColX := verticalStripesSize * i + verticalStripesSize / 2;
      assert centerPixelsColX == StripeCenter(width, count, i);
      var startIndex := centerPixelsColX * BytesPerPixel;
      assert startIndex == ColumnStart(centerPixelsColX);
      var indexIncrement := width * BytesPerPixel;
      var stopIndex := startIndex + (height - 1) * indexIncrement;
      assert stopIndex == Offset(startIndex, indexIncrement, height - 1);
      ColumnScan(lum, s, width, height, count, i, centerPixelsColX, startIndex, stopIndex);
      var lineSum := PixelLineContrastsSum(bytes, lum, startIndex, indexIncrement, stopIndex);
      sum := sum + lineSum;
      i := i + 1;
    }
  }

  /**
   * getImageContrastScore. `hTruncated` and `vTruncated` are the truncated
   * float products `(int)(height * sampleCoverage)` and `(int)(width * sampleCoverage)`.
   * The buffer is cast to a byte buffer before the type is tested, so an image
   * that is not byte-backed fails with ClassCast, not UnsupportedImageType.
   */
  method ImageContrastScore(kind: ImageKind, width: int, height: int, bytes: array<int8>, lum: Luminance,
                            hTruncated: int, vTruncated: int)
    returns (r: Result<Score, ScoreError>)
    requires 1 <= width && 1 <= height
    requires kind == ThreeByteBgr ==> IsImage(bytes[..], width, height)
    requires 0 <= hTruncated <= height && 0 <= vTruncated <= width
    ensures kind == NonByteType <==> r == Err(ClassCast)
    ensures kind == OtherByteType <==> r == Err(UnsupportedImageType)
    ensures kind == ThreeByteBgr ==> r == Ok(ContrastScore(lum, bytes[..], width, height, hTruncated, vTruncated))
  {
    if kind == NonByteType {
      return Err(ClassCast);
    }
    if kind != ThreeByteBgr {
      return Err(UnsupportedImageType);
    }
    var horizontalStripesCount := hTruncated;
    if horizontalStripesCount == 0 {
      horizontalStripesCount := Min(height, 100);
    }
    var verticalStripesCount := vTruncated;
    if verticalStripesCount == 0 {
      verticalStripesCount := Min(width, 100);
    }
    var sum := HorizontalStripesSum(bytes, lum, width, height, horizontalStripesCount);
    var columnsSum := VerticalStripesSum(bytes, lum, width, height, verticalStripesCount);
    sum := sum + columnsSum;
    ghost var d := SampledDiffs(lum, bytes[..], width, height, horizontalStripesCount, verticalStripesCount);
    SumConcat(RowsDiffs(lum, bytes[..], width, height, horizontalStripesCount, horizontalStripesCount),
              ColumnsDiffs(lum, bytes[..], width, height, verticalStripesCount, verticalStripesCount));
    var count := horizontalStripesCount * (width - 1) + verticalStripesCount * (height - 1);
    assert sum == Sum(d) && count == |d|;
    if count == 0 {
      r := Ok(NaN);
    } else {
      r := Ok(Average(sum / count as real));
    }
  }
}
