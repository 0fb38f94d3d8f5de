/**
 * What the contrast score means: its range, and its value on the images of
 * the unit tests (a uniform image, a chessboard and two zebras).
 */
module ContrastProperties {
  import opened ImageContrastEvaluation

  // ---------------------------------------------------------------------
  // Pixels and neighbouring pairs

  /** The channel values (red, green, blue) of the pixel at column `x`, row `y`. */
  function Pixel(s: seq<int8>, width: int, x: int, y: int): (int, int, int)
  {
    var k := PixelByte(width, x, y);
    (Unsigned(ByteAt(s, k + 2)), Unsigned(ByteAt(s, k + 1)), Unsigned(ByteAt(s, k)))
  }

  /** Contrast between the pixel at (x, y) and its right-hand neighbour. */
  function HorizontalContrast(lum: Luminance, s: seq<int8>, width: int, x: int, y: int): real
  {
    Contrast(lum, s, PixelByte(width, x + 1, y), PixelByte(width, x, y))
  }

  /** Contrast between the pixel at (x, y) and the one below it. */
  function VerticalContrast(lum: Luminance, s: seq<int8>, width: int, x: int, y: int): real
  {
    Contrast(lum, s, PixelByte(width, x, y + 1), PixelByte(width, x, y))
  }

  ghost predicate HorizontalPairsWithin(lum: Luminance, s: seq<int8>, width: int, height: int, lo: real, hi: real)
  {
    forall x, y :: 0 <= x < width - 1 && 0 <= y < height ==> lo <= HorizontalContrast(lum, s, width, x, y) <= hi
  }

  ghost predicate VerticalPairsWithin(lum: Luminance, s: seq<int8>, width: int, height: int, lo: real, hi: real)
  {
    forall x, y :: 0 <= x < width && 0 <= y < height - 1 ==> lo <= VerticalContrast(lum, s, width, x, y) <= hi
  }

  // ---------------------------------------------------------------------
  // From pairs of pixels to the scanned lines

  /** Every term of a row scan is the contrast of a horizontal pair of that row. */
  lemma RowLineWithin(lum: Luminance, s: seq<int8>, width: int, height: int, y: int, lo: real, hi: real)
    requires 1 <= width && 0 <= y < height
    requires HorizontalPairsWithin(lum, s, width, height, lo, hi)
    ensures AllWithin(LineDiffs(lum, s, RowStart(width, y), BytesPerPixel, width), lo, hi)
  {
    var d := LineDiffs(lum, s, RowStart(width, y), BytesPerPixel, width);
    forall j | 0 <= j < |d|
      ensures lo <= d[j] <= hi
    {
      LineDiffsAt(lum, s, RowStart(width, y), BytesPerPixel, width, j);
      RowOffset(width, y, j);
      RowOffset(width, y, j + 1);
      assert d[j] == HorizontalContrast(lum, s, width, j, y);
    }
  }

  /** Every term of a column scan is the contrast of a vertical pair of that column. */
  lemma ColumnLineWithin(lum: Luminance, s: seq<int8>, width: int, height: int, x: int, lo: real, hi: real)
    requires 1 <= height && 0 <= x < width
    requires VerticalPairsWithin(lum, s, width, height, lo, hi)
    ensures AllWithin(LineDiffs(lum, s, ColumnStart(x), width * BytesPerPixel, height), lo, hi)
  {
    var d := LineDiffs(lum, s, ColumnStart(x), width * BytesPerPixel, height);
    forall j | 0 <= j < |d|
      ensures lo <= d[j] <= hi
    {
      LineDiffsAt(lum, s, ColumnStart(x), width * BytesPerPixel, height, j);
      ColumnOffset(width, x, j);
      ColumnOffset(width, x, j + 1);
      assert d[j] == VerticalContrast(lum, s, width, x, j);
    }
  }

  lemma WithinConcat(a: seq<real>, b: seq<real>, lo: real, hi: real)
    requires AllWithin(a, lo, hi) && AllWithin(b, lo, hi)
    ensures AllWithin(a + b, lo, hi)
  {
    forall j | 0 <= j < |a + b|
      ensures lo <= (a + b)[j] <= hi
    {
      if j >= |a| {
        assert (a + b)[j] == b[j - |a|];
      }
    }
  }

  lemma {:induction false} RowsWithin(lum: Luminance, s: seq<int8>, width: int, height: int, count: int, k: nat, lo: real, hi: real)
    requires 1 <= width && 1 <= count <= height && k <= count
    requires HorizontalPairsWithin(lum, s, width, height, lo, hi)
    ensures AllWithin(RowsDiffs(lum, s, width, height, count, k), lo, hi)
  {
    if k > 0 {
      RowsWithin(lum, s, width, height, count, k - 1, lo, hi);
      var y := StripeCenter(height, count, k - 1);
      RowLineWithin(lum, s, width, height, y, lo, hi);
      WithinConcat(RowsDiffs(lum, s, width, height, count, k - 1),
                   LineDiffs(lum, s, RowStart(width, y), BytesPerPixel, width), lo, hi);
    }
  }

  lemma {:induction false} ColumnsWithin(lum: Luminance, s: seq<int8>, width: int, height: int, count: int, k: nat, lo: real, hi: real)
    requires 1 <= height && 1 <= count <= width && k <= count
    requires VerticalPairsWithin(lum, s, width, height, lo, hi)
    ensures AllWithin(ColumnsDiffs(lum, s, width, height, count, k), lo, hi)
  {
    if k > 0 {
      ColumnsWithin(lum, s, width, height, count, k - 1, lo, hi);
      var x := StripeCenter(width, count, k - 1);
      ColumnLineWithin(lum, s, width, height, x, lo, hi);
      WithinConcat(ColumnsDiffs(lum, s, width, height, count, k - 1),
                   LineDiffs(lum, s, ColumnStart(x), width * BytesPerPixel, height), lo, hi);
    }
  }

  // ---------------------------------------------------------------------
  // The score

  /** The scorer divides by zero, and so returns NaN, exactly on a 1x1 image. */
  lemma CountZeroOnlyForSinglePixel(width: int, height: int, hCount: int, vCount: int)
    requires 1 <= width && 1 <= height && 1 <= hCount <= height && 1 <= vCount <= width
    ensures hCount * (width - 1) + vCount * (height - 1) == 0 <==> width == 1 && height == 1
  {
    MulLeq(0, width - 1, hCount);
    MulLeq(0, height - 1, vCount);
    if width > 1 {
      MulLeq(1, width - 1, hCount);
    }
    if height > 1 {
      MulLeq(1, height - 1, vCount);
    }
  }

  /** The mean of `m` terms equal to `cm` and `n` terms equal to `cn`. */
  function WeightedMean(m: nat, n: nat, cm: real, cn: real): real
    requires m + n > 0
  {
    (m as real * cm + n as real * cn) / (m + n) as real
  }

  /** The mean of `a + b`, where every term of `a` is `ca` and every term of `b` is `cb`. */
  lemma MeanOfConstantParts(a: seq<real>, b: seq<real>, ca: real, cb: real)
    requires AllWithin(a, ca, ca) && AllWithin(b, cb, cb) && |a + b| > 0
    ensures Sum(a + b) / |a + b| as real == WeightedMean(|a|, |b|, ca, cb)
  {
    SumConstant(a, ca);
    SumConstant(b, cb);
    SumConcat(a, b);
  }

  /**
   * When every horizontal pair has contrast `cr` and every vertical pair has
   * contrast `cc`, the score is the mean of the row terms (all `cr`) and the
   * column terms (all `cc`), weighted by how many of each the scorer samples.
   */
  lemma ScoreOfConstantPairs(lum: Luminance, s: seq<int8>, width: int, height: int,
                             hTruncated: int, vTruncated: int, cr: real, cc: real)
    requires IsImage(s, width, height) && 0 <= hTruncated <= height && 0 <= vTruncated <= width
    requires width > 1 || height > 1
    requires HorizontalPairsWithin(lum, s, width, height, cr, cr)
    requires VerticalPairsWithin(lum, s, width, height, cc, cc)
    ensures var rows := StripesCount(height, hTruncated) * (width - 1);
            var columns := StripesCount(width, vTruncated) * (height - 1);
            0 <= rows && 0 <= columns && rows + columns > 0 &&
            ContrastScore(lum, s, width, height, hTruncated, vTruncated) == Average(WeightedMean(rows, columns, cr, cc))
  {
    var hc := StripesCount(height, hTruncated);
    var vc := StripesCount(width, vTruncated);
    var rows := RowsDiffs(lum, s, width, height, hc, hc);
    var columns := ColumnsDiffs(lum, s, width, height, vc, vc);
    CountZeroOnlyForSinglePixel(width, height, hc, vc);
    RowsDiffsLength(lum, s, width, height, hc, hc);
    ColumnsDiffsLength(lum, s, width, height, vc, vc);
    RowsWithin(lum, s, width, height, hc, hc, cr, cr);
    ColumnsWithin(lum, s, width, height, vc, vc, cc, cc);
    MeanOfConstantParts(rows, columns, cr, cc);
    var d := SampledDiffs(lum, s, width, height, hc, vc);
    assert d == rows + columns;
    assert ContrastScore(lum, s, width, height, hTruncated, vTruncated) == Average(Sum(d) / |d| as real);
    ghost var r := hc * (width - 1);
    ghost var c := vc * (height - 1);
    assert |rows| == r && |columns| == c;
  }

  /** The luminance table takes values in [0, 1], as the relative luminance does. */
  ghost predicate UnitLuminance(lum: Luminance)
  {
    forall r, g, b :: 0 <= r < 256 && 0 <= g < 256 && 0 <= b < 256 ==> 0.0 <= lum(r, g, b) <= 1.0
  }

  lemma ContrastWithinUnit(lum: Luminance, s: seq<int8>, k1: int, k0: int)
    requires UnitLuminance(lum)
    ensures 0.0 <= Contrast(lum, s, k1, k0) <= 1.0
  {
    var l1 := PixelLuminance(lum, s, k1);
    var l0 := PixelLuminance(lum, s, k0);
    assert 0.0 <= l1 <= 1.0 && 0.0 <= l0 <= 1.0;
  }

  /** A mean of terms in [lo, hi] lies in [lo, hi]. */
  lemma MeanWithin(d: seq<real>, lo: real, hi: real)
    requires AllWithin(d, lo, hi) && |d| > 0
    ensures lo <= Sum(d) / |d| as real <= hi
  {
    SumWithin(d, lo, hi);
    QuotientWithin(Sum(d), |d| as real, lo, hi);
  }

  lemma QuotientWithin(a: real, n: real, lo: real, hi: real)
    requires n > 0.0 && n * lo <= a <= n * hi
    ensures lo <= a / n <= hi
  {
    assert a / n * n == a;
  }

  /**
   * With a luminance table whose entries lie in [0, 1], the score is NaN on a
   * 1x1 image and otherwise lies in [0, 1].
   */
  lemma ScoreWithinUnitInterval(lum: Luminance, s: seq<int8>, width: int, height: int, hTruncated: int, vTruncated: int)
    requires IsImage(s, width, height) && 0 <= hTruncated <= height && 0 <= vTruncated <= width
    requires UnitLuminance(lum)
    ensures ContrastScore(lum, s, width, height, hTruncated, vTruncated) == NaN <==> width == 1 && height == 1
    ensures ContrastScore(lum, s, width, height, hTruncated, vTruncated).Average? ==>
              0.0 <= ContrastScore(lum, s, width, height, hTruncated, vTruncated).value <= 1.0
  {
    var hc := StripesCount(height, hTruncated);
    var vc := StripesCount(width, vTruncated);
    var d := SampledDiffs(lum, s, width, height, hc, vc);
    CountZeroOnlyForSinglePixel(width, height, hc, vc);
    forall x, y | 0 <= x < width - 1 && 0 <= y < height
      ensures 0.0 <= HorizontalContrast(lum, s, width, x, y) <= 1.0
    {
      ContrastWithinUnit(lum, s, PixelByte(width, x + 1, y), PixelByte(width, x, y));
    }
    forall x, y | 0 <= x < width && 0 <= y < height - 1
      ensures 0.0 <= VerticalContrast(lum, s, width, x, y) <= 1.0
    {
      ContrastWithinUnit(lum, s, PixelByte(width, x, y + 1), PixelByte(width, x, y));
    }
    RowsWithin(lum, s, width, height, hc, hc, 0.0, 1.0);
    ColumnsWithin(lum, s, width, height, vc, vc, 0.0, 1.0);
    assert AllWithin(d, 0.0, 1.0);
    if |d| > 0 {
      MeanWithin(d, 0.0, 1.0);
    }
  }

  // ---------------------------------------------------------------------
  // The test images

  const Black: (int, int, int) := (0, 0, 0)
  const White: (int, int, int) := (255, 255, 255)

  /** A `width` x `height` image whose pixel (x, y) is white where `white(x, y)` holds and black elsewhere. */
  ghost predicate Painted(s: seq<int8>, width: int, height: int, white: (int, int) -> bool)
  {
    IsImage(s, width, height) &&
    forall x, y :: 0 <= x < width && 0 <= y < height ==> Pixel(s, width, x, y) == if white(x, y) then White else Black
  }

  /** Every pixel has the colour of the top-left one. */
  ghost predicate Uniform(s: seq<int8>, width: int, height: int)
  {
    IsImage(s, width, height) &&
    forall x, y :: 0 <= x < width && 0 <= y < height ==> Pixel(s, width, x, y) == Pixel(s, width, 0, 0)
  }

  /** The table maps black to 0 and white to 1, as the relative luminance does. */
  ghost predicate BlackAndWhite(lum: Luminance)
  {
    lum(0, 0, 0) == 0.0 && lum(255, 255, 255) == 1.0
  }

  /** The luminance the scorer reads for a pixel is the table entry of its channels. */
  lemma PixelLuminanceOf(lum: Luminance, s: seq<int8>, width: int, x: int, y: int)
    ensures PixelLuminance(lum, s, PixelByte(width, x, y))
            == lum(Pixel(s, width, x, y).0, Pixel(s, width, x, y).1, Pixel(s, width, x, y).2)
  {
  }

  /** Two pixels of the same colour have contrast 0; black against white has contrast 1. */
  lemma PaintedContrast(lum: Luminance, s: seq<int8>, width: int, height: int, white: (int, int) -> bool,
                        x1: int, y1: int, x0: int, y0: int)
    requires Painted(s, width, height, white) && BlackAndWhite(lum)
    requires 0 <= x1 < width && 0 <= y1 < height && 0 <= x0 < width && 0 <= y0 < height
    ensures Contrast(lum, s, PixelByte(width, x1, y1), PixelByte(width, x0, y0))
            == if white(x1, y1) == white(x0, y0) then 0.0 else 1.0
  {
    PixelLuminanceOf(lum, s, width, x1, y1);
    PixelLuminanceOf(lum, s, width, x0, y0);
  }

  /** The successor of an integer has the other parity. */
  lemma ParityFlip(a: int)
    ensures ((a + 1) % 2 != 0) == (a % 2 == 0)
  {
  }

  lemma WeightedMeanOfEqualValues(m: nat, n: nat, c: real)
    requires m + n > 0
    ensures WeightedMean(m, n, c, c) == c
  {
    assert m as real * c + n as real * c == (m + n) as real * c;
  }

  lemma WeightedMeanOfEqualCounts(m: nat, cm: real, cn: real)
    requires m > 0
    ensures WeightedMean(m, m, cm, cn) == (cm + cn) / 2.0
  {
    assert m as real * cm + m as real * cn == (2 * m) as real * ((cm + cn) / 2.0);
  }

  /** A uniform image (the all-black test image among them) has score 0. */
  lemma UniformScore(lum: Luminance, s: seq<int8>, width: int, height: int, hTruncated: int, vTruncated: int)
    requires Uniform(s, width, height) && 0 <= hTruncated <= height && 0 <= vTruncated <= width
    requires width > 1 || height > 1
    ensures ContrastScore(lum, s, width, height, hTruncated, vTruncated) == Average(0.0)
  {
    forall x, y | 0 <= x < width - 1 && 0 <= y < height
      ensures HorizontalContrast(lum, s, width, x, y) == 0.0
    {
      PixelLuminanceOf(lum, s, width, x + 1, y);
      PixelLuminanceOf(lum, s, width, x, y);
    }
    forall x, y | 0 <= x < width && 0 <= y < height - 1
      ensures VerticalContrast(lum, s, width, x, y) == 0.0
    {
      PixelLuminanceOf(lum, s, width, x, y + 1);
      PixelLuminanceOf(lum, s, width, x, y);
    }
    ScoreOfConstantPairs(lum, s, width, height, hTruncated, vTruncated, 0.0, 0.0);
    var rows := StripesCount(height, hTruncated) * (width - 1);
    var columns := StripesCount(width, vTruncated) * (height - 1);
    WeightedMeanOfEqualValues(rows, columns, 0.0);
  }

  /** The chessboard of the tests: white where the coordinates have an odd sum. */
  predicate Chessboard(x: int, y: int)
  {
    (x + y) % 2 != 0
  }

  /** Vertical lines one pixel wide: white in the odd columns. */
  predicate VerticalLines(x: int, y: int)
  {
    x % 2 != 0
  }

  /** Horizontal lines one pixel high: white in the odd rows. */
  predicate HorizontalLines(x: int, y: int)
  {
    y % 2 != 0
  }

  /** Neighbouring squares of a chessboard have different colours. */
  lemma ChessboardFlip(x: int, y: int)
    ensures Chessboard(x + 1, y) != Chessboard(x, y) && Chessboard(x, y + 1) != Chessboard(x, y)
  {
    ParityFlip(x + y);
    assert x + 1 + y == x + (y + 1) == x + y + 1;
  }

  /** On a chessboard every neighbouring pair is black against white. */
  lemma ChessboardPairs(lum: Luminance, s: seq<int8>, width: int, height: int)
    requires Painted(s, width, height, Chessboard) && BlackAndWhite(lum)
    ensures HorizontalPairsWithin(lum, s, width, height, 1.0, 1.0)
    ensures VerticalPairsWithin(lum, s, width, height, 1.0, 1.0)
  {
    forall x, y | 0 <= x < width - 1 && 0 <= y < height
      ensures HorizontalContrast(lum, s, width, x, y) == 1.0
    {
      PaintedContrast(lum, s, width, height, Chessboard, x + 1, y, x, y);
      ChessboardFlip(x, y);
    }
    forall x, y | 0 <= x < width && 0 <= y < height - 1
      ensures VerticalContrast(lum, s, width, x, y) == 1.0
    {
      PaintedContrast(lum, s, width, height, Chessboard, x, y + 1, x, y);
      ChessboardFlip(x, y);
    }
  }

  /** On vertical lines the horizontal pairs differ and the vertical pairs agree. */
  lemma VerticalLinesPairs(lum: Luminance, s: seq<int8>, width: int, height: int)
    requires Painted(s, width, height, VerticalLines) && BlackAndWhite(lum)
    ensures HorizontalPairsWithin(lum, s, width, height, 1.0, 1.0)
    ensures VerticalPairsWithin(lum, s, width, height, 0.0, 0.0)
  {
    forall x, y | 0 <= x < width - 1 && 0 <= y < height
      ensures HorizontalContrast(lum, s, width, x, y) == 1.0
    {
      PaintedContrast(lum, s, width, height, VerticalLines, x + 1, y, x, y);
      ParityFlip(x);
    }
    forall x, y | 0 <= x < width && 0 <= y < height - 1
      ensures VerticalContrast(lum, s, width, x, y) == 0.0
    {
      PaintedContrast(lum, s, width, height, VerticalLines, x, y + 1, x, y);
    }
  }

  /** On horizontal lines the horizontal pairs agree and the vertical pairs differ. */
  lemma HorizontalLinesPairs(lum: Luminance, s: seq<int8>, width: int, height: int)
    requires Painted(s, width, height, HorizontalLines) && BlackAndWhite(lum)
    ensures HorizontalPairsWithin(lum, s, width, height, 0.0, 0.0)
    ensures VerticalPairsWithin(lum, s, width, height, 1.0, 1.0)
  {
    forall x, y | 0 <= x < width - 1 && 0 <= y < height
      ensures HorizontalContrast(lum, s, width, x, y) == 0.0
    {
      PaintedContrast(lum, s, width, height, HorizontalLines, x + 1, y, x, y);
    }
    forall x, y | 0 <= x < width && 0 <= y < height - 1
      ensures VerticalContrast(lum, s, width, x, y) == 1.0
    {
      PaintedContrast(lum, s, width, height, HorizontalLines, x, y + 1, x, y);
      ParityFlip(y);
    }
  }

  /** On a chessboard every scanned pair is black against white: the score is 1. */
  lemma ChessboardScore(lum: Luminance, s: seq<int8>, width: int, height: int, hTruncated: int, vTruncated: int)
    requires Painted(s, width, height, Chessboard) && BlackAndWhite(lum)
    requires 0 <= hTruncated <= height && 0 <= vTruncated <= width
    requires width > 1 || height > 1
    ensures ContrastScore(lum, s, width, height, hTruncated, vTruncated) == Average(1.0)
  {
    ChessboardPairs(lum, s, width, height);
    ScoreOfConstantPairs(lum, s, width, height, hTruncated, vTruncated, 1.0, 1.0);
    var rows := StripesCount(height, hTruncated) * (width - 1);
    var columns := StripesCount(width, vTruncated) * (height - 1);
    WeightedMeanOfEqualValues(rows, columns, 1.0);
  }

  /**
   * Full-height vertical black and white lines: the rows score 1, the columns
   * 0. On a square image with equal stripe counts the score is 0.5.
   */
  lemma VerticalZebraScore(lum: Luminance, s: seq<int8>, width: int, height: int, hTruncated: int, vTruncated: int)
    requires Painted(s, width, height, VerticalLines) && BlackAndWhite(lum)
    requires 0 <= hTruncated <= height && 0 <= vTruncated <= width
    requires 2 <= width == height && hTruncated == vTruncated
    ensures ContrastScore(lum, s, width, height, hTruncated, vTruncated) == Average(0.5)
  {
    VerticalLinesPairs(lum, s, width, height);
    ScoreOfConstantPairs(lum, s, width, height, hTruncated, vTruncated, 1.0, 0.0);
    WeightedMeanOfEqualCounts(StripesCount(height, hTruncated) * (width - 1), 1.0, 0.0);
  }

  /** Full-width horizontal lines: the rows score 0, the columns 1; 0.5 on a square image. */
  lemma HorizontalZebraScore(lum: Luminance, s: seq<int8>, width: int, height: int, hTruncated: int, vTruncated: int)
    requires Painted(s, width, height, HorizontalLines) && BlackAndWhite(lum)
    requires 0 <= hTruncated <= height && 0 <= vTruncated <= width
    requires 2 <= width == height && hTruncated == vTruncated
    ensures ContrastScore(lum, s, width, height, hTruncated, vTruncated) == Average(0.5)
  {
    HorizontalLinesPairs(lum, s, width, height);
    ScoreOfConstantPairs(lum, s, width, height, hTruncated, vTruncated, 0.0, 1.0);
    WeightedMeanOfEqualCounts(StripesCount(height, hTruncated) * (width - 1), 0.0, 1.0);
  }
}
