/** `padded_pixels` of `scripts/pad-pwa-icons.py`, with the target size already rounded to whole pixels: which
    source pixel each target pixel takes, and what the two nested loops leave in the list of pixels. */
module PngPadding {
  import opened PngFilters
  import opened PngImage

  const CLEAR := Pixel(0, 0, 0, 0)

  function Times(a: nat, b: nat): nat {
    a * b
  }

  function Over(a: nat, d: nat): nat
    requires d > 0
  {
    a / d
  }

  /** The source pixel under the centre of target pixel `x` of `target`, on an axis of `size` pixels. */
  function SampleAt(x: nat, size: nat, target: nat): nat
    requires 1 <= target && 1 <= size
  {
    Min(size - 1, Over(Times(2 * x + 1, size), 2 * target))
  }

  /** The centre really lies in that pixel, so the clamp to the edge never bites. */
  lemma SampleHoldsCentre(x: nat, size: nat, target: nat)
    requires x < target <= size
    ensures var s := SampleAt(x, size, target);
            s < size && s * (2 * target) <= (2 * x + 1) * size < (s + 1) * (2 * target)
  {
    var a, d := (2 * x + 1) * size, 2 * target;
    Floor(a, d);
    assert a < size * d by {
      assert (2 * x + 1) * size <= (2 * target - 1) * size;
      assert (2 * target - 1) * size == size * d - size;
    }
    DivBelow(a, size, d);
  }

  lemma Floor(a: nat, d: nat)
    requires d > 0
    ensures a / d * d <= a < (a / d + 1) * d
  {
    assert a == a / d * d + a % d;
  }

  /** Later target pixels never take earlier source pixels. */
  lemma SampleMonotone(x: nat, y: nat, size: nat, target: nat)
    requires x <= y < target <= size
    ensures SampleAt(x, size, target) <= SampleAt(y, size, target)
  {
    SampleHoldsCentre(x, size, target);
    SampleHoldsCentre(y, size, target);
    var s, t, d := SampleAt(x, size, target), SampleAt(y, size, target), 2 * target;
    assert (2 * x + 1) * size <= (2 * y + 1) * size by { TimesMonotone(2 * x + 1, 2 * y + 1, size); }
    if t < s {
      TimesMonotone(t + 1, s, d);
      assert false;
    }
  }

  lemma TimesMonotone(a: nat, b: nat, d: nat)
    requires a <= b
    ensures a * d <= b * d
  {
  }

  /** At full size every pixel takes itself. */
  lemma SampleIdentity(x: nat, size: nat)
    requires x < size
    ensures SampleAt(x, size, size) == x
  {
    assert (2 * x + 1) * size == x * (2 * size) + size;
    Quotient((2 * x + 1) * size, x, size, 2 * size);
  }

  lemma Quotient(a: nat, q: nat, r: nat, d: nat)
    requires r < d && a == q * d + r
    ensures a / d == q && a % d == r
  {
    var e := a / d;
    assert a == e * d + a % d;
    if e < q {
      TimesMonotone(e + 1, q, d);
    } else if q < e {
      TimesMonotone(q + 1, e, d);
    }
  }

  /** Where the shrunken picture sits, and whether a row and column lie in it. */
  datatype Box = Box(width: nat, height: nat, targetWidth: nat, targetHeight: nat)

  predicate ValidBox(b: Box) {
    1 <= b.targetWidth <= b.width && 1 <= b.targetHeight <= b.height
  }

  function Left(b: Box): nat
    requires ValidBox(b)
  {
    (b.width - b.targetWidth) / 2
  }

  function Top(b: Box): nat
    requires ValidBox(b)
  {
    (b.height - b.targetHeight) / 2
  }

  predicate Inside(b: Box, r: int, c: int)
    requires ValidBox(b)
  {
    Top(b) <= r < Top(b) + b.targetHeight && Left(b) <= c < Left(b) + b.targetWidth
  }

  lemma CellInRange(b: Box, r: nat, c: nat)
    requires r < b.height && c < b.width
    ensures r * b.width + c < b.width * b.height
    ensures (r * b.width + c) / b.width == r && (r * b.width + c) % b.width == c
  {
    TimesMonotone(r + 1, b.height, b.width);
    assert (r + 1) * b.width == r * b.width + b.width;
    Quotient(r * b.width + c, r, c, b.width);
  }

  function Cell(b: Box, r: nat, c: nat): (k: nat)
    requires r < b.height && c < b.width
    ensures k < b.width * b.height
  {
    CellInRange(b, r, c);
    r * b.width + c
  }

  function SourcePixel(b: Box, source: seq<Pixel>, r: nat, c: nat): Pixel
    requires r < b.height && c < b.width && |source| == b.width * b.height
  {
    source[Cell(b, r, c)]
  }

  function SampleRow(b: Box, r: nat): (y: nat)
    requires ValidBox(b) && r < b.targetHeight
    ensures y < b.height
  {
    SampleHoldsCentre(r, b.height, b.targetHeight);
    SampleAt(r, b.height, b.targetHeight)
  }

  function SampleColumn(b: Box, c: nat): (x: nat)
    requires ValidBox(b) && c < b.targetWidth
    ensures x < b.width
  {
    SampleHoldsCentre(c, b.width, b.targetWidth);
    SampleAt(c, b.width, b.targetWidth)
  }

  /** The pixel at row `r` and column `c` of the padded picture. */
  function PaddedAt(b: Box, source: seq<Pixel>, r: nat, c: nat): Pixel
    requires ValidBox(b) && |source| == b.width * b.height
  {
    if Inside(b, r, c) then SourcePixel(b, source, SampleRow(b, r - Top(b)), SampleColumn(b, c - Left(b))) else CLEAR
  }

  /** At full size the picture is unchanged. */
  lemma FullSizeUnchanged(b: Box, source: seq<Pixel>, r: nat, c: nat)
    requires ValidBox(b) && |source| == b.width * b.height && b.targetWidth == b.width && b.targetHeight == b.height
    requires r < b.height && c < b.width
    ensures PaddedAt(b, source, r, c) == SourcePixel(b, source, r, c)
  {
    SampleIdentity(r, b.height);
    SampleIdentity(c, b.width);
  }

  function RowOf(i: nat, w: nat): nat
    requires w > 0
  {
    Over(i, w)
  }

  function ColumnOf(i: nat, w: nat): nat
    requires w > 0
  {
    i % w
  }

  /** The part of the picture that rows before `y`, and columns before `x` of row `y`, have filled. */
  predicate Done(b: Box, r: nat, c: nat, y: nat, x: nat)
    requires ValidBox(b)
  {
    Inside(b, r, c) && (r < Top(b) + y || (r == Top(b) + y && c < Left(b) + x))
  }

  /** The two nested loops, over one list of pixels; the rest stays clear. */
  method PaddedPixels(b: Box, source: seq<Pixel>) returns (output: array<Pixel>)
    requires ValidBox(b) && |source| == b.width * b.height
    ensures output.Length == b.width * b.height
    ensures forall i :: 0 <= i < output.Length ==> output[i] == PaddedAt(b, source, RowOf(i, b.width), ColumnOf(i, b.width))
  {
    hide SampleAt, Left, Top, Cell, PaddedAt, RowOf, ColumnOf, Times, Over;
    var offsetX, offsetY := (b.width - b.targetWidth) / 2, (b.height - b.targetHeight) / 2;
    BoxFits(b);
    output := new Pixel[b.width * b.height](_ => CLEAR);
    for y := 0 to b.targetHeight
      invariant FilledTo(b, source, output[..], y, 0)
    {
      var sourceY := Min(b.height - 1, Over(Times(2 * y + 1, b.height), 2 * b.targetHeight));
      for x := 0 to b.targetWidth
        invariant FilledTo(b, source, output[..], y, x)
      {
        var sourceX := Min(b.width - 1, Over(Times(2 * x + 1, b.width), 2 * b.targetWidth));
        var from := Times(sourceY, b.width) + sourceX;
        var to := Times(offsetY + y, b.width) + (offsetX + x);
        SourceIs(b, source, y, x, sourceY, sourceX, from);
        CellIs(b, offsetY + y, offsetX + x, to);
        FillOne(b, source, output[..], y, x, to, source[from]);
        output[to] := source[from];
      }
      RowDone(b, source, output[..], y);
    }
    AllDone(b, source, output[..]);
  }

  lemma CellIs(b: Box, r: nat, c: nat, k: nat)
    requires r < b.height && c < b.width && k == Times(r, b.width) + c
    ensures k == Cell(b, r, c) && k < b.width * b.height
  {
  }

  /** The arithmetic of the loops finds the pixel that the padded picture has there. */
  lemma SourceIs(b: Box, source: seq<Pixel>, y: nat, x: nat, sourceY: nat, sourceX: nat, from: nat)
    requires ValidBox(b) && |source| == b.width * b.height && y < b.targetHeight && x < b.targetWidth
    requires sourceY == Min(b.height - 1, Over(Times(2 * y + 1, b.height), 2 * b.targetHeight))
    requires sourceX == Min(b.width - 1, Over(Times(2 * x + 1, b.width), 2 * b.targetWidth))
    requires from == Times(sourceY, b.width) + sourceX
    ensures from < |source| && source[from] == PaddedAt(b, source, Top(b) + y, Left(b) + x)
  {
    hide Top, Left, Times, Over, Cell;
    assert sourceY == SampleRow(b, y) && sourceX == SampleColumn(b, x);
    CellIs(b, sourceY, sourceX, from);
  }

  lemma BoxFits(b: Box)
    requires ValidBox(b)
    ensures Top(b) + b.targetHeight <= b.height && Left(b) + b.targetWidth <= b.width
    ensures Top(b) == (b.height - b.targetHeight) / 2 && Left(b) == (b.width - b.targetWidth) / 2
  {
  }

  function PixelAt(b: Box, source: seq<Pixel>, r: nat, c: nat, y: nat, x: nat): Pixel
    requires ValidBox(b) && |source| == b.width * b.height
  {
    if Done(b, r, c, y, x) then PaddedAt(b, source, r, c) else CLEAR
  }

  ghost predicate FilledTo(b: Box, source: seq<Pixel>, out: seq<Pixel>, y: nat, x: nat)
    requires ValidBox(b) && |source| == b.width * b.height
  {
    && |out| == b.width * b.height
    && forall i {:trigger out[i]} :: 0 <= i < |out| ==>
         out[i] == PixelAt(b, source, RowOf(i, b.width), ColumnOf(i, b.width), y, x)
  }

  lemma FillOne(b: Box, source: seq<Pixel>, out: seq<Pixel>, y: nat, x: nat, k: nat, pixel: Pixel)
    requires ValidBox(b) && |source| == b.width * b.height && FilledTo(b, source, out, y, x)
    requires y < b.targetHeight && x < b.targetWidth && Top(b) + y < b.height && Left(b) + x < b.width
    requires k == Cell(b, Top(b) + y, Left(b) + x) && k < |out|
    requires pixel == PaddedAt(b, source, Top(b) + y, Left(b) + x)
    ensures FilledTo(b, source, out[k := pixel], y, x + 1)
  {
    CellInRange(b, Top(b) + y, Left(b) + x);
    assert RowOf(k, b.width) == Top(b) + y && ColumnOf(k, b.width) == Left(b) + x;
    hide PaddedAt, Top, Left, Cell, RowOf, ColumnOf;
    var out' := out[k := pixel];
    forall i {:trigger out'[i]} | 0 <= i < |out'|
      ensures out'[i] == PixelAt(b, source, RowOf(i, b.width), ColumnOf(i, b.width), y, x + 1)
    {
      SameCell(i, k, b.width);
    }
  }

  lemma SameCell(i: nat, k: nat, w: nat)
    requires w > 0
    ensures RowOf(i, w) == RowOf(k, w) && ColumnOf(i, w) == ColumnOf(k, w) ==> i == k
  {
    assert i == i / w * w + i % w && k == k / w * w + k % w;
  }

  lemma RowDone(b: Box, source: seq<Pixel>, out: seq<Pixel>, y: nat)
    requires ValidBox(b) && |source| == b.width * b.height && FilledTo(b, source, out, y, b.targetWidth)
    ensures FilledTo(b, source, out, y + 1, 0)
  {
    hide PaddedAt, Top, Left, RowOf, ColumnOf;
  }

  lemma AllDone(b: Box, source: seq<Pixel>, out: seq<Pixel>)
    requires ValidBox(b) && |source| == b.width * b.height && FilledTo(b, source, out, b.targetHeight, 0)
    ensures forall i :: 0 <= i < |out| ==> out[i] == PaddedAt(b, source, RowOf(i, b.width), ColumnOf(i, b.width))
  {
    hide Top, Left, RowOf, ColumnOf, SampleRow, SampleColumn, SourcePixel;
  }
}
