/** What every pixel of a read shows. */
module PngPixels {
  // Which bytes of the decoded rows each pixel comes from, for every colour type and bit depth the reader takes, after
  // sections 2.3 and 4.1 of RFC 2083.

  import opened PngFilters
  import opened PngImage
  import opened PngPadding
  import opened PngRoundTrip

  /** Sample `x` of a row of packed samples: the first sample is in the high bits of the first byte. */
  function PackedSample(row: seq<byte>, depth: nat, x: nat): nat
    requires 1 <= depth < 8 && x / (8 / depth) < |row|
  {
    var b := row[x / (8 / depth)];
    b / Power2(8 - depth * (x % (8 / depth) + 1)) % Power2(depth)
  }

  /** The byte nearest to a sample scaled from its depth to 255. */
  predicate Scaled(v: nat, depth: nat, g: int) {
    0 < Power2(depth) + 2 * ((Power2(depth) - 1) * g - 255 * v) < 2 * Power2(depth)
  }

  /** The colour of a palette index, with the alpha value of the transparency chunk; transparent black beyond it. */
  function PaletteColour(g: Gathered, index: nat): Pixel {
    if index >= |g.palette| then Pixel(0, 0, 0, 0)
    else
      var c := g.palette[index];
      Pixel(c.r, c.g, c.b, if index < |g.transparency| then g.transparency[index] else c.a)
  }

  /** Pixel `x` of a row is this one. */
  predicate Shows(h: Header, g: Gathered, row: seq<byte>, x: nat, p: Pixel) {
    match h.color
    case 0 =>
      && p.r == p.g == p.b && p.a == 255
      && (if h.depth == 8 then x < |row| && p.r == row[x]
          else 1 <= h.depth < 8 && x / (8 / h.depth) < |row| && Scaled(PackedSample(row, h.depth, x), h.depth, p.r))
    case 2 => 3 * x + 2 < |row| && p == Pixel(row[3 * x], row[3 * x + 1], row[3 * x + 2], 255)
    case 3 =>
      if h.depth == 8 then x < |row| && p == PaletteColour(g, row[x])
      else 1 <= h.depth < 8 && x / (8 / h.depth) < |row| && p == PaletteColour(g, PackedSample(row, h.depth, x))
    case 4 => 2 * x + 1 < |row| && p == Pixel(row[2 * x], row[2 * x], row[2 * x], row[2 * x + 1])
    case 6 => 4 * x + 3 < |row| && p == Pixel(row[4 * x], row[4 * x + 1], row[4 * x + 2], row[4 * x + 3])
    case _ => false
  }

  // ----- Packed samples -----

  lemma PackedBounds(depth: nat, x: nat)
    requires 1 <= depth < 8
    ensures x % (8 / depth) < 8 / depth && depth * (x % (8 / depth) + 1) <= 8
  {
    SampleFits(depth, x % (8 / depth));
  }

  /** The samples of the first byte, and those of the rest. */
  lemma SamplesUnfold(row: seq<byte>, depth: nat) returns (first: seq<nat>)
    requires 1 <= depth < 8 && row != []
    ensures |first| == 8 / depth && AllSamples(row, depth) == first + AllSamples(row[1..], depth)
    ensures forall i :: 0 <= i < 8 / depth ==> first[i] == Sample(row[0], depth, i)
  {
    first := seq(8 / depth, i requires 0 <= i < 8 / depth => Sample(row[0], depth, i));
    hide Sample, Power2;
  }

  lemma {:induction false} SamplesAt(row: seq<byte>, depth: nat, x: nat)
    requires 1 <= depth < 8 && x < |AllSamples(row, depth)|
    ensures x / (8 / depth) < |row| && AllSamples(row, depth)[x] == PackedSample(row, depth, x)
    decreases |row|
  {
    if row == [] {
      assert false;
    }
    var first := SamplesUnfold(row, depth);
    var k := 8 / depth;
    hide AllSamples, Power2;
    if x < k {
      FirstByte(x, k);
      PackedBounds(depth, x);
    } else {
      SamplesAt(row[1..], depth, x - k);
      StepBack(x, k);
      PackedRest(row, depth, x);
    }
  }

  lemma FirstByte(x: nat, k: nat)
    requires x < k
    ensures x / k == 0 && x % k == x
  {
  }

  lemma PackedRest(row: seq<byte>, depth: nat, x: nat)
    requires 1 <= depth < 8 && row != [] && x >= 8 / depth && (x - 8 / depth) / (8 / depth) < |row[1..]|
    ensures x / (8 / depth) < |row| && PackedSample(row[1..], depth, x - 8 / depth) == PackedSample(row, depth, x)
  {
    var k := 8 / depth;
    StepBack(x, k);
    hide Power2;
    assert row[1..][(x - k) / k] == row[x / k];
  }

  lemma StepBack(x: nat, k: nat)
    requires k >= 1 && x >= k
    ensures (x - k) / k == x / k - 1 && (x - k) % k == x % k
  {
    var q, r := x / k, x % k;
    assert x == q * k + r;
    assert q >= 1;
    assert x - k == (q - 1) * k + r;
    Quotient(x - k, q - 1, r, k);
  }

  lemma ScaleIsNearest(v: nat, depth: nat)
    requires 1 <= depth < 8 && v < Power2(depth)
    ensures Scaled(v, depth, ScaleGray(v, depth))
  {
    var most := Power2(depth) - 1;
    assert most >= 1 by { assert Power2(depth) == 2 * Power2(depth - 1); }
    hide Power2;
    Rounded(v, most, ScaleGray(v, depth));
  }

  lemma Rounded(v: nat, most: nat, g: int)
    requires most >= 1 && g == (510 * v + most) / (2 * most)
    ensures 0 <= most + 2 * (most * g - 255 * v) <= 2 * most
  {
    var a := 510 * v + most;
    assert a == g * (2 * most) + a % (2 * most);
    assert g * (2 * most) == 2 * (most * g);
  }

  // ----- One row -----

  lemma OverlaidColour(g: Gathered, index: nat)
    ensures Lookup(FinalPalette(g), index) == PaletteColour(g, index)
  {
  }

  lemma UnpackedAt(row: seq<byte>, depth: byte, width: nat, x: nat)
    requires 1 <= depth < 8 && UnpackBits(row, depth, width).Ok? && x < |UnpackBits(row, depth, width).value|
    ensures x / (8 / depth) < |row| && UnpackBits(row, depth, width).value[x] == PackedSample(row, depth, x)
    ensures PackedSample(row, depth, x) < Power2(depth)
  {
    SamplesAt(row, depth, x);
    assert UnpackBits(row, depth, width).value[x] == AllSamples(row, depth)[x];
    hide AllSamples, PackedSample, Power2;
  }

  lemma GrayRow(row: seq<byte>, h: Header, g: Gathered, x: nat)
    requires h.color == 0 && RowPixels(row, h, FinalPalette(g)).Ok? && x < |RowPixels(row, h, FinalPalette(g)).value|
    ensures Shows(h, g, row, x, RowPixels(row, h, FinalPalette(g)).value[x])
  {
    if h.depth < 8 {
      UnpackedAt(row, h.depth, h.width, x);
      ScaleIsNearest(PackedSample(row, h.depth, x), h.depth);
      hide PackedSample, UnpackBits, ScaleGray, Power2, Scaled;
    }
  }

  lemma PaletteRow(row: seq<byte>, h: Header, g: Gathered, x: nat)
    requires h.color == 3 && RowPixels(row, h, FinalPalette(g)).Ok? && x < |RowPixels(row, h, FinalPalette(g)).value|
    ensures Shows(h, g, row, x, RowPixels(row, h, FinalPalette(g)).value[x])
  {
    if 1 <= h.depth < 8 {
      UnpackedAt(row, h.depth, h.width, x);
      OverlaidColour(g, PackedSample(row, h.depth, x));
      hide PackedSample, UnpackBits, Power2, Lookup, FinalPalette, PaletteColour;
    } else if h.depth == 8 {
      OverlaidColour(g, row[x]);
      hide Lookup, FinalPalette, PaletteColour;
    }
  }

  lemma RowShows(row: seq<byte>, h: Header, g: Gathered, x: nat)
    requires RowPixels(row, h, FinalPalette(g)).Ok? && x < |RowPixels(row, h, FinalPalette(g)).value|
    ensures Shows(h, g, row, x, RowPixels(row, h, FinalPalette(g)).value[x])
  {
    if h.color == 0 {
      GrayRow(row, h, g, x);
    } else if h.color == 3 {
      PaletteRow(row, h, g, x);
    }
  }

  // ----- The whole image -----

  lemma {:induction false} RowsShow(rows: seq<seq<byte>>, h: Header, g: Gathered, y: nat, x: nat)
    requires h.color in {0, 2, 3, 4, 6} && y < |rows| && x < RowCount(h)
    requires forall i :: 0 <= i < |rows| ==> |rows[i]| == RowLength(h)
    requires AllPixels(rows, h, FinalPalette(g)).Ok?
    ensures var pixels := AllPixels(rows, h, FinalPalette(g)).value;
            && 0 <= y * RowCount(h) + x < |pixels| && Shows(h, g, rows[y], x, pixels[y * RowCount(h) + x])
    decreases |rows|
  {
    hide RowPixels, RowLength, RowCount, Shows, FinalPalette;
    RowGives(rows[0], h, FinalPalette(g));
    RowsGive(rows, h, FinalPalette(g));
    var w := RowCount(h);
    if y == 0 {
      RowShows(rows[0], h, g, x);
    } else {
      RowsShow(rows[1..], h, g, y - 1, x);
      assert y * w + x == w + ((y - 1) * w + x);
    }
  }

  /**
   * Every pixel of a read that succeeds shows what the decoded rows hold at its place; with the widths that the rows
   * hold, that is row by row and column by column.
   */
  lemma ReadShows(inflate: seq<byte> -> Option<seq<byte>>, data: seq<byte>, y: nat, x: nat)
    requires Read(inflate, data).Ok?
    ensures ReadChunks(data, 8, NOTHING).Ok? && ReadChunks(data, 8, NOTHING).value.header.Some?
    ensures var g := ReadChunks(data, 8, NOTHING).value;
            var h := g.header.value;
            var im := Read(inflate, data).value;
            && SIGNATURE <= data && h.interlace == 0 && h.color in {0, 2, 3, 4, 6} && inflate(g.idat).Some?
            && (var rows := UnfilterImage(inflate(g.idat).value, 0, h.height, FilterStep(h), Zeros(RowLength(h)));
                && rows.Ok? && |rows.value| == im.height
                && (HoldsWidth(h) && y < im.height && x < im.width ==>
                      && 0 <= y * im.width + x < |im.pixels|
                      && Shows(h, g, rows.value[y], x, im.pixels[y * im.width + x])))
  {
    hide ReadChunks, UnfilterImage, AllPixels, FilterStep, RowLength, RowCount, Shows, FinalPalette;
    var g := ReadChunks(data, 8, NOTHING).value;
    var h := g.header.value;
    var raw := inflate(g.idat).value;
    UnfilteredRowLength(raw, 0, h.height, FilterStep(h), Zeros(RowLength(h)));
    var rows := UnfilterImage(raw, 0, h.height, FilterStep(h), Zeros(RowLength(h))).value;
    if HoldsWidth(h) && y < h.height && x < h.width {
      CountIsWidth(h);
      RowsShow(rows, h, g, y, x);
    }
  }

  /**
   * The step of the filters, after section 6 of RFC 2083: the whole bytes of a pixel, or one byte where a pixel has
   * less; and a row has as many bytes as its bits need.
   */
  lemma FilterStepExactly(h: Header)
    requires h.color in {0, 2, 3, 4, 6}
    ensures h.depth in {1, 2, 4} ==> FilterStep(h) == 1
    ensures h.depth == 8 ==> FilterStep(h) == match h.color case 0 => 1 case 2 => 3 case 3 => 1 case 4 => 2 case _ => 4
    ensures h.depth == 16 ==> FilterStep(h) == match h.color case 0 => 2 case 2 => 6 case 3 => 2 case 4 => 4 case _ => 8
    ensures RowLength(h) * 8 >= h.width * h.depth * match h.color case 0 => 1 case 2 => 3 case 3 => 1 case 4 => 2 case _ => 4
    ensures RowLength(h) * 8
          < h.width * h.depth * (match h.color case 0 => 1 case 2 => 3 case 3 => 1 case 4 => 2 case _ => 4) + 8
  {
    var n := Channels(h.color);
    assert h.width * n * h.depth == h.width * h.depth * n;
  }

  lemma CountIsWidth(h: Header)
    requires h.color in {0, 2, 3, 4, 6} && HoldsWidth(h) && h.height > 0 && h.width > 0
    ensures RowCount(h) == h.width
  {
    hide RowLength;
  }

  // ----- What the chunks come to -----

  /** The data of all IDAT chunks, one after the other. */
  function JoinedData(cs: seq<Chunk>): seq<byte> {
    if cs == [] then [] else (if cs[0].kind == IDAT then cs[0].data else []) + JoinedData(cs[1..])
  }

  /** The data of the last chunk of a kind, if there is one. */
  function LastOf(cs: seq<Chunk>, kind: seq<byte>): Option<seq<byte>> {
    if cs == [] then None
    else if cs[|cs| - 1].kind == kind then Some(cs[|cs| - 1].data)
    else LastOf(cs[..|cs| - 1], kind)
  }

  lemma KindsApart()
    ensures IHDR != PLTE && IHDR != TRNS && IHDR != IDAT && PLTE != TRNS && PLTE != IDAT && TRNS != IDAT
  {
    assert IHDR[0] != PLTE[0] && IHDR[0] != TRNS[0] && IHDR[1] != IDAT[1] && PLTE[0] != TRNS[0] && PLTE[0] != IDAT[0]
        && TRNS[0] != IDAT[0];
  }

  lemma {:induction false} AbsorbLast(g: Gathered, cs: seq<Chunk>, c: Chunk)
    ensures AbsorbAll(g, cs + [c])
         == if AbsorbAll(g, cs).Err? then AbsorbAll(g, cs) else Absorb(AbsorbAll(g, cs).value, c)
    decreases |cs|
  {
    hide Absorb;
    if cs == [] {
      assert cs + [c] == [c] && [c][1..] == [];
    } else {
      assert (cs + [c])[1..] == cs[1..] + [c];
      if Absorb(g, cs[0]).Ok? {
        AbsorbLast(Absorb(g, cs[0]).value, cs[1..], c);
      }
    }
  }

  lemma {:induction false} JoinLast(cs: seq<Chunk>, c: Chunk)
    ensures JoinedData(cs + [c]) == JoinedData(cs) + if c.kind == IDAT then c.data else []
  {
    if cs == [] {
      assert cs + [c] == [c] && [c][1..] == [];
    } else {
      assert (cs + [c])[1..] == cs[1..] + [c];
      JoinLast(cs[1..], c);
    }
  }

  /** The palette has the colours of these bytes. */
  ghost predicate Colours(palette: seq<Pixel>, data: seq<byte>) {
    && |data| == 3 * |palette|
    && forall i :: 0 <= i < |palette| ==> palette[i] == Pixel(data[3 * i], data[3 * i + 1], data[3 * i + 2], 255)
  }

  ghost predicate Gathers(g: Gathered, cs: seq<Chunk>) {
    && g.idat == JoinedData(cs)
    && (if LastOf(cs, IHDR).None? then g.header == None
        else |LastOf(cs, IHDR).value| == 13 && g.header == Some(ParseHeader(LastOf(cs, IHDR).value)))
    && (if LastOf(cs, TRNS).None? then g.transparency == [] else g.transparency == LastOf(cs, TRNS).value)
    && (if LastOf(cs, PLTE).None? then g.palette == [] else Colours(g.palette, LastOf(cs, PLTE).value))
  }

  lemma PaletteColours(data: seq<byte>)
    requires |data| % 3 == 0
    ensures Colours(ParsePalette(data), data)
  {
  }

  lemma LastOfLast(cs: seq<Chunk>, c: Chunk, kind: seq<byte>)
    ensures LastOf(cs + [c], kind) == if c.kind == kind then Some(c.data) else LastOf(cs, kind)
  {
    assert (cs + [c])[..|cs|] == cs;
  }

  lemma GathersLast(g: Gathered, cs: seq<Chunk>, c: Chunk)
    requires Gathers(g, cs) && Absorb(g, c).Ok?
    ensures Gathers(Absorb(g, c).value, cs + [c])
  {
    hide ParseHeader, ParsePalette, JoinedData, LastOf, Colours, IDAT, IHDR, PLTE, TRNS;
    KindsApart();
    JoinLast(cs, c);
    LastOfLast(cs, c, IHDR);
    LastOfLast(cs, c, TRNS);
    LastOfLast(cs, c, PLTE);
    if c.kind == PLTE && |c.data| % 3 == 0 {
      PaletteColours(c.data);
    }
    assert JoinedData(cs) + [] == JoinedData(cs);
  }

  /**
   * What the chunk loop gathers: the compressed data joined in order, and of header, palette and transparency the last
   * chunk of each kind; any other chunk makes no difference.
   */
  lemma {:induction false} GatheredIs(cs: seq<Chunk>)
    requires AbsorbAll(NOTHING, cs).Ok?
    ensures Gathers(AbsorbAll(NOTHING, cs).value, cs)
    decreases |cs|
  {
    if cs == [] {
    } else {
      hide Absorb, AbsorbAll, Gathers;
      var before, last := cs[..|cs| - 1], cs[|cs| - 1];
      assert cs == before + [last];
      AbsorbLast(NOTHING, before, last);
      GatheredIs(before);
      GathersLast(AbsorbAll(NOTHING, before).value, before, last);
    }
  }
}
