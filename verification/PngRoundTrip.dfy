/** Reading back what was written. */
module PngRoundTrip {
  // What the PNG reader makes of any encoding of an image, and the writer's encoding in particular.

  import opened PngFilters
  import opened PngImage

  function Concat(lines: seq<seq<Pixel>>): seq<Pixel> {
    if lines == [] then [] else lines[0] + Concat(lines[1..])
  }

  function BytesOf(lines: seq<seq<Pixel>>): (rows: seq<seq<byte>>)
    ensures |rows| == |lines|
  {
    if lines == [] then [] else [RowBytes(lines[0])] + BytesOf(lines[1..])
  }

  /** Pixel rows of one width, each with a known filter type. */
  predicate Lines(fs: seq<byte>, lines: seq<seq<Pixel>>, width: nat) {
    |fs| == |lines| && (lines != [] ==> fs[0] <= 4 && |lines[0]| == width && Lines(fs[1..], lines[1..], width))
  }

  lemma {:induction false} RowBytesAt(ps: seq<Pixel>)
    ensures |RowBytes(ps)| == 4 * |ps|
    ensures forall i :: 0 <= i < |ps| ==>
      var b := RowBytes(ps); Pixel(b[4 * i], b[4 * i + 1], b[4 * i + 2], b[4 * i + 3]) == ps[i]
  {
    if ps != [] {
      RowBytesAt(ps[1..]);
      var b, rest := RowBytes(ps), RowBytes(ps[1..]);
      forall i | 0 <= i < |ps| ensures Pixel(b[4 * i], b[4 * i + 1], b[4 * i + 2], b[4 * i + 3]) == ps[i] {
        if i > 0 {
          var j := i - 1;
          assert Pixel(rest[4 * j], rest[4 * j + 1], rest[4 * j + 2], rest[4 * j + 3]) == ps[1..][j];
        }
      }
    }
  }

  lemma RgbaInverts(ps: seq<Pixel>)
    ensures |RowBytes(ps)| == 4 * |ps| && RgbaPixels(RowBytes(ps)) == ps
  {
    RowBytesAt(ps);
  }

  lemma {:induction false} LinesEncodable(fs: seq<byte>, lines: seq<seq<Pixel>>, width: nat)
    requires Lines(fs, lines, width)
    ensures Encodable(fs, BytesOf(lines), 4 * width)
  {
    if lines != [] {
      RowBytesAt(lines[0]);
      LinesEncodable(fs[1..], lines[1..], width);
      assert BytesOf(lines)[1..] == BytesOf(lines[1..]);
    }
  }

  lemma {:induction false} PixelsInvert(lines: seq<seq<Pixel>>, h: Header, palette: seq<Pixel>)
    requires h.color == 6 && h.depth == 8
    ensures AllPixels(BytesOf(lines), h, palette) == Ok(Concat(lines))
  {
    if lines != [] {
      RgbaInverts(lines[0]);
      PixelsInvert(lines[1..], h, palette);
      assert BytesOf(lines)[1..] == BytesOf(lines[1..]);
    }
  }

  /** The pixel stage undoes filtering and packing, whatever filter types the encoder chose. */
  lemma ReadPixelsInverts(fs: seq<byte>, lines: seq<seq<Pixel>>, h: Header, palette: seq<Pixel>, extra: seq<byte>)
    requires h.color == 6 && h.depth == 8 && h.height == |lines| && Lines(fs, lines, h.width)
    requires Encodable(fs, BytesOf(lines), 4 * h.width)
    ensures ReadPixels(h, palette, FilterImage(fs, 4, Zeros(4 * h.width), BytesOf(lines)) + extra)
         == Ok(Image(h.width, h.height, Concat(lines)))
  {
    hide UnfilterImage, FilterImage, AllPixels, Encodable, Lines, RowPixels;
    var stream := FilterImage(fs, 4, Zeros(4 * h.width), BytesOf(lines));
    assert [] + stream + extra == stream + extra;
    UnfilterImageInverts(stream + extra, [], fs, 4, Zeros(4 * h.width), BytesOf(lines), extra);
    PixelsInvert(lines, h, palette);
  }

  /**
   * Any framing of any filtering of an RGBA image reads back to that image: extra chunks, compressed data
   * split over several chunks, unused stream bytes and bytes after the end chunk make no difference.
   */
  lemma ReadsAnyEncoding(inflate: seq<byte> -> Option<seq<byte>>, crc: (seq<byte>, word) -> word, data: seq<byte>,
                         chunks: seq<Chunk>, g: Gathered, h: Header, fs: seq<byte>, lines: seq<seq<Pixel>>,
                         extra: seq<byte>, after: seq<byte>)
    requires Framable(chunks) && data == SIGNATURE + Frames(crc, chunks) + (Frame(crc, Chunk(IEND, [])) + after)
    requires AbsorbAll(NOTHING, chunks) == Ok(g) && g.header == Some(h)
    requires h.color == 6 && h.depth == 8 && h.interlace == 0 && h.height == |lines|
    requires Lines(fs, lines, h.width) && Encodable(fs, BytesOf(lines), 4 * h.width)
    requires inflate(g.idat) == Some(FilterImage(fs, 4, Zeros(4 * h.width), BytesOf(lines)) + extra)
    ensures Read(inflate, data) == Ok(Image(h.width, h.height, Concat(lines)))
  {
    hide ReadChunks, Read, Frame, Frames, FilterImage, FinalPalette, ReadPixels, AbsorbAll, Concat, BytesOf, Framable,
      Lines, Encodable;
    FramesRead(data, SIGNATURE, crc, chunks, Frame(crc, Chunk(IEND, [])) + after, NOTHING);
    ReadStops(data, SIGNATURE + Frames(crc, chunks), crc, after, g);
    ReadPixelsInverts(fs, lines, h, FinalPalette(g), extra);
    ReadUnfolds(inflate, data, g, h, FilterImage(fs, 4, Zeros(4 * h.width), BytesOf(lines)) + extra);
  }

  lemma ReadStops(data: seq<byte>, before: seq<byte>, crc: (seq<byte>, word) -> word, after: seq<byte>, g: Gathered)
    requires data == before + (Frame(crc, Chunk(IEND, [])) + after)
    ensures ReadChunks(data, |before|, g) == Ok(g)
  {
    hide Frame, ChunkAt, FromBe32;
    assert data == before + Frame(crc, Chunk(IEND, [])) + after;
    FrameReads(data, before, crc, Chunk(IEND, []), after);
  }

  lemma ReadUnfolds(inflate: seq<byte> -> Option<seq<byte>>, data: seq<byte>, g: Gathered, h: Header, raw: seq<byte>)
    requires SIGNATURE <= data && ReadChunks(data, 8, NOTHING) == Ok(g)
    requires g.header == Some(h) && h.interlace == 0 && h.color == 6 && inflate(g.idat) == Some(raw)
    ensures Read(inflate, data) == ReadPixels(h, FinalPalette(g), raw)
  {
    hide ReadChunks, ReadPixels, FinalPalette;
  }

  // ----- The writer -----

  lemma FilterZero(raw: seq<byte>, previous: seq<byte>)
    requires |raw| == |previous|
    ensures FilterRow(0, 4, previous, raw) == raw
  {
  }

  function Line(width: nat, y: nat, pixels: seq<Pixel>): seq<Pixel> {
    Slice(pixels, y * width, y * width + width)
  }

  function LinesFrom(width: nat, height: nat, y: nat, pixels: seq<Pixel>): (lines: seq<seq<Pixel>>)
    requires y <= height
    ensures |lines| == height - y
    decreases height - y
  {
    if y == height then [] else [Line(width, y, pixels)] + LinesFrom(width, height, y + 1, pixels)
  }

  lemma LineFits(width: nat, height: nat, y: nat)
    requires y < height
    ensures y * width + width == (y + 1) * width <= height * width
  {
  }

  /** A full pixel list splits into lines that are all as wide as the image, and join up to it again. */
  lemma {:induction false} LinesFull(width: nat, height: nat, y: nat, pixels: seq<Pixel>)
    requires y <= height && |pixels| == height * width && y * width <= |pixels|
    ensures Lines(Zeros(height - y), LinesFrom(width, height, y, pixels), width)
    ensures Concat(LinesFrom(width, height, y, pixels)) == pixels[y * width..]
    decreases height - y
  {
    if y < height {
      LineFits(width, height, y);
      LinesFull(width, height, y + 1, pixels);
      assert Zeros(height - y)[1..] == Zeros(height - y - 1);
      LinesStep(width, height, y, pixels, y * width);
    }
  }

  lemma LinesStep(width: nat, height: nat, y: nat, pixels: seq<Pixel>, start: nat)
    requires y < height && start == y * width && start + width == (y + 1) * width <= |pixels|
    ensures |Line(width, y, pixels)| == width
    ensures LinesFrom(width, height, y, pixels)[1..] == LinesFrom(width, height, y + 1, pixels)
    ensures LinesFrom(width, height, y, pixels)[0] == Line(width, y, pixels)
    ensures pixels[start..] == Line(width, y, pixels) + pixels[start + width..]
  {
    assert Line(width, y, pixels) == pixels[start..start + width];
  }

  lemma {:induction false} StreamIsFiltered(width: nat, height: nat, y: nat, pixels: seq<Pixel>, previous: seq<byte>)
    requires y <= height && |pixels| == height * width && y * width <= |pixels| && |previous| == 4 * width
    requires Encodable(Zeros(height - y), BytesOf(LinesFrom(width, height, y, pixels)), 4 * width)
    ensures Stream(width, height, y, pixels)
         == FilterImage(Zeros(height - y), 4, previous, BytesOf(LinesFrom(width, height, y, pixels)))
    decreases height - y
  {
    if y < height {
      var line := Line(width, y, pixels);
      var rest := LinesFrom(width, height, y + 1, pixels);
      assert Zeros(height - y)[1..] == Zeros(height - y - 1);
      assert BytesOf(LinesFrom(width, height, y, pixels)) == [RowBytes(line)] + BytesOf(rest);
      assert BytesOf(LinesFrom(width, height, y, pixels))[1..] == BytesOf(rest);
      LineFits(width, height, y);
      StreamIsFiltered(width, height, y + 1, pixels, RowBytes(line));
      FilterZero(RowBytes(line), previous);
    }
  }

  /** Writing and reading back gives the image, as soon as its pixel list is as long as its size says. */
  lemma WriteThenRead(inflate: seq<byte> -> Option<seq<byte>>, deflate: seq<byte> -> seq<byte>,
                      crc: (seq<byte>, word) -> word, image: Image)
    requires |image.pixels| == image.height * image.width && Write(deflate, crc, image).Ok?
    requires var s := Stream(image.width, image.height, 0, image.pixels); inflate(deflate(s)) == Some(s)
    ensures Read(inflate, Write(deflate, crc, image).value) == Ok(image)
  {
    hide Stream, FilterImage, Concat, BytesOf, LinesFrom, Lines, Encodable, Read, Frame, Frames, AbsorbAll, HeaderBytes;
    var w, h, p := image.width, image.height, image.pixels;
    var lines, s := LinesFrom(w, h, 0, p), Stream(w, h, 0, p);
    LinesFull(w, h, 0, p);
    LinesEncodable(Zeros(h), lines, w);
    StreamIsFiltered(w, h, 0, p, Zeros(4 * w));
    assert p[0 * w..] == p && s + [] == s;
    var header := Header(w, h, 8, 6, 0);
    var chunks := [Chunk(IHDR, HeaderBytes(header)), Chunk(IDAT, deflate(s))];
    var data := Write(deflate, crc, image).value;
    WrittenFrames(crc, header, deflate(s), data);
    var g := Gathered(Some(header), [], [], deflate(s));
    ReadsAnyEncoding(inflate, crc, data, chunks, g, header, Zeros(h), lines, [], []);
  }

  lemma WrittenFrames(crc: (seq<byte>, word) -> word, header: Header, packed: seq<byte>, data: seq<byte>)
    requires |packed| < 0x1_0000_0000
    requires data == SIGNATURE + Frame(crc, Chunk(IHDR, HeaderBytes(header))) + Frame(crc, Chunk(IDAT, packed))
                     + Frame(crc, Chunk(IEND, []))
    ensures var chunks := [Chunk(IHDR, HeaderBytes(header)), Chunk(IDAT, packed)];
            && Framable(chunks) && data == SIGNATURE + Frames(crc, chunks) + (Frame(crc, Chunk(IEND, [])) + [])
            && AbsorbAll(NOTHING, chunks) == Ok(Gathered(Some(header), [], [], packed))
  {
    hide Frame, HeaderBytes, ParseHeader;
    HeaderInverts(header);
    var c0, c1 := Chunk(IHDR, HeaderBytes(header)), Chunk(IDAT, packed);
    assert [c0, c1][1..] == [c1] && [c1][1..] == [];
    assert Frames(crc, [c1]) == Frame(crc, c1) + [];
    assert Frames(crc, [c0, c1]) == Frame(crc, c0) + Frame(crc, c1);
    var g := Gathered(Some(header), [], [], []);
    assert Absorb(NOTHING, c0) == Ok(g);
    assert Absorb(g, c1) == Ok(g.(idat := packed)) by {
      assert IDAT[0] == IHDR[0] && IDAT[1] != IHDR[1] && IDAT[0] != PLTE[0] && IDAT[0] != TRNS[0];
      assert [] + packed == packed;
    }
    assert AbsorbAll(g.(idat := packed), []) == Ok(g.(idat := packed));
    assert AbsorbAll(g, [c1]) == Ok(g.(idat := packed));
  }

  // ----- How many pixels a read gives -----

  /** The bit depths of section 4.1.1 of RFC 2083, with the palette limit of 8 bits. */
  predicate LegalDepth(h: Header) {
    h.depth in {1, 2, 4, 8} || (h.depth == 16 && h.color != 3)
  }

  /** How many pixels a decoded row gives: packed samples may be too few, and depths above 8 unpack to none. */
  function RowCount(h: Header): nat
    requires h.color in {0, 2, 3, 4, 6}
  {
    if h.color !in {0, 3} || h.depth == 8 then h.width
    else if h.depth == 0 || h.depth > 8 then 0
    else Min(h.width, RowLength(h) * (8 / h.depth))
  }

  /** The rows of the header's size hold enough samples for its width. */
  predicate HoldsWidth(h: Header)
    requires h.color in {0, 2, 3, 4, 6}
  {
    || h.height == 0 || h.width == 0 || h.color !in {0, 3} || h.depth == 8
    || (1 <= h.depth < 8 && RowLength(h) * (8 / h.depth) >= h.width)
  }

  /**
   * With a legal depth they do (16 bits of gray are refused anyway); of the other depths the reader takes, 3 bits and
   * a palette of 16 bits do not always.
   */
  lemma LegalDepthsHold(h: Header)
    requires h.color in {0, 2, 3, 4, 6} && LegalDepth(h)
    ensures HoldsWidth(h) || (h.color == 0 && h.depth == 16)
    ensures !HoldsWidth(Header(5, 1, 3, 3, 0)) && !HoldsWidth(Header(1, 1, 16, 3, 0))
  {
  }

  lemma WholeBytes(row: seq<byte>, h: Header, palette: seq<Pixel>)
    requires h.color in {0, 2, 3, 4, 6} && h.depth == 8 && |row| == RowLength(h)
    ensures RowPixels(row, h, palette).Ok? && |RowPixels(row, h, palette).value| == h.width
  {
    hide AllSamples, ScaleGray, Lookup;
    assert |row| == h.width * Channels(h.color);
  }

  lemma PackedRow(row: seq<byte>, h: Header, palette: seq<Pixel>)
    requires h.color in {0, 3} && 1 <= h.depth < 8 && |row| == RowLength(h) && RowPixels(row, h, palette).Ok?
    ensures |RowPixels(row, h, palette).value| == RowCount(h)
  {
    if h.width == 0 {
      assert |row| == 0;
    }
    hide Sample, ScaleGray, Lookup, Power2, RowLength;
  }

  lemma RowGives(row: seq<byte>, h: Header, palette: seq<Pixel>)
    requires h.color in {0, 2, 3, 4, 6} && |row| == RowLength(h) && RowPixels(row, h, palette).Ok?
    ensures |RowPixels(row, h, palette).value| == RowCount(h)
  {
    if h.depth == 8 {
      WholeBytes(row, h, palette);
    } else if h.color in {0, 3} && 1 <= h.depth < 8 {
      PackedRow(row, h, palette);
    } else {
      hide Sample, ScaleGray, Lookup, Power2, RowLength, AllSamples;
    }
  }

  lemma {:induction false} RowsGive(rows: seq<seq<byte>>, h: Header, palette: seq<Pixel>)
    requires h.color in {0, 2, 3, 4, 6}
    requires forall i :: 0 <= i < |rows| ==> |rows[i]| == RowLength(h)
    requires AllPixels(rows, h, palette).Ok?
    ensures |AllPixels(rows, h, palette).value| == |rows| * RowCount(h)
  {
    hide RowPixels, RowLength, RowCount;
    if rows != [] {
      RowGives(rows[0], h, palette);
      RowsGive(rows[1..], h, palette);
      assert |rows| * RowCount(h) == RowCount(h) + (|rows| - 1) * RowCount(h);
    }
  }

  lemma CountMatches(h: Header)
    requires h.color in {0, 2, 3, 4, 6}
    ensures h.height * RowCount(h) == h.height * h.width <==> HoldsWidth(h)
  {
    hide RowLength;
    SameProducts(h.height, RowCount(h), h.width);
  }

  lemma SameProducts(n: nat, a: nat, b: nat)
    ensures n * a == n * b <==> n == 0 || a == b
  {
    if n > 0 && a < b {
      ProductLess(n, a, b);
    } else if n > 0 && b < a {
      ProductLess(n, b, a);
    }
  }

  lemma ProductLess(n: nat, a: nat, b: nat)
    requires n >= 1 && a < b
    ensures n * a < n * b
  {
  }

  lemma {:induction false} UnfilteredRowLength(raw: seq<byte>, pos: nat, height: nat, bpp: nat, previous: seq<byte>)
    requires 1 <= bpp && UnfilterImage(raw, pos, height, bpp, previous).Ok?
    ensures var rows := UnfilterImage(raw, pos, height, bpp, previous).value;
            |rows| == height && forall i :: 0 <= i < |rows| ==> |rows[i]| == |previous|
    decreases height
  {
    hide DecodeLine;
    if height > 0 {
      UnfilteredRowLength(raw, pos + 1 + |previous|, height - 1, bpp, DecodeLine(raw, pos, bpp, previous).value);
    }
  }

  /** A read that succeeds gives exactly width times height pixels if and only if the rows hold the width. */
  lemma ReadGivesAllPixels(inflate: seq<byte> -> Option<seq<byte>>, data: seq<byte>)
    requires Read(inflate, data).Ok?
    ensures ReadChunks(data, 8, NOTHING).Ok? && ReadChunks(data, 8, NOTHING).value.header.Some?
    ensures var h := ReadChunks(data, 8, NOTHING).value.header.value;
            var im := Read(inflate, data).value;
            && im.width == h.width && im.height == h.height && h.color in {0, 2, 3, 4, 6}
            && (|im.pixels| == im.height * im.width <==> HoldsWidth(h))
  {
    hide ReadChunks, UnfilterImage, AllPixels, FilterStep, RowLength, HoldsWidth, RowCount;
    var g := ReadChunks(data, 8, NOTHING).value;
    var h := g.header.value;
    var raw := inflate(g.idat).value;
    UnfilteredRowLength(raw, 0, h.height, FilterStep(h), Zeros(RowLength(h)));
    RowsGive(UnfilterImage(raw, 0, h.height, FilterStep(h), Zeros(RowLength(h))).value, h, FinalPalette(g));
    CountMatches(h);
  }

  /**
   * The round trip holds exactly when the pixel list has the length the size asks for: the writer takes any
   * list, and pads nothing.
   */
  lemma RoundTripExactly(inflate: seq<byte> -> Option<seq<byte>>, deflate: seq<byte> -> seq<byte>,
                         crc: (seq<byte>, word) -> word, image: Image)
    requires Write(deflate, crc, image).Ok?
    requires var s := Stream(image.width, image.height, 0, image.pixels); inflate(deflate(s)) == Some(s)
    ensures Read(inflate, Write(deflate, crc, image).value) == Ok(image)
       <==> |image.pixels| == image.height * image.width
  {
    var data := Write(deflate, crc, image).value;
    if |image.pixels| == image.height * image.width {
      WriteThenRead(inflate, deflate, crc, image);
    } else if Read(inflate, data) == Ok(image) {
      WrittenHeader(crc, Header(image.width, image.height, 8, 6, 0),
                    deflate(Stream(image.width, image.height, 0, image.pixels)), data);
      ReadGivesAllPixels(inflate, data);
    }
  }

  lemma WrittenHeader(crc: (seq<byte>, word) -> word, header: Header, packed: seq<byte>, data: seq<byte>)
    requires |packed| < 0x1_0000_0000
    requires data == SIGNATURE + Frame(crc, Chunk(IHDR, HeaderBytes(header))) + Frame(crc, Chunk(IDAT, packed))
                     + Frame(crc, Chunk(IEND, []))
    ensures ReadChunks(data, 8, NOTHING) == Ok(Gathered(Some(header), [], [], packed))
  {
    hide Frame, Frames, AbsorbAll, Framable, HeaderBytes, ReadChunks;
    WrittenFrames(crc, header, packed, data);
    var chunks := [Chunk(IHDR, HeaderBytes(header)), Chunk(IDAT, packed)];
    FramesRead(data, SIGNATURE, crc, chunks, Frame(crc, Chunk(IEND, [])) + [], NOTHING);
    ReadStops(data, SIGNATURE + Frames(crc, chunks), crc, [], AbsorbAll(NOTHING, chunks).value);
  }
}
