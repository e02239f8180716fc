/** `read_png_rgba` and `write_png_rgba` of `scripts/pad-pwa-icons.py`: chunk framing, headers and pixels. */
module PngImage {
  import opened PngFilters

  type word = x: int | 0 <= x < 0x1_0000_0000

  datatype Option<+T> = None | Some(value: T)

  datatype Pixel = Pixel(r: byte, g: byte, b: byte, a: byte)

  datatype Image = Image(width: nat, height: nat, pixels: seq<Pixel>)

  datatype Chunk = Chunk(kind: seq<byte>, data: seq<byte>)

  datatype Header = Header(width: word, height: word, depth: byte, color: byte, interlace: byte)

  /** What the chunk loop has gathered so far. */
  datatype Gathered =
    Gathered(header: Option<Header>, palette: seq<Pixel>, transparency: seq<byte>, idat: seq<byte>)

  const SIGNATURE: seq<byte> := [0x89, 0x50, 0x4E, 0x47, 0x0D, 0x0A, 0x1A, 0x0A]
  const IHDR: seq<byte> := [73, 72, 68, 82]
  const PLTE: seq<byte> := [80, 76, 84, 69]
  const TRNS: seq<byte> := [116, 82, 78, 83]
  const IDAT: seq<byte> := [73, 68, 65, 84]
  const IEND: seq<byte> := [73, 69, 78, 68]
  const NOTHING := Gathered(None, [], [], [])

  /** Python's slice: out-of-range bounds are cut to the length. */
  function Slice<T>(s: seq<T>, from: nat, to: nat): seq<T>
    requires from <= to
  {
    s[Min(from, |s|)..Min(to, |s|)]
  }

  function Be32(n: word): (s: seq<byte>)
    ensures |s| == 4
  {
    [n / 0x100_0000, n / 0x1_0000 % 256, n / 256 % 256, n % 256]
  }

  function FromBe32(s: seq<byte>): word
    requires |s| == 4
  {
    var a: int, b: int, c: int, d: int := s[0], s[1], s[2], s[3];
    a * 0x100_0000 + b * 0x1_0000 + c * 256 + d
  }

  lemma Be32Inverts(n: word)
    ensures FromBe32(Be32(n)) == n
  {
    assert n / 256 == n / 0x1_0000 * 256 + n / 256 % 256;
  }

  // ----- Chunks -----

  /** `png_chunk`: length, type, data and the CRC of the last two, with the CRC function left open. */
  function Frame(crc: (seq<byte>, word) -> word, c: Chunk): (s: seq<byte>)
    requires |c.data| < 0x1_0000_0000
  {
    Be32(|c.data|) + c.kind + c.data + Be32(crc(c.data, crc(c.kind, 0)))
  }

  predicate Framable(cs: seq<Chunk>) {
    forall c <- cs :: |c.kind| == 4 && c.kind != IEND && |c.data| < 0x1_0000_0000
  }

  function Frames(crc: (seq<byte>, word) -> word, cs: seq<Chunk>): seq<byte>
    requires Framable(cs)
  {
    if cs == [] then [] else Frame(crc, cs[0]) + Frames(crc, cs[1..])
  }

  function ParseHeader(data: seq<byte>): Header
    requires |data| == 13
  {
    Header(FromBe32(data[0..4]), FromBe32(data[4..8]), data[8], data[9], data[12])
  }

  function HeaderBytes(h: Header): (s: seq<byte>)
    ensures |s| == 13
  {
    Be32(h.width) + Be32(h.height) + [h.depth, h.color, 0, 0, h.interlace]
  }

  lemma HeaderInverts(h: Header)
    ensures ParseHeader(HeaderBytes(h)) == h
  {
    Be32Inverts(h.width);
    Be32Inverts(h.height);
    assert HeaderBytes(h)[0..4] == Be32(h.width) && HeaderBytes(h)[4..8] == Be32(h.height);
  }

  function ParsePalette(data: seq<byte>): seq<Pixel>
    requires |data| % 3 == 0
  {
    seq(|data| / 3, i requires 0 <= i < |data| / 3 => Pixel(data[3 * i], data[3 * i + 1], data[3 * i + 2], 255))
  }

  /** One turn of the chunk loop; an unknown chunk type is skipped. */
  function Absorb(g: Gathered, c: Chunk): Result<Gathered> {
    if c.kind == IHDR then
      if |c.data| == 13 then Ok(g.(header := Some(ParseHeader(c.data)))) else Err(StructError)
    else if c.kind == PLTE then
      if |c.data| % 3 == 0 then Ok(g.(palette := ParsePalette(c.data))) else Err(IndexError)
    else if c.kind == TRNS then Ok(g.(transparency := c.data))
    else if c.kind == IDAT then Ok(g.(idat := g.idat + c.data))
    else Ok(g)
  }

  function AbsorbAll(g: Gathered, cs: seq<Chunk>): Result<Gathered>
    decreases |cs|
  {
    if cs == [] then Ok(g)
    else
      var next := Absorb(g, cs[0]);
      if next.Err? then next else AbsorbAll(next.value, cs[1..])
  }

  /** The chunk read at `pos`, cut short by the end of the file; the CRC is never looked at. */
  function ChunkAt(data: seq<byte>, pos: nat, length: nat): Chunk {
    Chunk(Slice(data, pos + 4, pos + 8), Slice(data, pos + 8, pos + 8 + length))
  }

  function ReadChunks(data: seq<byte>, pos: nat, g: Gathered): Result<Gathered>
    decreases |data| - pos
  {
    if pos >= |data| then Ok(g)
    else if pos + 4 > |data| then Err(StructError)
    else
      var length := FromBe32(data[pos..pos + 4]);
      var c := ChunkAt(data, pos, length);
      if c.kind == IEND then Ok(g)
      else
        var next := Absorb(g, c);
        if next.Err? then next else ReadChunks(data, pos + 12 + length, next.value)
  }

  lemma FrameReads(data: seq<byte>, before: seq<byte>, crc: (seq<byte>, word) -> word, c: Chunk, after: seq<byte>)
    requires |c.kind| == 4 && |c.data| < 0x1_0000_0000 && data == before + Frame(crc, c) + after
    ensures var pos := |before|;
            && pos + 4 <= |data| && FromBe32(data[pos..pos + 4]) == |c.data|
            && ChunkAt(data, pos, |c.data|) == c && |Frame(crc, c)| == 12 + |c.data|
  {
    hide Be32, FromBe32;
    var pos, f := |before|, Frame(crc, c);
    FramePieces(crc, c);
    assert forall i :: 0 <= i < |f| ==> data[pos + i] == f[i];
    assert data[pos..pos + 4] == f[0..4];
    assert data[pos + 4..pos + 8] == f[4..8];
    assert data[pos + 8..pos + 8 + |c.data|] == f[8..8 + |c.data|];
    Be32Inverts(|c.data|);
  }

  lemma FramePieces(crc: (seq<byte>, word) -> word, c: Chunk)
    requires |c.kind| == 4 && |c.data| < 0x1_0000_0000
    ensures var f := Frame(crc, c);
            && |f| == 12 + |c.data| && f[0..4] == Be32(|c.data|)
            && f[4..8] == c.kind && f[8..8 + |c.data|] == c.data
  {
    hide Be32;
  }

  /** The loop over a framed list of chunks takes them up one by one. */
  lemma {:induction false} FramesRead(data: seq<byte>, before: seq<byte>, crc: (seq<byte>, word) -> word,
                                      cs: seq<Chunk>, after: seq<byte>, g: Gathered)
    requires Framable(cs) && data == before + Frames(crc, cs) + after
    requires AbsorbAll(g, cs).Ok?
    ensures ReadChunks(data, |before|, g)
         == ReadChunks(data, |before + Frames(crc, cs)|, AbsorbAll(g, cs).value)
    decreases |cs|, 1
  {
    hide ReadChunks, Frame, Absorb, Framable;
    if cs == [] {
      assert before + Frames(crc, cs) == before;
    } else {
      MoreFramesRead(data, before, crc, cs, after, g);
    }
  }

  lemma MoreFramesRead(data: seq<byte>, before: seq<byte>, crc: (seq<byte>, word) -> word,
                       cs: seq<Chunk>, after: seq<byte>, g: Gathered)
    requires Framable(cs) && data == before + Frames(crc, cs) + after && cs != []
    requires AbsorbAll(g, cs).Ok?
    ensures ReadChunks(data, |before|, g)
         == ReadChunks(data, |before + Frames(crc, cs)|, AbsorbAll(g, cs).value)
    decreases |cs|, 0
  {
    hide *;
    FramesStep(crc, g, cs);
    var first, tail := Frame(crc, cs[0]), Frames(crc, cs[1..]);
    FramesGrow(data, before, first, tail, after);
    FrameReads(data, before, crc, cs[0], tail + after);
    FramesRead(data, before + first, crc, cs[1..], after, Absorb(g, cs[0]).value);
    ReadChunksStep(data, |before|, g, cs[0]);
  }

  lemma FramesStep(crc: (seq<byte>, word) -> word, g: Gathered, cs: seq<Chunk>)
    requires Framable(cs) && cs != [] && AbsorbAll(g, cs).Ok?
    ensures |cs[0].kind| == 4 && cs[0].kind != IEND && |cs[0].data| < 0x1_0000_0000 && Framable(cs[1..])
    ensures Frames(crc, cs) == Frame(crc, cs[0]) + Frames(crc, cs[1..])
    ensures Absorb(g, cs[0]).Ok? && AbsorbAll(g, cs) == AbsorbAll(Absorb(g, cs[0]).value, cs[1..])
  {
    hide Frame, Absorb;
  }

  lemma FramesGrow(data: seq<byte>, before: seq<byte>, first: seq<byte>, tail: seq<byte>, after: seq<byte>)
    requires data == before + (first + tail) + after
    ensures data == (before + first) + tail + after && data == before + first + (tail + after)
    ensures before + (first + tail) == (before + first) + tail
  {
  }

  lemma ReadChunksStep(data: seq<byte>, pos: nat, g: Gathered, c: Chunk)
    requires pos + 4 <= |data| && FromBe32(data[pos..pos + 4]) == |c.data| && ChunkAt(data, pos, |c.data|) == c
    requires c.kind != IEND && Absorb(g, c).Ok?
    ensures ReadChunks(data, pos, g) == ReadChunks(data, pos + 12 + |c.data|, Absorb(g, c).value)
  {
    hide FromBe32, ChunkAt, Absorb;
  }

  // ----- Pixels -----

  function Power2(n: nat): (r: nat)
    ensures r >= 1
  {
    if n == 0 then 1 else 2 * Power2(n - 1)
  }

  /** Sample `k` of a byte that packs samples of `depth` bits, first sample in the high bits. */
  function Sample(b: byte, depth: nat, k: nat): (v: nat)
    requires 1 <= depth < 8 && k < 8 / depth
    ensures v < Power2(depth)
  {
    SampleFits(depth, k);
    b / Power2(8 - depth * (k + 1)) % Power2(depth)
  }

  lemma SampleFits(depth: nat, k: nat)
    requires 1 <= depth < 8 && k < 8 / depth
    ensures depth * (k + 1) <= 8
  {
    assert depth * (k + 1) <= depth * (8 / depth) <= 8;
  }

  /** The first `width` samples of a row, or fewer if it holds fewer; depth 0 divides by zero. */
  function UnpackBits(row: seq<byte>, depth: byte, width: nat): (r: Result<seq<nat>>)
    ensures r.Ok? && depth < 8 ==> depth > 0 && forall i :: 0 <= i < |r.value| ==> r.value[i] < Power2(depth)
  {
    if depth == 8 then Ok(row[..Min(width, |row|)])
    else if depth == 0 then Err(DivideByZero)
    else if depth > 8 then Ok([])
    else
      var all := AllSamples(row, depth);
      Ok(if 0 < width < |all| then all[..width] else all)
  }

  function AllSamples(row: seq<byte>, depth: nat): (s: seq<nat>)
    requires 1 <= depth < 8
    ensures |s| == |row| * (8 / depth)
    ensures forall i :: 0 <= i < |s| ==> s[i] < Power2(depth)
  {
    if row == [] then []
    else
      var k := 8 / depth;
      assert |row| * k == (|row| - 1) * k + k;
      seq(k, i requires 0 <= i < k => Sample(row[0], depth, i)) + AllSamples(row[1..], depth)
  }

  /** Scales a sample of `depth` bits to a byte, to the nearest; there are no ties to break. */
  function ScaleGray(v: nat, depth: nat): byte
    requires 1 <= depth < 8 && v < Power2(depth)
  {
    var most := Power2(depth) - 1;
    ScaleFits(v, most);
    (510 * v + most) / (2 * most)
  }

  lemma ScaleFits(v: nat, most: nat)
    requires v <= most && most > 0
    ensures 0 <= (510 * v + most) / (2 * most) < 256
  {
    assert 510 * v + most <= 511 * most < 256 * (2 * most);
    DivBelow(510 * v + most, 256, 2 * most);
  }

  lemma DivBelow(a: nat, b: nat, d: nat)
    requires d > 0 && a < b * d
    ensures a / d < b
  {
  }

  function Lookup(palette: seq<Pixel>, index: nat): Pixel {
    if index < |palette| then palette[index] else Pixel(0, 0, 0, 0)
  }

  function RgbaPixels(row: seq<byte>): seq<Pixel>
    requires |row| % 4 == 0
  {
    seq(|row| / 4, i requires 0 <= i < |row| / 4 => Pixel(row[4 * i], row[4 * i + 1], row[4 * i + 2], row[4 * i + 3]))
  }

  function GrayPixel(v: byte): Pixel {
    Pixel(v, v, v, 255)
  }

  /** The pixels of one decoded row, by colour type and bit depth. */
  function RowPixels(row: seq<byte>, h: Header, palette: seq<Pixel>): Result<seq<Pixel>> {
    if h.color == 3 then
      var u := UnpackBits(row, h.depth, h.width);
      if u.Err? then Err(u.error)
      else Ok(seq(|u.value|, i requires 0 <= i < |u.value| => Lookup(palette, u.value[i])))
    else if h.color == 6 && h.depth == 8 then
      if |row| % 4 == 0 then Ok(RgbaPixels(row)) else Err(IndexError)
    else if h.color == 2 && h.depth == 8 then
      if |row| % 3 == 0 then Ok(ParsePalette(row)) else Err(IndexError)
    else if h.color == 4 && h.depth == 8 then
      if |row| % 2 == 0 then
        Ok(seq(|row| / 2, i requires 0 <= i < |row| / 2 => Pixel(row[2 * i], row[2 * i], row[2 * i], row[2 * i + 1])))
      else Err(IndexError)
    else if h.color == 0 && h.depth < 8 then
      var u := UnpackBits(row, h.depth, h.width);
      if u.Err? then Err(u.error)
      else Ok(seq(|u.value|, i requires 0 <= i < |u.value| => GrayPixel(ScaleGray(u.value[i], h.depth))))
    else if h.color == 0 && h.depth == 8 then
      var n := Min(h.width, |row|);
      Ok(seq(n, i requires 0 <= i < n => GrayPixel(row[i])))
    else Err(UnsupportedFormat)
  }

  function AllPixels(rows: seq<seq<byte>>, h: Header, palette: seq<Pixel>): Result<seq<Pixel>> {
    if rows == [] then Ok([])
    else
      var first := RowPixels(rows[0], h, palette);
      if first.Err? then first
      else
        var rest := AllPixels(rows[1..], h, palette);
        if rest.Err? then rest else Ok(first.value + rest.value)
  }

  // ----- Whole files -----

  function Channels(color: byte): nat
    requires color in {0, 2, 3, 4, 6}
  {
    if color == 2 then 3 else if color == 4 then 2 else if color == 6 then 4 else 1
  }

  function RowLength(h: Header): nat
    requires h.color in {0, 2, 3, 4, 6}
  {
    (h.width * Channels(h.color) * h.depth + 7) / 8
  }

  function FilterStep(h: Header): (bpp: nat)
    requires h.color in {0, 2, 3, 4, 6}
    ensures bpp >= 1
  {
    if h.depth < 8 then 1 else Channels(h.color) * h.depth / 8
  }

  function CheckHeader(g: Gathered): Result<Header> {
    if g.header.None? then Err(MissingHeader)
    else if g.header.value.interlace != 0 then Err(Interlaced)
    else if g.header.value.color !in {0, 2, 3, 4, 6} then Err(BadColorType)
    else Ok(g.header.value)
  }

  /** The palette with the alpha values of the transparency chunk laid over it. */
  function FinalPalette(g: Gathered): seq<Pixel> {
    seq(|g.palette|, i requires 0 <= i < |g.palette| =>
      if i < |g.transparency| then g.palette[i].(a := g.transparency[i]) else g.palette[i])
  }

  /** `read_png_rgba`, with the decompressor left open: it gives nothing on a stream it refuses. */
  function Read(inflate: seq<byte> -> Option<seq<byte>>, data: seq<byte>): Result<Image> {
    if !(SIGNATURE <= data) then Err(NotPng)
    else
      var g := ReadChunks(data, 8, NOTHING);
      if g.Err? then Err(g.error) else ReadGathered(inflate, g.value)
  }

  function ReadGathered(inflate: seq<byte> -> Option<seq<byte>>, g: Gathered): Result<Image> {
    var header := CheckHeader(g);
    if header.Err? then Err(header.error)
    else
      var raw := inflate(g.idat);
      if raw.None? then Err(ZlibError) else ReadPixels(header.value, FinalPalette(g), raw.value)
  }

  function ReadPixels(h: Header, palette: seq<Pixel>, raw: seq<byte>): Result<Image>
    requires h.color in {0, 2, 3, 4, 6}
  {
    var rows := UnfilterImage(raw, 0, h.height, FilterStep(h), Zeros(RowLength(h)));
    if rows.Err? then Err(rows.error)
    else
      var pixels := AllPixels(rows.value, h, palette);
      if pixels.Err? then Err(pixels.error) else Ok(Image(h.width, h.height, pixels.value))
  }

  function RowBytes(ps: seq<Pixel>): seq<byte> {
    if ps == [] then [] else [ps[0].r, ps[0].g, ps[0].b, ps[0].a] + RowBytes(ps[1..])
  }

  /** The uncompressed stream of the writer from row `y` on: filter type 0 and as many pixels as the list still has. */
  function Stream(width: nat, height: nat, y: nat, pixels: seq<Pixel>): seq<byte>
    requires y <= height
    decreases height - y
  {
    if y == height then []
    else [0] + RowBytes(Slice(pixels, y * width, y * width + width)) + Stream(width, height, y + 1, pixels)
  }

  /** `write_png_rgba`; a size that does not fit in 32 bits cannot be packed. */
  function Write(deflate: seq<byte> -> seq<byte>, crc: (seq<byte>, word) -> word, image: Image): Result<seq<byte>> {
    var packed := deflate(Stream(image.width, image.height, 0, image.pixels));
    if image.width >= 0x1_0000_0000 || image.height >= 0x1_0000_0000 || |packed| >= 0x1_0000_0000 then Err(StructError)
    else
      Ok(SIGNATURE
         + Frame(crc, Chunk(IHDR, HeaderBytes(Header(image.width, image.height, 8, 6, 0))))
         + Frame(crc, Chunk(IDAT, packed))
         + Frame(crc, Chunk(IEND, [])))
  }
}
