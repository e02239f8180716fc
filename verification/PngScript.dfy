/** The loops of `scripts/pad-pwa-icons.py` that gather chunks, unpack samples, convert rows and write scanlines. */
module PngScript {
  import opened PngFilters
  import opened PngImage

  method CollectChunks(data: seq<byte>) returns (gathered: Result<Gathered>)
    ensures gathered == ReadChunks(data, 8, NOTHING)
  {
    hide Absorb, ChunkAt, FromBe32;
    var pos: nat := 8;
    var g := NOTHING;
    while pos < |data|
      invariant ReadChunks(data, 8, NOTHING) == ReadChunks(data, pos, g)
      decreases |data| - pos
    {
      if pos + 4 > |data| {
        return Err(StructError);
      }
      var length := FromBe32(data[pos..pos + 4]);
      var chunk := ChunkAt(data, pos, length);
      if chunk.kind == IEND {
        break;
      }
      var next := Absorb(g, chunk);
      if next.Err? {
        return next;
      }
      pos := pos + 12 + length;
      g := next.value;
    }
    gathered := Ok(g);
  }

  /** `unpack_bits`: stops as soon as `width` samples are there. */
  method Unpack(row: seq<byte>, depth: byte, width: nat) returns (values: Result<seq<nat>>)
    ensures values == UnpackBits(row, depth, width)
  {
    if depth == 8 {
      return Ok(row[..Min(width, |row|)]);
    }
    if depth == 0 {
      return Err(DivideByZero);
    }
    if depth > 8 {
      return Ok([]);
    }
    var out := UnpackPacked(row, depth, width);
    values := Ok(out);
  }

  method UnpackPacked(row: seq<byte>, depth: nat, width: nat) returns (out: seq<nat>)
    requires 1 <= depth < 8
    ensures var all := AllSamples(row, depth); out == if 0 < width < |all| then all[..width] else all
  {
    hide *;
    out := [];
    FirstByte([], row, 0, depth);
    for i := 0 to |row|
      invariant AllSamples(row, depth) == out + AllSamples(row[i..], depth)
      invariant |out| < width || width == 0 || out == []
    {
      FirstByte(out, row, i, depth);
      var full;
      out, full := UnpackByte(out, row[i], depth, width, AllSamples(row[i + 1..], depth));
      if full {
        return;
      }
    }
    FirstByte(out, row, |row|, depth);
  }

  function ByteSamples(b: byte, depth: nat): seq<nat>
    requires 1 <= depth < 8
  {
    var per := 8 / depth;
    seq(per, k requires 0 <= k < per => Sample(b, depth, k))
  }

  lemma FirstByte(out: seq<nat>, row: seq<byte>, i: nat, depth: nat)
    requires 1 <= depth < 8 && i <= |row|
    ensures i < |row| ==>
      out + AllSamples(row[i..], depth) == out + ByteSamples(row[i], depth) + AllSamples(row[i + 1..], depth)
    ensures i == |row| ==> out + AllSamples(row[i..], depth) == out
    ensures [] + AllSamples(row[0..], depth) == AllSamples(row, depth)
  {
    hide Sample;
    assert row[0..] == row;
    if i < |row| {
      assert row[i..][1..] == row[i + 1..];
      assert AllSamples(row[i..], depth) == ByteSamples(row[i], depth) + AllSamples(row[i + 1..], depth);
    }
  }

  /** The inner loop, for one byte; `rest` stands for the samples of the bytes after it. */
  method UnpackByte(before: seq<nat>, b: byte, depth: nat, width: nat, ghost rest: seq<nat>)
    returns (out: seq<nat>, full: bool)
    requires 1 <= depth < 8 && (|before| < width || width == 0 || before == [])
    ensures var all := before + ByteSamples(b, depth) + rest;
            if full then 0 < width <= |all| && out == all[..width]
            else out == before + ByteSamples(b, depth) && (|out| < width || width == 0)
  {
    hide Sample;
    out, full := before, false;
    var per := 8 / depth;
    ghost var mine := ByteSamples(b, depth);
    assert per >= 1;
    for k := 0 to per
      invariant out == before + mine[..k]
      invariant |out| < width || width == 0 || (k == 0 && before == [])
    {
      out := out + [Sample(b, depth, k)];
      assert out == before + mine[..k + 1];
      if |out| == width {
        assert out == (before + mine + rest)[..width];
        return out, true;
      }
    }
    assert mine[..per] == mine;
  }

  method ConvertRows(rows: seq<seq<byte>>, h: Header, palette: seq<Pixel>) returns (pixels: Result<seq<Pixel>>)
    ensures pixels == AllPixels(rows, h, palette)
  {
    hide RowPixels;
    var out: seq<Pixel> := [];
    ghost var goal := AllPixels(rows, h, palette);
    assert goal == After(out, goal) by { if goal.Ok? { assert [] + goal.value == goal.value; } }
    for i := 0 to |rows|
      invariant goal == After(out, AllPixels(rows[i..], h, palette))
    {
      assert rows[i..][0] == rows[i] && rows[i..][1..] == rows[i + 1..];
      var line := RowPixels(rows[i], h, palette);
      if line.Err? {
        return line;
      }
      AfterPush(out, line.value, AllPixels(rows[i + 1..], h, palette));
      out := out + line.value;
    }
    assert out + [] == out;
    pixels := Ok(out);
  }

  ghost function After(done: seq<Pixel>, rest: Result<seq<Pixel>>): Result<seq<Pixel>> {
    if rest.Err? then rest else Ok(done + rest.value)
  }

  lemma AfterPush(done: seq<Pixel>, line: seq<Pixel>, rest: Result<seq<Pixel>>)
    ensures After(done, if rest.Err? then rest else Ok(line + rest.value)) == After(done + line, rest)
  {
    if rest.Ok? {
      assert done + (line + rest.value) == (done + line) + rest.value;
    }
  }

  method ReadPng(inflate: seq<byte> -> Option<seq<byte>>, data: seq<byte>) returns (image: Result<Image>)
    ensures image == Read(inflate, data)
  {
    hide ReadChunks, UnfilterImage, AllPixels, FilterStep, RowLength;
    if !(SIGNATURE <= data) {
      return Err(NotPng);
    }
    var gathered := CollectChunks(data);
    if gathered.Err? {
      return Err(gathered.error);
    }
    var header := CheckHeader(gathered.value);
    if header.Err? {
      return Err(header.error);
    }
    var h, palette := header.value, FinalPalette(gathered.value);
    var raw := inflate(gathered.value.idat);
    if raw.None? {
      return Err(ZlibError);
    }
    var rows := Decode(raw.value, h.height, RowLength(h), FilterStep(h));
    if rows.Err? {
      return Err(rows.error);
    }
    var pixels := ConvertRows(rows.value, h, palette);
    image := if pixels.Err? then Err(pixels.error) else Ok(Image(h.width, h.height, pixels.value));
  }

  /** The scanlines of the writer: for each row a zero and the four bytes of each pixel. */
  method BuildStream(width: nat, height: nat, pixels: seq<Pixel>) returns (rows: seq<byte>)
    ensures rows == Stream(width, height, 0, pixels)
  {
    hide RowBytes, Slice;
    rows := [];
    for y := 0 to height
      invariant Stream(width, height, 0, pixels) == rows + Stream(width, height, y, pixels)
    {
      ghost var before, rest := rows, Stream(width, height, y + 1, pixels);
      var line := Slice(pixels, y * width, y * width + width);
      rows := AppendPixels(rows + [0], line);
      assert before + ([0] + RowBytes(line) + rest) == rows + rest;
    }
    assert rows + [] == rows;
  }

  method AppendPixels(start: seq<byte>, line: seq<Pixel>) returns (rows: seq<byte>)
    ensures rows == start + RowBytes(line)
  {
    rows := start;
    for x := 0 to |line|
      invariant start + RowBytes(line) == rows + RowBytes(line[x..])
    {
      var p := line[x];
      assert line[x..][0] == p && line[x..][1..] == line[x + 1..];
      assert rows + ([p.r, p.g, p.b, p.a] + RowBytes(line[x + 1..]))
          == rows + [p.r, p.g, p.b, p.a] + RowBytes(line[x + 1..]);
      rows := rows + [p.r, p.g, p.b, p.a];
    }
  }
}
