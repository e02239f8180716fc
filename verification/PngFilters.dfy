/** The row filters of section 6 of RFC 2083 and the un-filter loop of `scripts/pad-pwa-icons.py`. */
module PngFilters {

  type byte = x: int | 0 <= x < 256

  datatype Error = NotPng | IndexError | StructError | MissingHeader | Interlaced | BadColorType | ZlibError
                 | BadFilter | UnsupportedFormat | DivideByZero

  datatype Result<+T> = Ok(value: T) | Err(error: Error)

  function Abs(x: int): nat {
    if x < 0 then -x else x
  }

  function Paeth(a: byte, b: byte, c: byte): byte {
    var p := a + b - c;
    if Abs(p - a) <= Abs(p - b) && Abs(p - a) <= Abs(p - c) then a
    else if Abs(p - b) <= Abs(p - c) then b
    else c
  }

  /** Section 6.6: the neighbour nearest to a + b - c, ties broken in the order left, above, upper left. */
  lemma PaethIsNearest(a: byte, b: byte, c: byte)
    ensures var p, r := a + b - c, Paeth(a, b, c);
            && (r == a || r == b || r == c)
            && Abs(p - r) <= Abs(p - a) && Abs(p - r) <= Abs(p - b) && Abs(p - r) <= Abs(p - c)
            && (Abs(p - a) == Abs(p - r) ==> r == a)
            && (Abs(p - b) == Abs(p - r) && r != a ==> r == b)
  {
  }

  /** The prediction each filter type makes from the bytes to the left, above and upper left. */
  function Predict(f: byte, left: byte, up: byte, upLeft: byte): byte
    requires f <= 4
  {
    if f == 0 then 0
    else if f == 1 then left
    else if f == 2 then up
    else if f == 3 then (left + up) / 2
    else Paeth(left, up, upLeft)
  }

  function Before(row: seq<byte>, x: nat, bpp: nat): byte
    requires 1 <= bpp && x <= |row| + bpp - 1
  {
    if x >= bpp then row[x - bpp] else 0
  }

  // ----- One row -----

  /** Encoder side: byte `x` of a row under filter `f`, as the standard defines it. */
  function FilterRow(f: byte, bpp: nat, previous: seq<byte>, raw: seq<byte>): (row: seq<byte>)
    requires f <= 4 && 1 <= bpp && |previous| == |raw|
    ensures |row| == |raw|
  {
    seq(|raw|, x requires 0 <= x < |raw| =>
      (raw[x] - Predict(f, Before(raw, x, bpp), previous[x], Before(previous, x, bpp))) % 256)
  }

  /** Decoder side: the first `n` bytes, each computed from the ones already decoded. */
  function UnfilterRow(f: byte, bpp: nat, previous: seq<byte>, row: seq<byte>, n: nat): (out: seq<byte>)
    requires f <= 4 && 1 <= bpp && n <= |row| && n <= |previous|
    ensures |out| == n
  {
    if n == 0 then []
    else
      var out := UnfilterRow(f, bpp, previous, row, n - 1);
      var x := n - 1;
      out + [(row[x] + Predict(f, Before(out, x, bpp), previous[x], Before(previous, x, bpp))) % 256]
  }

  lemma AddBack(v: int, p: int)
    requires 0 <= v < 256
    ensures ((v - p) % 256 + p) % 256 == v && ((v + p) % 256 - p) % 256 == v
  {
  }

  lemma {:induction false} UnfilterInverts(f: byte, bpp: nat, previous: seq<byte>, raw: seq<byte>, n: nat)
    requires f <= 4 && 1 <= bpp && |previous| == |raw| && n <= |raw|
    ensures UnfilterRow(f, bpp, previous, FilterRow(f, bpp, previous, raw), n) == raw[..n]
  {
    if n > 0 {
      UnfilterInverts(f, bpp, previous, raw, n - 1);
      var x := n - 1;
      AddBack(raw[x], Predict(f, Before(raw, x, bpp), previous[x], Before(previous, x, bpp)));
    }
  }

  lemma {:induction false} UnfilterPrefix(f: byte, bpp: nat, previous: seq<byte>, row: seq<byte>, m: nat, n: nat)
    requires f <= 4 && 1 <= bpp && m <= n <= |row| && n <= |previous|
    ensures UnfilterRow(f, bpp, previous, row, n)[..m] == UnfilterRow(f, bpp, previous, row, m)
  {
    if m < n {
      UnfilterPrefix(f, bpp, previous, row, m, n - 1);
    }
  }

  /** And the other way round: decoding loses nothing, so each filter is a bijection on rows. */
  lemma FilterInverts(f: byte, bpp: nat, previous: seq<byte>, row: seq<byte>)
    requires f <= 4 && 1 <= bpp && |previous| == |row|
    ensures FilterRow(f, bpp, previous, UnfilterRow(f, bpp, previous, row, |row|)) == row
  {
    var out := UnfilterRow(f, bpp, previous, row, |row|);
    forall x | 0 <= x < |row| ensures FilterRow(f, bpp, previous, out)[x] == row[x] {
      UnfilterPrefix(f, bpp, previous, row, x, |row|);
      UnfilterPrefix(f, bpp, previous, row, x + 1, |row|);
      var sofar := UnfilterRow(f, bpp, previous, row, x);
      assert out[..x] == sofar && out[x] == out[..x + 1][x];
      assert Before(out, x, bpp) == Before(sofar, x, bpp);
      AddBack(row[x], Predict(f, Before(sofar, x, bpp), previous[x], Before(previous, x, bpp)));
    }
  }

  // ----- Whole images -----

  function Zeros(n: nat): (z: seq<byte>)
    ensures |z| == n
  {
    seq(n, _ => 0)
  }

  function Min(a: int, b: int): int {
    if a < b then a else b
  }

  /** One known filter type per row, and rows of one length. */
  predicate Encodable(fs: seq<byte>, rows: seq<seq<byte>>, length: nat) {
    |fs| == |rows| && (rows != [] ==> fs[0] <= 4 && |rows[0]| == length && Encodable(fs[1..], rows[1..], length))
  }

  /** The scanlines of an image: per row its filter type and its filtered bytes. */
  function FilterImage(fs: seq<byte>, bpp: nat, previous: seq<byte>, rows: seq<seq<byte>>): seq<byte>
    requires 1 <= bpp && Encodable(fs, rows, |previous|)
  {
    if rows == [] then []
    else [fs[0]] + FilterRow(fs[0], bpp, previous, rows[0]) + FilterImage(fs[1..], bpp, rows[0], rows[1..])
  }

  /** What decoding one row can run into: the bytes run out, or the filter type is unknown. */
  function RowError(f: byte, got: nat, need: nat): (e: Result<()>)
    ensures e.Ok? <==> need == 0 || (f <= 4 && got >= need)
  {
    if need == 0 then Ok(())
    else if got == 0 then Err(IndexError)
    else if f > 4 then Err(BadFilter)
    else if got < need then Err(IndexError)
    else Ok(())
  }

  /** Decodes the scanline at byte `pos`. */
  function DecodeLine(raw: seq<byte>, pos: nat, bpp: nat, previous: seq<byte>): (r: Result<seq<byte>>)
    requires 1 <= bpp
    ensures r.Ok? ==> |r.value| == |previous| && pos + 1 + |previous| <= |raw|
  {
    if pos >= |raw| then Err(IndexError)
    else
      var need := |previous|;
      var row := raw[pos + 1..Min(pos + 1 + need, |raw|)];
      var e := RowError(raw[pos], |row|, need);
      if e.Err? then Err(e.error)
      else Ok(if need == 0 then [] else UnfilterRow(raw[pos], bpp, previous, row, need))
  }

  /** The rows from byte `pos` of `raw` on, decoded top down. */
  function UnfilterImage(raw: seq<byte>, pos: nat, height: nat, bpp: nat, previous: seq<byte>): Result<seq<seq<byte>>>
    requires 1 <= bpp
    decreases height
  {
    if height == 0 then Ok([])
    else
      var out := DecodeLine(raw, pos, bpp, previous);
      if out.Err? then Err(out.error)
      else
        var rest := UnfilterImage(raw, pos + 1 + |previous|, height - 1, bpp, out.value);
        if rest.Err? then rest else Ok([out.value] + rest.value)
  }

  /** Decoding inverts encoding for any choice of filter types, row by row, over a whole image. */
  lemma {:induction false} UnfilterImageInverts(raw: seq<byte>, before: seq<byte>, fs: seq<byte>, bpp: nat,
                                                previous: seq<byte>, rows: seq<seq<byte>>, after: seq<byte>)
    requires 1 <= bpp && Encodable(fs, rows, |previous|)
    requires raw == before + FilterImage(fs, bpp, previous, rows) + after
    ensures UnfilterImage(raw, |before|, |rows|, bpp, previous) == Ok(rows)
    decreases |rows|, 1
  {
    if rows != [] {
      EncodableStep(fs, rows, |previous|);
      UnfilterImageMore(raw, before, fs, bpp, previous, rows, after);
    }
  }

  lemma UnfilterImageMore(raw: seq<byte>, before: seq<byte>, fs: seq<byte>, bpp: nat,
                          previous: seq<byte>, rows: seq<seq<byte>>, after: seq<byte>)
    requires 1 <= bpp && Encodable(fs, rows, |previous|) && rows != []
    requires raw == before + FilterImage(fs, bpp, previous, rows) + after
    ensures UnfilterImage(raw, |before|, |rows|, bpp, previous) == Ok(rows)
    decreases |rows|, 0
  {
    hide *;
    EncodableStep(fs, rows, |previous|);
    var line := [fs[0]] + FilterRow(fs[0], bpp, previous, rows[0]);
    var tail := FilterImage(fs[1..], bpp, rows[0], rows[1..]);
    FilterImageStep(fs, bpp, previous, rows);
    Regroup(raw, before, line, tail, after);
    DecodeLineInverts(raw, before, fs[0], bpp, previous, rows[0], tail + after);
    UnfilterImageInverts(raw, before + line, fs[1..], bpp, rows[0], rows[1..], after);
    UnfilterStep(raw, |before|, bpp, previous, rows);
  }

  lemma EncodableStep(fs: seq<byte>, rows: seq<seq<byte>>, length: nat)
    requires Encodable(fs, rows, length) && rows != []
    ensures |fs| == |rows| && fs[0] <= 4 && |rows[0]| == length && Encodable(fs[1..], rows[1..], length)
  {
  }

  lemma FilterImageStep(fs: seq<byte>, bpp: nat, previous: seq<byte>, rows: seq<seq<byte>>)
    requires 1 <= bpp && Encodable(fs, rows, |previous|) && rows != []
    ensures FilterImage(fs, bpp, previous, rows)
         == [fs[0]] + FilterRow(fs[0], bpp, previous, rows[0]) + FilterImage(fs[1..], bpp, rows[0], rows[1..])
  {
    hide FilterRow;
  }

  lemma Regroup(raw: seq<byte>, a: seq<byte>, b: seq<byte>, c: seq<byte>, d: seq<byte>)
    requires raw == a + (b + c) + d
    ensures raw == (a + b) + c + d && raw == a + b + (c + d)
  {
  }

  lemma DecodeLineInverts(raw: seq<byte>, before: seq<byte>, f: byte, bpp: nat, previous: seq<byte>,
                          row: seq<byte>, after: seq<byte>)
    requires 1 <= bpp && |row| == |previous| && f <= 4
    requires raw == before + ([f] + FilterRow(f, bpp, previous, row)) + after
    ensures DecodeLine(raw, |before|, bpp, previous) == Ok(row)
  {
    hide FilterRow, UnfilterRow;
    var pos := |before|;
    assert raw[pos] == f && raw[pos + 1..pos + 1 + |row|] == FilterRow(f, bpp, previous, row);
    if row != [] {
      UnfilterInverts(f, bpp, previous, row, |row|);
      assert row[..|row|] == row;
    }
  }

  lemma UnfilterStep(raw: seq<byte>, pos: nat, bpp: nat, previous: seq<byte>, rows: seq<seq<byte>>)
    requires 1 <= bpp && rows != [] && DecodeLine(raw, pos, bpp, previous) == Ok(rows[0])
    requires UnfilterImage(raw, pos + 1 + |previous|, |rows| - 1, bpp, rows[0]) == Ok(rows[1..])
    ensures UnfilterImage(raw, pos, |rows|, bpp, previous) == Ok(rows)
  {
    hide DecodeLine;
    assert [rows[0]] + rows[1..] == rows;
  }

  /** Decoding succeeds only on enough bytes, and gives as many rows as asked for. */
  lemma {:induction false} UnfilterImageNeeds(raw: seq<byte>, pos: nat, height: nat, bpp: nat, previous: seq<byte>)
    requires 1 <= bpp && UnfilterImage(raw, pos, height, bpp, previous).Ok? && pos <= |raw|
    ensures pos + height * (1 + |previous|) <= |raw|
    ensures |UnfilterImage(raw, pos, height, bpp, previous).value| == height
    decreases height
  {
    hide DecodeLine;
    if height > 0 {
      var need := |previous|;
      UnfilterImageNeeds(raw, pos + 1 + need, height - 1, bpp, DecodeLine(raw, pos, bpp, previous).value);
      assert height * (1 + need) == (height - 1) * (1 + need) + (1 + need);
    }
  }

  // ----- The loops of read_png_rgba -----

  /** The inner loop: decodes one row into `out`, byte by byte. */
  method DecodeRow(filterType: byte, bpp: nat, previous: array<byte>, row: seq<byte>, out: array<byte>)
    returns (status: Result<()>)
    requires 1 <= bpp && out.Length == previous.Length && out != previous && |row| <= out.Length
    modifies out
    ensures status == RowError(filterType, |row|, out.Length)
    ensures status.Ok? && out.Length > 0 ==>
              out[..] == UnfilterRow(filterType, bpp, old(previous[..]), row, out.Length)
  {
    status := Ok(());
    for x := 0 to out.Length
      invariant x <= |row| && (x > 0 ==> filterType <= 4)
      invariant filterType <= 4 ==> out[..x] == UnfilterRow(filterType, bpp, previous[..], row, x)
    {
      if x >= |row| {
        return Err(IndexError);
      }
      if filterType > 4 {
        return Err(BadFilter);
      }
      var left := if x >= bpp then out[x - bpp] else 0;
      var up := previous[x];
      var upLeft := if x >= bpp then previous[x - bpp] else 0;
      ghost var done := out[..x];
      assert left == Before(done, x, bpp) && upLeft == Before(previous[..], x, bpp);
      out[x] := (row[x] + Predict(filterType, left, up, upLeft)) % 256;
      assert out[..x + 1] == done + [out[x]];
    }
  }

  /** The outer loop: row after row, each against the one before. */
  method Decode(raw: seq<byte>, height: nat, rowLength: nat, bpp: nat) returns (rows: Result<seq<seq<byte>>>)
    requires 1 <= bpp
    ensures rows == UnfilterImage(raw, 0, height, bpp, Zeros(rowLength))
  {
    hide DecodeLine;
    var done: seq<seq<byte>> := [];
    var previous := new byte[rowLength](_ => 0);
    var pos := 0;
    assert previous[..] == Zeros(rowLength);
    ghost var goal := UnfilterImage(raw, 0, height, bpp, Zeros(rowLength));
    assert goal == AfterRows([], goal) by { if goal.Ok? { assert [] + goal.value == goal.value; } }
    for y := 0 to height
      invariant previous.Length == rowLength && fresh(previous)
      invariant goal == AfterRows(done, UnfilterImage(raw, pos, height - y, bpp, previous[..]))
    {
      var out := new byte[rowLength];
      var status := DecodeAt(raw, pos, bpp, previous, out);
      if status.Err? {
        return Err(status.error);
      }
      pos := pos + 1 + rowLength;
      AfterRowsPush(done, out[..], UnfilterImage(raw, pos, height - y - 1, bpp, out[..]));
      done := done + [out[..]];
      previous := out;
    }
    assert done + [] == done;
    rows := Ok(done);
  }

  ghost function AfterRows(done: seq<seq<byte>>, rest: Result<seq<seq<byte>>>): Result<seq<seq<byte>>> {
    if rest.Err? then rest else Ok(done + rest.value)
  }

  lemma AfterRowsPush(done: seq<seq<byte>>, row: seq<byte>, rest: Result<seq<seq<byte>>>)
    ensures AfterRows(done, if rest.Err? then rest else Ok([row] + rest.value)) == AfterRows(done + [row], rest)
  {
    if rest.Ok? {
      assert done + ([row] + rest.value) == (done + [row]) + rest.value;
    }
  }

  /** Reads the filter type and the bytes of the scanline at `pos`, and decodes them. */
  method DecodeAt(raw: seq<byte>, pos: nat, bpp: nat, previous: array<byte>, out: array<byte>)
    returns (status: Result<()>)
    requires 1 <= bpp && out.Length == previous.Length && out != previous
    modifies out
    ensures var line := DecodeLine(raw, pos, bpp, old(previous[..]));
            status == (if line.Err? then Err(line.error) else Ok(())) && (line.Ok? ==> out[..] == line.value)
  {
    if pos >= |raw| {
      return Err(IndexError);
    }
    var row := raw[pos + 1..Min(pos + 1 + previous.Length, |raw|)];
    status := DecodeRow(raw[pos], bpp, previous, row, out);
    assert out.Length == 0 ==> out[..] == [];
  }
}
