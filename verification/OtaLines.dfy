/** The lines of one block pull (core/mt/mt_ota.c): 96 bytes a line, in upper-case hex, each with its offset. */
module OtaLines {
  import opened Prelude

  const CHUNK: nat := 96

  function HexDigit(v: nat): (c: byte)
    requires v < 16
  {
    if v < 10 then 48 + v else 55 + v
  }

  function Hex(b: seq<byte>): (h: seq<byte>)
    ensures |h| == 2 * |b|
  {
    if b == [] then [] else Hex(b[..|b| - 1]) + HexPair(b[|b| - 1])
  }

  function HexPair(v: byte): (p: seq<byte>)
    ensures |p| == 2
  {
    [HexDigit(v / 16), HexDigit(v % 16)]
  }

  function DigitValue(c: byte): nat {
    if 48 <= c <= 57 then c - 48 else if 65 <= c <= 70 then c - 55 else 0
  }

  function ByteOf(high: byte, low: byte): byte {
    (DigitValue(high) * 16 + DigitValue(low)) % 256
  }

  function Unhex(h: seq<byte>): seq<byte> {
    if |h| < 2 then [] else Unhex(h[..|h| - 2]) + [ByteOf(h[|h| - 2], h[|h| - 1])]
  }

  lemma HexOfByte(v: byte)
    ensures ByteOf(HexPair(v)[0], HexPair(v)[1]) == v
  {
    assert DigitValue(HexDigit(v / 16)) == v / 16;
    assert DigitValue(HexDigit(v % 16)) == v % 16;
  }

  lemma {:induction false} UnhexHex(b: seq<byte>)
    ensures Unhex(Hex(b)) == b
  {
    hide Hex, Unhex, HexPair, ByteOf;
    if b == [] {
      NoHex();
    } else {
      var init, v := b[..|b| - 1], b[|b| - 1];
      UnhexHex(init);
      HexOfByte(v);
      HexStep(init, v);
      UnhexStep(Hex(init), HexPair(v)[0], HexPair(v)[1]);
      assert init + [v] == b;
    }
  }

  lemma NoHex()
    ensures Unhex(Hex([])) == []
  {
  }

  lemma HexStep(b: seq<byte>, v: byte)
    ensures Hex(b + [v]) == Hex(b) + [HexPair(v)[0], HexPair(v)[1]]
  {
    hide HexPair;
    assert (b + [v])[..|b|] == b;
  }

  lemma UnhexStep(h: seq<byte>, high: byte, low: byte)
    ensures Unhex(h + [high, low]) == Unhex(h) + [ByteOf(high, low)]
  {
    hide ByteOf;
    var more := h + [high, low];
    assert more[..|more| - 2] == h && more[|more| - 2] == high && more[|more| - 1] == low;
  }

  /** Upper case, the high half first. */
  lemma HexVectors()
    ensures Hex([0x1F, 0xA0]) == [49, 70, 65, 48] && Hex([0x9C]) == [57, 67]
  {
    HexStep([], 0x9C);
    HexStep([], 0x1F);
    HexStep([0x1F], 0xA0);
    assert [] + [0x9C] == [0x9C] && [] + [0x1F] == [0x1F] && [0x1F] + [0xA0] == [0x1F, 0xA0];
  }

  /** The rendering loop: two characters a byte, into a fixed buffer. */
  method RenderHex(chunk: seq<byte>) returns (hex: seq<byte>)
    requires |chunk| <= CHUNK
    ensures hex == Hex(chunk)
  {
    var buf := new byte[2 * CHUNK];
    for i := 0 to |chunk|
      invariant buf[..2 * i] == Hex(chunk[..i])
    {
      assert chunk[..i + 1][..i] == chunk[..i];
      buf[2 * i] := HexDigit(chunk[i] / 16);
      buf[2 * i + 1] := HexDigit(chunk[i] % 16);
      assert buf[..2 * (i + 1)] == buf[..2 * i] + [buf[2 * i], buf[2 * i + 1]];
    }
    assert chunk[..|chunk|] == chunk;
    return buf[..2 * |chunk|];
  }

  /** One +MTOTABLK line. */
  datatype Line = Line(off: nat, hex: seq<byte>)

  function ChunkEnd(off: nat, len: nat): nat {
    if off + CHUNK < len then off + CHUNK else len
  }

  /** The first n lines of a pull of this block. */
  function Lines(block: seq<byte>, n: nat): (lines: seq<Line>)
    requires n == 0 || CHUNK * (n - 1) < |block|
    ensures |lines| == n
  {
    if n == 0 then []
    else Lines(block, n - 1) + [Line(CHUNK * (n - 1), Hex(block[CHUNK * (n - 1)..ChunkEnd(CHUNK * (n - 1), |block|)]))]
  }

  /** What a host makes of the lines. */
  function Decoded(lines: seq<Line>): seq<byte> {
    if lines == [] then [] else Decoded(lines[..|lines| - 1]) + Unhex(lines[|lines| - 1].hex)
  }

  lemma LinesStep(block: seq<byte>, n: nat)
    requires n > 0 && CHUNK * (n - 1) < |block|
    ensures Lines(block, n) == Lines(block, n - 1) + [Line(CHUNK * (n - 1), Hex(block[CHUNK * (n - 1)..ChunkEnd(CHUNK * (n - 1), |block|)]))]
    ensures CHUNK * (n - 1) <= ChunkEnd(CHUNK * (n - 1), |block|) <= |block|
    ensures block[..CHUNK * (n - 1)] + block[CHUNK * (n - 1)..ChunkEnd(CHUNK * (n - 1), |block|)] == block[..ChunkEnd(CHUNK * (n - 1), |block|)]
  {
  }

  lemma NoLines(block: seq<byte>)
    ensures Lines(block, 0) == [] && Decoded([]) == [] && block[..0] == []
  {
  }

  lemma DecodedStep(lines: seq<Line>, line: Line)
    ensures Decoded(lines + [line]) == Decoded(lines) + Unhex(line.hex)
  {
    assert (lines + [line])[..|lines|] == lines;
  }

  lemma {:induction false} LinesDecode(block: seq<byte>, n: nat)
    requires n == 0 || CHUNK * (n - 1) < |block|
    ensures forall i :: 0 <= i < n ==> Lines(block, n)[i].off == CHUNK * i
    ensures Decoded(Lines(block, n)) == block[..if CHUNK * n < |block| then CHUNK * n else |block|]
  {
    hide Hex, Unhex, Lines, Decoded;
    if n == 0 {
      NoLines(block);
    } else {
      LinesDecode(block, n - 1);
      LinesStep(block, n);
      var part := block[CHUNK * (n - 1)..ChunkEnd(CHUNK * (n - 1), |block|)];
      DecodedStep(Lines(block, n - 1), Line(CHUNK * (n - 1), Hex(part)));
      UnhexHex(part);
    }
  }

  function WholeLines(block: seq<byte>): nat {
    (|block| + CHUNK - 1) / CHUNK
  }

  lemma ChunkInBlock(mem: seq<byte>, len: nat, off: nat)
    requires off < len <= |mem|
    ensures mem[..len][off..ChunkEnd(off, len)] == mem[off..ChunkEnd(off, len)]
  {
  }

  lemma WholeIsReached(block: seq<byte>, n: nat)
    requires CHUNK * n >= |block| && n > 0 && CHUNK * (n - 1) < |block|
    ensures n == WholeLines(block)
  {
  }
}
