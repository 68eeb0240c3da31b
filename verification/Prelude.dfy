/** Datatypes every other module shares. */
module Prelude {
  datatype Option<+T> = None | Some(value: T)

  type byte = x: int | 0 <= x < 256

  const INT64_MAX: int := 0x7FFF_FFFF_FFFF_FFFF
  const TWO_TO_32: int := 0x1_0000_0000
  const TWO_TO_63: int := 0x8000_0000_0000_0000
  const TWO_TO_64: int := 0x1_0000_0000_0000_0000

  /** The cast of an integer in range to eight bits; the case split only halves what the solver has to search. */
  function Octet(v: int): (o: bv8)
    requires 0 <= v < 256
    ensures o as int == v
  {
    if v < 128 then v as bv8 else v as bv8
  }

  lemma OctetInverse(o: bv8)
    ensures Octet(o as int) == o
  {
  }

  lemma Associate<T>(a: seq<T>, b: seq<T>, c: seq<T>)
    ensures a + b + c == a + (b + c)
  {
  }

  /** The n bytes of v, least significant first. */
  function LittleEndian(v: nat, n: nat): (b: seq<byte>)
    ensures |b| == n
  {
    if n == 0 then [] else [v % 256] + LittleEndian(v / 256, n - 1)
  }

  lemma ByteStep(low: byte, high: nat, n: nat)
    ensures LittleEndian(low + 256 * high, n + 1) == [low] + LittleEndian(high, n)
  {
  }

  lemma TwoBytes(a: byte, b: byte)
    ensures LittleEndian(a + 256 * (b as int), 2) == [a, b]
  {
    ByteStep(a, b, 1);
    ByteStep(b, 0, 0);
    assert LittleEndian(0, 0) == [];
  }

  lemma FourBytes(a: byte, b: byte, c: byte, d: byte)
    ensures LittleEndian(a + 256 * (b + 256 * (c + 256 * (d as int))), 4) == [a, b, c, d]
  {
    hide LittleEndian;
    ByteStep(a, b + 256 * (c + 256 * (d as int)), 3);
    ByteStep(b, c + 256 * (d as int), 2);
    TwoBytes(c, d);
  }

  function FromLittleEndian(b: seq<byte>): (v: nat)
  {
    if b == [] then 0 else b[0] + 256 * FromLittleEndian(b[1..])
  }

  function Power256(n: nat): (p: nat)
    ensures p > 0
  {
    if n == 0 then 1 else 256 * Power256(n - 1)
  }

  lemma Powers()
    ensures Power256(1) == 256 && Power256(2) == 0x10000 && Power256(4) == TWO_TO_32 && Power256(8) == TWO_TO_64
  {
    assert Power256(1) == 256 * Power256(0);
    assert Power256(2) == 256 * Power256(1);
    assert Power256(4) == 256 * (256 * Power256(2));
    assert Power256(6) == 256 * (256 * Power256(4));
    assert Power256(8) == 256 * (256 * Power256(6));
  }

  /** Reading n little-endian bytes gives back the value modulo 256^n. */
  lemma {:induction false} LittleEndianRoundTrip(v: nat, n: nat)
    requires v < Power256(n)
    ensures FromLittleEndian(LittleEndian(v, n)) == v
  {
    if n == 0 {
    } else {
      assert v / 256 < Power256(n - 1);
      LittleEndianRoundTrip(v / 256, n - 1);
      assert LittleEndian(v, n)[1..] == LittleEndian(v / 256, n - 1);
    }
  }

  /** Writing back a value read from bytes gives those bytes. */
  lemma {:induction false} LittleEndianRewrite(b: seq<byte>)
    ensures FromLittleEndian(b) < Power256(|b|)
    ensures LittleEndian(FromLittleEndian(b), |b|) == b
  {
    if b == [] {
    } else {
      LittleEndianRewrite(b[1..]);
      var rest := FromLittleEndian(b[1..]);
      ByteStep(b[0], rest, |b| - 1);
      hide LittleEndian;
      assert b == [b[0]] + b[1..];
    }
  }

  /** Big-endian: most significant byte first. */
  function BigEndian(v: nat, n: nat): (b: seq<byte>)
    ensures |b| == n
  {
    if n == 0 then [] else BigEndian(v / 256, n - 1) + [v % 256]
  }

  lemma HighByteFirst(a: byte, b: byte)
    ensures BigEndian(256 * (a as int) + b, 2) == [a, b]
  {
    assert (256 * (a as int) + b) / 256 == a;
    assert BigEndian(a, 1) == BigEndian(0, 0) + [a];
  }

  function FromBigEndian(b: seq<byte>): (v: nat)
  {
    if b == [] then 0 else 256 * FromBigEndian(b[..|b| - 1]) + b[|b| - 1]
  }

  lemma {:induction false} BigEndianRoundTrip(v: nat, n: nat)
    requires v < Power256(n)
    ensures FromBigEndian(BigEndian(v, n)) == v
  {
    if n == 0 {
    } else {
      assert v / 256 < Power256(n - 1);
      BigEndianRoundTrip(v / 256, n - 1);
      assert BigEndian(v, n)[..n - 1] == BigEndian(v / 256, n - 1);
    }
  }

  lemma {:induction false} BigEndianRewrite(b: seq<byte>)
    ensures FromBigEndian(b) < Power256(|b|)
    ensures BigEndian(FromBigEndian(b), |b|) == b
  {
    if b == [] {
    } else {
      BigEndianRewrite(b[..|b| - 1]);
      var v := FromBigEndian(b);
      assert v % 256 == b[|b| - 1] && v / 256 == FromBigEndian(b[..|b| - 1]);
    }
  }

  /** The stream that chunks make up. */
  function Concat(chunks: seq<seq<byte>>): seq<byte>
    decreases chunks
  {
    if chunks == [] then [] else chunks[0] + Concat(chunks[1..])
  }
}
