/**
 Base 64 as section 4 of RFC 4648 defines it, and Python's default decoding of it: characters outside
 the alphabet are skipped, and padding that completes a quantum ends the input.
 */
module Base64 {
  import opened Prelude

  const PAD: byte := 61

  /** The 64-character alphabet: A-Z, a-z, 0-9, '+', '/'. */
  function Character(v: nat): (c: byte)
    requires v < 64
  {
    if v < 26 then 65 + v else if v < 52 then 97 + (v - 26) else if v < 62 then 48 + (v - 52) else if v == 62 then 43 else 47
  }

  function Digit(c: byte): (v: Option<nat>)
    ensures v.Some? ==> v.value < 64
  {
    if 65 <= c <= 90 then Some(c - 65) else if 97 <= c <= 122 then Some(c - 97 + 26) else if 48 <= c <= 57 then Some(c - 48 + 52)
    else if c == 43 then Some(62) else if c == 47 then Some(63) else None
  }

  lemma DigitOfCharacter(v: nat)
    requires v < 64
    ensures Digit(Character(v)) == Some(v) && Character(v) != PAD && Character(v) != 10
  {
  }

  /** The alphabet of table 1 of RFC 4648. */
  lemma AlphabetInOrder(v: nat)
    requires v < 64
    ensures v < 26 ==> Character(v) == 'A' as int + v
    ensures 26 <= v < 52 ==> Character(v) == 'a' as int + (v - 26)
    ensures 52 <= v < 62 ==> Character(v) == '0' as int + (v - 52)
    ensures Character(62) == '+' as int && Character(63) == '/' as int
  {
  }

  /** One quantum of one to three bytes. */
  function Quantum(b: seq<byte>): (q: seq<byte>)
    requires 1 <= |b| <= 3
    ensures |q| == 4
  {
    if |b| == 3 then
      [Character(b[0] / 4), Character(b[0] % 4 * 16 + b[1] / 16), Character(b[1] % 16 * 4 + b[2] / 64), Character(b[2] % 64)]
    else if |b| == 2 then
      [Character(b[0] / 4), Character(b[0] % 4 * 16 + b[1] / 16), Character(b[1] % 16 * 4), PAD]
    else
      [Character(b[0] / 4), Character(b[0] % 4 * 16), PAD, PAD]
  }

  function Encode(b: seq<byte>): (s: seq<byte>)
    ensures |s| == (|b| + 2) / 3 * 4
  {
    if b == [] then []
    else if |b| <= 3 then Quantum(b)
    else Quantum(b[..3]) + Encode(b[3..])
  }

  /** Section 4 of RFC 4648: three octets make one 24-bit group, read as four 6-bit digits. */
  lemma QuantumIsA24BitGroup(b: seq<byte>)
    requires |b| == 3
    ensures forall i :: 0 <= i < 4 ==> Digit(Quantum(b)[i]).Some?
    ensures var q := Quantum(b);
            var group: int := 262144 * Digit(q[0]).value + 4096 * Digit(q[1]).value + 64 * Digit(q[2]).value + Digit(q[3]).value;
            FromBigEndian(b) == group
  {
    DigitOfCharacter(b[0] / 4);
    DigitOfCharacter(b[0] % 4 * 16 + b[1] / 16);
    DigitOfCharacter(b[1] % 16 * 4 + b[2] / 64);
    DigitOfCharacter(b[2] % 64);
    hide Character, Digit;
    assert b[..1] == [b[0]] && b[..2][..1] == b[..1] && b[..1][..0] == [];
    assert FromBigEndian(b[..1]) == b[0];
    var first: int := b[0];
    assert FromBigEndian(b[..2]) == 256 * first + b[1];
  }

  /** Test vectors of section 10 of RFC 4648: "f", "fo" and "foobar"; and one of the last two digits. */
  lemma TestVectors()
    ensures Encode([102]) == [90, 103, 61, 61]
    ensures Encode([102, 111]) == [90, 109, 56, 61]
    ensures Encode([102, 111, 111, 98, 97, 114]) == [90, 109, 57, 118, 89, 109, 70, 121]
    ensures Encode([0xFB, 0xFF, 0xBF]) == [43, 47, 43, 47]
  {
    hide Quantum;
    var b: seq<byte> := [102, 111, 111, 98, 97, 114];
    assert b[..3] == [102, 111, 111] && b[3..] == [98, 97, 114];
    ShortQuanta();
    WholeQuanta();
  }

  lemma ShortQuanta()
    ensures Quantum([102]) == [90, 103, 61, 61] && Quantum([102, 111]) == [90, 109, 56, 61]
  {
  }

  lemma WholeQuanta()
    ensures Quantum([102, 111, 111]) == [90, 109, 57, 118] && Quantum([98, 97, 114]) == [89, 109, 70, 121]
    ensures Quantum([0xFB, 0xFF, 0xBF]) == [43, 47, 43, 47]
  {
  }

  // ---- decoding, a character at a time ----

  /** quad is the position within a quantum, left the bits kept from its last character. */
  datatype Reader = Reader(quad: nat, left: nat, pads: nat, out: seq<byte>, done: bool)

  predicate ReaderOk(r: Reader) {
    r.quad < 4 && r.left < 64 && (r.quad == 2 ==> r.left < 16) && (r.quad == 3 ==> r.left < 4)
  }

  function Read(r: Reader, c: byte): (r': Reader)
    requires ReaderOk(r)
    ensures ReaderOk(r')
  {
    if r.done then r
    else if c == PAD then
      if r.quad >= 2 then r.(pads := r.pads + 1, done := r.quad + r.pads + 1 >= 4) else r
    else
      match Digit(c)
      case None => r
      case Some(v) =>
        if r.quad == 0 then Reader(1, v, 0, r.out, false)
        else if r.quad == 1 then Reader(2, v % 16, 0, r.out + [r.left * 4 + v / 16], false)
        else if r.quad == 2 then Reader(3, v % 4, 0, r.out + [r.left * 16 + v / 4], false)
        else Reader(0, 0, 0, r.out + [r.left * 64 + v], false)
  }

  function ReadAll(r: Reader, s: seq<byte>): (r': Reader)
    requires ReaderOk(r)
    ensures ReaderOk(r')
    decreases s
  {
    if s == [] then r else ReadAll(Read(r, s[0]), s[1..])
  }

  const EMPTY: Reader := Reader(0, 0, 0, [], false)

  /** None is Python's binascii.Error: the input ended inside a quantum. */
  function Decode(s: seq<byte>): Option<seq<byte>> {
    var r := ReadAll(EMPTY, s);
    if r.done || r.quad == 0 then Some(r.out) else None
  }

  lemma ReadFour(r: Reader, q: seq<byte>, rest: seq<byte>)
    requires ReaderOk(r) && |q| == 4
    ensures ReadAll(r, q + rest) == ReadAll(Read(Read(Read(Read(r, q[0]), q[1]), q[2]), q[3]), rest)
  {
    hide Read, ReadAll;
    ReadNext(r, q, 0, rest);
    ReadNext(Read(r, q[0]), q, 1, rest);
    ReadNext(Read(Read(r, q[0]), q[1]), q, 2, rest);
    ReadNext(Read(Read(Read(r, q[0]), q[1]), q[2]), q, 3, rest);
    assert q[0..] == q && q[4..] + rest == rest;
  }

  lemma ReadNext(r: Reader, q: seq<byte>, i: nat, rest: seq<byte>)
    requires ReaderOk(r) && i < |q|
    ensures ReadAll(r, q[i..] + rest) == ReadAll(Read(r, q[i]), q[i + 1..] + rest)
  {
    hide Read, ReadAll;
    ReadOne(r, q[i], q[i + 1..] + rest);
    assert [q[i]] + (q[i + 1..] + rest) == q[i..] + rest;
  }

  lemma ReadOne(r: Reader, c: byte, rest: seq<byte>)
    requires ReaderOk(r)
    ensures ReadAll(r, [c] + rest) == ReadAll(Read(r, c), rest)
  {
    assert ([c] + rest)[1..] == rest;
  }

  lemma DigitsOfBytes(a: byte, b: byte, c: byte)
    ensures a / 4 * 4 + (a % 4 * 16 + b / 16) / 16 == a
    ensures (a % 4 * 16 + b / 16) % 16 * 16 + (b % 16 * 4 + c / 64) / 4 == b
    ensures (b % 16 * 4 + c / 64) % 4 * 64 + c % 64 == c
  {
  }

  lemma ReadFullQuantum(out: seq<byte>, b: seq<byte>)
    requires |b| == 3
    ensures var q := Quantum(b); Read(Read(Read(Read(Reader(0, 0, 0, out, false), q[0]), q[1]), q[2]), q[3]) == Reader(0, 0, 0, out + b, false)
  {
    DigitOfCharacter(b[0] / 4);
    DigitOfCharacter(b[0] % 4 * 16 + b[1] / 16);
    DigitOfCharacter(b[1] % 16 * 4 + b[2] / 64);
    DigitOfCharacter(b[2] % 64);
    DigitsOfBytes(b[0], b[1], b[2]);
    hide Character, Digit;
    assert out + [b[0]] + [b[1]] + [b[2]] == out + b;
  }

  lemma ReadTwoBytes(out: seq<byte>, b: seq<byte>)
    requires |b| == 2
    ensures var q := Quantum(b); var r := Read(Read(Read(Read(Reader(0, 0, 0, out, false), q[0]), q[1]), q[2]), q[3]);
            r.done && r.out == out + b
  {
    DigitOfCharacter(b[0] / 4);
    DigitOfCharacter(b[0] % 4 * 16 + b[1] / 16);
    DigitOfCharacter(b[1] % 16 * 4);
    hide Character, Digit;
    assert out + [b[0]] + [b[1]] == out + b;
  }

  lemma ReadOneByte(out: seq<byte>, b: seq<byte>)
    requires |b| == 1
    ensures var q := Quantum(b); var r := Read(Read(Read(Read(Reader(0, 0, 0, out, false), q[0]), q[1]), q[2]), q[3]);
            r.done && r.out == out + b
  {
    DigitOfCharacter(b[0] / 4);
    DigitOfCharacter(b[0] % 4 * 16);
    hide Character, Digit;
    assert out + [b[0]] == out + b;
  }

  lemma ReadLastQuantum(out: seq<byte>, b: seq<byte>)
    requires 1 <= |b| <= 2
    ensures var q := Quantum(b); var r := Read(Read(Read(Read(Reader(0, 0, 0, out, false), q[0]), q[1]), q[2]), q[3]);
            r.done && r.out == out + b
  {
    hide Quantum, Read;
    if |b| == 2 {
      ReadTwoBytes(out, b);
    } else {
      ReadOneByte(out, b);
    }
  }

  lemma {:induction false} ReadEncoded(out: seq<byte>, b: seq<byte>)
    ensures var r := ReadAll(Reader(0, 0, 0, out, false), Encode(b)); (r.done || r.quad == 0) && r.out == out + b
    decreases b
  {
    hide Quantum, Read;
    var r := Reader(0, 0, 0, out, false);
    if b == [] {
      assert out + b == out;
    } else if |b| < 3 {
      ReadFour(r, Quantum(b), []);
      assert Quantum(b) + [] == Quantum(b);
      ReadLastQuantum(out, b);
    } else if |b| == 3 {
      ReadFour(r, Quantum(b), []);
      assert Quantum(b) + [] == Quantum(b);
      ReadFullQuantum(out, b);
    } else {
      ReadFour(r, Quantum(b[..3]), Encode(b[3..]));
      ReadFullQuantum(out, b[..3]);
      ReadEncoded(out + b[..3], b[3..]);
      assert out + b[..3] + b[3..] == out + b;
    }
  }

  lemma DecodeEncode(b: seq<byte>)
    ensures Decode(Encode(b)) == Some(b)
  {
    ReadEncoded([], b);
    assert [] + b == b;
  }

  // ---- what else is decoded ----

  lemma {:induction false} ReadSplit(r: Reader, a: seq<byte>, b: seq<byte>)
    requires ReaderOk(r)
    ensures ReadAll(r, a + b) == ReadAll(ReadAll(r, a), b)
    decreases a
  {
    hide Read;
    if a == [] {
      assert a + b == b;
    } else {
      assert (a + b)[1..] == a[1..] + b;
      ReadSplit(Read(r, a[0]), a[1..], b);
    }
  }

  /** A character outside the alphabet is as good as absent, wherever it stands. */
  lemma JunkIsSkipped(a: seq<byte>, c: byte, b: seq<byte>)
    requires Digit(c).None? && c != 61
    ensures Decode(a + [c] + b) == Decode(a + b)
  {
    ReadSplit(EMPTY, a + [c], b);
    ReadSplit(EMPTY, a, [c]);
    ReadSplit(EMPTY, a, b);
    var r := ReadAll(EMPTY, a);
    assert [c][1..] == [];
    assert ReadAll(r, [c]) == r;
  }

  lemma {:induction false} DigitsRead(s: seq<byte>)
    requires forall i :: 0 <= i < |s| ==> Digit(s[i]).Some?
    ensures var r := ReadAll(EMPTY, s); r.quad == |s| % 4 && !r.done && r.pads == 0
    ensures |ReadAll(EMPTY, s).out| == BytesOf(|s|)
    decreases |s|
  {
    hide Digit, Read, BytesOf;
    if s == [] {
      NoDigits();
    }
    if s != [] {
      var init, last := s[..|s| - 1], s[|s| - 1];
      DigitsRead(init);
      assert s == init + [last];
      ReadSplit(EMPTY, init, [last]);
      assert [last][1..] == [];
      DigitRead(ReadAll(EMPTY, init), last);
      NextByte(|init|);
    }
  }

  /** The bytes that so many characters have completed. */
  function BytesOf(n: nat): nat {
    n / 4 * 3 + if n % 4 == 0 then 0 else n % 4 - 1
  }

  lemma NextByte(n: nat)
    ensures BytesOf(n + 1) == BytesOf(n) + (if n % 4 == 0 then 0 else 1) && (n + 1) % 4 == (n % 4 + 1) % 4
  {
  }

  lemma NoDigits()
    ensures ReadAll(EMPTY, []) == EMPTY && BytesOf(0) == 0
  {
  }

  lemma DigitRead(r: Reader, c: byte)
    requires ReaderOk(r) && Digit(c).Some? && !r.done && r.pads == 0
    ensures var r' := Read(r, c); r'.quad == (r.quad + 1) % 4 && !r'.done && r'.pads == 0
    ensures |Read(r, c).out| == |r.out| + if r.quad == 0 then 0 else 1
  {
  }

  /**
   Text of the alphabet alone decodes exactly if it is whole quanta; the padding it lacks completes it, whatever
   comes after that, and less padding does not.
   */
  lemma DigitsDecode(s: seq<byte>, after: seq<byte>)
    requires forall i :: 0 <= i < |s| ==> Digit(s[i]).Some?
    ensures Decode(s).Some? <==> |s| % 4 == 0
    ensures |s| % 4 == 0 ==> |Decode(s).value| == |s| / 4 * 3
    ensures |s| % 4 == 2 ==> Decode(s + [61]).None? && Decode(s + [61, 61] + after).Some?
                             && |Decode(s + [61, 61] + after).value| == |s| / 4 * 3 + 1
    ensures |s| % 4 == 3 ==> Decode(s + [61] + after).Some? && |Decode(s + [61] + after).value| == |s| / 4 * 3 + 2
    ensures |s| % 4 == 1 ==> Decode(s + [61, 61, 61]).None?
  {
    DigitsRead(s);
    var r := ReadAll(EMPTY, s);
    Padded(s, after);
    hide Read, ReadAll, Digit;
    ReadSplit(EMPTY, s, [61, 61, 61]);
    if |s| % 4 == 1 {
      ThreePads(r);
    }
  }

  lemma Padded(s: seq<byte>, after: seq<byte>)
    ensures var r := ReadAll(EMPTY, s);
            && (r.quad == 2 && r.pads == 0 && !r.done ==>
                  Decode(s + [61]).None? && Decode(s + [61, 61] + after) == Some(r.out))
            && (r.quad == 3 && r.pads == 0 && !r.done ==> Decode(s + [61] + after) == Some(r.out))
  {
    var r := ReadAll(EMPTY, s);
    ReadSplit(EMPTY, s, [61]);
    ReadSplit(EMPTY, s, [61, 61]);
    ReadSplit(EMPTY, s + [61], after);
    ReadSplit(EMPTY, s + [61, 61], after);
    assert [61, 61][1..] == [61] && [61][1..] == [];
    Done(ReadAll(EMPTY, s + [61]), after);
    Done(ReadAll(EMPTY, s + [61, 61]), after);
  }

  lemma {:induction false} Done(r: Reader, after: seq<byte>)
    requires ReaderOk(r)
    ensures r.done ==> ReadAll(r, after) == r
    decreases after
  {
    if r.done && after != [] {
      Done(r, after[1..]);
    }
  }

  lemma ThreePads(r: Reader)
    requires ReaderOk(r) && r.quad < 2
    ensures ReadAll(r, [61, 61, 61]) == r
  {
    assert [61, 61, 61][1..] == [61, 61] && [61, 61][1..] == [61] && [61][1..] == [];
    assert ReadAll(r, [61]) == r;
    assert ReadAll(r, [61, 61]) == r;
  }

  /** Every character of an encoding is in the alphabet or the padding; none is a newline. */
  lemma {:induction false} EncodeAlphabet(b: seq<byte>, i: nat)
    requires i < |Encode(b)|
    ensures Encode(b)[i] == PAD || Digit(Encode(b)[i]).Some?
    ensures Encode(b)[i] != 10
  {
    if |b| <= 3 {
      QuantumAlphabet(b, i);
    } else if i < 4 {
      QuantumAlphabet(b[..3], i);
    } else {
      EncodeAlphabet(b[3..], i - 4);
    }
  }

  lemma QuantumAlphabet(b: seq<byte>, i: nat)
    requires 1 <= |b| <= 3 && i < 4
    ensures Quantum(b)[i] == PAD || Digit(Quantum(b)[i]).Some?
    ensures Quantum(b)[i] != 10
  {
  }

  /** Cutting the encoding after whole quanta cuts the bytes after as many triples. */
  lemma {:induction false} EncodeSplits(b: seq<byte>, quanta: nat)
    requires 3 * quanta <= |b|
    ensures 4 * quanta <= |Encode(b)|
    ensures Encode(b)[..4 * quanta] == Encode(b[..3 * quanta])
    ensures Encode(b)[4 * quanta..] == Encode(b[3 * quanta..])
  {
    hide Quantum;
    if quanta == 0 {
      assert b[0..] == b;
    } else if |b| == 3 {
      assert b[..3] == b && b[3..] == [];
    } else {
      EncodeSplits(b[3..], quanta - 1);
      var head, tail := b[..3 * quanta], b[3..];
      assert Encode(b) == Quantum(b[..3]) + Encode(tail);
      assert tail[3 * (quanta - 1)..] == b[3 * quanta..];
      assert tail[..3 * (quanta - 1)] == b[3..3 * quanta];
      assert head[3..] == b[3..3 * quanta] && head[..3] == b[..3];
      if quanta == 1 {
        assert head == b[..3];
      }
    }
  }
}
