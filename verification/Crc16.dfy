/**
 CRC-16/XMODEM as the serial tools compute it: polynomial 0x1021, not reflected, seed and output
 XOR zero (platform/nrf54l15/fw/smp.py, platform/silabs/fw/xmodem.py). Each operation on a register
 has its own small function and laws, so that the proofs about messages never look at single bits.
 */
module Crc16 {
  import opened Prelude

  type Register = bv16

  const POLY: Register := 0x1021

  function Xor(x: Register, y: Register): Register {
    x ^ y
  }

  predicate TopBit(c: Register) {
    c & 0x8000 != 0
  }

  function Up(c: Register): Register {
    c << 1
  }

  /** One bit. */
  function Shift(c: Register): Register {
    if TopBit(c) then Xor(Up(c), POLY) else Up(c)
  }

  function Shifts(c: Register, n: nat): Register {
    if n == 0 then c else Shift(Shifts(c, n - 1))
  }

  /** A byte as a register, and in the high half of one. */
  function Low(b: byte): Register {
    Octet(b) as bv16
  }

  function ToHigh(r: Register): Register {
    r << 8
  }

  function High(b: byte): Register {
    ToHigh(Low(b))
  }

  function Feed(c: Register, b: byte): Register {
    Shifts(Xor(c, High(b)), 8)
  }

  function Crc(data: seq<byte>, c: Register): Register {
    if data == [] then c else Feed(Crc(data[..|data| - 1], c), data[|data| - 1])
  }

  function HighHalf(c: Register): Register {
    c >> 8
  }

  function LowHalf(c: Register): Register {
    c & 0xFF
  }

  function AsByte(r: Register): (b: byte)
    requires r < 0x100
  {
    (r as bv8) as int
  }

  lemma WideNarrow(r: Register)
    requires r < 0x100
    ensures (r as bv8) as bv16 == r
  {
  }

  lemma AsByteInverse(r: Register)
    requires r < 0x100
    ensures Low(AsByte(r)) == r
  {
    hide Octet;
    OctetInverse(r as bv8);
    WideNarrow(r);
  }

  lemma HalvesAreBytes(c: Register)
    ensures HighHalf(c) < 0x100 && LowHalf(c) < 0x100
  {
  }

  /** The two bytes of a register, most significant first. */
  function CrcBytes(c: Register): (b: seq<byte>)
    ensures |b| == 2
  {
    HalvesAreBytes(c);
    [AsByte(HighHalf(c)), AsByte(LowHalf(c))]
  }

  method Crc16Xmodem(data: seq<byte>, seed: Register) returns (crc: Register)
    ensures crc == Crc(data, seed)
  {
    hide Shift, High, Xor;
    crc := seed;
    for i := 0 to |data|
      invariant crc == Crc(data[..i], seed)
    {
      assert data[..i + 1][..i] == data[..i];
      crc := Xor(crc, High(data[i]));
      ghost var start := crc;
      for k := 0 to 8
        invariant crc == Shifts(start, k)
      {
        crc := if TopBit(crc) then Xor(Up(crc), POLY) else Up(crc);
        assert crc == Shift(Shifts(start, k)) by { StepIsShift(Shifts(start, k)); }
      }
    }
    assert data[..|data|] == data;
  }

  lemma StepIsShift(c: Register)
    ensures Shift(c) == if TopBit(c) then Xor(Up(c), POLY) else Up(c)
  {
  }

  // ---- laws of one operation ----

  lemma XorAssociative(x: Register, y: Register, z: Register)
    ensures Xor(Xor(x, y), z) == Xor(x, Xor(y, z))
  {
  }

  lemma XorSwap(x: Register, y: Register)
    ensures Xor(x, y) == Xor(y, x)
  {
  }

  lemma XorPairs(a: Register, b: Register, p: Register)
    ensures Xor(Xor(a, p), Xor(b, p)) == Xor(a, b)
  {
    hide Xor;
    XorAssociative(a, p, Xor(b, p));
    XorSwap(b, p);
    XorAssociative(p, p, b);
    XorSelf(p);
    XorZero(b);
  }

  lemma XorSelf(x: Register)
    ensures Xor(x, x) == 0
  {
  }

  lemma XorZero(x: Register)
    ensures Xor(0, x) == x
  {
  }

  lemma XorCancels(x: Register, y: Register, h: Register)
    requires Xor(x, h) == Xor(y, h)
    ensures x == y
  {
  }

  lemma UpLinear(x: Register, y: Register)
    ensures Up(Xor(x, y)) == Xor(Up(x), Up(y))
  {
  }

  lemma TopBitLinear(x: Register, y: Register)
    ensures TopBit(Xor(x, y)) <==> TopBit(x) != TopBit(y)
  {
  }

  lemma UpInjective(x: Register, y: Register)
    requires TopBit(x) == TopBit(y) && Up(x) == Up(y)
    ensures x == y
  {
  }

  lemma PolyIsOdd(x: Register, y: Register)
    ensures Xor(Up(x), POLY) != Up(y)
  {
  }

  // ---- one bit, eight bits ----

  lemma ShiftInjective(x: Register, y: Register)
    requires Shift(x) == Shift(y)
    ensures x == y
  {
    hide Xor, Up, TopBit;
    PolyIsOdd(x, y);
    PolyIsOdd(y, x);
    if TopBit(x) {
      XorCancels(Up(x), Up(y), POLY);
    }
    UpInjective(x, y);
  }

  lemma {:induction false} ShiftsInjective(x: Register, y: Register, n: nat)
    requires Shifts(x, n) == Shifts(y, n)
    ensures x == y
  {
    hide Shift;
    if n > 0 {
      ShiftInjective(Shifts(x, n - 1), Shifts(y, n - 1));
      ShiftsInjective(x, y, n - 1);
    }
  }

  lemma ShiftLinear(x: Register, y: Register)
    ensures Shift(Xor(x, y)) == Xor(Shift(x), Shift(y))
  {
    hide Xor, Up, TopBit;
    UpLinear(x, y);
    TopBitLinear(x, y);
    XorPairs(Up(x), Up(y), POLY);
    XorAssociative(Up(x), Up(y), POLY);
    XorAssociative(Up(x), POLY, Up(y));
    XorSwap(POLY, Up(y));
  }

  lemma {:induction false} ShiftsLinear(x: Register, y: Register, n: nat)
    ensures Shifts(Xor(x, y), n) == Xor(Shifts(x, n), Shifts(y, n))
  {
    hide Shift, Xor;
    if n > 0 {
      ShiftsLinear(x, y, n - 1);
      ShiftLinear(Shifts(x, n - 1), Shifts(y, n - 1));
    }
  }

  /** Room for n more shifts without feedback. */
  predicate Clear(c: Register, n: nat)
    requires n <= 8
  {
    if n == 8 then c < 0x100 else if n == 7 then c < 0x200 else if n == 6 then c < 0x400 else if n == 5 then c < 0x800
    else if n == 4 then c < 0x1000 else if n == 3 then c < 0x2000 else if n == 2 then c < 0x4000 else if n == 1 then c < 0x8000 else true
  }

  lemma ShiftClear(c: Register, n: nat)
    requires 0 < n <= 8 && Clear(c, n)
    ensures Clear(Shift(c), n - 1) && Shift(c) == Up(c)
  {
    assert c < 0x8000;
  }

  function Ups(c: Register, n: nat): Register {
    if n == 0 then c else Up(Ups(c, n - 1))
  }

  lemma {:induction false} ShiftsClear(c: Register, n: nat)
    requires n <= 8 && c < 0x100
    ensures Shifts(c, n) == Ups(c, n) && Clear(Shifts(c, n), 8 - n)
  {
    hide Shift, Up, Clear;
    if n == 0 {
      assert Clear(c, 8) by { ByteIsClear(c); }
    } else {
      ShiftsClear(c, n - 1);
      ShiftClear(Shifts(c, n - 1), 9 - n);
    }
  }

  lemma ByteIsClear(c: Register)
    requires c < 0x100
    ensures Clear(c, 8)
  {
  }

  lemma EightUps(c: Register)
    ensures Up(Up(Up(Up(Up(Up(Up(Up(c)))))))) == ToHigh(c)
  {
  }

  /** A byte in the low half moves to the high half unchanged. */
  lemma LowByteMovesUp(c: Register)
    requires c < 0x100
    ensures Shifts(c, 8) == ToHigh(c)
  {
    hide Up, Shift, ToHigh;
    ShiftsClear(c, 8);
    assert Ups(c, 1) == Up(c);
    assert Ups(c, 2) == Up(Ups(c, 1));
    assert Ups(c, 4) == Up(Up(Ups(c, 2)));
    assert Ups(c, 6) == Up(Up(Ups(c, 4)));
    assert Ups(c, 8) == Up(Up(Ups(c, 6)));
    EightUps(c);
  }

  // ---- a whole message ----

  lemma {:induction false} CrcAppend(a: seq<byte>, b: seq<byte>, c: Register)
    ensures Crc(a + b, c) == Crc(b, Crc(a, c))
  {
    hide Feed;
    if b == [] {
      assert a + b == a;
    } else {
      assert (a + b)[..|a + b| - 1] == a + b[..|b| - 1];
      CrcAppend(a, b[..|b| - 1], c);
    }
  }

  lemma CrcPair(x: byte, y: byte, c: Register)
    ensures Crc([x, y], c) == Feed(Feed(c, x), y)
  {
    hide Feed;
    assert [x][..0] == [];
    assert Crc([x], c) == Feed(c, x);
    assert [x, y][..1] == [x];
  }

  lemma FeedInjective(c: Register, d: Register, b: byte)
    requires Feed(c, b) == Feed(d, b)
    ensures c == d
  {
    hide Shifts, High, Xor;
    ShiftsInjective(Xor(c, High(b)), Xor(d, High(b)), 8);
    XorCancels(c, d, High(b));
  }

  lemma {:induction false} CrcInjective(b: seq<byte>, c: Register, d: Register)
    requires Crc(b, c) == Crc(b, d)
    ensures c == d
  {
    hide Feed;
    if b != [] {
      FeedInjective(Crc(b[..|b| - 1], c), Crc(b[..|b| - 1], d), b[|b| - 1]);
      CrcInjective(b[..|b| - 1], c, d);
    }
  }

  lemma RemoveHighHalf(c: Register)
    ensures Xor(c, ToHigh(HighHalf(c))) == LowHalf(c)
  {
  }

  /** Appending the CRC, most significant byte first, leaves the residue zero, from any register. */
  lemma AppendedCrcLeavesZero(data: seq<byte>, seed: Register)
    ensures Crc(data + CrcBytes(Crc(data, seed)), seed) == 0
  {
    hide Shifts, Low, ToHigh, Xor, HighHalf, LowHalf, AsByte;
    var c := Crc(data, seed);
    var b := CrcBytes(c);
    HalvesAreBytes(c);
    AsByteInverse(HighHalf(c));
    AsByteInverse(LowHalf(c));
    CrcAppend(data, b, seed);
    CrcPair(b[0], b[1], c);
    RemoveHighHalf(c);
    LowByteMovesUp(LowHalf(c));
    XorSelf(ToHigh(LowHalf(c)));
    LowByteMovesUp(0);
    ZeroMovesUp();
  }

  lemma ZeroMovesUp()
    ensures ToHigh(0) == 0
  {
  }

  // ---- two adjacent bytes ----

  /** Two bytes as one register. */
  function Word(x: byte, y: byte): Register {
    Xor(High(x), Low(y))
  }

  lemma LowIsByte(b: byte)
    ensures Low(b) < 0x100
  {
    hide Octet;
  }

  lemma LowInjective(x: byte, y: byte)
    requires Low(x) == Low(y)
    ensures x == y
  {
    hide Octet;
    WidenInjective(Octet(x), Octet(y));
  }

  lemma WidenInjective(x: bv8, y: bv8)
    requires x as bv16 == y as bv16
    ensures x == y
  {
  }

  /** Feeding two bytes is sixteen shifts of the register their word is added to. */
  lemma TwoBytesAreAWord(c: Register, x: byte, y: byte)
    ensures Feed(Feed(c, x), y) == Shifts(Shifts(Xor(c, Word(x, y)), 8), 8)
  {
    hide Shifts, Low, ToHigh, Xor;
    LowIsByte(y);
    LowByteMovesUp(Low(y));
    ShiftsLinear(Xor(c, High(x)), Low(y), 8);
    XorAssociative(c, High(x), Low(y));
  }

  lemma HalvesEqual(a: Register, b: Register, a': Register, b': Register)
    requires a < 0x100 && b < 0x100 && a' < 0x100 && b' < 0x100
    requires Xor(ToHigh(a), b) == Xor(ToHigh(a'), b')
    ensures a == a' && b == b'
  {
  }

  lemma WordInjective(x: byte, y: byte, x': byte, y': byte)
    requires Word(x, y) == Word(x', y')
    ensures x == x' && y == y'
  {
    hide Low, ToHigh, Xor;
    LowIsByte(x);
    LowIsByte(y);
    LowIsByte(x');
    LowIsByte(y');
    HalvesEqual(Low(x), Low(y), Low(x'), Low(y'));
    LowInjective(x, x');
    LowInjective(y, y');
  }

  lemma PairInjective(c: Register, x: byte, y: byte, x': byte, y': byte)
    requires Feed(Feed(c, x), y) == Feed(Feed(c, x'), y')
    ensures x == x' && y == y'
  {
    hide Shifts, Word, Feed, Xor;
    TwoBytesAreAWord(c, x, y);
    TwoBytesAreAWord(c, x', y');
    ShiftsInjective(Shifts(Xor(c, Word(x, y)), 8), Shifts(Xor(c, Word(x', y')), 8), 8);
    ShiftsInjective(Xor(c, Word(x, y)), Xor(c, Word(x', y')), 8);
    XorSwap(c, Word(x, y));
    XorSwap(c, Word(x', y'));
    XorCancels(Word(x, y), Word(x', y'), c);
    WordInjective(x, y, x', y');
  }

  /** A change within two adjacent bytes always changes the CRC, in messages of every length. */
  lemma AdjacentChangeChangesCrc(before: seq<byte>, x: byte, y: byte, x': byte, y': byte, rest: seq<byte>, seed: Register)
    requires (x, y) != (x', y')
    ensures Crc(before + [x, y] + rest, seed) != Crc(before + [x', y'] + rest, seed)
  {
    hide Feed;
    var c := Crc(before, seed);
    PairFed(before, x, y, rest, seed);
    PairFed(before, x', y', rest, seed);
    if Crc(before + [x, y] + rest, seed) == Crc(before + [x', y'] + rest, seed) {
      CrcInjective(rest, Feed(Feed(c, x), y), Feed(Feed(c, x'), y'));
      PairInjective(c, x, y, x', y');
    }
  }

  lemma PairFed(before: seq<byte>, x: byte, y: byte, rest: seq<byte>, seed: Register)
    ensures Crc(before + [x, y] + rest, seed) == Crc(rest, Feed(Feed(Crc(before, seed), x), y))
  {
    hide Feed;
    CrcAppend(before + [x, y], rest, seed);
    CrcAppend(before, [x, y], seed);
    CrcPair(x, y, Crc(before, seed));
  }

  /** A body that checks, damaged anywhere within two adjacent bytes, never checks. */
  lemma DamagedBodyNeverChecks(body: seq<byte>, damaged: seq<byte>, at: nat)
    requires |body| == |damaged| && at + 2 <= |body| && body != damaged && Crc(body, 0) == 0
    requires forall i :: 0 <= i < |body| && i != at && i != at + 1 ==> damaged[i] == body[i]
    ensures Crc(damaged, 0) != 0
  {
    hide Crc;
    var x, y, x', y' := body[at], body[at + 1], damaged[at], damaged[at + 1];
    assert body == body[..at] + [x, y] + body[at + 2..];
    assert damaged == body[..at] + [x', y'] + body[at + 2..];
    AdjacentChangeChangesCrc(body[..at], x, y, x', y', body[at + 2..], 0);
  }

  // ---- the catalogue's check value ----

  /** One byte fed, two bits at a time. */
  lemma FedIs(c: Register, b: byte, s0: Register, s2: Register, s4: Register, s6: Register, s8: Register)
    requires Xor(c, High(b)) == s0
    requires Shift(Shift(s0)) == s2 && Shift(Shift(s2)) == s4 && Shift(Shift(s4)) == s6 && Shift(Shift(s6)) == s8
    ensures Feed(c, b) == s8
  {
    hide Shift, Xor, High;
    assert Shifts(s0, 1) == Shift(s0);
    assert Shifts(s0, 2) == Shift(Shifts(s0, 1));
    assert Shifts(s0, 4) == Shift(Shift(Shifts(s0, 2)));
    assert Shifts(s0, 6) == Shift(Shift(Shifts(s0, 4)));
    assert Shifts(s0, 8) == Shift(Shift(Shifts(s0, 6)));
  }

  lemma FirstDigit()
    ensures Feed(0x0000, 49) == 0x2672
  {
    FedIs(0x0000, 49, 0x3100, 0xC400, 0x2063, 0x818C, 0x2672);
  }

  lemma SecondDigit()
    ensures Feed(0x2672, 50) == 0x20B5
  {
    FedIs(0x2672, 50, 0x1472, 0x51C8, 0x5701, 0x4C25, 0x20B5);
  }

  lemma ThirdDigit()
    ensures Feed(0x20B5, 51) == 0x9752
  {
    FedIs(0x20B5, 51, 0x13B5, 0x4ED4, 0x2B71, 0xADC4, 0x9752);
  }

  lemma FourthDigit()
    ensures Feed(0x9752, 52) == 0xD789
  {
    FedIs(0x9752, 52, 0xA352, 0xAD0A, 0x946A, 0x71EA, 0xD789);
  }

  lemma FifthDigit()
    ensures Feed(0xD789, 53) == 0x546C
  {
    FedIs(0xD789, 53, 0xE289, 0xBA47, 0xC95E, 0x151B, 0x546C);
  }

  lemma SixthDigit()
    ensures Feed(0x546C, 54) == 0x20E4
  {
    FedIs(0x546C, 54, 0x626C, 0x9991, 0x4606, 0x0839, 0x20E4);
  }

  lemma SeventhDigit()
    ensures Feed(0x20E4, 55) == 0x86D6
  {
    FedIs(0x20E4, 55, 0x17E4, 0x5F90, 0x6E61, 0xA9A5, 0x86D6);
  }

  lemma EighthDigit()
    ensures Feed(0x86D6, 56) == 0x9015
  {
    FedIs(0x86D6, 56, 0xBED6, 0xDB1A, 0x5C0B, 0x600D, 0x9015);
  }

  lemma NinthDigit()
    ensures Feed(0x9015, 57) == 0x31C3
  {
    FedIs(0x9015, 57, 0xA915, 0x8416, 0x301A, 0xC068, 0x31C3);
  }

  /** Fed register by register, the digits 1 to 9 leave 0x31C3, the value the catalogue lists for CRC-16/XMODEM. */
  lemma CheckValue()
    ensures Crc([49, 50, 51, 52, 53, 54, 55, 56, 57], 0) == 0x31C3
  {
    hide Feed;
    var digits: seq<byte> := [49, 50, 51, 52, 53, 54, 55, 56, 57];
    FirstDigit();
    SecondDigit();
    ThirdDigit();
    FourthDigit();
    FifthDigit();
    SixthDigit();
    SeventhDigit();
    EighthDigit();
    NinthDigit();
    CrcStep(digits, 0);
    CrcStep(digits, 1);
    CrcStep(digits, 2);
    CrcStep(digits, 3);
    CrcStep(digits, 4);
    CrcStep(digits, 5);
    CrcStep(digits, 6);
    CrcStep(digits, 7);
    CrcStep(digits, 8);
    assert digits[..0] == [] && digits[..9] == digits;
  }

  lemma CrcStep(data: seq<byte>, i: nat)
    requires i < |data|
    ensures Crc(data[..i + 1], 0) == Feed(Crc(data[..i], 0), data[i])
  {
    hide Feed;
    assert data[..i + 1][..i] == data[..i];
  }
}
