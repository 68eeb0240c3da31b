/**
 The one-byte day-of-week bitmaps of an EVSE charging schedule: bit d set means
 the schedule applies on day d (bit 0 Sunday .. bit 6 Saturday). Bit 7 is no day.
 DaySet is what a bitmap means; the lemmas say what the byte operations do to it.
 */
module DayMask {
  import opened Prelude

  const ALL_DAYS: bv8 := 0x7F
  const WEEK: set<nat> := {0, 1, 2, 3, 4, 5, 6}

  function Bit(d: nat): (b: bv8)
    requires d < 7
  {
    if d == 0 then 0x01 else if d == 1 then 0x02 else if d == 2 then 0x04 else if d == 3 then 0x08
    else if d == 4 then 0x10 else if d == 5 then 0x20 else 0x40
  }

  predicate HasDay(m: bv8, d: nat)
    requires d < 7
  {
    m & Bit(d) != 0
  }

  function DaySet(m: bv8): set<nat> {
    set d: nat | d < 7 && HasDay(m, d)
  }

  /** Bit 7, which is no day, is clear. */
  predicate OnlyDays(m: bv8) {
    m & !ALL_DAYS == 0
  }

  /** At least one real day, and nothing but real days. */
  predicate Legal(m: bv8) {
    m != 0 && OnlyDays(m)
  }

  /** a & ~b: the days of a that b does not name. */
  function Without(a: bv8, b: bv8): bv8 {
    a & !b
  }

  lemma OnlyDaysKept(a: bv8, b: bv8)
    requires OnlyDays(a)
    ensures OnlyDays(Without(a, b))
    ensures OnlyDays(b) ==> OnlyDays(a | b)
    ensures OnlyDays(b & ALL_DAYS) && OnlyDays(0)
  {
  }

  lemma OctetLegal(v: int)
    requires 0 <= v < 256
    ensures Legal(Octet(v)) <==> 1 <= v <= 127
  {
    var m := Octet(v);
    assert m & !ALL_DAYS == 0 <==> m < 0x80;
    assert m < 0x80 <==> v < 128;
    assert m == 0 <==> v == 0;
  }

  lemma DaySetWithin(m: bv8)
    ensures DaySet(m) <= WEEK && DaySet(m & ALL_DAYS) == DaySet(m)
  {
    forall d: nat | d < 7 ensures HasDay(m & ALL_DAYS, d) == HasDay(m, d) {
    }
  }

  lemma DaySetWithout(a: bv8, b: bv8)
    ensures DaySet(Without(a, b)) == DaySet(a) - DaySet(b)
  {
    forall d: nat | d < 7 ensures HasDay(Without(a, b), d) <==> HasDay(a, d) && !HasDay(b, d) {
    }
  }

  lemma DaySetUnion(a: bv8, b: bv8)
    ensures DaySet(a | b) == DaySet(a) + DaySet(b)
  {
    forall d: nat | d < 7 ensures HasDay(a | b, d) <==> HasDay(a, d) || HasDay(b, d) {
    }
  }

  lemma AllBits(m: bv8)
    requires OnlyDays(m)
    ensures m == 0 <==> !HasDay(m, 0) && !HasDay(m, 1) && !HasDay(m, 2) && !HasDay(m, 3) && !HasDay(m, 4) && !HasDay(m, 5) && !HasDay(m, 6)
  {
  }

  lemma DaySetEmpty(m: bv8)
    requires OnlyDays(m)
    ensures m == 0 <==> DaySet(m) == {}
  {
    AllBits(m);
    assert forall d: nat :: d < 7 ==> (d in DaySet(m) <==> HasDay(m, d));
  }

  predicate Overlap(a: bv8, b: bv8) {
    a & b != 0
  }

  lemma DaySetDisjoint(a: bv8, b: bv8)
    requires OnlyDays(a)
    ensures !Overlap(a, b) <==> DaySet(a) !! DaySet(b)
  {
    DaySetEmpty(a & b);
    forall d: nat | d < 7 ensures HasDay(a & b, d) <==> HasDay(a, d) && HasDay(b, d) {
      assert (a & b) & Bit(d) == (a & Bit(d)) & (b & Bit(d));
    }
    assert DaySet(a & b) == DaySet(a) * DaySet(b);
  }

  lemma DaySetInjective(a: bv8, b: bv8)
    requires OnlyDays(a) && OnlyDays(b) && DaySet(a) == DaySet(b)
    ensures a == b
  {
    DaySetWithout(a, b);
    DaySetWithout(b, a);
    OnlyDaysKept(a, b);
    OnlyDaysKept(b, a);
    DaySetEmpty(Without(a, b));
    DaySetEmpty(Without(b, a));
    assert a & !b == 0 && b & !a == 0;
  }

  /** The bitmap that names exactly these days. */
  function BitsOf(days: set<nat>): bv8 {
    (if 0 in days then 0x01 else 0) | (if 1 in days then 0x02 else 0) | (if 2 in days then 0x04 else 0)
    | (if 3 in days then 0x08 else 0) | (if 4 in days then 0x10 else 0) | (if 5 in days then 0x20 else 0)
    | (if 6 in days then 0x40 else 0)
  }

  lemma BitsOfDays(days: set<nat>)
    requires days <= WEEK
    ensures DaySet(BitsOf(days)) == days
    ensures days != {} ==> Legal(BitsOf(days))
  {
    var m := BitsOf(days);
    assert HasDay(m, 0) <==> 0 in days;
    assert HasDay(m, 1) <==> 1 in days;
    assert HasDay(m, 2) <==> 2 in days;
    assert HasDay(m, 3) <==> 3 in days;
    assert HasDay(m, 4) <==> 4 in days;
    assert HasDay(m, 5) <==> 5 in days;
    assert HasDay(m, 6) <==> 6 in days;
    assert OnlyDays(m);
    DaySetEmpty(m);
  }

  lemma BitsOfDaySet(m: bv8)
    requires OnlyDays(m)
    ensures BitsOf(DaySet(m)) == m
  {
    DaySetWithin(m);
    BitsOfDays(DaySet(m));
    DaySetInjective(BitsOf(DaySet(m)), m);
  }

  lemma NoDays()
    ensures OnlyDays(0) && DaySet(0) == {}
  {
    DaySetEmpty(0);
  }

  lemma LegalOnlyDays(m: bv8)
    requires Legal(m)
    ensures OnlyDays(m) && DaySet(m) != {} && DaySet(m) <= WEEK
  {
    DaySetEmpty(m);
    DaySetWithin(m);
  }
}
