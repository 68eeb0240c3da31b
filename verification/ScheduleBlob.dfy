/**
 The fixed-width blob a schedule store is persisted as: a version byte, a schedule
 count, and per schedule its day bitmap, target count and twelve bytes per target.
 */
module ScheduleBlob {
  import opened Prelude
  import opened Schedules
  import DayMask

  const BLOB_V1: byte := 1
  const TARGET_SIZE: nat := 12
  const BLOB_MAX: nat := 856

  function OrZero(v: Option<int>): int {
    if v.Some? then v.value else 0
  }

  function Flags(t: Target): byte {
    (if t.soc.Some? then 1 else 0) + (if t.energy.Some? then 2 else 0)
  }

  function TargetBytes(t: Target): (b: seq<byte>)
    requires LegalTarget(t)
    ensures |b| == TARGET_SIZE
  {
    [Flags(t)] + LittleEndian(t.time, 2) + [OrZero(t.soc)] + LittleEndian(OrZero(t.energy), 8)
  }

  function TargetsBytes(ts: seq<Target>): (b: seq<byte>)
    requires forall j :: 0 <= j < |ts| ==> LegalTarget(ts[j])
    ensures |b| == TARGET_SIZE * |ts|
  {
    if ts == [] then [] else TargetBytes(ts[0]) + TargetsBytes(ts[1..])
  }

  predicate Storable(s: Schedule) {
    LegalDays(s.days) && |s.targets| <= MAX_PER_DAY && forall j :: 0 <= j < |s.targets| ==> LegalTarget(s.targets[j])
  }

  predicate StorableAll(s: seq<Schedule>) {
    && (forall i :: 0 <= i < |s| ==> Storable(s[i]))
    && (forall i, j :: 0 <= i < j < |s| ==> s[i].days !! s[j].days)
  }

  function ScheduleBytes(s: Schedule): seq<byte>
    requires Storable(s)
  {
    [DayMask.BitsOf(s.days) as int, |s.targets|] + TargetsBytes(s.targets)
  }

  function SchedulesBytes(s: seq<Schedule>): (b: seq<byte>)
    requires forall i :: 0 <= i < |s| ==> Storable(s[i])
    ensures |b| <= (2 + TARGET_SIZE * MAX_PER_DAY) * |s|
  {
    if s == [] then [] else ScheduleBytes(s[0]) + SchedulesBytes(s[1..])
  }

  function Blob(s: seq<Schedule>): (b: seq<byte>)
    requires StorableAll(s)
    ensures |b| <= BLOB_MAX
  {
    StoreFits(s);
    [BLOB_V1, |s|] + SchedulesBytes(s)
  }

  // ---- reading ----

  /** get_i64: eight little-endian bytes as a signed 64-bit value. */
  function Int64(b: seq<byte>): int
    requires |b| == 8
  {
    var u := FromLittleEndian(b);
    if u >= TWO_TO_63 then u - TWO_TO_64 else u
  }

  /** Bits 0 and 1 of the flags byte; the others are ignored. */
  function ParseTarget(b: seq<byte>): Option<Target>
    requires |b| == TARGET_SIZE
  {
    var time, soc, energy := FromLittleEndian(b[1..3]), b[3], Int64(b[4..12]);
    var t := Target(time, if b[0] % 2 == 1 then Some(soc) else None, if b[0] / 2 % 2 == 1 then Some(energy) else None);
    if time > 1439 || soc > 100 || energy < 0 || (t.soc.None? && t.energy.None?) then None else Some(t)
  }

  function ParseTargets(b: seq<byte>, count: nat): Option<seq<Target>>
    requires |b| == TARGET_SIZE * count
  {
    if count == 0 then Some([])
    else
      match ParseTarget(b[..TARGET_SIZE])
      case None => None
      case Some(t) =>
        match ParseTargets(b[TARGET_SIZE..], count - 1)
        case None => None
        case Some(ts) => Some([t] + ts)
  }

  /** One schedule and how many bytes it took, given the days already taken. */
  function ParseSchedule(b: seq<byte>, seen: set<nat>): (r: Option<(Schedule, nat)>)
    ensures r.Some? ==> 2 <= r.value.1 <= |b|
  {
    if |b| < 2 || b[0] == 0 || b[0] > 127 || b[1] > MAX_PER_DAY || |b| - 2 < TARGET_SIZE * b[1] then None
    else
      var days := DayMask.DaySet(Octet(b[0]));
      if !(days !! seen) then None
      else
        match ParseTargets(b[2..2 + TARGET_SIZE * b[1]], b[1])
        case None => None
        case Some(ts) => Some((Schedule(days, ts), 2 + TARGET_SIZE * b[1]))
  }

  /** The next n schedules; bytes after the last one are ignored. */
  function ParseSchedules(b: seq<byte>, n: nat, seen: set<nat>): Option<seq<Schedule>>
    decreases n
  {
    if n == 0 then Some([])
    else
      match ParseSchedule(b, seen)
      case None => None
      case Some((first, size)) =>
        match ParseSchedules(b[size..], n - 1, seen + first.days)
        case None => None
        case Some(rest) => Some([first] + rest)
  }

  function Parse(b: seq<byte>): Option<seq<Schedule>> {
    if |b| < 2 || b[0] != BLOB_V1 || b[1] > MAX_DAYS then None else ParseSchedules(b[2..], b[1], {})
  }

  // ---- arbitrary bytes give a storable schedule or nothing ----

  lemma ParsedTargetLegal(b: seq<byte>)
    requires |b| == TARGET_SIZE && ParseTarget(b).Some?
    ensures LegalTarget(ParseTarget(b).value)
  {
    LittleEndianRewrite(b[4..12]);
    Powers();
  }

  lemma {:induction false} ParsedTargetsLegal(b: seq<byte>, count: nat)
    requires |b| == TARGET_SIZE * count && ParseTargets(b, count).Some?
    ensures |ParseTargets(b, count).value| == count
    ensures forall j :: 0 <= j < count ==> LegalTarget(ParseTargets(b, count).value[j])
  {
    if count > 0 {
      ParsedTargetsLegal(b[TARGET_SIZE..], count - 1);
      ParsedTargetLegal(b[..TARGET_SIZE]);
    }
  }

  lemma ParsedScheduleStorable(b: seq<byte>, seen: set<nat>)
    requires ParseSchedule(b, seen).Some?
    ensures Storable(ParseSchedule(b, seen).value.0) && ParseSchedule(b, seen).value.0.days !! seen
  {
    var m := Octet(b[0]);
    DayMask.OctetLegal(b[0]);
    DayMask.DaySetEmpty(m);
    DayMask.DaySetWithin(m);
    ParsedTargetsLegal(b[2..2 + TARGET_SIZE * b[1]], b[1]);
  }

  lemma {:induction false} ParsedSchedulesStorable(b: seq<byte>, n: nat, seen: set<nat>)
    requires ParseSchedules(b, n, seen).Some?
    ensures StorableAll(ParseSchedules(b, n, seen).value) && |ParseSchedules(b, n, seen).value| == n
    ensures forall i :: 0 <= i < n ==> ParseSchedules(b, n, seen).value[i].days !! seen
    decreases n
  {
    hide ParseSchedule, Storable;
    if n > 0 {
      ParsedScheduleStorable(b, seen);
      var (first, size) := ParseSchedule(b, seen).value;
      ParsedSchedulesStorable(b[size..], n - 1, seen + first.days);
    }
  }

  lemma ParsedStorable(b: seq<byte>)
    requires Parse(b).Some?
    ensures StorableAll(Parse(b).value) && |Parse(b).value| == b[1] <= MAX_DAYS
  {
    ParsedSchedulesStorable(b[2..], b[1], {});
  }

  /** Exactly which twelve bytes are a target, and what they say. */
  lemma TargetParses(b: seq<byte>)
    requires |b| == 12
    ensures ParseTarget(b).Some? <==> (b[1] as int) + 256 * (b[2] as int) <= 1439 && b[3] <= 100 && b[11] < 128 && b[0] % 4 != 0
    ensures ParseTarget(b).Some? ==>
      var t := ParseTarget(b).value;
      && t.time == (b[1] as int) + 256 * (b[2] as int)
      && t.soc == (if b[0] % 4 == 1 || b[0] % 4 == 3 then Some(b[3]) else None)
      && t.energy == (if b[0] % 4 == 2 || b[0] % 4 == 3 then Some(FromLittleEndian(b[4..12])) else None)
  {
    assert b[1..3][1..] == [b[2]] && FromLittleEndian([b[2]]) == b[2];
    SignByte(b[4..12]);
    Powers();
    LittleEndianRewrite(b[4..12]);
  }

  lemma SignByte(b: seq<byte>)
    requires |b| == 8
    ensures FromLittleEndian(b) < TWO_TO_63 <==> b[7] < 128
  {
    TopByte(b[..7], b[7]);
    assert b == b[..7] + [b[7]];
    LittleEndianRewrite(b[..7]);
    assert Power256(7) == 0x100_0000_0000_0000 by { assert Power256(7) == 256 * (256 * Power256(5)) && Power256(5) == 256 * Power256(4); Powers(); }
  }

  lemma {:induction false} TopByte(b: seq<byte>, top: byte)
    ensures FromLittleEndian(b + [top]) == FromLittleEndian(b) + Power256(|b|) * top
  {
    if b != [] {
      TopByte(b[1..], top);
      assert (b + [top])[1..] == b[1..] + [top];
    }
  }

  /** One store, byte for byte. */
  lemma BlobVector()
    ensures var s := [Schedule({0, 6}, [Target(390, Some(80), None), Target(1439, None, Some(0x01020304))]),
                      Schedule({1}, [Target(0, Some(100), Some(5))])];
            StorableAll(s) && Blob(s) ==
              [1, 2]
              + (([0x41, 2] + ([1, 0x86, 0x01, 80, 0, 0, 0, 0, 0, 0, 0, 0] + [2, 0x9F, 0x05, 0, 4, 3, 2, 1, 0, 0, 0, 0]))
                 + ([0x02, 1] + [3, 0, 0, 100, 5, 0, 0, 0, 0, 0, 0, 0]))
  {
    TargetVectors();
    hide TargetBytes, TargetsBytes, SchedulesBytes;
    var t, u, v := Target(390, Some(80), None), Target(1439, None, Some(0x01020304)), Target(0, Some(100), Some(5));
    assert DayMask.BitsOf({0, 6}) == 0x41 && DayMask.BitsOf({1}) == 0x02;
    var a, b := Schedule({0, 6}, [t, u]), Schedule({1}, [v]);
    TwoTargets(t, u);
    OneTarget(v);
    assert ScheduleBytes(a) == [0x41, 2] + TargetsBytes([t, u]) && ScheduleBytes(b) == [0x02, 1] + TargetsBytes([v]);
    TwoSchedules(a, b);
  }

  lemma OneTarget(t: Target)
    requires LegalTarget(t)
    ensures TargetsBytes([t]) == TargetBytes(t)
  {
    hide TargetBytes;
    assert [t][1..] == [] && TargetsBytes([]) == [];
    assert TargetBytes(t) + [] == TargetBytes(t);
  }

  lemma TwoTargets(t: Target, u: Target)
    requires LegalTarget(t) && LegalTarget(u)
    ensures TargetsBytes([t, u]) == TargetBytes(t) + TargetBytes(u)
  {
    hide TargetBytes;
    OneTarget(u);
    assert [t, u][1..] == [u];
  }

  lemma TwoSchedules(a: Schedule, b: Schedule)
    requires Storable(a) && Storable(b)
    ensures SchedulesBytes([a, b]) == ScheduleBytes(a) + ScheduleBytes(b)
  {
    hide ScheduleBytes, Storable;
    assert [a, b][1..] == [b] && [b][1..] == [] && SchedulesBytes([]) == [];
    assert SchedulesBytes([b]) == ScheduleBytes(b) + [] == ScheduleBytes(b);
  }

  lemma TargetVectors()
    ensures TargetBytes(Target(390, Some(80), None)) == [1, 0x86, 0x01, 80, 0, 0, 0, 0, 0, 0, 0, 0]
    ensures TargetBytes(Target(1439, None, Some(0x01020304))) == [2, 0x9F, 0x05, 0, 4, 3, 2, 1, 0, 0, 0, 0]
    ensures TargetBytes(Target(0, Some(100), Some(5))) == [3, 0, 0, 100, 5, 0, 0, 0, 0, 0, 0, 0]
  {
    hide LittleEndian;
    TwoBytes(0x86, 0x01);
    TwoBytes(0x9F, 0x05);
    TwoBytes(0, 0);
    EightBytes(0, 0, 0, 0);
    EightBytes(4, 3, 2, 1);
    EightBytes(5, 0, 0, 0);
  }

  lemma EightBytes(a: byte, b: byte, c: byte, d: byte)
    ensures LittleEndian(a + 256 * (b + 256 * (c + 256 * (d as int))), 8) == [a, b, c, d, 0, 0, 0, 0]
  {
    hide LittleEndian;
    ByteStep(a, b + 256 * (c + 256 * (d as int)), 7);
    ByteStep(b, c + 256 * (d as int), 6);
    ByteStep(c, d, 5);
    ByteStep(d, 0, 4);
    ByteStep(0, 0, 3);
    ByteStep(0, 0, 2);
    TwoBytes(0, 0);
  }

  // ---- round trip ----

  lemma TargetRoundTrip(t: Target)
    requires LegalTarget(t)
    ensures ParseTarget(TargetBytes(t)) == Some(t)
  {
    var b := TargetBytes(t);
    Powers();
    LittleEndianRoundTrip(t.time, 2);
    LittleEndianRoundTrip(OrZero(t.energy), 8);
    assert b[1..3] == LittleEndian(t.time, 2);
    assert b[3] == OrZero(t.soc);
    assert b[4..12] == LittleEndian(OrZero(t.energy), 8);
  }

  lemma {:induction false} TargetsRoundTrip(ts: seq<Target>)
    requires forall j :: 0 <= j < |ts| ==> LegalTarget(ts[j])
    ensures ParseTargets(TargetsBytes(ts), |ts|) == Some(ts)
  {
    if ts != [] {
      TargetRoundTrip(ts[0]);
      TargetsRoundTrip(ts[1..]);
      var b := TargetsBytes(ts);
      assert b[..TARGET_SIZE] == TargetBytes(ts[0]) && b[TARGET_SIZE..] == TargetsBytes(ts[1..]);
      assert [ts[0]] + ts[1..] == ts;
    }
  }

  lemma ScheduleHead(first: Schedule, rest: seq<byte>, seen: set<nat>)
    requires Storable(first) && first.days !! seen
    ensures ParseSchedule(ScheduleBytes(first) + rest, seen) == Some((first, |ScheduleBytes(first)|))
  {
    var b := ScheduleBytes(first) + rest;
    var size := 2 + TARGET_SIZE * |first.targets|;
    assert b[0] == DayMask.BitsOf(first.days) as int && b[1] == |first.targets|;
    assert b[2..size] == TargetsBytes(first.targets);
    DayMask.BitsOfDays(first.days);
    OctetInverse(DayMask.BitsOf(first.days));
    DayMask.OctetLegal(b[0]);
    TargetsRoundTrip(first.targets);
  }

  lemma FirstScheduleBytes(s: seq<Schedule>, tail: seq<byte>)
    requires s != [] && forall i :: 0 <= i < |s| ==> Storable(s[i])
    ensures SchedulesBytes(s) + tail == ScheduleBytes(s[0]) + (SchedulesBytes(s[1..]) + tail)
  {
    hide ScheduleBytes, Storable;
    Associate(ScheduleBytes(s[0]), SchedulesBytes(s[1..]), tail);
  }

  predicate Unseen(s: seq<Schedule>, seen: set<nat>) {
    StorableAll(s) && forall i :: 0 <= i < |s| ==> s[i].days !! seen
  }

  lemma UnseenTail(s: seq<Schedule>, seen: set<nat>)
    requires s != [] && Unseen(s, seen)
    ensures Storable(s[0]) && s[0].days !! seen && Unseen(s[1..], seen + s[0].days)
  {
    forall i | 0 <= i < |s| - 1 ensures s[1..][i].days !! seen + s[0].days {
      assert s[0].days !! s[i + 1].days && s[i + 1].days !! seen;
    }
  }

  lemma {:induction false} SchedulesRoundTrip(s: seq<Schedule>, seen: set<nat>, tail: seq<byte>)
    requires Unseen(s, seen)
    ensures ParseSchedules(SchedulesBytes(s) + tail, |s|, seen) == Some(s)
  {
    if s != [] {
      UnseenTail(s, seen);
      FirstScheduleBytes(s, tail);
      hide Storable, StorableAll, ScheduleBytes, SchedulesBytes, ParseSchedule;
      SchedulesRoundTrip(s[1..], seen + s[0].days, tail);
      var rest := SchedulesBytes(s[1..]) + tail;
      ScheduleHead(s[0], rest, seen);
      assert (ScheduleBytes(s[0]) + rest)[|ScheduleBytes(s[0])|..] == rest;
      assert [s[0]] + s[1..] == s;
    }
  }

  /** Reading what was written gives the schedule back, whatever bytes follow it. */
  lemma BlobRoundTrip(s: seq<Schedule>, tail: seq<byte>)
    requires StorableAll(s)
    ensures Parse(Blob(s) + tail) == Some(s)
  {
    StoreFits(s);
    assert (Blob(s) + tail)[2..] == SchedulesBytes(s) + tail;
    assert Unseen(s, {});
    SchedulesRoundTrip(s, {}, tail);
  }

  // ---- the forms the writing and reading loops follow ----

  lemma {:induction false} TargetsBytesAppend(ts: seq<Target>, t: Target)
    requires (forall j :: 0 <= j < |ts| ==> LegalTarget(ts[j])) && LegalTarget(t)
    ensures TargetsBytes(ts + [t]) == TargetsBytes(ts) + TargetBytes(t)
  {
    if ts == [] {
      assert ts + [t] == [t];
    } else {
      assert (ts + [t])[1..] == ts[1..] + [t];
      TargetsBytesAppend(ts[1..], t);
    }
  }

  lemma {:induction false} SchedulesBytesAppend(s: seq<Schedule>, x: Schedule)
    requires (forall i :: 0 <= i < |s| ==> Storable(s[i])) && Storable(x)
    ensures SchedulesBytes(s + [x]) == SchedulesBytes(s) + ScheduleBytes(x)
  {
    if s == [] {
      assert s + [x] == [x];
    } else {
      assert (s + [x])[1..] == s[1..] + [x];
      SchedulesBytesAppend(s[1..], x);
    }
  }

  lemma NextScheduleBytes(s: seq<Schedule>, i: nat)
    requires i < |s| <= MAX_DAYS && forall k :: 0 <= k < |s| ==> Storable(s[k])
    ensures SchedulesBytes(s[..i + 1]) == SchedulesBytes(s[..i]) + ScheduleBytes(s[i])
    ensures 2 + |SchedulesBytes(s[..i + 1])| <= BLOB_MAX
  {
    SchedulesBytesAppend(s[..i], s[i]);
    assert s[..i + 1] == s[..i] + [s[i]];
  }
}
