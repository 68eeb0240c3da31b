/**
 The EVSE charging-target store of one endpoint, updated in place: up to seven
 schedules of up to ten targets, its persistence, and the merge of a staged row set
 (platform/esp32c6/main/mt_evse.cpp).
 */
module EvseStore {
  import opened Prelude
  import opened Rows
  import opened Schedules
  import opened ScheduleBlob
  import DayMask

  /** How a write to non-volatile storage ends; a failed one may still have landed. */
  datatype WriteIo = Written | WriteFailed(landed: bool)

  /** Whether non-volatile storage can be read at all; what it holds is the store's `stored`. */
  datatype ReadIo = Readable | ReadFailed

  const NO_TARGET: Target := Target(0, None, None)

  predicate Conformant(s: seq<Schedule>, socFeature: bool) {
    forall i, j :: 0 <= i < |s| && 0 <= j < |s[i].targets| ==> SocOk(s[i].targets[j], socFeature)
  }

  lemma LegalIsStorableAndConformant(s: seq<Schedule>, socFeature: bool)
    ensures LegalStore(s, socFeature) <==> StorableAll(s) && Conformant(s, socFeature)
  {
    if StorableAll(s) && Conformant(s, socFeature) {
      forall i | 0 <= i < |s| ensures LegalSchedule(s[i], socFeature) {
        assert Storable(s[i]);
      }
    }
    if LegalStore(s, socFeature) {
      assert forall i :: 0 <= i < |s| ==> LegalSchedule(s[i], socFeature);
    }
  }

  /** What a load serves: nothing for an absent, corrupt or other-variant blob. */
  function Served(stored: Option<seq<byte>>, socFeature: bool): seq<Schedule> {
    match stored
    case None => []
    case Some(b) =>
      match Parse(b)
      case None => []
      case Some(s) => if Conformant(s, socFeature) then s else []
  }

  /** The read fails outright, or the entry is larger than the blob buffer. */
  predicate Unreadable(stored: Option<seq<byte>>, io: ReadIo) {
    io.ReadFailed? || (stored.Some? && |stored.value| > BLOB_MAX)
  }

  /** The buffer takes 856 bytes: seven schedules of ten targets of twelve bytes. */
  lemma UnreadableSize(stored: Option<seq<byte>>)
    ensures Unreadable(stored, Readable) <==> stored.Some? && |stored.value| > 2 + 7 * (2 + 10 * 12)
  {
  }

  /** The rows a call may commit: those of a non-empty set staged for exactly this endpoint and kind. */
  function MatchingRows(st: Staged, ep: nat): seq<Row>
    requires WellFormed(st)
  {
    if st.active && st.ep == ep && st.kind == KIND_EVSE_TARGET then st.rows[..st.count] else []
  }

  function SaveCode(io: WriteIo): Code {
    if io.Written? then Ok else Persist
  }

  function Saved(stored: Option<seq<byte>>, s: seq<Schedule>, io: WriteIo): Option<seq<byte>>
    requires StorableAll(s)
  {
    if io.Written? || io.landed then Some(Blob(s)) else stored
  }

  /** The store as its callers see it. */
  datatype Snapshot = Snapshot(contents: seq<Schedule>, loaded: bool, stored: Option<seq<byte>>)

  /** What applying rows does to the store, and the code it answers. */
  ghost predicate Applied(pre: Snapshot, rows: seq<Row>, clearDays: bv8, readIo: ReadIo, writeIo: WriteIo, socFeature: bool,
                          code: Code, post: Snapshot)
  {
    var base := if pre.loaded then pre.contents else Served(pre.stored, socFeature);
    if rows == [] && clearDays == 0 then
      code == SaveCode(writeIo) && EmptyStored(pre, writeIo, post)
    else if !pre.loaded && Unreadable(pre.stored, readIo) then
      code == Persist && post == Snapshot([], false, pre.stored)
    else
      Committed(base, pre.stored, rows, clearDays, writeIo, socFeature, code, post)
  }

  /** What merging rows into the loaded schedules `base` does: all of it, or nothing but a value error. */
  ghost predicate Committed(base: seq<Schedule>, stored: Option<seq<byte>>, rows: seq<Row>, clearDays: bv8, writeIo: WriteIo,
                            socFeature: bool, code: Code, post: Snapshot)
  {
    if !AcceptableRows(rows, socFeature) then
      code == Value && post == Snapshot(base, true, stored)
    else
      && code == SaveCode(writeIo)
      && post.contents == Merged(base, Entries(rows), DayMask.DaySet(clearDays)) && post.loaded
      && StorableAll(post.contents) && post.stored == Saved(stored, post.contents, writeIo)
  }

  ghost predicate EmptyStored(pre: Snapshot, writeIo: WriteIo, post: Snapshot) {
    post.contents == [] && post.loaded && post.stored == Saved(pre.stored, [], writeIo)
  }

  ghost predicate Cleared(pre: Snapshot, writeIo: WriteIo, ok: bool, post: Snapshot) {
    EmptyConforms(false);
    ok == writeIo.Written? && post == Snapshot([], pre.loaded, Saved(pre.stored, [], writeIo))
  }

  predicate Erased(pre: Snapshot, writeIo: WriteIo, ok: bool, post: Snapshot) {
    ok == writeIo.Written? && post == Snapshot([], pre.loaded, if writeIo.Written? || writeIo.landed then None else pre.stored)
  }

  lemma EmptyConforms(socFeature: bool)
    ensures Conformant([], socFeature) && StorableAll([])
  {
  }

  lemma NothingFlattened(s: seq<Schedule>)
    ensures Flatten(s[..0]) == []
  {
  }

  lemma GroupedCount(es: seq<Entry>, bitmaps: seq<bv8>, counts: seq<nat>, groups: nat, allBits: bv8)
    requires Grouped(es, bitmaps, counts, groups, allBits)
    ensures groups == |Groups(es)|
  {
  }

  lemma FillLength(es: seq<Entry>)
    ensures |Fill(Groups(es), es)| == |Groups(es)|
  {
  }

  lemma GroupBitmap(es: seq<Entry>, bitmaps: seq<bv8>, counts: seq<nat>, groups: nat, allBits: bv8, g: nat)
    requires Grouped(es, bitmaps, counts, groups, allBits) && g < groups
    ensures groups == |Groups(es)| <= |bitmaps|
    ensures DayMask.OnlyDays(bitmaps[g]) && DayMask.DaySet(bitmaps[g]) == Groups(es)[g]
  {
  }

  /** Placing entry n: its group exists, has room, and grows by its target. */
  lemma PlacedTarget(es: seq<Entry>, n: nat, g: nat)
    requires n < |es| && |With(es, es[n].days)| <= MAX_PER_DAY && g <= |Groups(es)|
    requires g < |Groups(es)| ==> Groups(es)[g] == es[n].days
    requires g == |Groups(es)| <==> es[n].days !in Groups(es)
    ensures g < |Groups(es)| && |With(es[..n], es[n].days)| < MAX_PER_DAY
    ensures Fill(Groups(es), es[..n + 1])
         == Fill(Groups(es), es[..n])[g := Schedule(es[n].days, With(es[..n], es[n].days) + [es[n].target])]
  {
    hide Groups;
    var k := EntryGroup(es, n);
    GroupsDistinct(es);
    assert es[..n + 1] == es[..n] + [es[n]];
    GroupsStep(es[..n], es[n]);
    WithPrefixShorter(es, n + 1, es[n].days);
    FillStep(Groups(es), es[..n], es[n], g);
  }

  lemma GroupedBits(es: seq<Entry>, bitmaps: seq<bv8>, counts: seq<nat>, groups: nat, allBits: bv8, clearDays: bv8)
    requires Grouped(es, bitmaps, counts, groups, allBits)
    ensures groups == |Groups(es)|
    ensures DayMask.DaySet(allBits | (clearDays & DayMask.ALL_DAYS)) == NamedDays(es) + DayMask.DaySet(clearDays)
  {
    hide DayMask.DaySet, Groups, NamedDays, With;
    DayMask.DaySetUnion(allBits, clearDays & DayMask.ALL_DAYS);
    DayMask.DaySetWithin(clearDays);
  }

  lemma AcceptableRowsAreDense(rows: seq<Row>, socFeature: bool)
    requires AcceptableRows(rows, socFeature)
    ensures Dense(rows)
  {
  }

  lemma FitNeverRejects(s: seq<Schedule>, rows: seq<Row>, clear: set<nat>, socFeature: bool)
    requires StorableAll(s) && Conformant(s, socFeature) && AcceptableRows(rows, socFeature)
    ensures |Subtract(s, NamedDays(Entries(rows)) + clear)| + |Groups(Entries(rows))| <= MAX_DAYS
  {
    LegalIsStorableAndConformant(s, socFeature);
    MergeLegal(s, Entries(rows), clear, socFeature);
  }

  // ---- the blob buffer: put_u16 and put_i64, get_u16 and get_i64 ----

  method PutLittleEndian(blob: array<byte>, at: nat, v: nat, n: nat)
    requires at + n <= blob.Length
    modifies blob
    ensures blob[..at + n] == old(blob[..at]) + LittleEndian(v, n)
  {
    var u := v;
    for i := 0 to n
      invariant blob[..at] == old(blob[..at])
      invariant blob[at..at + i] + LittleEndian(u, n - i) == LittleEndian(v, n)
    {
      ghost var done := blob[at..at + i];
      blob[at + i] := u % 256;
      assert blob[at..at + i + 1] == done + [u % 256];
      u := u / 256;
    }
    assert blob[..at + n] == blob[..at] + blob[at..at + n];
  }

  method PutByte(blob: array<byte>, at: nat, v: byte)
    requires at < blob.Length
    modifies blob
    ensures blob[..at + 1] == old(blob[..at]) + [v]
  {
    blob[at] := v;
  }

  method EncodeTarget(blob: array<byte>, n: nat, t: Target)
    requires n + TARGET_SIZE <= blob.Length && LegalTarget(t)
    modifies blob
    ensures blob[..n + TARGET_SIZE] == old(blob[..n]) + TargetBytes(t)
  {
    hide LittleEndian;
    PutByte(blob, n, (if t.soc.Some? then 1 else 0) + (if t.energy.Some? then 2 else 0));
    PutLittleEndian(blob, n + 1, t.time, 2);
    PutByte(blob, n + 3, if t.soc.Some? then t.soc.value else 0);
    PutLittleEndian(blob, n + 4, if t.energy.Some? then t.energy.value else 0, 8);
    Reassociate(old(blob[..n]), [Flags(t)], LittleEndian(t.time, 2), [OrZero(t.soc)], LittleEndian(OrZero(t.energy), 8));
  }

  lemma Reassociate(a: seq<byte>, b: seq<byte>, c: seq<byte>, d: seq<byte>, e: seq<byte>)
    ensures a + b + c + d + e == a + (b + c + d + e)
  {
  }

  method GetLittleEndian(blob: array<byte>, at: nat, n: nat) returns (v: nat)
    requires at + n <= blob.Length
    ensures v == FromLittleEndian(blob[at..at + n])
  {
    v := 0;
    var p := 1;
    for i := 0 to n
      invariant v + p * FromLittleEndian(blob[at + i..at + n]) == FromLittleEndian(blob[at..at + n])
      invariant v >= 0 && p > 0
    {
      var rest := blob[at + i..at + n];
      assert rest[1..] == blob[at + i + 1..at + n];
      DistributeTail(p, rest[0], FromLittleEndian(rest[1..]));
      v := v + p * blob[at + i];
      p := 256 * p;
    }
  }

  lemma DistributeTail(p: int, x: int, r: int)
    ensures p * (x + 256 * r) == p * x + 256 * p * r
  {
  }

  method DecodeTarget(blob: array<byte>, n: nat) returns (t: Option<Target>)
    requires n + TARGET_SIZE <= blob.Length
    ensures t == ParseTarget(blob[n..n + TARGET_SIZE])
  {
    ghost var b := blob[n..n + TARGET_SIZE];
    var flags := blob[n];
    var time := GetLittleEndian(blob, n + 1, 2);
    var soc := blob[n + 3];
    var u := GetLittleEndian(blob, n + 4, 8);
    assert b[1..3] == blob[n + 1..n + 3] && b[4..12] == blob[n + 4..n + 12];
    var energy := if u >= TWO_TO_63 then u - TWO_TO_64 else u;
    if time > 1439 || soc > 100 || energy < 0 {
      return None;
    }
    var read := Target(time, if flags % 2 == 1 then Some(soc) else None, if flags / 2 % 2 == 1 then Some(energy) else None);
    if read.soc.None? && read.energy.None? {
      return None;
    }
    return Some(read);
  }

  lemma SubtractNext(s: seq<Schedule>, n: nat, days: set<nat>)
    requires n < |s|
    ensures Subtract(s[..n + 1], days)
         == Subtract(s[..n], days) + if s[n].days - days == {} then [] else [Schedule(s[n].days - days, s[n].targets)]
  {
    assert s[..n + 1][..n] == s[..n];
  }

  lemma SubtractNone(s: seq<Schedule>, days: set<nat>)
    ensures Subtract(s[..0], days) == []
  {
  }

  // ---- grouping the incoming rows, before anything is mutated ----

  /** bitmaps and counts describe the groups of es; allBits its days. */
  ghost predicate Grouped(es: seq<Entry>, bitmaps: seq<bv8>, counts: seq<nat>, groups: nat, allBits: bv8) {
    && |bitmaps| == |counts| == MAX_DAYS && groups == |Groups(es)| <= MAX_DAYS
    && DayMask.OnlyDays(allBits) && DayMask.DaySet(allBits) == NamedDays(es)
    && (forall g :: 0 <= g < groups ==> DayMask.OnlyDays(bitmaps[g]) && DayMask.DaySet(bitmaps[g]) == Groups(es)[g])
    && (forall g :: 0 <= g < groups ==> counts[g] == |With(es, Groups(es)[g])|)
  }

  /** The group carrying exactly this bitmap, or `groups` if there is none. */
  method FindGroup(bitmaps: array<bv8>, groups: nat, bits: bv8, ghost es: seq<Entry>, ghost counts: seq<nat>, ghost allBits: bv8)
    returns (g: nat)
    requires Grouped(es, bitmaps[..], counts, groups, allBits) && DayMask.OnlyDays(bits)
    ensures g <= groups
    ensures g < groups ==> Groups(es)[g] == DayMask.DaySet(bits) && bitmaps[g] == bits
    ensures g == groups <==> DayMask.DaySet(bits) !in Groups(es)
  {
    hide Groups, NamedDays, With, DayMask.DaySet, DayMask.OnlyDays;
    g := 0;
    while g < groups
      invariant g <= groups
      invariant forall k :: 0 <= k < g ==> Groups(es)[k] != DayMask.DaySet(bits)
    {
      if bitmaps[g] == bits {
        return;
      }
      assert bitmaps[..][g] == bitmaps[g];
      if DayMask.DaySet(bitmaps[g]) == DayMask.DaySet(bits) {
        DayMask.DaySetInjective(bitmaps[g], bits);
      }
      g := g + 1;
    }
  }

  /** Counts one more row into the group of its bitmap, opening that group if it is new. */
  method JoinGroup(bits: bv8, bitmaps: array<bv8>, counts: array<nat>, groups: nat, allBits: bv8, ghost es: seq<Entry>, ghost e: Entry)
    returns (ok: bool, groups': nat, allBits': bv8)
    requires DayMask.OnlyDays(bits) && DayMask.DaySet(bits) == e.days && LegalDays(e.days)
    requires LegalEntries(es) && CompatibleEntries(es) && bitmaps as object != counts
    requires Grouped(es, bitmaps[..], counts[..], groups, allBits)
    modifies bitmaps, counts
    ensures ok <==> (e.days in Groups(es) || e.days !! NamedDays(es)) && |With(es, e.days)| < MAX_PER_DAY
    ensures ok ==> Grouped(es + [e], bitmaps[..], counts[..], groups', allBits')
  {
    hide Groups, NamedDays, With, DayMask.DaySet, DayMask.OnlyDays, DayMask.Overlap, LegalEntries, CompatibleEntries;
    groups', allBits' := groups, allBits;
    var g := FindGroup(bitmaps, groups, bits, es, counts[..], allBits);
    if g == groups {
      if groups >= MAX_DAYS {
        NoEighthGroup(es, e.days);
        return false, groups, allBits;
      }
      DayMask.DaySetDisjoint(bits, allBits);
      if DayMask.Overlap(bits, allBits) {
        return false, groups, allBits;
      }
      bitmaps[groups] := bits;
      counts[groups] := 0;
      groups' := groups + 1;
      WithNothing(es, e.days);
    }
    if counts[g] >= MAX_PER_DAY {
      return false, groups, allBits;
    }
    counts[g] := counts[g] + 1;
    allBits' := allBits | bits;
    DayMask.OnlyDaysKept(allBits, bits);
    DayMask.DaySetUnion(allBits, bits);
    JoinedGroup(es, e, g);
    return true, groups', allBits';
  }

  /** Joining group g, which is the new one if g is past the groups of es. */
  lemma JoinedGroup(es: seq<Entry>, e: Entry, g: nat)
    requires g <= |Groups(es)| && (g < |Groups(es)| ==> Groups(es)[g] == e.days) && (g == |Groups(es)| <==> e.days !in Groups(es))
    ensures NamedDays(es + [e]) == NamedDays(es) + e.days
    ensures Groups(es + [e]) == if g == |Groups(es)| then Groups(es) + [e.days] else Groups(es)
    ensures forall k :: 0 <= k < |Groups(es)| && k != g ==> With(es + [e], Groups(es)[k]) == With(es, Groups(es)[k])
    ensures With(es + [e], e.days) == With(es, e.days) + [e.target]
  {
    GroupsStep(es, e);
    GroupsDistinct(es);
  }

  /** Adds one row to the groups, or says why the set cannot be accepted. */
  method GroupRow(row: Row, socFeature: bool, bitmaps: array<bv8>, counts: array<nat>, groups: nat, allBits: bv8, ghost es: seq<Entry>)
    returns (ok: bool, groups': nat, allBits': bv8)
    requires TargetRow(row) && Acceptable(es, socFeature) && bitmaps as object != counts
    requires Grouped(es, bitmaps[..], counts[..], groups, allBits)
    modifies bitmaps, counts
    ensures ok <==> Acceptable(es + [Entry(DaysOf(row), ToTarget(row))], socFeature)
    ensures ok ==> Grouped(es + [Entry(DaysOf(row), ToTarget(row))], bitmaps[..], counts[..], groups', allBits')
  {
    hide Grouped, Groups, NamedDays, With, DayMask.DaySet, DayMask.OnlyDays, DayMask.Legal, Acceptable;
    ghost var e := Entry(DaysOf(row), ToTarget(row));
    RowIsLegal(row);
    DaysOfRow(row);
    AddEntry(es, e, socFeature);
    if socFeature {
      if row.fields[2].None? {
        return false, groups, allBits;
      }
    } else if row.fields[2].Some? && row.fields[2].value != 100 {
      return false, groups, allBits;
    }
    var bits := Octet(row.fields[0].value);
    if !DayMask.Legal(bits) {
      return false, groups, allBits;
    }
    DayMask.LegalOnlyDays(bits);
    AcceptableParts(es, socFeature);
    ok, groups', allBits' := JoinGroup(bits, bitmaps, counts, groups, allBits, es, e);
  }

  ghost predicate AcceptableRows(rows: seq<Row>, socFeature: bool) {
    Dense(rows) && Acceptable(Entries(rows), socFeature)
  }

  lemma NextEntries(rows: seq<Row>, n: nat)
    requires n < |rows| && Dense(rows[..n]) && TargetRow(rows[n])
    ensures Dense(rows[..n + 1])
    ensures Entries(rows[..n + 1]) == Entries(rows[..n]) + [Entry(DaysOf(rows[n]), ToTarget(rows[n]))]
  {
    assert rows[..n + 1][..n] == rows[..n];
  }

  lemma RejectedPrefix(rows: seq<Row>, n: nat, socFeature: bool)
    requires n <= |rows| && !AcceptableRows(rows[..n], socFeature)
    ensures !AcceptableRows(rows, socFeature)
  {
    if AcceptableRows(rows, socFeature) {
      AcceptablePrefix(Entries(rows), n, socFeature);
      EntriesTake(rows, n);
    }
  }

  lemma GapRejected(rows: seq<Row>, n: nat, socFeature: bool)
    requires n < |rows| && rows[n] == NO_ROW
    ensures !AcceptableRows(rows, socFeature)
  {
  }

  /** Pass 1: groups the rows by bitmap in order of first appearance, writing nothing the store owns. */
  method GroupRows(stage: RowStage, nrows: nat, socFeature: bool, bitmaps: array<bv8>, counts: array<nat>)
    returns (ok: bool, groups: nat, allBits: bv8)
    requires stage.Valid() && nrows <= stage.count && stage.row as object !in {bitmaps as object, counts}
    requires bitmaps as object != counts && bitmaps.Length == counts.Length == MAX_DAYS
    modifies bitmaps, counts
    ensures ok <==> AcceptableRows(stage.row[..nrows], socFeature)
    ensures ok ==> Grouped(Entries(stage.row[..nrows]), bitmaps[..], counts[..], groups, allBits)
  {
    hide Grouped, Acceptable, DaysOf, TargetRow, Entries;
    groups, allBits := 0, 0;
    GroupedNothing(bitmaps[..], counts[..], socFeature);
    ghost var rows := stage.row[..nrows];
    for r := 0 to nrows
      invariant AcceptableRows(rows[..r], socFeature)
      invariant Grouped(Entries(rows[..r]), bitmaps[..], counts[..], groups, allBits)
    {
      var row := stage.row[r];
      assert rows[r] == row == stage.View().rows[r];
      StagedRow(row);
      if row.nfields != 4 || row.fields[0].None? || row.fields[1].None? {
        GapRejected(rows, r, socFeature);
        return false, groups, allBits;
      }
      NextEntries(rows, r);
      ok, groups, allBits := GroupRow(row, socFeature, bitmaps, counts, groups, allBits, Entries(rows[..r]));
      if !ok {
        RejectedPrefix(rows, r + 1, socFeature);
        return;
      }
    }
    assert rows[..nrows] == rows;
    ok := true;
  }

  /** A staged row carries its day and its time. */
  lemma StagedRow(row: Row)
    requires row == NO_ROW || (TargetRow(row) && row.nfields == 4)
    ensures |row.fields| == MAX_FIELDS
    ensures row.nfields == 4 ==> row.fields[0].Some? && row.fields[1].Some?
  {
  }

  lemma GroupedNothing(bitmaps: seq<bv8>, counts: seq<nat>, socFeature: bool)
    requires |bitmaps| == |counts| == MAX_DAYS
    ensures AcceptableRows([], socFeature) && Entries([]) == [] && Grouped([], bitmaps, counts, 0, 0)
  {
    DayMask.NoDays();
  }

  lemma {:induction false} EntriesTake(rows: seq<Row>, n: nat)
    requires Dense(rows) && n <= |rows|
    ensures Entries(rows[..n]) == Entries(rows)[..n]
  {
  }

  lemma AcceptableParts(es: seq<Entry>, socFeature: bool)
    requires Acceptable(es, socFeature)
    ensures LegalEntries(es) && CompatibleEntries(es)
  {
  }

  lemma RowIsLegal(row: Row)
    requires TargetRow(row)
    ensures LegalDays(DaysOf(row)) && LegalTarget(ToTarget(row))
  {
    DaysOfRow(row);
  }

  lemma {:induction false} FillNothing(gs: seq<set<nat>>)
    ensures forall k :: 0 <= k < |gs| ==> Fill(gs, [])[k] == Schedule(gs[k], [])
  {
  }

  /** The bitmap and target count of the schedule at n, and the days taken once it is read. */
  method DecodeHead(blob: array<byte>, n: nat, len: nat, seen: bv8) returns (ok: bool, bits: bv8, count: nat, taken: bv8)
    requires n <= len <= blob.Length && DayMask.OnlyDays(seen)
    ensures ok <==>
      && len - n >= 2 && 1 <= blob[n] <= 127 && blob[n + 1] <= MAX_PER_DAY && len - n - 2 >= TARGET_SIZE * blob[n + 1]
      && DayMask.DaySet(Octet(blob[n])) !! DayMask.DaySet(seen)
    ensures ok ==> bits == Octet(blob[n]) && count == blob[n + 1] && DayMask.OnlyDays(bits)
    ensures ok ==> DayMask.OnlyDays(taken) && DayMask.DaySet(taken) == DayMask.DaySet(seen) + DayMask.DaySet(bits)
  {
    hide DayMask.DaySet, DayMask.OnlyDays, DayMask.Legal, DayMask.Overlap;
    if len - n < 2 {
      return false, 0, 0, seen;
    }
    bits, count, taken := Octet(blob[n]), blob[n + 1], seen;
    DayMask.OctetLegal(blob[n]);
    if !DayMask.Legal(bits) {
      return false, bits, count, taken;
    }
    DayMask.LegalOnlyDays(bits);
    DayMask.DaySetDisjoint(bits, seen);
    if DayMask.Overlap(bits, seen) || count > MAX_PER_DAY {
      return false, bits, count, taken;
    }
    DayMask.OnlyDaysKept(seen, bits);
    DayMask.DaySetUnion(seen, bits);
    return len - n - 2 >= TARGET_SIZE * count, bits, count, seen | bits;
  }

  /** The whole parse is ts followed by the parse of what is left. */
  ghost predicate TargetsContinue(all: Option<seq<Target>>, ts: seq<Target>, rest: seq<byte>, count: nat) {
    && |rest| == TARGET_SIZE * count
    && all == match ParseTargets(rest, count) case None => None case Some(more) => Some(ts + more)
  }

  lemma TargetsContinueStart(b: seq<byte>, count: nat)
    requires |b| == TARGET_SIZE * count
    ensures TargetsContinue(ParseTargets(b, count), [], b, count)
  {
    if ParseTargets(b, count).Some? {
      assert [] + ParseTargets(b, count).value == ParseTargets(b, count).value;
    }
  }

  lemma TargetsContinueEnd(all: Option<seq<Target>>, ts: seq<Target>, rest: seq<byte>)
    requires TargetsContinue(all, ts, rest, 0)
    ensures all == Some(ts)
  {
    assert ts + [] == ts;
  }

  lemma TargetsContinueStep(all: Option<seq<Target>>, ts: seq<Target>, rest: seq<byte>, count: nat)
    requires count > 0 && TargetsContinue(all, ts, rest, count)
    ensures ParseTarget(rest[..TARGET_SIZE]).None? ==> all == None
    ensures ParseTarget(rest[..TARGET_SIZE]).Some? ==>
      TargetsContinue(all, ts + [ParseTarget(rest[..TARGET_SIZE]).value], rest[TARGET_SIZE..], count - 1)
  {
    if ParseTarget(rest[..TARGET_SIZE]).Some? && ParseTargets(rest[TARGET_SIZE..], count - 1).Some? {
      Associate(ts, [ParseTarget(rest[..TARGET_SIZE]).value], ParseTargets(rest[TARGET_SIZE..], count - 1).value);
    }
  }

  /** The whole parse is s followed by the parse of the next n schedules, with seen taken. */
  ghost predicate SchedulesContinue(all: Option<seq<Schedule>>, s: seq<Schedule>, rest: seq<byte>, n: nat, seen: set<nat>) {
    all == match ParseSchedules(rest, n, seen) case None => None case Some(more) => Some(s + more)
  }

  lemma SchedulesContinueStart(b: seq<byte>, n: nat)
    ensures SchedulesContinue(ParseSchedules(b, n, {}), [], b, n, {})
  {
    if ParseSchedules(b, n, {}).Some? {
      assert [] + ParseSchedules(b, n, {}).value == ParseSchedules(b, n, {}).value;
    }
  }

  lemma SchedulesContinueEnd(all: Option<seq<Schedule>>, s: seq<Schedule>, rest: seq<byte>, seen: set<nat>)
    requires SchedulesContinue(all, s, rest, 0, seen)
    ensures all == Some(s)
  {
    assert s + [] == s;
  }

  lemma SchedulesContinueStep(all: Option<seq<Schedule>>, s: seq<Schedule>, rest: seq<byte>, n: nat, seen: set<nat>)
    requires n > 0 && SchedulesContinue(all, s, rest, n, seen)
    ensures ParseSchedule(rest, seen).None? ==> all == None
    ensures ParseSchedule(rest, seen).Some? ==>
      var (first, size) := ParseSchedule(rest, seen).value;
      SchedulesContinue(all, s + [first], rest[size..], n - 1, seen + first.days)
  {
    hide ParseSchedule;
    if ParseSchedule(rest, seen).Some? {
      var (first, size) := ParseSchedule(rest, seen).value;
      var more := ParseSchedules(rest[size..], n - 1, seen + first.days);
      if more.Some? {
        Associate(s, [first], more.value);
      }
    }
  }

  class Store {
    const socFeature: bool
    const days: array<bv8>
    const targets: array2<Target>
    const targetCount: array<nat>
    const viewLen: array<nat>
    const blob: array<byte>
    var scheduleCount: nat
    var loaded: bool
    var stored: Option<seq<byte>>

    /** The fixed arrays, of the program's dimensions and not shared. */
    ghost predicate Arrays() {
      && days.Length == MAX_DAYS && targets.Length0 == MAX_DAYS && targets.Length1 == MAX_PER_DAY
      && targetCount.Length == MAX_DAYS && viewLen.Length == MAX_DAYS && blob.Length == BLOB_MAX
      && targetCount != viewLen && days as object !in {targetCount as object, viewLen, blob}
      && blob as object !in {targetCount as object, viewLen} && targets as object !in {days as object, targetCount, viewLen, blob}
    }

    ghost predicate Slots()
      reads days, targetCount
    {
      && Arrays()
      && (forall i :: 0 <= i < MAX_DAYS ==> targetCount[i] <= MAX_PER_DAY)
      && (forall i :: 0 <= i < MAX_DAYS ==> DayMask.OnlyDays(days[i]))
    }

    ghost predicate Shape()
      reads this, days, targetCount
    {
      Slots() && scheduleCount <= MAX_DAYS
    }

    ghost function ScheduleAt(i: nat): (s: Schedule)
      requires Slots() && i < MAX_DAYS
      reads days, targets, targetCount
      ensures |s.targets| == targetCount[i] && forall j :: 0 <= j < targetCount[i] ==> s.targets[j] == targets[i, j]
    {
      Schedule(DayMask.DaySet(days[i]), seq(targetCount[i], j requires 0 <= j < MAX_PER_DAY reads targets => targets[i, j]))
    }

    ghost function Prefix(n: nat): (s: seq<Schedule>)
      requires Slots() && n <= MAX_DAYS
      reads days, targets, targetCount
      ensures |s| == n && forall i :: 0 <= i < n ==> s[i] == ScheduleAt(i)
    {
      if n == 0 then [] else Prefix(n - 1) + [ScheduleAt(n - 1)]
    }

    ghost function Contents(): seq<Schedule>
      requires Shape()
      reads this, days, targets, targetCount
    {
      Prefix(scheduleCount)
    }

    /** Every view a controller is handed covers exactly its schedule's targets. */
    ghost predicate ViewsCurrent()
      requires Shape()
      reads this, days, targets, targetCount, viewLen
    {
      forall i :: 0 <= i < scheduleCount ==> viewLen[i] == targetCount[i]
    }

    ghost predicate Sound()
      reads this, days, targets, targetCount, viewLen
    {
      Shape() && ViewsCurrent() && StorableAll(Contents())
    }

    ghost predicate Valid()
      reads this, days, targets, targetCount, viewLen
    {
      Sound() && Conformant(Contents(), socFeature) && (!loaded ==> scheduleCount == 0)
    }

    ghost function Before(): Snapshot
      requires Sound()
      reads this, days, targets, targetCount, viewLen
    {
      Snapshot(Contents(), loaded, stored)
    }

    constructor (socFeature: bool, stored: Option<seq<byte>>)
      ensures Valid() && Contents() == [] && !loaded && this.stored == stored && this.socFeature == socFeature
      ensures fresh(days) && fresh(targets) && fresh(targetCount) && fresh(viewLen) && fresh(blob)
    {
      this.socFeature := socFeature;
      this.stored := stored;
      days := new bv8[MAX_DAYS](_ => 0);
      targets := new Target[MAX_DAYS, MAX_PER_DAY]((_, _) => NO_TARGET);
      targetCount := new nat[MAX_DAYS](_ => 0);
      viewLen := new nat[MAX_DAYS](_ => 0);
      blob := new byte[BLOB_MAX](_ => 0);
      scheduleCount, loaded := 0, false;
    }

    method RefreshViews()
      requires Shape()
      modifies viewLen
      ensures Shape() && ViewsCurrent() && Contents() == old(Contents())
    {
      for i := 0 to scheduleCount
        invariant Shape()
        invariant forall k :: 0 <= k < i ==> viewLen[k] == targetCount[k]
      {
        viewLen[i] := targetCount[i];
      }
      assert forall i :: 0 <= i < MAX_DAYS ==> ScheduleAt(i) == old(ScheduleAt(i));
    }

    method ClearStore()
      requires Shape()
      modifies this`scheduleCount, days, targets, targetCount, viewLen
      ensures Sound() && Contents() == []
    {
      for i := 0 to MAX_DAYS
        invariant Shape()
      {
        days[i] := 0;
        viewLen[i] := 0;
        targetCount[i] := 0;
        for j := 0 to MAX_PER_DAY
          invariant Shape()
        {
          targets[i, j] := NO_TARGET;
        }
      }
      scheduleCount := 0;
    }

    /** Moves schedule src down to slot dst, keeping only the days in left. */
    method MoveSchedule(dst: nat, src: nat, left: bv8)
      requires Shape() && dst <= src < scheduleCount && DayMask.OnlyDays(left)
      modifies days, targets, targetCount
      ensures Shape()
      ensures ScheduleAt(dst) == Schedule(DayMask.DaySet(left), old(ScheduleAt(src)).targets)
      ensures forall i :: 0 <= i < MAX_DAYS && i != dst ==> ScheduleAt(i) == old(ScheduleAt(i)) && days[i] == old(days[i])
      ensures days[dst] == left
    {
      days[dst] := left;
      if dst != src {
        targetCount[dst] := targetCount[src];
        for j := 0 to targetCount[src]
          modifies targets
          invariant Shape() && targetCount[dst] == targetCount[src] == old(targetCount[src])
          invariant forall k :: 0 <= k < j ==> targets[dst, k] == old(targets[src, k])
          invariant forall i, k :: 0 <= i < MAX_DAYS && i != dst && 0 <= k < MAX_PER_DAY ==> targets[i, k] == old(targets[i, k])
        {
          targets[dst, j] := targets[src, j];
        }
      }
    }

    /** One pass of the compaction: schedule src keeps slot dst if it has a day left. */
    method KeepOrDrop(src: nat, dst: nat, bits: bv8, ghost before: seq<Schedule>) returns (next: nat)
      requires Shape() && dst <= src < scheduleCount == |before|
      requires forall i :: src <= i < scheduleCount ==> ScheduleAt(i) == before[i]
      requires Prefix(dst) == Subtract(before[..src], DayMask.DaySet(bits))
      modifies days, targets, targetCount
      ensures Shape() && next <= src + 1
      ensures forall i :: src < i < scheduleCount ==> ScheduleAt(i) == before[i]
      ensures Prefix(next) == Subtract(before[..src + 1], DayMask.DaySet(bits))
    {
      hide DayMask.DaySet, DayMask.OnlyDays, DayMask.Without;
      next := dst;
      var left := DayMask.Without(days[src], bits);
      DayMask.DaySetWithout(days[src], bits);
      DayMask.OnlyDaysKept(days[src], bits);
      DayMask.DaySetEmpty(left);
      SubtractNext(before, src, DayMask.DaySet(bits));
      if left != 0 {
        ghost var kept := Prefix(dst);
        MoveSchedule(dst, src, left);
        assert Prefix(dst) == kept;
        next := dst + 1;
      }
    }

    method ZeroSlots(first: nat)
      requires Shape() && first <= scheduleCount
      modifies days, targetCount
      ensures Shape() && Prefix(first) == old(Prefix(first))
    {
      DayMask.OnlyDaysKept(0, 0);
      for i := first to scheduleCount
        invariant Shape()
        invariant forall k :: 0 <= k < first ==> ScheduleAt(k) == old(ScheduleAt(k))
      {
        targetCount[i] := 0;
        days[i] := 0;
      }
      assert Prefix(first) == old(Prefix(first));
    }

    /** Drops the days in bits everywhere, compacting in place over schedules left with no day. */
    /** The compaction: what is left of every schedule, moved down in order; how many there are. */
    method Compact(bits: bv8) returns (dst: nat)
      requires Shape()
      modifies days, targets, targetCount
      ensures Shape() && dst <= scheduleCount && Prefix(dst) == Subtract(old(Contents()), DayMask.DaySet(bits))
    {
      hide DayMask.DaySet, DayMask.OnlyDays, Subtract, ScheduleAt, Slots;
      ghost var before := Contents();
      dst := 0;
      SubtractNone(before, DayMask.DaySet(bits));
      for src := 0 to scheduleCount
        invariant Shape() && dst <= src
        invariant forall i :: src <= i < scheduleCount ==> ScheduleAt(i) == before[i]
        invariant Prefix(dst) == Subtract(before[..src], DayMask.DaySet(bits))
      {
        dst := KeepOrDrop(src, dst, bits, before);
      }
      assert before[..scheduleCount] == before;
    }

    method SubtractDays(bits: bv8)
      requires Shape()
      modifies this`scheduleCount, days, targets, targetCount, viewLen
      ensures Shape() && ViewsCurrent()
      ensures Contents() == Subtract(old(Contents()), DayMask.DaySet(bits))
    {
      hide DayMask.DaySet, DayMask.OnlyDays, Subtract, ScheduleAt, Slots;
      var dst := Compact(bits);
      ZeroSlots(dst);
      scheduleCount := dst;
      RefreshViews();
    }

    // ---- persistence ----

    method EncodeTargets(start: nat, i: nat, ghost ts: seq<Target>) returns (n: nat)
      requires Slots() && i < MAX_DAYS && ts == ScheduleAt(i).targets && start + TARGET_SIZE * |ts| <= BLOB_MAX
      requires forall j :: 0 <= j < |ts| ==> LegalTarget(ts[j])
      modifies blob
      ensures n == start + TARGET_SIZE * |ts|
      ensures blob[..n] == old(blob[..start]) + TargetsBytes(ts)
    {
      ghost var before := blob[..start];
      n := start;
      assert TargetsBytes(ts[..0]) == [];
      hide TargetBytes, TargetsBytes;
      for j := 0 to targetCount[i]
        invariant n == start + TARGET_SIZE * j
        invariant blob[..n] == before + TargetsBytes(ts[..j])
      {
        TargetsBytesAppend(ts[..j], ts[j]);
        Associate(before, TargetsBytes(ts[..j]), TargetBytes(ts[j]));
        EncodeTarget(blob, n, targets[i, j]);
        n := n + TARGET_SIZE;
        assert ts[..j + 1] == ts[..j] + [ts[j]];
      }
      assert ts[..targetCount[i]] == ts;
    }

    method EncodeSchedule(start: nat, i: nat, ghost s: Schedule) returns (n: nat)
      requires Slots() && i < MAX_DAYS && s == ScheduleAt(i) && Storable(s) && start + |ScheduleBytes(s)| <= BLOB_MAX
      modifies blob
      ensures n == start + |ScheduleBytes(s)|
      ensures blob[..n] == old(blob[..start]) + ScheduleBytes(s)
    {
      hide DayMask.BitsOf, TargetsBytes;
      DayMask.BitsOfDaySet(days[i]);
      PutByte(blob, start, days[i] as int);
      PutByte(blob, start + 1, targetCount[i]);
      n := EncodeTargets(start + 2, i, s.targets);
    }

    method EncodeSchedules(start: nat, ghost s: seq<Schedule>) returns (n: nat)
      requires Slots() && |s| == scheduleCount <= MAX_DAYS && start == 2
      requires forall k :: 0 <= k < |s| ==> ScheduleAt(k) == s[k] && Storable(s[k])
      modifies blob
      ensures n <= BLOB_MAX && blob[..n] == old(blob[..start]) + SchedulesBytes(s)
    {
      ghost var head := blob[..start];
      n := start;
      assert SchedulesBytes(s[..0]) == [];
      hide ScheduleBytes, SchedulesBytes, Storable, ScheduleAt, Slots;
      for i := 0 to scheduleCount
        modifies blob
        invariant n == 2 + |SchedulesBytes(s[..i])| <= BLOB_MAX
        invariant blob[..n] == head + SchedulesBytes(s[..i])
      {
        NextScheduleBytes(s, i);
        Associate(head, SchedulesBytes(s[..i]), ScheduleBytes(s[i]));
        n := EncodeSchedule(n, i, s[i]);
      }
      assert s[..scheduleCount] == s;
    }

    /** Writes the store into the blob buffer and returns how many bytes it took. */
    method Encode() returns (n: nat)
      requires Sound()
      modifies blob
      ensures n <= BLOB_MAX && blob[..n] == old(Blob(Contents()))
    {
      ghost var s := Contents();
      StoreFits(s);
      ghost var whole := Blob(s);
      hide ScheduleAt, Slots, ScheduleBytes, SchedulesBytes, Storable;
      PutByte(blob, 0, BLOB_V1);
      PutByte(blob, 1, scheduleCount);
      assert blob[..2] == [BLOB_V1, |s|];
      n := EncodeSchedules(2, s);
    }

    /** Fills slot i from count encoded targets at n, or reports the first one that is no target. */
    method DecodeTargets(i: nat, n: nat, count: nat) returns (ok: bool)
      requires Slots() && i < MAX_DAYS && count <= MAX_PER_DAY && targetCount[i] == count && n + TARGET_SIZE * count <= BLOB_MAX
      modifies targets
      ensures var parsed := ParseTargets(blob[n..n + TARGET_SIZE * count], count);
              ok == parsed.Some? && (ok ==> ScheduleAt(i).targets == parsed.value)
      ensures forall k :: 0 <= k < MAX_DAYS && k != i ==> ScheduleAt(k) == old(ScheduleAt(k))
    {
      hide ParseTarget, ParseTargets, TargetsContinue;
      ghost var all := ParseTargets(blob[n..n + TARGET_SIZE * count], count);
      ghost var ts: seq<Target> := [];
      TargetsContinueStart(blob[n..n + TARGET_SIZE * count], count);
      for j := 0 to count
        invariant |ts| == j && forall k :: 0 <= k < j ==> targets[i, k] == ts[k]
        invariant forall r, k :: 0 <= r < MAX_DAYS && r != i && 0 <= k < MAX_PER_DAY ==> targets[r, k] == old(targets[r, k])
        invariant TargetsContinue(all, ts, blob[n + TARGET_SIZE * j..n + TARGET_SIZE * count], count - j)
      {
        ghost var rest := blob[n + TARGET_SIZE * j..n + TARGET_SIZE * count];
        assert rest[..TARGET_SIZE] == blob[n + TARGET_SIZE * j..n + TARGET_SIZE * j + TARGET_SIZE];
        assert rest[TARGET_SIZE..] == blob[n + TARGET_SIZE * (j + 1)..n + TARGET_SIZE * count];
        var t := DecodeTarget(blob, n + TARGET_SIZE * j);
        TargetsContinueStep(all, ts, rest, count - j);
        if t.None? {
          return false;
        }
        targets[i, j] := t.value;
        ts := ts + [t.value];
      }
      TargetsContinueEnd(all, ts, []);
      assert ScheduleAt(i).targets == ts;
      return true;
    }

    /** Decodes one schedule at n into slot i, given the days already taken. */
    method DecodeSchedule(i: nat, n: nat, len: nat, seen: bv8) returns (ok: bool, next: nat, taken: bv8)
      requires Slots() && i < MAX_DAYS && n <= len <= BLOB_MAX && DayMask.OnlyDays(seen)
      modifies days, targets, targetCount
      ensures Slots()
      ensures forall k :: 0 <= k < MAX_DAYS && k != i ==> ScheduleAt(k) == old(ScheduleAt(k))
      ensures var parsed := ParseSchedule(blob[n..len], DayMask.DaySet(seen));
              && ok == parsed.Some?
              && (ok ==> ScheduleAt(i) == parsed.value.0 && next == n + parsed.value.1 <= len
                         && DayMask.OnlyDays(taken) && DayMask.DaySet(taken) == DayMask.DaySet(seen) + parsed.value.0.days)
    {
      hide DayMask.DaySet, DayMask.OnlyDays, ParseTargets;
      var bits, count;
      next := n;
      ok, bits, count, taken := DecodeHead(blob, n, len, seen);
      if ok {
        days[i] := bits;
        targetCount[i] := count;
        assert blob[n..len][2..2 + TARGET_SIZE * count] == blob[n + 2..n + 2 + TARGET_SIZE * count];
        ok := DecodeTargets(i, n + 2, count);
        next := n + 2 + TARGET_SIZE * count;
      }
    }

    /** Reads the first len bytes of the blob buffer; on anything unexpected the store is left empty. */
    method Decode(len: nat) returns (ok: bool)
      requires Shape() && len <= BLOB_MAX
      modifies this`scheduleCount, days, targets, targetCount, viewLen
      ensures Sound()
      ensures ok == Parse(blob[..len]).Some?
      ensures Contents() == if ok then Parse(blob[..len]).value else []
    {
      ghost var b := blob[..len];
      ClearStore();
      if len < 2 || blob[0] != BLOB_V1 {
        return false;
      }
      var sched := blob[1];
      if sched > MAX_DAYS {
        return false;
      }
      ok := DecodeSchedules(sched, len);
      if !ok {
        ClearStore();
        return false;
      }
      ParsedStorable(b);
      RefreshViews();
    }

    method DecodeSchedules(sched: nat, len: nat) returns (ok: bool)
      requires Shape() && 2 <= len <= BLOB_MAX && sched <= MAX_DAYS && scheduleCount == 0
      modifies this`scheduleCount, days, targets, targetCount
      ensures Shape()
      ensures ok == ParseSchedules(blob[2..len], sched, {}).Some?
      ensures ok ==> Contents() == ParseSchedules(blob[2..len], sched, {}).value
    {
      hide DayMask.DaySet, DayMask.OnlyDays, ParseSchedule, ParseSchedules, SchedulesContinue;
      ghost var all := ParseSchedules(blob[2..len], sched, {});
      SchedulesContinueStart(blob[2..len], sched);
      var n: nat, seen: bv8 := 2, 0;
      DayMask.NoDays();
      for i := 0 to sched
        invariant Shape() && scheduleCount == i && n <= len && DayMask.OnlyDays(seen)
        invariant SchedulesContinue(all, Prefix(i), blob[n..len], sched - i, DayMask.DaySet(seen))
      {
        ghost var s := Prefix(i);
        ghost var size := n;
        SchedulesContinueStep(all, s, blob[n..len], sched - i, DayMask.DaySet(seen));
        ok, n, seen := DecodeSchedule(i, n, len, seen);
        if !ok {
          return;
        }
        assert blob[size..len][n - size..] == blob[n..len];
        assert Prefix(i) == s;
        scheduleCount := i + 1;
        assert Prefix(i + 1) == s + [ScheduleAt(i)];
      }
      SchedulesContinueEnd(all, Prefix(sched), blob[n..len], DayMask.DaySet(seen));
      return true;
    }

    /** Empties a store that was written for the other SOC variant; the persisted blob is left alone. */
    method DropIfVariantMismatch()
      requires Sound()
      modifies this`scheduleCount, days, targets, targetCount, viewLen
      ensures Sound() && Conformant(Contents(), socFeature)
      ensures Contents() == if old(Conformant(Contents(), socFeature)) then old(Contents()) else []
    {
      hide StorableAll, SocOk;
      ghost var s := Contents();
      for i := 0 to scheduleCount
        invariant forall p, q :: 0 <= p < i && 0 <= q < |s[p].targets| ==> SocOk(s[p].targets[q], socFeature)
      {
        for j := 0 to targetCount[i]
          invariant forall q :: 0 <= q < j ==> SocOk(s[i].targets[q], socFeature)
        {
          if !SocOk(targets[i, j], socFeature) {
            assert !SocOk(s[i].targets[j], socFeature);
            ClearStore();
            return;
          }
        }
      }
    }

    /** Persists the store. */
    method Save(io: WriteIo) returns (ok: bool)
      requires Sound()
      modifies this`stored, blob
      ensures Sound() && Contents() == old(Contents())
      ensures ok == io.Written?
      ensures stored == if io.Written? || io.landed then Some(old(Blob(Contents()))) else old(stored)
    {
      var len := Encode();
      if io.Written? || io.landed {
        stored := Some(blob[..len]);
      }
      return io.Written?;
    }

    method FetchBlob(bytes: seq<byte>)
      requires Arrays() && |bytes| <= BLOB_MAX
      modifies blob
      ensures blob[..|bytes|] == bytes
    {
      for i := 0 to |bytes|
        invariant blob[..i] == bytes[..i]
      {
        blob[i] := bytes[i];
      }
    }

    /** Reads the persisted store. Only an unreadable one leaves `loaded` as it was. */
    method LoadTargets(io: ReadIo)
      requires Shape()
      modifies this`scheduleCount, this`loaded, days, targets, targetCount, viewLen, blob
      ensures Sound() && Conformant(Contents(), socFeature)
      ensures Contents() == if Unreadable(stored, io) then [] else Served(stored, socFeature)
      ensures loaded == (old(loaded) || !Unreadable(stored, io))
    {
      assert Arrays();
      hide StorableAll, Parse, ScheduleAt, Slots, Conformant, Prefix;
      EmptyConforms(socFeature);
      ClearStore();
      if stored.None? && io.Readable? {
        loaded := true;
        return;
      }
      if io.ReadFailed? || |stored.value| > BLOB_MAX {
        return;
      }
      FetchBlob(stored.value);
      var ok := Decode(|stored.value|);
      loaded := true;
      if ok {
        DropIfVariantMismatch();
      }
    }

    // ---- the mutation, which can no longer fail ----

    method AddTarget(slot: nat, t: Target)
      requires Slots() && slot < MAX_DAYS && targetCount[slot] < MAX_PER_DAY
      modifies targets, targetCount
      ensures Slots()
      ensures ScheduleAt(slot) == old(Schedule(ScheduleAt(slot).days, ScheduleAt(slot).targets + [t]))
      ensures forall k :: 0 <= k < MAX_DAYS && k != slot ==> ScheduleAt(k) == old(ScheduleAt(k))
    {
      targets[slot, targetCount[slot]] := t;
      targetCount[slot] := targetCount[slot] + 1;
    }

    method OpenGroup(slot: nat, bits: bv8)
      requires Slots() && slot < MAX_DAYS && DayMask.OnlyDays(bits)
      modifies days, targetCount
      ensures Slots() && ScheduleAt(slot) == Schedule(DayMask.DaySet(bits), [])
      ensures forall k :: 0 <= k < MAX_DAYS && k != slot ==> ScheduleAt(k) == old(ScheduleAt(k))
    {
      days[slot] := bits;
      targetCount[slot] := 0;
    }

    /** Opens one empty schedule per group behind the survivors. */
    method OpenGroups(bitmaps: array<bv8>, groups: nat, ghost es: seq<Entry>, ghost counts: seq<nat>, ghost allBits: bv8)
      requires Shape() && Grouped(es, bitmaps[..], counts, groups, allBits) && scheduleCount + groups <= MAX_DAYS
      requires bitmaps as object !in {days as object, targets, targetCount}
      modifies this`scheduleCount, days, targetCount
      ensures Shape() && Contents() == old(Contents()) + Fill(Groups(es), [])
    {
      hide Grouped, Groups, DayMask.DaySet, DayMask.OnlyDays, ScheduleAt, Slots;
      var first := scheduleCount;
      ghost var kept := Contents();
      ghost var marks := bitmaps[..];
      GroupedCount(es, marks, counts, groups, allBits);
      for g := 0 to groups
        modifies days, targetCount
        invariant Slots() && bitmaps[..] == marks && |Groups(es)| == groups
        invariant forall k :: 0 <= k < first ==> ScheduleAt(k) == kept[k]
        invariant forall k :: first <= k < first + g ==> ScheduleAt(k) == Schedule(Groups(es)[k - first], [])
      {
        GroupBitmap(es, marks, counts, groups, allBits, g);
        assert bitmaps[g] == marks[g];
        OpenGroup(first + g, bitmaps[g]);
      }
      scheduleCount := first + groups;
      FillNothing(Groups(es));
      assert Contents() == kept + Fill(Groups(es), []);
    }

    /** Puts one row's target into its group's schedule. */
    method PlaceRow(row: Row, bitmaps: array<bv8>, groups: nat, first: nat, ghost kept: seq<Schedule>, ghost done: seq<Entry>,
                    ghost es: seq<Entry>, ghost counts: seq<nat>, ghost allBits: bv8)
      requires Shape() && Grouped(es, bitmaps[..], counts, groups, allBits) && TargetRow(row)
      requires first == |kept| && scheduleCount == first + groups
      requires |done| < |es| && done == es[..|done|] && es[|done|] == Entry(DaysOf(row), ToTarget(row))
      requires Contents() == kept + Fill(Groups(es), done) && |With(es, DaysOf(row))| <= MAX_PER_DAY
      modifies targets, targetCount
      ensures Shape() && Contents() == kept + Fill(Groups(es), es[..|done| + 1])
    {
      hide Grouped, Groups, With, Fill, DayMask.DaySet, DayMask.OnlyDays, DayMask.Legal, ScheduleAt, Slots;
      var bits := Octet(row.fields[0].value);
      DaysOfRow(row);
      DayMask.LegalOnlyDays(bits);
      PlaceTarget(bits, Target(row.fields[1].value, row.fields[2], row.fields[3]), bitmaps, groups, first, kept, done, es, counts, allBits);
    }

    /** Appends the target to the group its bitmap opened. */
    method PlaceTarget(bits: bv8, t: Target, bitmaps: array<bv8>, groups: nat, first: nat, ghost kept: seq<Schedule>,
                       ghost done: seq<Entry>, ghost es: seq<Entry>, ghost counts: seq<nat>, ghost allBits: bv8)
      requires Shape() && Grouped(es, bitmaps[..], counts, groups, allBits) && DayMask.OnlyDays(bits)
      requires first == |kept| && scheduleCount == first + groups
      requires |done| < |es| && done == es[..|done|] && es[|done|] == Entry(DayMask.DaySet(bits), t)
      requires Contents() == kept + Fill(Groups(es), done) && |With(es, DayMask.DaySet(bits))| <= MAX_PER_DAY
      modifies targets, targetCount
      ensures Shape() && Contents() == kept + Fill(Groups(es), es[..|done| + 1])
    {
      hide Grouped, Groups, With, DayMask.DaySet, DayMask.OnlyDays, DayMask.Legal, ScheduleAt, Slots;
      ghost var e := es[|done|];
      var g := FindGroup(bitmaps, groups, bits, es, counts, allBits);
      PlacedTarget(es, |done|, g) by { GroupedCount(es, bitmaps[..], counts, groups, allBits); }
      ghost var before := Contents();
      assert before[first + g] == Fill(Groups(es), done)[g] == ScheduleAt(first + g);
      AddTarget(first + g, t);
      assert Contents() == before[first + g := Schedule(e.days, With(done, e.days) + [e.target])];
    }

    method PlaceRows(stage: RowStage, nrows: nat, bitmaps: array<bv8>, groups: nat, first: nat, ghost kept: seq<Schedule>,
                     ghost es: seq<Entry>, ghost counts: seq<nat>, ghost allBits: bv8)
      requires stage.Valid() && nrows <= stage.count && AcceptableRows(stage.row[..nrows], socFeature)
      requires es == Entries(stage.row[..nrows]) && Grouped(es, bitmaps[..], counts, groups, allBits)
      requires Shape() && first == |kept| && scheduleCount == first + groups && Contents() == kept + Fill(Groups(es), [])
      requires bitmaps as object !in {targets as object, targetCount} && stage.row as object !in {targets as object, targetCount}
      modifies targets, targetCount
      ensures Shape() && Contents() == kept + Fill(Groups(es), es)
    {
      hide Grouped, Groups, With, DaysOf, Fill;
      for r := 0 to nrows
        invariant Shape() && Contents() == kept + Fill(Groups(es), es[..r])
      {
        assert stage.row[..nrows][r] == stage.row[r];
        assert |With(es, es[r].days)| <= MAX_PER_DAY;
        PlaceRow(stage.row[r], bitmaps, groups, first, kept, es[..r], es, counts, allBits);
      }
      assert es[..nrows] == es;
    }

    /** How many stored schedules keep a day once allBits is subtracted. */
    method CountSurvivors(allBits: bv8) returns (survivors: nat)
      requires Shape()
      ensures survivors == |Subtract(Contents(), DayMask.DaySet(allBits))|
    {
      hide DayMask.DaySet, DayMask.OnlyDays, DayMask.Without, Subtract;
      survivors := 0;
      ghost var s := Contents();
      SubtractNone(s, DayMask.DaySet(allBits));
      for i := 0 to scheduleCount
        invariant survivors == |Subtract(s[..i], DayMask.DaySet(allBits))|
      {
        SubtractNext(s, i, DayMask.DaySet(allBits));
        DayMask.DaySetWithout(days[i], allBits);
        DayMask.OnlyDaysKept(days[i], allBits);
        DayMask.DaySetEmpty(DayMask.Without(days[i], allBits));
        if DayMask.Without(days[i], allBits) != 0 {
          survivors := survivors + 1;
        }
      }
      assert s[..scheduleCount] == s;
    }

    /** The merge of an accepted set, pass 2. */
    method MergeGroups(stage: RowStage?, nrows: nat, bitmaps: array<bv8>, groups: nat, allBits: bv8, named: bv8,
                       ghost rows: seq<Row>, ghost counts: seq<nat>, ghost clear: set<nat>)
      requires Sound() && Conformant(Contents(), socFeature) && AcceptableRows(rows, socFeature)
      requires nrows == |rows| && (nrows > 0 ==> stage != null && stage.Valid() && nrows <= stage.count && rows == stage.row[..nrows])
      requires Grouped(Entries(rows), bitmaps[..], counts, groups, allBits)
      requires DayMask.DaySet(named) == NamedDays(Entries(rows)) + clear
      requires bitmaps as object !in {days as object, targets, targetCount, viewLen}
      requires stage != null ==> stage.row as object !in {days as object, targets, targetCount, viewLen}
      modifies this`scheduleCount, days, targets, targetCount, viewLen
      ensures Sound() && Conformant(Contents(), socFeature)
      ensures Contents() == old(Merged(Contents(), Entries(rows), clear))
    {
      hide Grouped, Acceptable, Groups, NamedDays, DayMask.DaySet, DayMask.OnlyDays, StorableAll, Conformant, LegalStore, DaysOf;
      ghost var before := Contents();
      ghost var es := Entries(rows);
      LegalIsStorableAndConformant(before, socFeature);
      MergeLegal(before, es, clear, socFeature);
      LegalIsStorableAndConformant(Merged(before, es, clear), socFeature);
      SubtractDays(named);
      ghost var kept := Contents();
      var first := scheduleCount;
      OpenGroups(bitmaps, groups, es, counts, allBits) by { GroupedCount(es, bitmaps[..], counts, groups, allBits); }
      if nrows > 0 {
        PlaceRows(stage, nrows, bitmaps, groups, first, kept, es, counts, allBits)
          by { GroupedCount(es, bitmaps[..], counts, groups, allBits); FillLength(es); }
      } else {
        assert es == [];
      }
      RefreshViews();
    }

    /** Groups, checks and merges rows into a loaded store; a refusal leaves it untouched. */
    method MergeStaged(stage: RowStage?, nrows: nat, clearDays: bv8, ghost rows: seq<Row>) returns (ok: bool)
      requires Sound() && Conformant(Contents(), socFeature)
      requires nrows == |rows| && (nrows > 0 ==> stage != null && stage.Valid() && nrows <= stage.count && rows == stage.row[..nrows])
      requires stage != null ==> stage.row as object !in {days as object, targets, targetCount, viewLen}
      modifies this`scheduleCount, days, targets, targetCount, viewLen
      ensures Sound() && Conformant(Contents(), socFeature)
      ensures ok <==> AcceptableRows(rows, socFeature)
      ensures Contents() == old(if AcceptableRows(rows, socFeature)
                                then Merged(Contents(), Entries(rows), DayMask.DaySet(clearDays)) else Contents())
    {
      hide DayMask.DaySet, DayMask.OnlyDays, Acceptable, AcceptableRows, StorableAll, Conformant, Grouped, DaysOf, Groups, NamedDays,
           Entries, Merged, Prefix, TargetRow, Slots, ViewsCurrent, Subtract, With, Fill, ScheduleAt;
      var bitmaps, counts := new bv8[MAX_DAYS](_ => 0), new nat[MAX_DAYS](_ => 0);
      var groups, allBits := 0, 0;
      GroupedNothing(bitmaps[..], counts[..], socFeature);
      assert nrows == 0 ==> rows == [];
      if nrows > 0 {
        ok, groups, allBits := GroupRows(stage, nrows, socFeature, bitmaps, counts);
        if !ok {
          return false;
        }
      }
      var named := allBits | (clearDays & DayMask.ALL_DAYS);
      AcceptableRowsAreDense(rows, socFeature);
      GroupedBits(Entries(rows), bitmaps[..], counts[..], groups, allBits, clearDays);
      var survivors := CountSurvivors(named);
      FitNeverRejects(Contents(), rows, DayMask.DaySet(clearDays), socFeature);
      if survivors + groups > MAX_DAYS {
        assert false;
        return false;
      }
      MergeGroups(stage, nrows, bitmaps, groups, allBits, named, rows, counts[..], DayMask.DaySet(clearDays));
      return true;
    }

    // ---- reading back ----

    /** How many rows a read-back has. */
    method RowTotal() returns (n: nat)
      requires Shape()
      ensures n == |Flatten(Contents())|
    {
      hide Flatten, DayMask.OnlyDays, DayMask.DaySet;
      ghost var s := Contents();
      n := 0;
      NothingFlattened(s);
      for i := 0 to scheduleCount
        invariant n == |Flatten(s[..i])|
      {
        FlattenStep(s, i);
        n := n + targetCount[i];
      }
      assert s[..scheduleCount] == s;
    }

    /** Row idx of the flattened (schedule, target) sequence. */
    method GetRow(idx: nat) returns (code: Code, row: Row, total: nat)
      requires Sound()
      ensures total == |Flatten(Contents())|
      ensures code == if idx < total then Ok else Value
      ensures idx < total ==> row == ReadRow(Flatten(Contents())[idx])
    {
      hide Storable, StorableAll, Flatten, DayMask.BitsOf, DayMask.OnlyDays, DayMask.DaySet;
      ghost var s := Contents();
      row := NO_ROW;
      total := RowTotal();
      if idx >= total {
        return Value, row, total;
      }
      var seen := 0;
      NothingFlattened(s);
      assert s[..scheduleCount] == s;
      for i := 0 to scheduleCount
        invariant seen == |Flatten(s[..i])| <= idx
      {
        FlattenStep(s, i);
        if idx - seen >= targetCount[i] {
          seen := seen + targetCount[i];
          continue;
        }
        FlattenAt(s, i, idx - seen);
        DayMask.BitsOfDaySet(days[i]);
        var t := targets[i, idx - seen];
        return Ok, Row([Some(days[i] as int), Some(t.time), t.soc, t.energy, None, None, None, None], 4), total;
      }
      assert false;
      return Value, row, total;
    }

    /** What a controller's read is served: views over every stored schedule, after a retry of a failed load. */
    method GetTargets(io: ReadIo) returns (ok: bool)
      requires Valid()
      modifies this`scheduleCount, this`loaded, days, targets, targetCount, viewLen, blob
      ensures Valid() && stored == old(stored)
      ensures ok <==> old(loaded) || !Unreadable(stored, io)
      ensures Contents() == if old(loaded) then old(Contents()) else if ok then Served(stored, socFeature) else []
      ensures loaded == ok
    {
      hide Conformant, StorableAll, ScheduleAt, Slots;
      EmptyConforms(socFeature);
      if !loaded {
        LoadTargets(io);
        if !loaded {
          return false;
        }
      }
      RefreshViews();
      return true;
    }

    /** The clear request: empties the store whatever a failed load left behind. */
    method ClearAll(io: WriteIo) returns (code: Code)
      requires Shape()
      modifies this, days, targets, targetCount, viewLen, blob
      ensures Valid() && Contents() == [] && loaded
      ensures code == SaveCode(io) && stored == Saved(old(stored), [], io)
    {
      EmptyConforms(socFeature);
      ClearStore();
      loaded := true;
      var ok := Save(io);
      return if ok then Ok else Persist;
    }

    /** A controller's ClearTargets: the RAM copy is emptied first, and a store that was not loaded stays so. */
    method ClearTargets(io: WriteIo) returns (ok: bool)
      requires Valid()
      modifies this`scheduleCount, this`stored, days, targets, targetCount, viewLen, blob
      ensures Valid()
      ensures Cleared(old(Before()), io, ok, Before())
    {
      EmptyConforms(socFeature);
      ClearStore();
      ok := Save(io);
    }

    /** The factory reset's part in this endpoint: the RAM copy first, then the namespace. */
    method EraseAll(io: WriteIo) returns (ok: bool)
      requires Valid()
      modifies this`scheduleCount, this`stored, days, targets, targetCount, viewLen
      ensures Valid()
      ensures Erased(old(Before()), io, ok, Before())
    {
      EmptyConforms(socFeature);
      ClearStore();
      if io.Written? || io.landed {
        stored := None;
      }
      return io.Written?;
    }

    /** Merges into a loaded store and persists the result. */
    method Commit(stage: RowStage?, nrows: nat, clearDays: bv8, writeIo: WriteIo, ghost rows: seq<Row>) returns (code: Code)
      requires Sound() && Conformant(Contents(), socFeature) && loaded
      requires nrows == |rows| && (nrows > 0 ==> stage != null && stage.Valid() && nrows <= stage.count && rows == stage.row[..nrows])
      requires stage != null ==> stage.row as object !in {days as object, targets, targetCount, viewLen, blob}
      modifies this, days, targets, targetCount, viewLen, blob
      ensures Valid()
      ensures Committed(old(Contents()), old(stored), rows, clearDays, writeIo, socFeature, code, Before())
    {
      hide DayMask.DaySet, StorableAll, Conformant, Blob, Merged, AcceptableRows, Entries, Shape, ViewsCurrent;
      var ok := MergeStaged(stage, nrows, clearDays, rows);
      if !ok {
        return Value;
      }
      AcceptableRowsAreDense(rows, socFeature);
      ok := Save(writeIo);
      return if ok then Ok else Persist;
    }

    /**
     Merges the staged set for this endpoint into the store, or clears it when there is
     nothing to merge and no day to empty. Nothing is mutated before every check has passed.
     */
    method Apply(stage: RowStage?, ep: nat, clearDays: bv8, readIo: ReadIo, writeIo: WriteIo) returns (code: Code)
      requires Valid() && (stage != null ==> stage.Valid())
      requires stage != null ==> stage.row as object !in {days as object, targets, targetCount, viewLen, blob}
      modifies this, days, targets, targetCount, viewLen, blob
      ensures Valid()
      ensures var rows := old(MatchingRows(if stage == null then Empty() else stage.View(), ep));
              Applied(old(Before()), rows, clearDays, readIo, writeIo, socFeature, code, Before())
    {
      hide Committed, StorableAll, Conformant, Blob, Served, Shape, ViewsCurrent;
      var matches := stage != null && stage.active && stage.ep == ep && stage.kind == KIND_EVSE_TARGET && stage.count > 0;
      ghost var rows := MatchingRows(if stage == null then Empty() else stage.View(), ep);
      assert matches ==> rows == stage.row[..stage.count];
      if !matches && clearDays == 0 {
        code := ClearAll(writeIo);
        return;
      }
      var nrows := if matches then stage.count else 0;
      if !loaded {
        LoadTargets(readIo);
        if !loaded {
          return Persist;
        }
      }
      code := Commit(stage, nrows, clearDays, writeIo, rows);
    }
  }
}
