/**
 The row codec: staging the rows of a nested AT payload one at a time, and
 validating the staged set as a whole (core/mt/mt_rows.c).
 */
module Rows {
  import opened Prelude
  import DayMask

  const KIND_EVSE_TARGET: nat := 1
  const MAX_FIELDS: nat := 8
  const MAX_ROWS: nat := 70

  datatype Code = Ok | Form | Value | Kind | Endpoint | NoPayload | Persist

  /** fields[i] is None where the program has present[i] == false; nfields == 0 marks a slot nothing was staged into. */
  datatype Row = Row(fields: seq<Option<int>>, nfields: nat)

  const NO_ROW: Row := Row([None, None, None, None, None, None, None, None], 0)

  predicate Shaped(r: Row) {
    |r.fields| == MAX_FIELDS
  }

  function FieldCount(kind: nat): Option<nat> {
    if kind == KIND_EVSE_TARGET then Some(4) else None
  }

  /** The field table of the EVSE target kind. */
  predicate FieldOk(i: nat, v: Option<int>)
    requires i < 4
  {
    match i
    case 0 => v.Some? && 1 <= v.value <= 0x7F
    case 1 => v.Some? && 0 <= v.value <= 1439
    case 2 => v.Some? ==> 0 <= v.value <= 100
    case _ => v.Some? ==> 0 <= v.value <= INT64_MAX
  }

  /** The field table, plus the rule that a target names a charge level or an energy. */
  predicate TargetRow(r: Row) {
    && Shaped(r)
    && FieldOk(0, r.fields[0]) && FieldOk(1, r.fields[1]) && FieldOk(2, r.fields[2]) && FieldOk(3, r.fields[3])
    && (r.fields[2].Some? || r.fields[3].Some?)
  }

  /** The days a row's bitmap names. */
  function DaysOf(r: Row): set<nat>
    requires TargetRow(r)
  {
    DayMask.DaySet(Octet(r.fields[0].value))
  }

  predicate Compatible(a: set<nat>, b: set<nat>) {
    a == b || a !! b
  }

  lemma DaysOfRow(r: Row)
    requires TargetRow(r)
    ensures DayMask.Legal(Octet(r.fields[0].value))
    ensures DaysOf(r) != {} && DaysOf(r) <= DayMask.WEEK
  {
    var m := Octet(r.fields[0].value);
    DayMask.OctetLegal(r.fields[0].value);
    DayMask.DaySetEmpty(m);
    DayMask.DaySetWithin(m);
  }

  /** Two rows name the same days exactly when they carry the same bitmap. */
  lemma SameDaysSameBitmap(r: Row, q: Row)
    requires TargetRow(r) && TargetRow(q) && DaysOf(r) == DaysOf(q)
    ensures r.fields[0].value == q.fields[0].value
  {
    DaysOfRow(r);
    DaysOfRow(q);
    DayMask.DaySetInjective(Octet(r.fields[0].value), Octet(q.fields[0].value));
  }

  // ---- the staged set as a value ----

  datatype Staged = Staged(active: bool, ep: nat, kind: nat, count: nat, rows: seq<Row>)

  function NoRows(): (rows: seq<Row>)
    ensures |rows| == MAX_ROWS && forall i :: 0 <= i < MAX_ROWS ==> rows[i] == NO_ROW
  {
    seq(MAX_ROWS, i => NO_ROW)
  }

  function Empty(): Staged {
    Staged(false, 0, 0, 0, NoRows())
  }

  predicate Stageable(kind: nat, idx: nat, r: Row) {
    kind == KIND_EVSE_TARGET && idx < MAX_ROWS && TargetRow(r)
  }

  function StageCode(kind: nat, idx: nat, r: Row): Code {
    if kind != KIND_EVSE_TARGET then Kind else if Stageable(kind, idx, r) then Ok else Value
  }

  function Kept(s: Staged, ep: nat, kind: nat): Staged {
    if s.active && (s.ep != ep || s.kind != kind) then s.(count := 0, rows := NoRows()) else s
  }

  /** What staging a row makes of a set: nothing if refused, a fresh set if the target changed. */
  function StageRow(s: Staged, ep: nat, kind: nat, idx: nat, r: Row): Staged
    requires |s.rows| == MAX_ROWS
  {
    if !Stageable(kind, idx, r) then s
    else
      var k := Kept(s, ep, kind);
      Staged(true, ep, kind, if idx + 1 > k.count then idx + 1 else k.count, k.rows[idx := Row(r.fields, 4)])
  }

  predicate WellFormed(s: Staged) {
    && |s.rows| == MAX_ROWS && s.count <= MAX_ROWS
    && (forall i :: 0 <= i < MAX_ROWS ==> s.rows[i] == NO_ROW || (TargetRow(s.rows[i]) && s.rows[i].nfields == 4))
    && (forall i :: s.count <= i < MAX_ROWS ==> s.rows[i] == NO_ROW)
    && (s.active ==> s.kind == KIND_EVSE_TARGET)
    && (!s.active ==> s.count == 0)
  }

  lemma StageRowWellFormed(s: Staged, ep: nat, kind: nat, idx: nat, r: Row)
    requires WellFormed(s)
    ensures WellFormed(StageRow(s, ep, kind, idx, r))
    ensures StageCode(kind, idx, r) == Ok ==> StageRow(s, ep, kind, idx, r).active
  {
  }

  predicate Dense(rows: seq<Row>) {
    forall i :: 0 <= i < |rows| ==> TargetRow(rows[i])
  }

  predicate PairwiseCompatible(rows: seq<Row>)
    requires Dense(rows)
  {
    forall i, j :: 0 <= i < j < |rows| ==> Compatible(DaysOf(rows[i]), DaysOf(rows[j]))
  }

  /** The whole-set rules: the clear request, or a dense set whose day bitmaps are pairwise equal or disjoint. */
  predicate ValidSet(s: Staged, count: nat)
    requires WellFormed(s)
  {
    count == 0
    || (s.active && count == s.count && Dense(s.rows[..count]) && PairwiseCompatible(s.rows[..count]))
  }

  // ---- the stage itself ----

  class RowStage {
    var active: bool
    var ep: nat
    var kind: nat
    var count: nat
    const row: array<Row>

    ghost predicate Valid()
      reads this, row
    {
      row.Length == MAX_ROWS && WellFormed(View())
    }

    function View(): Staged
      reads this, row
    {
      Staged(active, ep, kind, count, row[..])
    }

    constructor ()
      ensures Valid() && View() == Empty() && fresh(row)
    {
      active, ep, kind, count := false, 0, 0, 0;
      row := new Row[MAX_ROWS](_ => NO_ROW);
      new;
      assert row[..] == NoRows();
    }

    method ClearRows()
      requires row.Length == MAX_ROWS
      modifies row
      ensures row[..] == NoRows()
    {
      for i := 0 to row.Length
        invariant forall j :: 0 <= j < i ==> row[j] == NO_ROW
      {
        row[i] := NO_ROW;
      }
    }

    method Init()
      requires row.Length == MAX_ROWS
      modifies this, row
      ensures Valid() && View() == Empty()
    {
      ClearRows();
      active, ep, kind, count := false, 0, 0, 0;
    }

    method Stage(ep: nat, kind: nat, idx: nat, r: Row) returns (code: Code)
      requires Valid() && Shaped(r)
      modifies this, row
      ensures Valid()
      ensures code == StageCode(kind, idx, r)
      ensures View() == old(StageRow(View(), ep, kind, idx, r))
    {
      StageRowWellFormed(View(), ep, kind, idx, r);
      if FieldCount(kind).None? {
        return Kind;
      }
      if idx >= MAX_ROWS {
        return Value;
      }
      for i := 0 to 4
        invariant forall j :: 0 <= j < i ==> FieldOk(j, r.fields[j])
      {
        if !FieldOk(i, r.fields[i]) {
          return Value;
        }
      }
      if r.fields[2].None? && r.fields[3].None? {
        return Value;
      }
      if active && (this.ep != ep || this.kind != kind) {
        ClearRows();
        count := 0;
      }
      active := true;
      this.ep := ep;
      this.kind := kind;
      row[idx] := Row(r.fields, 4);
      if idx + 1 > count {
        count := idx + 1;
      }
      return Ok;
    }

    method Clear(ep: nat, kind: nat) returns (code: Code)
      requires Valid()
      modifies this, row
      ensures Valid()
      ensures code == if old(active && this.ep == ep && this.kind == kind) then Ok else Value
      ensures View() == if code == Ok then Empty() else old(View())
    {
      if !active || this.ep != ep || this.kind != kind {
        return Value;
      }
      Init();
      return Ok;
    }

    method Validate(count: nat) returns (code: Code)
      requires Valid()
      ensures code == if ValidSet(View(), count) then Ok else Value
    {
      if count == 0 {
        return Ok;
      }
      if !active || count != this.count {
        return Value;
      }
      for i := 0 to count
        invariant Dense(row[..i])
      {
        if row[i].nfields == 0 {
          assert row[..count][i] == NO_ROW;
          return Value;
        }
        assert row[..i + 1] == row[..i] + [row[i]];
      }
      var clash := DaysClash(count);
      return if clash then Value else Ok;
    }

    /** One pass over the rows, remembering for each day the bitmap that first claimed it. */
    method DaysClash(count: nat) returns (clash: bool)
      requires Valid() && count <= MAX_ROWS && Dense(row[..count])
      ensures clash == !PairwiseCompatible(row[..count])
    {
      var owner := new int[7](_ => -1);
      for i := 0 to count
        invariant forall d: nat :: d < 7 ==> OwnedDay(owner[d], row[..i], d)
      {
        assert row[..count][i] == row[i];
        assert row[..i + 1] == row[..i] + [row[i]];
        clash := ClaimDays(owner, row[i], row[..i]);
        if clash {
          assert row[..i + 1] == row[..count][..i + 1];
          return;
        }
      }
      NoClash(owner[..], row[..count]);
      return false;
    }
  }

  /** Claims the days of r for its bitmap, given the owners of the rows before it. */
  method ClaimDays(owner: array<int>, r: Row, ghost before: seq<Row>) returns (clash: bool)
    requires owner.Length == 7 && TargetRow(r) && Dense(before + [r])
    requires forall d: nat :: d < 7 ==> OwnedDay(owner[d], before, d)
    modifies owner
    ensures !clash ==> forall d: nat :: d < 7 ==> OwnedDay(owner[d], before + [r], d)
    ensures clash ==> !PairwiseCompatible(before + [r])
  {
    hide OwnedDay, Dense, PairwiseCompatible, DayMask.HasDay;
    for b := 0 to 7
      invariant forall d: nat :: d < b ==> OwnedDay(owner[d], before + [r], d)
      invariant forall d: nat :: b <= d < 7 ==> OwnedDay(owner[d], before, d)
    {
      ExtendDay(owner[b], before, r, b);
      if DayMask.HasDay(Octet(r.fields[0].value), b) {
        if owner[b] == -1 {
          owner[b] := r.fields[0].value;
        } else if owner[b] != r.fields[0].value {
          Clashing(owner[b], before, r, b);
          return true;
        }
      }
    }
    return false;
  }

  // ---- day ownership: o is -1 when no row has day d, else the one bitmap the rows with day d carry ----

  ghost predicate OwnedDay(o: int, rows: seq<Row>, d: nat) {
    && Dense(rows)
    && (forall i :: 0 <= i < |rows| && d in DaysOf(rows[i]) ==> rows[i].fields[0].value == o)
    && (o != -1 ==> exists i :: 0 <= i < |rows| && d in DaysOf(rows[i]))
  }

  lemma ExtendDay(o: int, rows: seq<Row>, r: Row, d: nat)
    requires OwnedDay(o, rows, d) && TargetRow(r)
    ensures d !in DaysOf(r) || o == r.fields[0].value ==> OwnedDay(o, rows + [r], d)
    ensures d in DaysOf(r) && o == -1 ==> OwnedDay(r.fields[0].value, rows + [r], d)
  {
    hide DaysOf;
    if d in DaysOf(r) {
      assert (rows + [r])[|rows|] == r;
    } else if o != -1 {
      var i :| 0 <= i < |rows| && d in DaysOf(rows[i]);
      assert (rows + [r])[i] == rows[i];
    }
  }

  lemma Clashing(o: int, rows: seq<Row>, r: Row, d: nat)
    requires TargetRow(r) && OwnedDay(o, rows, d) && o != -1
    requires d in DaysOf(r) && r.fields[0].value != o
    ensures Dense(rows + [r]) && !PairwiseCompatible(rows + [r])
  {
    hide DaysOf;
    var i :| 0 <= i < |rows| && d in DaysOf(rows[i]);
    assert (rows + [r])[i] == rows[i] && (rows + [r])[|rows|] == r;
    if DaysOf(rows[i]) == DaysOf(r) {
      SameDaysSameBitmap(rows[i], r);
    }
  }

  lemma NoClash(owner: seq<int>, rows: seq<Row>)
    requires |owner| == 7 && Dense(rows)
    requires forall d: nat :: d < 7 ==> OwnedDay(owner[d], rows, d)
    ensures PairwiseCompatible(rows)
  {
    hide DaysOf;
    forall i, j | 0 <= i < j < |rows| ensures Compatible(DaysOf(rows[i]), DaysOf(rows[j])) {
      if d :| d in DaysOf(rows[i]) && d in DaysOf(rows[j]) {
        DaysOfRow(rows[i]);
        assert OwnedDay(owner[d], rows, d);
        SameBitmapSameDays(rows[i], rows[j]);
      }
    }
  }

  lemma SameBitmapSameDays(r: Row, q: Row)
    requires TargetRow(r) && TargetRow(q) && r.fields[0].value == q.fields[0].value
    ensures DaysOf(r) == DaysOf(q)
  {
  }
}
