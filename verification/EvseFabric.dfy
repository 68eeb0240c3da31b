/**
 The charging-schedule write of a Matter controller: the list is flattened into the
 inbound row stage, adjudicated by the host, and merged through the same apply as the
 host's own rows (platform/esp32c6/main/mt_evse.cpp, SetTargets).
 */
module EvseFabric {
  import opened Prelude
  import opened Rows
  import opened Schedules
  import opened EvseStore
  import DayMask
  import ScheduleBlob

  datatype Status = Success | Failure | Busy | InvalidCommand | ConstraintError | ResourceExhausted

  /** One entry of the list; bits are the day bits of its bitmap. */
  datatype ListEntry = ListEntry(bits: bv8, targets: seq<Target>)

  function ListOf(list: seq<ListEntry>): (s: seq<Schedule>)
    ensures |s| == |list|
    ensures forall i :: 0 <= i < |list| ==> s[i] == Schedule(DayMask.DaySet(list[i].bits), list[i].targets)
  {
    if list == [] then []
    else ListOf(list[..|list| - 1]) + [Schedule(DayMask.DaySet(list[|list| - 1].bits), list[|list| - 1].targets)]
  }

  /** A staged set for ep that holds exactly these entries. */
  ghost predicate Holds(st: Staged, ep: nat, es: seq<Entry>) {
    && WellFormed(st) && st.count == |es| <= MAX_ROWS
    && (es != [] ==> st.active && st.ep == ep && st.kind == KIND_EVSE_TARGET)
    && Dense(st.rows[..st.count]) && Entries(st.rows[..st.count]) == es
  }

  /** The inbound stage as a claim hands it over: stamped with its endpoint, without rows. */
  function Claimed(ep: nat): Staged {
    Staged(true, ep, KIND_EVSE_TARGET, 0, NoRows())
  }

  lemma HoldsNothing(ep: nat)
    ensures Holds(Claimed(ep), ep, [])
  {
    assert NoRows()[..0] == [];
  }

  lemma HoldsMore(st: Staged, ep: nat, es: seq<Entry>, r: Row)
    requires Holds(st, ep, es) && |es| < MAX_ROWS && TargetRow(r) && (st.active ==> st.ep == ep)
    ensures Holds(StageRow(st, ep, KIND_EVSE_TARGET, |es|, r), ep, es + [Entry(DaysOf(r), ToTarget(r))])
  {
    hide DaysOf;
    StageRowWellFormed(st, ep, KIND_EVSE_TARGET, |es|, r);
    var after := StageRow(st, ep, KIND_EVSE_TARGET, |es|, r);
    assert after.rows[..|es|] == st.rows[..|es|];
    assert after.rows[..|es| + 1] == st.rows[..|es|] + [Row(r.fields, 4)];
    assert DaysOf(Row(r.fields, 4)) == DaysOf(r) by { SameDaysOf(r); }
  }

  lemma SameDaysOf(r: Row)
    requires TargetRow(r)
    ensures DaysOf(Row(r.fields, 4)) == DaysOf(r)
  {
  }

  /** The row a target is staged as; the field table rejects it exactly when the day set or the target is not legal. */
  function ListRow(bits: bv8, t: Target): Row {
    Row([Some(bits as int), Some(t.time), t.soc, t.energy, None, None, None, None], 4)
  }

  lemma ListRowIsItsEntry(bits: bv8, t: Target)
    requires DayMask.OnlyDays(bits)
    ensures Shaped(ListRow(bits, t))
    ensures TargetRow(ListRow(bits, t)) <==> DayMask.DaySet(bits) != {} && LegalTarget(t)
    ensures TargetRow(ListRow(bits, t)) ==> Entry(DaysOf(ListRow(bits, t)), ToTarget(ListRow(bits, t))) == Entry(DayMask.DaySet(bits), t)
  {
    OctetInverse(bits);
    DayMask.OctetLegal(bits as int);
    DayMask.DaySetEmpty(bits);
  }

  /** A flattened entry that has a row form: a legal target for at least one day. */
  predicate RowForm(e: Entry) {
    e.days != {} && LegalTarget(e.target)
  }

  /** What staging answers: the first of the first seventy rows that cannot be staged decides, then their number. */
  function ListStatus(es: seq<Entry>): Status {
    if exists k :: 0 <= k < |es| && k < MAX_ROWS && !RowForm(es[k]) then ConstraintError
    else if |es| > MAX_ROWS then ResourceExhausted
    else Success
  }

  /** In numbers: among the first seventy rows one without a day, or with a target out of its ranges; or else more than seventy. */
  lemma ListRefusal(es: seq<Entry>)
    ensures ListStatus(es) == ConstraintError <==>
      exists k :: 0 <= k < |es| && k < 70 && (es[k].days == {} || !InRange(es[k].target))
    ensures ListStatus(es) == ResourceExhausted <==>
      |es| > 70 && forall k :: 0 <= k < 70 ==> es[k].days != {} && InRange(es[k].target)
    ensures ListStatus(es) in {Success, ConstraintError, ResourceExhausted}
  {
  }

  predicate InRange(t: Target) {
    && 0 <= t.time < 1440 && (t.soc.Some? ==> 0 <= t.soc.value <= 100)
    && (t.energy.Some? ==> 0 <= t.energy.value < 0x8000_0000_0000_0000) && !(t.soc.None? && t.energy.None?)
  }

  lemma FailsAt(es: seq<Entry>, n: nat)
    requires n < |es| && n <= MAX_ROWS && forall k :: 0 <= k < n ==> RowForm(es[k])
    ensures n == MAX_ROWS ==> ListStatus(es) == ResourceExhausted
    ensures n < MAX_ROWS && !RowForm(es[n]) ==> ListStatus(es) == ConstraintError
  {
    hide RowForm;
  }

  /** Stages one target, at the next index. */
  method StageTarget(stage: RowStage, ep: nat, bits: bv8, t: Target, n: nat, ghost es: seq<Entry>) returns (status: Status)
    requires stage.Valid() && Holds(stage.View(), ep, es) && n == |es| && DayMask.OnlyDays(bits)
    requires stage.active ==> stage.ep == ep
    modifies stage, stage.row
    ensures stage.Valid() && (stage.active ==> stage.ep == ep)
    ensures status == if n >= MAX_ROWS then ResourceExhausted
                      else if RowForm(Entry(DayMask.DaySet(bits), t)) then Success else ConstraintError
    ensures status == Success ==> Holds(stage.View(), ep, es + [Entry(DayMask.DaySet(bits), t)])
  {
    hide DayMask.DaySet, DayMask.OnlyDays, DaysOf, Holds, WellFormed, LegalTarget, TargetRow;
    if n >= MAX_ROWS {
      return ResourceExhausted;
    }
    var row := ListRow(bits, t);
    ListRowIsItsEntry(bits, t);
    if TargetRow(row) {
      HoldsMore(stage.View(), ep, es, row);
    }
    var code := stage.Stage(ep, KIND_EVSE_TARGET, n, row);
    return if code == Ok then Success else ConstraintError;
  }

  /** Stages the targets of one entry; all is the flattened list it continues. */
  method StageEntry(stage: RowStage, ep: nat, entry: ListEntry, n: nat, ghost es: seq<Entry>, ghost all: seq<Entry>)
    returns (status: Status, n': nat)
    requires stage.Valid() && Holds(stage.View(), ep, es) && n == |es| && DayMask.OnlyDays(entry.bits)
    requires stage.active ==> stage.ep == ep
    requires es + ScheduleEntries(DayMask.DaySet(entry.bits), entry.targets) <= all && forall k :: 0 <= k < n ==> RowForm(all[k])
    modifies stage, stage.row
    ensures stage.Valid() && (stage.active ==> stage.ep == ep)
    ensures status != Success ==> status == ListStatus(all)
    ensures status == Success ==>
      && n' == n + |entry.targets| && (forall k :: 0 <= k < n' ==> RowForm(all[k]))
      && Holds(stage.View(), ep, es + ScheduleEntries(DayMask.DaySet(entry.bits), entry.targets))
  {
    hide DayMask.DaySet, DayMask.OnlyDays, Holds, RowForm, ListStatus;
    n' := n;
    status := Success;
    ghost var more := ScheduleEntries(DayMask.DaySet(entry.bits), entry.targets);
    assert es + more[..0] == es;
    for j := 0 to |entry.targets|
      invariant stage.Valid() && (stage.active ==> stage.ep == ep)
      invariant n' == n + j && forall k :: 0 <= k < n' ==> RowForm(all[k])
      invariant Holds(stage.View(), ep, es + more[..j])
    {
      HoldsFits(stage.View(), ep, es + more[..j]);
      assert all[n'] == (es + more)[n'] == more[j];
      FailsAt(all, n');
      status := StageTarget(stage, ep, entry.bits, entry.targets[j], n', es + more[..j]);
      if status != Success {
        return;
      }
      assert es + more[..j + 1] == es + more[..j] + [more[j]];
      n' := n' + 1;
    }
    assert more[..|entry.targets|] == more;
    status := Success;
  }

  lemma HoldsFits(st: Staged, ep: nat, es: seq<Entry>)
    requires Holds(st, ep, es)
    ensures |es| <= MAX_ROWS
  {
  }

  lemma AllStaged(es: seq<Entry>)
    requires |es| <= MAX_ROWS && forall k :: 0 <= k < |es| ==> RowForm(es[k])
    ensures ListStatus(es) == Success
  {
  }

  /** Flattens the list into a freshly claimed stage, and collects the days its entries name. */
  method StageList(stage: RowStage, ep: nat, list: seq<ListEntry>) returns (status: Status, n: nat, affected: bv8)
    requires stage.Valid() && stage.View() == Claimed(ep)
    requires forall i :: 0 <= i < |list| ==> DayMask.OnlyDays(list[i].bits)
    modifies stage, stage.row
    ensures stage.Valid()
    ensures status == ListStatus(Flatten(ListOf(list)))
    ensures status == Success ==>
      && Holds(stage.View(), ep, Flatten(ListOf(list))) && n == |Flatten(ListOf(list))|
      && DayMask.OnlyDays(affected) && DayMask.DaySet(affected) == AllDays(ListOf(list))
  {
    hide DayMask.DaySet, DayMask.OnlyDays, Holds, RowForm, ListStatus, ListOf, Flatten, AllDays;
    ghost var s := ListOf(list);
    ghost var all := Flatten(s);
    status, n, affected := Success, 0, 0;
    StartOfList(s, ep);
    for i := 0 to |list|
      invariant stage.Valid() && (stage.active ==> stage.ep == ep)
      invariant n == |Flatten(s[..i])| <= |all| && Holds(stage.View(), ep, Flatten(s[..i]))
      invariant forall k :: 0 <= k < n ==> RowForm(all[k])
      invariant DayMask.OnlyDays(affected) && DayMask.DaySet(affected) == AllDays(s[..i])
    {
      var entry := list[i];
      FlattenStep(s, i);
      FlattenPrefix(s, i + 1);
      AllDaysStep(s, i);
      DayMask.OnlyDaysKept(affected, entry.bits);
      DayMask.DaySetUnion(affected, entry.bits);
      affected := affected | entry.bits;
      status, n := StageEntry(stage, ep, entry, n, Flatten(s[..i]), all);
      if status != Success {
        return;
      }
    }
    assert s[..|list|] == s;
    HoldsFits(stage.View(), ep, all);
    AllStaged(all);
    status := Success;
  }

  lemma StartOfList(s: seq<Schedule>, ep: nat)
    ensures Flatten(s[..0]) == [] && AllDays(s[..0]) == {} && Holds(Claimed(ep), ep, [])
    ensures DayMask.OnlyDays(0) && DayMask.DaySet(0) == {}
  {
    HoldsNothing(ep);
    DayMask.NoDays();
  }

  lemma AllDaysStep(s: seq<Schedule>, i: nat)
    requires i < |s|
    ensures AllDays(s[..i + 1]) == AllDays(s[..i]) + s[i].days
  {
    assert s[..i + 1][..i] == s[..i];
  }

  /**
   The write itself. `claimed` is whether the inbound stage could be claimed; `wellFormed` whether the list decoded to
   its end, `list` being what decoded; `allow` the host's verdict. Without any of them nothing is touched. A list that
   names no day merges nothing, where the same call on the host's side would clear the store.
   */
  method SetTargets(store: Store, stage: RowStage, ep: nat, claimed: bool, list: seq<ListEntry>, wellFormed: bool, allow: bool,
                    readIo: ReadIo, writeIo: WriteIo)
    returns (status: Status)
    requires store.Valid() && stage.Valid() && (claimed ==> stage.View() == Claimed(ep))
    requires forall i :: 0 <= i < |list| ==> DayMask.OnlyDays(list[i].bits)
    requires stage.row as object !in {store.days as object, store.targets, store.targetCount, store.viewLen, store.blob}
    requires stage as object != store
    modifies stage, stage.row, store, store.days, store.targets, store.targetCount, store.viewLen, store.blob
    ensures store.Valid()
    ensures FabricWrite(old(store.Before()), claimed, list, wellFormed, allow, readIo, writeIo, store.socFeature, status, store.Before())
  {
    hide DayMask.DaySet, DayMask.OnlyDays, ListOf, Flatten, AllDays, ScheduleBlob.StorableAll, Conformant, ListStatus, Applied, Entries, DaysOf;
    if !claimed {
      return Busy;
    }
    var n, affected;
    status, n, affected := StageList(stage, ep, list);
    if status != Success {
      return;
    }
    if !wellFormed {
      return InvalidCommand;
    }
    if !allow {
      return Failure;
    }
    DayMask.DaySetEmpty(affected);
    if n == 0 && affected == 0 {
      return Success;
    }
    HeldRows(stage.View(), ep, Flatten(ListOf(list)));
    var code := store.Apply(stage, ep, affected, readIo, writeIo);
    return if code == Ok then Success else Failure;
  }

  lemma HeldRows(st: Staged, ep: nat, es: seq<Entry>)
    requires Holds(st, ep, es)
    ensures Dense(MatchingRows(st, ep)) && Entries(MatchingRows(st, ep)) == es
  {
    assert st.rows[..0] == [];
  }

  /** What a controller's list does to the store. */
  ghost predicate FabricWrite(pre: Snapshot, claimed: bool, list: seq<ListEntry>, wellFormed: bool, allow: bool,
                              readIo: ReadIo, writeIo: WriteIo, socFeature: bool, status: Status, post: Snapshot)
  {
    if !claimed then
      status == Busy && post == pre
    else if ListStatus(Flatten(ListOf(list))) != Success then
      status == ListStatus(Flatten(ListOf(list))) && post == pre
    else if !wellFormed then
      status == InvalidCommand && post == pre
    else if !allow then
      status == Failure && post == pre
    else if Flatten(ListOf(list)) == [] && AllDays(ListOf(list)) == {} then
      status == Success && post == pre
    else
      exists rows, bits, code ::
        && Dense(rows) && Entries(rows) == Flatten(ListOf(list)) && DayMask.DaySet(bits) == AllDays(ListOf(list))
        && !(rows == [] && bits == 0)
        && Applied(pre, rows, bits, readIo, writeIo, socFeature, code, post)
        && status == if code == Ok then Success else Failure
  }
}
