/**
 What the charging-schedule store guarantees over whole runs: day-by-day meaning of host and
 controller writes, seven schedules at most, durability, and read-back as a fixed point.
 The operations themselves are EvseStore.Store.Apply and EvseFabric.SetTargets.
 */
module EvseRuns {
  import opened Prelude
  import opened Rows
  import opened Schedules
  import opened ScheduleBlob
  import opened EvseStore
  import opened EvseFabric
  import DayMask
  import AtCommand
  import RowCommands
  import RowHistory

  /** What Store.Valid says of a snapshot. */
  predicate Sane(s: Snapshot, socFeature: bool) {
    LegalStore(s.contents, socFeature) && (!s.loaded ==> s.contents == [])
  }

  lemma ServedLegal(stored: Option<seq<byte>>, socFeature: bool)
    ensures LegalStore(Served(stored, socFeature), socFeature)
  {
    EmptyConforms(socFeature);
    LegalIsStorableAndConformant(Served(stored, socFeature), socFeature);
    if stored.Some? && Parse(stored.value).Some? {
      ParsedStorable(stored.value);
    }
  }

  /** What the store serves once loaded. */
  function Base(s: Snapshot, socFeature: bool): seq<Schedule> {
    if s.loaded then s.contents else Served(s.stored, socFeature)
  }

  lemma BaseLegal(s: Snapshot, socFeature: bool)
    requires Sane(s, socFeature)
    ensures LegalStore(Base(s, socFeature), socFeature)
  {
    ServedLegal(s.stored, socFeature);
  }

  /** Every apply leaves a legal store of at most seven schedules, whatever the rows, the reads and the writes do. */
  lemma ApplyKeepsStoreLegal(pre: Snapshot, rows: seq<Row>, clearDays: bv8, readIo: ReadIo, writeIo: WriteIo, socFeature: bool,
                             code: Code, post: Snapshot)
    requires Sane(pre, socFeature) && Applied(pre, rows, clearDays, readIo, writeIo, socFeature, code, post)
    ensures Sane(post, socFeature) && |post.contents| <= MAX_DAYS
  {
    hide Acceptable, Entries, Merged, Served, DayMask.DaySet, LegalSchedule;
    BaseLegal(pre, socFeature);
    StoreFits(post.contents) by {
      hide *;
      ApplyContents(pre, rows, clearDays, readIo, writeIo, socFeature, code, post);
      LegalDisjoint(post.contents, socFeature);
    }
    ApplyContents(pre, rows, clearDays, readIo, writeIo, socFeature, code, post);
  }

  lemma LegalDisjoint(s: seq<Schedule>, socFeature: bool)
    requires LegalStore(s, socFeature)
    ensures forall i :: 0 <= i < |s| ==> LegalDays(s[i].days)
    ensures forall i, j :: 0 <= i < j < |s| ==> s[i].days !! s[j].days
  {
    assert forall i :: 0 <= i < |s| ==> LegalSchedule(s[i], socFeature);
  }

  lemma ApplyContents(pre: Snapshot, rows: seq<Row>, clearDays: bv8, readIo: ReadIo, writeIo: WriteIo, socFeature: bool,
                      code: Code, post: Snapshot)
    requires Sane(pre, socFeature) && Applied(pre, rows, clearDays, readIo, writeIo, socFeature, code, post)
    ensures LegalStore(post.contents, socFeature) && (!post.loaded ==> post.contents == [])
  {
    hide Acceptable, Entries, Merged, Served, DayMask.DaySet, LegalSchedule;
    BaseLegal(pre, socFeature);
    if AcceptableRows(rows, socFeature) {
      MergeLegal(Base(pre, socFeature), Entries(rows), DayMask.DaySet(clearDays), socFeature);
    }
  }

  /** What an apply means, day by day; a refusal of the value changes nothing a controller can see. */
  lemma ApplyByDay(pre: Snapshot, rows: seq<Row>, clearDays: bv8, readIo: ReadIo, writeIo: WriteIo, socFeature: bool,
                   code: Code, post: Snapshot, d: nat)
    requires Applied(pre, rows, clearDays, readIo, writeIo, socFeature, code, post)
    ensures code == Value ==> post == pre.(loaded := true, contents := Base(pre, socFeature))
    ensures code == Value <==>
      !(rows == [] && clearDays == 0) && !(!pre.loaded && Unreadable(pre.stored, readIo)) && !AcceptableRows(rows, socFeature)
    ensures code == Ok && !(rows == [] && clearDays == 0) ==>
      && AcceptableRows(rows, socFeature)
      && DayTargets(post.contents, d)
         == if d in NamedDays(Entries(rows)) then On(Entries(rows), d)
            else if d in DayMask.DaySet(clearDays) then []
            else DayTargets(Base(pre, socFeature), d)
  {
    hide Entries, Merged, Served, DayMask.DaySet, NamedDays, On, LegalEntries, CompatibleEntries;
    if AcceptableRows(rows, socFeature) {
      MergeByDay(Base(pre, socFeature), Entries(rows), DayMask.DaySet(clearDays), d);
    }
  }

  /** A row set the codec validated and the store accepted: every day of row i holds that bitmap's targets in row order. */
  lemma ValidatedApplyByDay(pre: Snapshot, st: Staged, ep: nat, clearDays: bv8, readIo: ReadIo, writeIo: WriteIo, socFeature: bool,
                            code: Code, post: Snapshot, i: nat, d: nat)
    requires WellFormed(st) && i < |MatchingRows(st, ep)| && ValidSet(st, st.count)
    requires Applied(pre, MatchingRows(st, ep), clearDays, readIo, writeIo, socFeature, code, post) && code == Ok
    requires d in DaysOf(MatchingRows(st, ep)[i])
    ensures DayTargets(post.contents, d) == With(Entries(MatchingRows(st, ep)), DaysOf(MatchingRows(st, ep)[i]))
  {
    hide DaysOf, NamedDays, On, With, Merged, Served;
    var rows := MatchingRows(st, ep);
    var es := Entries(rows);
    ApplyByDay(pre, rows, clearDays, readIo, writeIo, socFeature, code, post, d);
    EntriesOfRows(rows);
    NamedDaysAreTheEntryDays(es);
    assert es[i].days <= NamedDays(es);
    CompatibleWithOne(es, i);
    OnIsWith(es, es[i].days, d);
  }

  /** An answer of OK is durable: a reboot serves exactly what the apply left. */
  lemma ApplyThenReboot(pre: Snapshot, rows: seq<Row>, clearDays: bv8, readIo: ReadIo, writeIo: WriteIo, socFeature: bool,
                        code: Code, post: Snapshot)
    requires Sane(pre, socFeature) && Applied(pre, rows, clearDays, readIo, writeIo, socFeature, code, post) && code == Ok
    ensures Served(post.stored, socFeature) == post.contents
    ensures post.stored.Some? && !Unreadable(post.stored, Readable)
  {
    ApplyContents(pre, rows, clearDays, readIo, writeIo, socFeature, code, post);
    hide Entries, Merged, DayMask.DaySet, AcceptableRows, Parse, Blob, Storable;
    LegalIsStorableAndConformant(post.contents, socFeature);
    BlobRoundTrip(post.contents, []);
    assert Blob(post.contents) + [] == Blob(post.contents);
  }

  /** A failed write keeps either the old entry or the new one, so a reboot serves one of the two. */
  lemma FailedWriteIsOldOrNew(pre: Snapshot, rows: seq<Row>, clearDays: bv8, readIo: ReadIo, writeIo: WriteIo, socFeature: bool,
                              code: Code, post: Snapshot)
    requires Sane(pre, socFeature) && Applied(pre, rows, clearDays, readIo, writeIo, socFeature, code, post) && code != Ok
    ensures post.stored == pre.stored || Served(post.stored, socFeature) == post.contents
  {
    ApplyContents(pre, rows, clearDays, readIo, writeIo, socFeature, code, post);
    hide Entries, Merged, DayMask.DaySet, AcceptableRows, Parse, Blob, Storable;
    LegalIsStorableAndConformant(post.contents, socFeature);
    if post.stored != pre.stored {
      BlobRoundTrip(post.contents, []);
      assert Blob(post.contents) + [] == Blob(post.contents);
    }
  }

  // ---- the controller's side ----

  /** A list a controller may send, as its validation leaves it, can always be staged. */
  lemma ListableIsStaged(list: seq<ListEntry>, socFeature: bool)
    requires Listable(ListOf(list), socFeature)
    ensures ListStatus(Flatten(ListOf(list))) == Success
  {
    hide Flatten, LegalTarget, SocOk;
    FlattenLegal(ListOf(list), socFeature);
    ListFits(ListOf(list), socFeature);
  }

  /**
   A controller's write of a validated list. It answers Busy exactly when the inbound stage could not be claimed,
   InvalidCommand exactly when the list did not decode, and otherwise Success or Failure; with the host's consent
   Failure means that the store could not be read or the result not be written, and nothing else. Once allowed and
   readable, every day the list names holds exactly its entry's targets (none, if the entry has none), and every
   other day is what it was.
   */
  lemma FabricWriteByDay(pre: Snapshot, claimed: bool, list: seq<ListEntry>, wellFormed: bool, allow: bool,
                         readIo: ReadIo, writeIo: WriteIo, socFeature: bool, status: Status, post: Snapshot, d: nat)
    requires FabricWrite(pre, claimed, list, wellFormed, allow, readIo, writeIo, socFeature, status, post)
    requires Listable(ListOf(list), socFeature)
    ensures (status == Busy <==> !claimed) && (status == InvalidCommand <==> claimed && !wellFormed)
    ensures status in {Busy, InvalidCommand, Success, Failure}
    ensures !(claimed && wellFormed && allow) ==> post == pre && status != Success
    ensures claimed && wellFormed && allow ==>
      var named := AllDays(ListOf(list));
      && (status == Success <==> named == {} || ((pre.loaded || !Unreadable(pre.stored, readIo)) && writeIo.Written?))
      && (named == {} ==> post == pre)
      && (named != {} && (pre.loaded || !Unreadable(pre.stored, readIo)) ==>
            DayTargets(post.contents, d) == if d in named then DayTargets(ListOf(list), d) else DayTargets(Base(pre, socFeature), d))
  {
    hide Entries, Merged, AcceptableRows, Flatten, DayMask.DaySet, AllDays, ListOf, Listable, Applied, ListStatus;
    var s := ListOf(list);
    ListableIsStaged(list, socFeature);
    if AllDays(s) == {} {
      DaysOfTargets(s, socFeature);
    } else if claimed && wellFormed && allow {
      var rows, bits, code :|
        && Dense(rows) && Entries(rows) == Flatten(s) && DayMask.DaySet(bits) == AllDays(s)
        && !(rows == [] && bits == 0)
        && Applied(pre, rows, bits, readIo, writeIo, socFeature, code, post)
        && status == if code == Ok then Success else Failure;
      ListMergeByDay(Base(pre, socFeature), s, d, socFeature);
      AcceptableApplied(pre, rows, bits, readIo, writeIo, socFeature, code, post);
    }
  }

  lemma AcceptableApplied(pre: Snapshot, rows: seq<Row>, clearDays: bv8, readIo: ReadIo, writeIo: WriteIo, socFeature: bool,
                          code: Code, post: Snapshot)
    requires Applied(pre, rows, clearDays, readIo, writeIo, socFeature, code, post)
    requires !(rows == [] && clearDays == 0) && Dense(rows) && Acceptable(Entries(rows), socFeature)
    ensures code == Ok <==> (pre.loaded || !Unreadable(pre.stored, readIo)) && writeIo.Written?
    ensures pre.loaded || !Unreadable(pre.stored, readIo) ==>
      post.contents == Merged(Base(pre, socFeature), Entries(rows), DayMask.DaySet(clearDays))
  {
    hide Entries, Merged, DayMask.DaySet, Acceptable, Served;
  }

  /** A list that names no day carries no target. */
  lemma DaysOfTargets(s: seq<Schedule>, socFeature: bool)
    requires Listable(s, socFeature) && AllDays(s) == {}
    ensures Flatten(s) == []
  {
    hide AllDays, LegalTarget, SocOk;
    if Flatten(s) != [] {
      FlattenFrom(s, 0);
      var i, j :| 0 <= i < |s| && 0 <= j < |s[i].targets| && Flatten(s)[0] == Entry(s[i].days, s[i].targets[j]);
      var d :| d in s[i].days;
      AllDaysAreTheDays(s, d);
    }
  }

  /**
   ClearTargets: Success empties the store for good, for this boot and the next. After a failed write a store that
   had been loaded reads as empty until the next boot, which serves the old entry or none; one that had not been
   loaded still does whatever its entry says.
   */
  lemma ClearTargetsEmpties(pre: Snapshot, writeIo: WriteIo, socFeature: bool, ok: bool, post: Snapshot)
    requires Cleared(pre, writeIo, ok, post)
    ensures ok ==> Base(post, socFeature) == [] && Served(post.stored, socFeature) == []
    ensures Base(post, socFeature) == [] <==> pre.loaded || Served(post.stored, socFeature) == []
    ensures Served(post.stored, socFeature) == if writeIo.Written? || writeIo.landed then [] else Served(pre.stored, socFeature)
  {
    EmptyConforms(socFeature);
    BlobRoundTrip([], []);
    assert Blob([]) + [] == Blob([]);
  }

  // ---- every run ----

  datatype Event =
    | HostApply(rows: seq<Row>, clearDays: bv8, code: Code)
    | ControllerWrite(claimed: bool, list: seq<ListEntry>, wellFormed: bool, allow: bool, status: Status)
    | ControllerClear(ok: bool)
    | FactoryReset(ok: bool)
    | Read
    | Reboot

  /** One event, with how the storage behaved during it. */
  ghost predicate Step(pre: Snapshot, e: Event, readIo: ReadIo, writeIo: WriteIo, socFeature: bool, post: Snapshot) {
    match e
    case HostApply(rows, clearDays, code) => Applied(pre, rows, clearDays, readIo, writeIo, socFeature, code, post)
    case ControllerWrite(claimed, list, wellFormed, allow, status) =>
      FabricWrite(pre, claimed, list, wellFormed, allow, readIo, writeIo, socFeature, status, post)
    case ControllerClear(ok) => Cleared(pre, writeIo, ok, post)
    case FactoryReset(ok) => Erased(pre, writeIo, ok, post)
    case Read => post == if pre.loaded || Unreadable(pre.stored, readIo) then pre
                         else Snapshot(Served(pre.stored, socFeature), true, pre.stored)
    case Reboot => post == Snapshot([], false, pre.stored)
  }

  datatype Moment = Moment(event: Event, readIo: ReadIo, writeIo: WriteIo, after: Snapshot)

  function StateBefore(start: Snapshot, run: seq<Moment>, k: nat): Snapshot
    requires k < |run|
  {
    if k == 0 then start else run[k - 1].after
  }

  ghost predicate Run(start: Snapshot, run: seq<Moment>, socFeature: bool) {
    forall k :: 0 <= k < |run| ==>
      Step(StateBefore(start, run, k), run[k].event, run[k].readIo, run[k].writeIo, socFeature, run[k].after)
  }

  lemma StepKeepsStoreLegal(pre: Snapshot, e: Event, readIo: ReadIo, writeIo: WriteIo, socFeature: bool, post: Snapshot)
    requires Sane(pre, socFeature) && Step(pre, e, readIo, writeIo, socFeature, post)
    ensures Sane(post, socFeature)
  {
    hide Applied, Served, ListStatus, LegalSchedule;
    match e
    case HostApply(rows, clearDays, code) => ApplyContents(pre, rows, clearDays, readIo, writeIo, socFeature, code, post);
    case ControllerWrite(_, _, _, _, _) =>
      if post != pre {
        var rows, bits, code :| Applied(pre, rows, bits, readIo, writeIo, socFeature, code, post);
        ApplyContents(pre, rows, bits, readIo, writeIo, socFeature, code, post);
      }
    case ControllerClear(_) =>
    case FactoryReset(_) =>
    case Read => ServedLegal(pre.stored, socFeature);
    case Reboot =>
  }

  /** From any persisted bytes, every state of every run is a legal store of at most seven schedules. */
  lemma {:induction false} EveryRunKeepsStoreLegal(stored: Option<seq<byte>>, run: seq<Moment>, socFeature: bool, k: nat)
    requires Run(Snapshot([], false, stored), run, socFeature) && k < |run|
    ensures Sane(run[k].after, socFeature) && |run[k].after.contents| <= MAX_DAYS
  {
    hide Step, LegalSchedule;
    var start := Snapshot([], false, stored);
    if k > 0 {
      EveryRunKeepsStoreLegal(stored, run, socFeature, k - 1);
    }
    assert Step(StateBefore(start, run, k), run[k].event, run[k].readIo, run[k].writeIo, socFeature, run[k].after);
    StepKeepsStoreLegal(StateBefore(start, run, k), run[k].event, run[k].readIo, run[k].writeIo, socFeature, run[k].after);
    LegalDisjoint(run[k].after.contents, socFeature);
    StoreFits(run[k].after.contents);
  }

  // ---- read-back ----

  /** Row i of a read-back. */
  function ReadRows(es: seq<Entry>): (rows: seq<Row>)
    ensures |rows| == |es| && forall i :: 0 <= i < |es| ==> rows[i] == ReadRow(es[i])
  {
    if es == [] then [] else ReadRows(es[..|es| - 1]) + [ReadRow(es[|es| - 1])]
  }

  /** Staging rows[0..n] at their own indices. */
  function StageRows(st: Staged, ep: nat, rows: seq<Row>, n: nat): (r: Staged)
    requires |st.rows| == MAX_ROWS && n <= |rows|
    ensures |r.rows| == MAX_ROWS
  {
    if n == 0 then st else StageRow(StageRows(st, ep, rows, n - 1), ep, KIND_EVSE_TARGET, n - 1, rows[n - 1])
  }

  /** Rows a set already holds for this endpoint and kind. */
  function StandingCount(st: Staged, ep: nat): nat {
    if st.active && st.ep == ep && st.kind == KIND_EVSE_TARGET then st.count else 0
  }

  lemma {:induction false} StageRowsHolds(st: Staged, ep: nat, rows: seq<Row>, n: nat)
    requires WellFormed(st) && Dense(rows) && 0 < n <= |rows| <= MAX_ROWS && forall i :: 0 <= i < |rows| ==> rows[i].nfields == 4
    ensures var r := StageRows(st, ep, rows, n);
            && WellFormed(r) && r.active && r.ep == ep && r.kind == KIND_EVSE_TARGET
            && r.count == (if StandingCount(st, ep) > n then StandingCount(st, ep) else n)
            && forall i :: 0 <= i < n ==> r.rows[i] == rows[i]
  {
    hide TargetRow;
    var before := StageRows(st, ep, rows, n - 1);
    if n > 1 {
      StageRowsHolds(st, ep, rows, n - 1);
    }
    StageRowWellFormed(before, ep, KIND_EVSE_TARGET, n - 1, rows[n - 1]);
    assert Row(rows[n - 1].fields, 4) == rows[n - 1];
  }

  lemma ReadRowsAreTheirEntries(es: seq<Entry>)
    requires LegalEntries(es)
    ensures Dense(ReadRows(es)) && Entries(ReadRows(es)) == es
  {
    hide DaysOf, TargetRow, LegalDays, LegalTarget, ReadRow;
    forall i | 0 <= i < |es| ensures TargetRow(ReadRows(es)[i]) && DaysOf(ReadRows(es)[i]) == es[i].days && ToTarget(ReadRows(es)[i]) == es[i].target {
      ReadRowIsItsEntry(es[i]);
    }
  }

  /**
   Read-back is a fixed point: staging every row read back at its own index passes validation exactly if the set
   held no further row for this endpoint before, and applying it then changes no day.
   */
  lemma ReadBackApplies(pre: Snapshot, st: Staged, ep: nat, readIo: ReadIo, writeIo: WriteIo, socFeature: bool, code: Code,
                        post: Snapshot, d: nat)
    requires LegalStore(pre.contents, socFeature) && pre.loaded && WellFormed(st) && |Flatten(pre.contents)| > 0
    ensures |Flatten(pre.contents)| <= MAX_ROWS
    ensures var total := |Flatten(pre.contents)|;
            var staged := StageRows(st, ep, ReadRows(Flatten(pre.contents)), total);
            && WellFormed(staged) && (ValidSet(staged, total) <==> StandingCount(st, ep) <= total)
            && (ValidSet(staged, total) && Applied(pre, MatchingRows(staged, ep), 0, readIo, writeIo, socFeature, code, post) ==>
                  code == SaveCode(writeIo) && DayTargets(post.contents, d) == DayTargets(pre.contents, d))
  {
    hide Flatten, Merged, Entries, ReadRows, StageRows, LegalSchedule, TargetRow, DaysOf;
    var s, es := pre.contents, Flatten(pre.contents);
    var rows := ReadRows(es);
    LegalDisjoint(s, socFeature);
    StoreFits(s);
    StoreListable(s, socFeature);
    FlattenLength(s);
    FlattenLegal(s, socFeature);
    ReadRowsAreTheirEntries(es);
    EntriesOfRows(rows);
    StageRowsHolds(st, ep, rows, |rows|);
    var r := StageRows(st, ep, rows, |rows|);
    if StandingCount(st, ep) <= |rows| {
      assert r.rows[..r.count] == rows;
      ReadBackFixedPoint(s, d, socFeature);
      DayMask.NoDays();
    }
  }

  // ---- from the host's command lines to the days of the store ----

  /** The target a line names: minute, charge level, energy. */
  function LineTarget(f: seq<AtCommand.Token>): Target
    requires RowHistory.RowLine(f)
  {
    Target(f[4].v, if f[5].Blank? then None else Some(f[5].v), if f[6].Blank? then None else Some(f[6].v))
  }

  /** Of the lines last accepted at the first n indices, the targets of those that name day d, in index order. */
  ghost function LineTargets(h: seq<seq<AtCommand.Token>>, n: nat, d: nat): seq<Target> {
    if n == 0 then []
    else
      var line := RowHistory.Latest(h, n - 1);
      LineTargets(h, n - 1, d)
      + if line.Some? && RowHistory.RowLine(line.value) && d in RowHistory.LineDays(line.value) then [LineTarget(line.value)] else []
  }

  /** Row i is line i. */
  ghost predicate RowsAreLines(rows: seq<Row>, h: seq<seq<AtCommand.Token>>) {
    forall i: nat :: i < |rows| ==>
      RowHistory.Latest(h, i).Some? && RowHistory.RowLine(RowHistory.Latest(h, i).value) && RowHistory.Carries(rows[i], RowHistory.Latest(h, i).value)
  }

  lemma RowIsLine(r: Row, f: seq<AtCommand.Token>)
    requires RowHistory.RowLine(f) && RowHistory.Carries(r, f)
    ensures TargetRow(r) && DaysOf(r) == RowHistory.LineDays(f) && ToTarget(r) == LineTarget(f)
  {
  }

  lemma RowsAreDense(rows: seq<Row>, h: seq<seq<AtCommand.Token>>)
    requires RowsAreLines(rows, h)
    ensures Dense(rows)
  {
    hide TargetRow, RowHistory.RowLine, RowHistory.Carries;
    forall i: nat | i < |rows| ensures TargetRow(rows[i]) {
      RowIsLine(rows[i], RowHistory.Latest(h, i).value);
    }
  }

  lemma {:induction false} OnIsLineTargets(rows: seq<Row>, h: seq<seq<AtCommand.Token>>, n: nat, d: nat)
    requires RowsAreLines(rows, h) && Dense(rows) && n <= |rows|
    ensures On(Entries(rows)[..n], d) == LineTargets(h, n, d)
  {
    hide RowHistory.RowLine, RowHistory.Carries, RowHistory.Latest, RowHistory.LineDays, TargetRow, DaysOf, ToTarget, LineTarget, Entries;
    if n > 0 {
      OnIsLineTargets(rows, h, n - 1, d);
      var es := Entries(rows);
      assert es[..n][..n - 1] == es[..n - 1] && es[..n][n - 1] == es[n - 1];
      RowIsLine(rows[n - 1], RowHistory.Latest(h, n - 1).value);
    }
  }

  lemma NamedHasTargets(es: seq<Entry>, d: nat)
    ensures d in NamedDays(es) <==> On(es, d) != []
  {
    if es != [] {
      NamedHasTargets(es[..|es| - 1], d);
    }
  }

  /**
   From command lines to days. After any run of row commands, an AT+MTROWAPPLY of a non-zero count that reaches the store
   and is answered OK leaves on every day, in index order, the targets of the lines last accepted at each index that
   name the day, each with the minute, charge level and energy of its line; a day no line names keeps what it had.
   */
  lemma HostApplyByDay(run: seq<RowCommands.Command>, f: seq<AtCommand.Token>, bridge: Code, pre: Snapshot,
                       readIo: ReadIo, writeIo: WriteIo, socFeature: bool, post: Snapshot, d: nat)
    requires RowHistory.ApplyLine(f) && f[2] != AtCommand.Num(0) && RowHistory.Appliable(RowHistory.History(run), f)
    requires var call := RowCommands.After(RowCommands.SessionAfter(run), RowCommands.MtRowApply(f, bridge)).call;
             call.Some? ==> Applied(pre, RowCommands.CarriedRows(call.value), 0, readIo, writeIo, socFeature, bridge, post)
    requires bridge == Ok
    ensures var targets := LineTargets(RowHistory.History(run), f[2].v, d);
            DayTargets(post.contents, d) == if targets != [] then targets else DayTargets(Base(pre, socFeature), d)
  {
    hide Applied, TargetRow, Entries, On, NamedDays, RowCommands.SessionAfter, RowHistory.Appliable, LineTargets, DayMask.DaySet;
    RowHistory.ApplyReachesBridge(run, f, bridge);
    var rows := RowCommands.CarriedRows(RowCommands.After(RowCommands.SessionAfter(run), RowCommands.MtRowApply(f, bridge)).call.value);
    var h := RowHistory.History(run);
    assert RowsAreLines(rows, h);
    RowsAreDense(rows, h);
    ApplyByDay(pre, rows, 0, readIo, writeIo, socFeature, bridge, post, d);
    OnIsLineTargets(rows, h, |rows|, d);
    assert Entries(rows)[..|rows|] == Entries(rows);
    NamedHasTargets(Entries(rows), d);
    DayMask.NoDays();
  }

  /** The rule of the charge level: always given where the device has the feature, otherwise absent or one hundred. */
  predicate ChargeLevelOk(r: Row, socFeature: bool)
    requires |r.fields| == 8
  {
    if socFeature then r.fields[2].Some? else r.fields[2] == None || r.fields[2] == Some(100)
  }

  /** A non-zero apply that reached a readable store is refused for the charge level or for more than ten rows of one bitmap, and for nothing else. */
  lemma HostApplyRefusal(st: Staged, ep: nat, pre: Snapshot, readIo: ReadIo, writeIo: WriteIo, socFeature: bool, code: Code, post: Snapshot)
    requires WellFormed(st) && st.count > 0 && st.active && st.ep == ep && ValidSet(st, st.count)
    requires Applied(pre, MatchingRows(st, ep), 0, readIo, writeIo, socFeature, code, post)
    requires pre.loaded || !Unreadable(pre.stored, readIo)
    ensures var rows := MatchingRows(st, ep);
            && Dense(rows)
            && (code == Value <==>
                  !((forall i :: 0 <= i < |rows| ==> ChargeLevelOk(rows[i], socFeature))
                    && (forall i :: 0 <= i < |rows| ==> |With(Entries(rows), DaysOf(rows[i]))| <= 10)))
            && (code != Value ==> code == SaveCode(writeIo))
  {
    hide DaysOf, With, Merged, Served, PairwiseCompatible, Acceptable;
    ValidatedSetMayMissTwoRules(st, st.count, socFeature);
    var rows := MatchingRows(st, ep);
    forall i | 0 <= i < |rows| ensures SocOk(ToTarget(rows[i]), socFeature) <==> ChargeLevelOk(rows[i], socFeature) {
    }
    hide SocOk, ChargeLevelOk, TargetRow;
    ApplyByDay(pre, rows, 0, readIo, writeIo, socFeature, code, post, 0);
  }

  /** A count of zero empties the store whatever is staged, whatever the load and the write do. */
  lemma HostClearEmpties(s: Option<Staged>, ep: nat, bridge: Code, pre: Snapshot,
                         readIo: ReadIo, writeIo: WriteIo, socFeature: bool, post: Snapshot, d: nat)
    requires RowCommands.SessionOk(s) && ep <= 0xFFFF
    requires var o := RowCommands.ApplyOutcome(s, [AtCommand.Num(ep), AtCommand.Num(KIND_EVSE_TARGET), AtCommand.Num(0)], bridge);
             o.call.Some? ==> Applied(pre, RowCommands.CarriedRows(o.call.value), 0, readIo, writeIo, socFeature, bridge, post)
    ensures DayTargets(post.contents, d) == [] && post.loaded
    ensures bridge == Ok ==> Served(post.stored, socFeature) == []
  {
    EmptyConforms(socFeature);
    if bridge == Ok {
      BlobRoundTrip([], []);
      assert Blob([]) + [] == Blob([]);
    }
  }
}
