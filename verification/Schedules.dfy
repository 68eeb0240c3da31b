/**
 Charging schedules as values, and what merging a set of rows into them means
 (the merge rule of platform/esp32c6/main/mt_evse.cpp). Days named by the rows are
 replaced entirely, days only in clearDays are emptied, every other day is kept.
 */
module Schedules {
  import opened Prelude
  import opened Rows
  import DayMask

  const MAX_DAYS: nat := 7
  const MAX_PER_DAY: nat := 10

  datatype Target = Target(time: int, soc: Option<int>, energy: Option<int>)
  datatype Schedule = Schedule(days: set<nat>, targets: seq<Target>)

  /** A row as the store sees it: the days its bitmap names, and one target. */
  datatype Entry = Entry(days: set<nat>, target: Target)

  predicate LegalTarget(t: Target) {
    && 0 <= t.time <= 1439
    && (t.soc.Some? ==> 0 <= t.soc.value <= 100)
    && (t.energy.Some? ==> 0 <= t.energy.value <= INT64_MAX)
    && (t.soc.Some? || t.energy.Some?)
  }

  /** The SOC-variant rule: mandatory with the feature, absent or exactly 100 without it. */
  predicate SocOk(t: Target, socFeature: bool) {
    if socFeature then t.soc.Some? else t.soc.Some? ==> t.soc.value == 100
  }

  predicate LegalDays(days: set<nat>) {
    days != {} && days <= DayMask.WEEK
  }

  predicate LegalSchedule(s: Schedule, socFeature: bool) {
    && LegalDays(s.days) && |s.targets| <= MAX_PER_DAY
    && forall j :: 0 <= j < |s.targets| ==> LegalTarget(s.targets[j]) && SocOk(s.targets[j], socFeature)
  }

  predicate LegalStore(s: seq<Schedule>, socFeature: bool) {
    && (forall i :: 0 <= i < |s| ==> LegalSchedule(s[i], socFeature))
    && (forall i, j :: 0 <= i < j < |s| ==> s[i].days !! s[j].days)
  }

  // ---- the pigeonhole ----

  function AllDays(s: seq<Schedule>): set<nat> {
    if s == [] then {} else AllDays(s[..|s| - 1]) + s[|s| - 1].days
  }

  lemma {:induction false} AllDaysDisjoint(s: seq<Schedule>, days: set<nat>)
    requires forall i :: 0 <= i < |s| ==> s[i].days !! days
    ensures AllDays(s) !! days
  {
    if s != [] {
      AllDaysDisjoint(s[..|s| - 1], days);
      assert s[|s| - 1].days !! days;
    }
  }

  lemma {:induction false} DisjointSchedulesFit(s: seq<Schedule>)
    requires forall i :: 0 <= i < |s| ==> LegalDays(s[i].days)
    requires forall i, j :: 0 <= i < j < |s| ==> s[i].days !! s[j].days
    ensures AllDays(s) <= DayMask.WEEK && |s| <= |AllDays(s)|
  {
    if s != [] {
      var init, last := s[..|s| - 1], s[|s| - 1].days;
      DisjointSchedulesFit(init);
      AllDaysDisjoint(init, last);
      assert |AllDays(init) + last| == |AllDays(init)| + |last|;
      var d :| d in last;
      assert |last - {d}| == |last| - 1;
    }
  }

  lemma SubsetSize(a: set<nat>, b: set<nat>)
    requires a <= b
    ensures |a| <= |b|
  {
    assert |b| == |a| + |b - a|;
  }

  /** Seven days bound pairwise disjoint schedules to seven. */
  lemma StoreFits(s: seq<Schedule>)
    requires forall i :: 0 <= i < |s| ==> LegalDays(s[i].days)
    requires forall i, j :: 0 <= i < j < |s| ==> s[i].days !! s[j].days
    ensures |s| <= MAX_DAYS
  {
    DisjointSchedulesFit(s);
    SubsetSize(AllDays(s), DayMask.WEEK);
  }

  // ---- what a controller sees ----

  /** The targets a controller finds on day d. */
  function DayTargets(s: seq<Schedule>, d: nat): seq<Target> {
    if s == [] then []
    else if d in s[|s| - 1].days then s[|s| - 1].targets
    else DayTargets(s[..|s| - 1], d)
  }

  predicate NamesDay(s: seq<Schedule>, d: nat) {
    exists i :: 0 <= i < |s| && d in s[i].days
  }

  lemma {:induction false} DayTargetsAppend(a: seq<Schedule>, b: seq<Schedule>, d: nat)
    ensures DayTargets(a + b, d) == if NamesDay(b, d) then DayTargets(b, d) else DayTargets(a, d)
  {
    if b == [] {
      assert a + b == a;
    } else {
      var init := b[..|b| - 1];
      assert (a + b)[..|a + b| - 1] == a + init;
      DayTargetsAppend(a, init, d);
      if i :| 0 <= i < |init| && d in init[i].days {
        assert d in b[i].days;
      }
    }
  }

  lemma {:induction false} DayTargetsAt(s: seq<Schedule>, i: nat, d: nat)
    requires forall i, j :: 0 <= i < j < |s| ==> s[i].days !! s[j].days
    requires i < |s| && d in s[i].days
    ensures DayTargets(s, d) == s[i].targets
  {
    if i < |s| - 1 {
      assert s[i].days !! s[|s| - 1].days;
      DayTargetsAt(s[..|s| - 1], i, d);
    }
  }

  lemma {:induction false} UnnamedDayEmpty(s: seq<Schedule>, d: nat)
    requires !NamesDay(s, d)
    ensures DayTargets(s, d) == []
  {
    if s != [] {
      var init := s[..|s| - 1];
      assert d !in s[|s| - 1].days;
      forall i | 0 <= i < |init| ensures d !in init[i].days { assert d !in s[i].days; }
      UnnamedDayEmpty(init, d);
    }
  }

  // ---- dropping days ----

  function Subtract(s: seq<Schedule>, days: set<nat>): seq<Schedule> {
    if s == [] then []
    else
      var last := s[|s| - 1];
      Subtract(s[..|s| - 1], days) + if last.days - days == {} then [] else [Schedule(last.days - days, last.targets)]
  }

  lemma {:induction false} SubtractLegal(s: seq<Schedule>, days: set<nat>, socFeature: bool)
    requires LegalStore(s, socFeature)
    ensures LegalStore(Subtract(s, days), socFeature)
    ensures |Subtract(s, days)| <= |s|
    ensures forall k :: 0 <= k < |Subtract(s, days)| ==> Subtract(s, days)[k].days !! days
    ensures forall k :: 0 <= k < |Subtract(s, days)| ==> exists i :: 0 <= i < |s| && Subtract(s, days)[k].days <= s[i].days
  {
    if s != [] {
      var init, last := s[..|s| - 1], s[|s| - 1];
      SubtractLegal(init, days, socFeature);
      forall k | 0 <= k < |Subtract(init, days)|
        ensures Subtract(init, days)[k].days !! last.days
        ensures exists i :: 0 <= i < |s| && Subtract(init, days)[k].days <= s[i].days
      {
        var i :| 0 <= i < |init| && Subtract(init, days)[k].days <= init[i].days;
        assert s[i].days !! s[|s| - 1].days && s[i] == init[i];
      }
      if last.days - days != {} {
        assert s[|s| - 1].days >= last.days - days;
      }
    }
  }

  lemma {:induction false} SubtractDay(s: seq<Schedule>, days: set<nat>, d: nat)
    ensures DayTargets(Subtract(s, days), d) == if d in days then [] else DayTargets(s, d)
  {
    if s != [] {
      var init, last := s[..|s| - 1], s[|s| - 1];
      SubtractDay(init, days, d);
      var t := Subtract(s, days);
      if last.days - days == {} {
        assert t == Subtract(init, days);
        assert d in last.days ==> d in last.days - days || d in days;
      } else {
        assert t[..|t| - 1] == Subtract(init, days);
      }
    }
  }

  // ---- grouping rows ----

  function ToTarget(r: Row): Target
    requires TargetRow(r)
  {
    Target(r.fields[1].value, r.fields[2], r.fields[3])
  }

  function Entries(rows: seq<Row>): (e: seq<Entry>)
    requires Dense(rows)
    ensures |e| == |rows| && forall i :: 0 <= i < |rows| ==> e[i] == Entry(DaysOf(rows[i]), ToTarget(rows[i]))
  {
    if rows == [] then []
    else Entries(rows[..|rows| - 1]) + [Entry(DaysOf(rows[|rows| - 1]), ToTarget(rows[|rows| - 1]))]
  }

  predicate LegalEntries(es: seq<Entry>) {
    forall i :: 0 <= i < |es| ==> LegalDays(es[i].days) && LegalTarget(es[i].target)
  }

  predicate CompatibleEntries(es: seq<Entry>) {
    forall i, j :: 0 <= i < j < |es| ==> Compatible(es[i].days, es[j].days)
  }

  lemma EntriesOfRows(rows: seq<Row>)
    requires Dense(rows)
    ensures LegalEntries(Entries(rows))
    ensures CompatibleEntries(Entries(rows)) <==> PairwiseCompatible(rows)
  {
    hide DaysOf;
    var es := Entries(rows);
    forall i | 0 <= i < |rows| ensures LegalDays(es[i].days) && LegalTarget(es[i].target) {
      DaysOfRow(rows[i]);
    }
    if CompatibleEntries(es) {
      forall i, j | 0 <= i < j < |rows| ensures Compatible(DaysOf(rows[i]), DaysOf(rows[j])) {
        assert Compatible(es[i].days, es[j].days);
      }
    }
  }

  /** The row a read-back answers for an entry. */
  function ReadRow(e: Entry): Row {
    Row([Some(DayMask.BitsOf(e.days) as int), Some(e.target.time), e.target.soc, e.target.energy, None, None, None, None], 4)
  }

  /** The row read back for an entry stages as that entry. */
  lemma ReadRowIsItsEntry(e: Entry)
    requires LegalDays(e.days) && LegalTarget(e.target)
    ensures TargetRow(ReadRow(e)) && DaysOf(ReadRow(e)) == e.days && ToTarget(ReadRow(e)) == e.target
  {
    var m := DayMask.BitsOf(e.days);
    DayMask.BitsOfDays(e.days);
    OctetInverse(m);
    DayMask.OctetLegal(m as int);
  }

  /** The targets of the entries that carry exactly these days, in row order. */
  function With(es: seq<Entry>, days: set<nat>): seq<Target> {
    if es == [] then []
    else
      var last := es[|es| - 1];
      With(es[..|es| - 1], days) + if last.days == days then [last.target] else []
  }

  /** The targets of the entries that name day d, in row order. */
  function On(es: seq<Entry>, d: nat): seq<Target> {
    if es == [] then []
    else
      var last := es[|es| - 1];
      On(es[..|es| - 1], d) + if d in last.days then [last.target] else []
  }

  function NamedDays(es: seq<Entry>): set<nat> {
    if es == [] then {} else NamedDays(es[..|es| - 1]) + es[|es| - 1].days
  }

  /** The distinct day groups of the entries, in order of first appearance. */
  function Groups(es: seq<Entry>): seq<set<nat>> {
    if es == [] then []
    else
      var before := Groups(es[..|es| - 1]);
      if es[|es| - 1].days in before then before else before + [es[|es| - 1].days]
  }

  function Fill(gs: seq<set<nat>>, es: seq<Entry>): (g: seq<Schedule>)
    ensures |g| == |gs|
    ensures forall k :: 0 <= k < |gs| ==> g[k] == Schedule(gs[k], With(es, gs[k]))
  {
    if gs == [] then [] else Fill(gs[..|gs| - 1], es) + [Schedule(gs[|gs| - 1], With(es, gs[|gs| - 1]))]
  }

  /** What the store accepts: day groups pairwise equal or disjoint, the SOC rule, ten targets to a group. */
  predicate Acceptable(es: seq<Entry>, socFeature: bool) {
    && LegalEntries(es)
    && CompatibleEntries(es)
    && (forall i :: 0 <= i < |es| ==> SocOk(es[i].target, socFeature))
    && (forall i :: 0 <= i < |es| ==> |With(es, es[i].days)| <= MAX_PER_DAY)
  }

  function Merged(s: seq<Schedule>, es: seq<Entry>, clearDays: set<nat>): seq<Schedule> {
    Subtract(s, NamedDays(es) + clearDays) + Fill(Groups(es), es)
  }

  /** An entry that carries the days of group k. */
  lemma {:induction false} GroupEntry(es: seq<Entry>, k: nat) returns (i: nat)
    requires k < |Groups(es)|
    ensures i < |es| && es[i].days == Groups(es)[k]
  {
    var last := |es| - 1;
    if k < |Groups(es[..last])| {
      i := GroupEntry(es[..last], k);
    } else {
      i := last;
    }
  }

  /** The group of entry i. */
  lemma {:induction false} EntryGroup(es: seq<Entry>, i: nat) returns (k: nat)
    requires i < |es|
    ensures k < |Groups(es)| && Groups(es)[k] == es[i].days
  {
    var last := |es| - 1;
    if i < last {
      k := EntryGroup(es[..last], i);
    } else {
      k :| 0 <= k < |Groups(es)| && Groups(es)[k] == es[last].days;
    }
  }

  lemma {:induction false} GroupsDistinct(es: seq<Entry>)
    ensures forall j, k :: 0 <= j < k < |Groups(es)| ==> Groups(es)[j] != Groups(es)[k]
  {
    if es != [] {
      GroupsDistinct(es[..|es| - 1]);
    }
  }

  lemma GroupsDisjoint(es: seq<Entry>)
    requires LegalEntries(es) && CompatibleEntries(es)
    ensures forall j, k :: 0 <= j < k < |Groups(es)| ==> Groups(es)[j] !! Groups(es)[k]
    ensures forall k :: 0 <= k < |Groups(es)| ==> LegalDays(Groups(es)[k])
  {
    hide Groups;
    GroupsDistinct(es);
    forall j, k | 0 <= j < k < |Groups(es)| ensures Groups(es)[j] !! Groups(es)[k] {
      var p := GroupEntry(es, j);
      var q := GroupEntry(es, k);
      CompatibleWithOne(es, p);
      assert Compatible(es[p].days, es[q].days);
    }
    forall k | 0 <= k < |Groups(es)| ensures LegalDays(Groups(es)[k]) {
      var i := GroupEntry(es, k);
    }
  }

  lemma {:induction false} NamedDaysAreTheEntryDays(es: seq<Entry>)
    ensures forall i :: 0 <= i < |es| ==> es[i].days <= NamedDays(es)
    ensures forall d :: d in NamedDays(es) ==> exists i :: 0 <= i < |es| && d in es[i].days
  {
    if es != [] {
      var init := es[..|es| - 1];
      NamedDaysAreTheEntryDays(init);
      forall i | 0 <= i < |es| ensures es[i].days <= NamedDays(es) {
        if i < |init| { assert init[i].days <= NamedDays(init); }
      }
      forall d | d in NamedDays(es) ensures exists i :: 0 <= i < |es| && d in es[i].days {
        if d in es[|es| - 1].days {
        } else {
          var i :| 0 <= i < |init| && d in init[i].days;
          assert d in es[i].days;
        }
      }
    }
  }

  lemma {:induction false} OnIsWith(es: seq<Entry>, days: set<nat>, d: nat)
    requires d in days && forall i :: 0 <= i < |es| ==> Compatible(days, es[i].days)
    ensures On(es, d) == With(es, days)
  {
    if es != [] {
      OnIsWith(es[..|es| - 1], days, d);
      assert Compatible(days, es[|es| - 1].days);
    }
  }

  lemma {:induction false} WithLegal(es: seq<Entry>, days: set<nat>, socFeature: bool)
    requires LegalEntries(es) && forall i :: 0 <= i < |es| ==> SocOk(es[i].target, socFeature)
    ensures forall j :: 0 <= j < |With(es, days)| ==> LegalTarget(With(es, days)[j]) && SocOk(With(es, days)[j], socFeature)
  {
    if es != [] {
      WithLegal(es[..|es| - 1], days, socFeature);
    }
  }

  // ---- the merge ----

  lemma FillLegal(es: seq<Entry>, socFeature: bool)
    requires Acceptable(es, socFeature)
    ensures LegalStore(Fill(Groups(es), es), socFeature)
    ensures forall k :: 0 <= k < |Groups(es)| ==> Groups(es)[k] <= NamedDays(es)
  {
    GroupsDisjoint(es);
    NamedDaysAreTheEntryDays(es);
    forall k | 0 <= k < |Groups(es)|
      ensures LegalSchedule(Fill(Groups(es), es)[k], socFeature) && Groups(es)[k] <= NamedDays(es)
    {
      WithLegal(es, Groups(es)[k], socFeature);
      var i := GroupEntry(es, k);
    }
  }

  /** An acceptable set merges into a legal store of at most seven schedules, so the fit check cannot reject. */
  lemma MergeLegal(s: seq<Schedule>, es: seq<Entry>, clearDays: set<nat>, socFeature: bool)
    requires LegalStore(s, socFeature) && Acceptable(es, socFeature)
    ensures LegalStore(Merged(s, es, clearDays), socFeature)
    ensures |Subtract(s, NamedDays(es) + clearDays)| + |Groups(es)| == |Merged(s, es, clearDays)| <= MAX_DAYS
  {
    hide Acceptable, Groups, NamedDays, LegalSchedule;
    var days := NamedDays(es) + clearDays;
    SubtractLegal(s, days, socFeature);
    FillLegal(es, socFeature);
    ConcatLegal(Subtract(s, days), Fill(Groups(es), es), days, socFeature);
  }

  lemma ConcatLegal(a: seq<Schedule>, b: seq<Schedule>, days: set<nat>, socFeature: bool)
    requires LegalStore(a, socFeature) && LegalStore(b, socFeature)
    requires forall i :: 0 <= i < |a| ==> a[i].days !! days
    requires forall k :: 0 <= k < |b| ==> b[k].days <= days
    ensures LegalStore(a + b, socFeature) && |a + b| <= MAX_DAYS
  {
    forall i, k | 0 <= i < |a| && 0 <= k < |b| ensures a[i].days !! b[k].days {
      assert a[i].days !! days && b[k].days <= days;
    }
    StoreFits(a + b);
  }

  lemma FillByDay(es: seq<Entry>, d: nat)
    requires LegalEntries(es) && CompatibleEntries(es)
    ensures NamesDay(Fill(Groups(es), es), d) <==> d in NamedDays(es)
    ensures d in NamedDays(es) ==> DayTargets(Fill(Groups(es), es), d) == On(es, d)
  {
    hide Groups, NamedDays, With, On;
    var gs := Groups(es);
    NamedDaysAreTheEntryDays(es);
    if k :| 0 <= k < |gs| && d in Fill(gs, es)[k].days {
      var i := GroupEntry(es, k);
    }
    if d in NamedDays(es) {
      var i :| 0 <= i < |es| && d in es[i].days;
      var k := EntryGroup(es, i);
      assert d in Fill(gs, es)[k].days;
      GroupsDisjoint(es);
      DayTargetsAt(Fill(gs, es), k, d);
      CompatibleWithOne(es, i);
      OnIsWith(es, es[i].days, d);
    }
  }

  lemma CompatibleWithOne(es: seq<Entry>, i: nat)
    requires CompatibleEntries(es) && i < |es|
    ensures forall j :: 0 <= j < |es| ==> Compatible(es[i].days, es[j].days)
  {
    forall j | 0 <= j < |es| ensures Compatible(es[i].days, es[j].days) {
      if i < j {
        assert Compatible(es[i].days, es[j].days);
      } else if j < i {
        assert Compatible(es[j].days, es[i].days);
      }
    }
  }

  /** The merge rule, day by day. */
  lemma MergeByDay(s: seq<Schedule>, es: seq<Entry>, clearDays: set<nat>, d: nat)
    requires LegalEntries(es) && CompatibleEntries(es)
    ensures DayTargets(Merged(s, es, clearDays), d)
         == if d in NamedDays(es) then On(es, d)
            else if d in clearDays then []
            else DayTargets(s, d)
  {
    hide Groups, NamedDays, On, Fill;
    var days := NamedDays(es) + clearDays;
    DayTargetsAppend(Subtract(s, days), Fill(Groups(es), es), d);
    SubtractDay(s, days, d);
    FillByDay(es, d);
  }

  /** A set the row codec has validated can only miss the SOC rule or the ten-per-bitmap rule. */
  lemma ValidatedSetMayMissTwoRules(st: Staged, count: nat, socFeature: bool)
    requires WellFormed(st) && count > 0 && ValidSet(st, count)
    ensures Acceptable(Entries(st.rows[..count]), socFeature) <==>
      && (forall i :: 0 <= i < count ==> SocOk(ToTarget(st.rows[..count][i]), socFeature))
      && (forall i :: 0 <= i < count ==> |With(Entries(st.rows[..count]), DaysOf(st.rows[..count][i]))| <= MAX_PER_DAY)
  {
    hide DaysOf, Entries, With, SocOk, ToTarget, Acceptable, TargetRow, PairwiseCompatible;
    var rows := st.rows[..count];
    EntriesOfRows(rows);
    AcceptableApart(Entries(rows), socFeature);
  }

  /** Legal compatible entries are acceptable but for the SOC rule and the ten-per-bitmap rule. */
  lemma AcceptableApart(es: seq<Entry>, socFeature: bool)
    requires LegalEntries(es) && CompatibleEntries(es)
    ensures Acceptable(es, socFeature) <==>
      && (forall i :: 0 <= i < |es| ==> SocOk(es[i].target, socFeature))
      && (forall i :: 0 <= i < |es| ==> |With(es, es[i].days)| <= MAX_PER_DAY)
  {
    hide LegalEntries, CompatibleEntries, SocOk, With;
  }

  // ---- one row at a time ----

  lemma {:induction false} AcceptablePrefix(es: seq<Entry>, n: nat, socFeature: bool)
    requires Acceptable(es, socFeature) && n <= |es|
    ensures Acceptable(es[..n], socFeature)
    decreases |es|
  {
    if n < |es| {
      var init := es[..|es| - 1];
      forall i | 0 <= i < |init| ensures |With(init, init[i].days)| <= MAX_PER_DAY {
        assert |With(es, es[i].days)| <= MAX_PER_DAY;
      }
      AcceptablePrefix(init, n, socFeature);
      assert init[..n] == es[..n];
    } else {
      assert es[..n] == es;
    }
  }

  /** What makes one more entry acceptable, in the terms the store checks. */
  lemma AddEntry(es: seq<Entry>, e: Entry, socFeature: bool)
    requires Acceptable(es, socFeature) && LegalDays(e.days) && LegalTarget(e.target)
    ensures Acceptable(es + [e], socFeature) <==>
      SocOk(e.target, socFeature) && (e.days in Groups(es) || e.days !! NamedDays(es)) && |With(es, e.days)| < MAX_PER_DAY
  {
    hide Groups, NamedDays, SocOk, LegalDays, LegalTarget;
    var more := es + [e];
    assert more[..|es|] == es;
    AddedCompatible(es, e);
    forall i | 0 <= i < |es|
      ensures |With(more, more[i].days)| == |With(es, es[i].days)| + if es[i].days == e.days then 1 else 0
    {
    }
    assert |With(more, more[|es|].days)| == |With(es, e.days)| + 1;
  }

  lemma AddedCompatible(es: seq<Entry>, e: Entry)
    requires CompatibleEntries(es)
    ensures CompatibleEntries(es + [e]) <==> e.days in Groups(es) || e.days !! NamedDays(es)
  {
    hide Groups, NamedDays;
    var more := es + [e];
    NamedDaysAreTheEntryDays(es);
    if e.days in Groups(es) {
      var k :| 0 <= k < |Groups(es)| && Groups(es)[k] == e.days;
      var i := GroupEntry(es, k);
      CompatibleWithOne(es, i);
    } else if CompatibleEntries(more) {
      forall i | 0 <= i < |es| ensures es[i].days !! e.days {
        assert Compatible(more[i].days, more[|es|].days);
        var k := EntryGroup(es, i);
      }
    } else if e.days !! NamedDays(es) {
      forall i | 0 <= i < |es| ensures Compatible(es[i].days, e.days) {
        assert es[i].days <= NamedDays(es);
      }
    }
  }

  /** Seven groups leave no day for an eighth. */
  lemma NoEighthGroup(es: seq<Entry>, days: set<nat>)
    requires LegalEntries(es) && CompatibleEntries(es) && |Groups(es)| >= MAX_DAYS && LegalDays(days)
    ensures !(days !! NamedDays(es))
  {
    hide Groups, NamedDays, With;
    if days !! NamedDays(es) {
      var g := Fill(Groups(es), es);
      GroupsDisjoint(es);
      NamedDaysAreTheEntryDays(es);
      var s := g + [Schedule(days, [])];
      forall k | 0 <= k < |g| ensures g[k].days !! days {
        var i := GroupEntry(es, k);
        assert es[i].days <= NamedDays(es);
      }
      StoreFits(s);
    }
  }

  lemma GroupsStep(es: seq<Entry>, e: Entry)
    ensures Groups(es + [e]) == if e.days in Groups(es) then Groups(es) else Groups(es) + [e.days]
    ensures NamedDays(es + [e]) == NamedDays(es) + e.days
    ensures forall days :: With(es + [e], days) == With(es, days) + if e.days == days then [e.target] else []
  {
    assert (es + [e])[..|es|] == es;
  }

  lemma {:induction false} WithNothing(es: seq<Entry>, days: set<nat>)
    requires days !in Groups(es)
    ensures With(es, days) == []
  {
    if es != [] {
      WithNothing(es[..|es| - 1], days);
    }
  }

  lemma {:induction false} FillStep(gs: seq<set<nat>>, es: seq<Entry>, e: Entry, g: nat)
    requires g < |gs| && gs[g] == e.days && forall j, k :: 0 <= j < k < |gs| ==> gs[j] != gs[k]
    ensures Fill(gs, es + [e]) == Fill(gs, es)[g := Schedule(gs[g], With(es, gs[g]) + [e.target])]
  {
    GroupsStep(es, e);
    var a, b := Fill(gs, es + [e]), Fill(gs, es)[g := Schedule(gs[g], With(es, gs[g]) + [e.target])];
    forall k | 0 <= k < |gs| ensures a[k] == b[k] {
      if k < g { assert gs[k] != gs[g]; } else if g < k { assert gs[g] != gs[k]; }
    }
  }

  lemma {:induction false} WithPrefixShorter(es: seq<Entry>, n: nat, days: set<nat>)
    requires n <= |es|
    ensures |With(es[..n], days)| <= |With(es, days)|
    decreases |es|
  {
    if n < |es| {
      WithPrefixShorter(es[..|es| - 1], n, days);
      assert es[..|es| - 1][..n] == es[..n];
    } else {
      assert es[..n] == es;
    }
  }

  // ---- reading back ----

  function ScheduleEntries(days: set<nat>, ts: seq<Target>): (es: seq<Entry>)
    ensures |es| == |ts| && forall j :: 0 <= j < |ts| ==> es[j] == Entry(days, ts[j])
  {
    if ts == [] then [] else ScheduleEntries(days, ts[..|ts| - 1]) + [Entry(days, ts[|ts| - 1])]
  }

  /** The flattened (schedule, target) sequence a host reads. */
  function Flatten(s: seq<Schedule>): seq<Entry> {
    if s == [] then [] else Flatten(s[..|s| - 1]) + ScheduleEntries(s[|s| - 1].days, s[|s| - 1].targets)
  }

  /** Every flattened entry carries the days of one schedule and one of its targets. */
  lemma {:induction false} FlattenFrom(s: seq<Schedule>, n: nat)
    requires n < |Flatten(s)|
    ensures exists i, j :: 0 <= i < |s| && 0 <= j < |s[i].targets| && Flatten(s)[n] == Entry(s[i].days, s[i].targets[j])
  {
    var init, last := s[..|s| - 1], s[|s| - 1];
    if n < |Flatten(init)| {
      FlattenFrom(init, n);
      var i, j :| 0 <= i < |init| && 0 <= j < |init[i].targets| && Flatten(init)[n] == Entry(init[i].days, init[i].targets[j]);
      assert Flatten(s)[n] == Entry(s[i].days, s[i].targets[j]);
    } else {
      assert Flatten(s)[n] == Entry(s[|s| - 1].days, s[|s| - 1].targets[n - |Flatten(init)|]);
    }
  }

  /** A list of schedules fit to be flattened: an entry without targets may even name no day. */
  predicate Listable(s: seq<Schedule>, socFeature: bool) {
    && (forall i :: 0 <= i < |s| ==>
          && s[i].days <= DayMask.WEEK && |s[i].targets| <= MAX_PER_DAY && (s[i].targets != [] ==> s[i].days != {})
          && forall j :: 0 <= j < |s[i].targets| ==> LegalTarget(s[i].targets[j]) && SocOk(s[i].targets[j], socFeature))
    && (forall i, j :: 0 <= i < j < |s| ==> s[i].days !! s[j].days)
  }

  lemma StoreListable(s: seq<Schedule>, socFeature: bool)
    requires LegalStore(s, socFeature)
    ensures Listable(s, socFeature)
  {
    assert forall i :: 0 <= i < |s| ==> LegalSchedule(s[i], socFeature);
  }

  lemma FlattenLegal(s: seq<Schedule>, socFeature: bool)
    requires Listable(s, socFeature)
    ensures LegalEntries(Flatten(s)) && CompatibleEntries(Flatten(s))
    ensures forall n :: 0 <= n < |Flatten(s)| ==> SocOk(Flatten(s)[n].target, socFeature)
  {
    hide Flatten, SocOk, LegalTarget;
    var es := Flatten(s);
    forall n | 0 <= n < |es| ensures LegalDays(es[n].days) && LegalTarget(es[n].target) && SocOk(es[n].target, socFeature) {
      FlattenFrom(s, n);
      var i, j :| 0 <= i < |s| && 0 <= j < |s[i].targets| && es[n] == Entry(s[i].days, s[i].targets[j]);
    }
    forall p, q | 0 <= p < q < |es| ensures Compatible(es[p].days, es[q].days) {
      FlattenFrom(s, p);
      FlattenFrom(s, q);
      var i, k :| 0 <= i < |s| && 0 <= k < |s[i].targets| && es[p] == Entry(s[i].days, s[i].targets[k]);
      var j, l :| 0 <= j < |s| && 0 <= l < |s[j].targets| && es[q] == Entry(s[j].days, s[j].targets[l]);
      if i < j {
        assert s[i].days !! s[j].days;
      } else if j < i {
        assert s[j].days !! s[i].days;
      }
    }
  }

  lemma {:induction false} OnAppend(a: seq<Entry>, b: seq<Entry>, d: nat)
    ensures On(a + b, d) == On(a, d) + On(b, d)
  {
    if b == [] {
      assert a + b == a;
    } else {
      assert (a + b)[..|a + b| - 1] == a + b[..|b| - 1];
      OnAppend(a, b[..|b| - 1], d);
    }
  }

  lemma OnOneMore(es: seq<Entry>, e: Entry, d: nat)
    ensures On(es + [e], d) == On(es, d) + if d in e.days then [e.target] else []
  {
    assert (es + [e])[..|es|] == es;
  }

  lemma {:induction false} OnSchedule(days: set<nat>, ts: seq<Target>, d: nat)
    ensures On(ScheduleEntries(days, ts), d) == if d in days then ts else []
  {
    hide On;
    if ts == [] {
      NothingOn(d);
    } else {
      var init, last := ts[..|ts| - 1], ts[|ts| - 1];
      OnSchedule(days, init, d);
      OnOneMore(ScheduleEntries(days, init), Entry(days, last), d);
      assert ts == init + [last];
    }
  }

  lemma {:induction false} FlattenOnDay(s: seq<Schedule>, d: nat)
    requires forall i, j :: 0 <= i < j < |s| ==> s[i].days !! s[j].days
    ensures On(Flatten(s), d) == DayTargets(s, d)
  {
    hide On, ScheduleEntries;
    if s == [] {
      NothingOn(d);
    } else {
      var init, last := s[..|s| - 1], s[|s| - 1];
      FlattenOnDay(init, d);
      OnAppend(Flatten(init), ScheduleEntries(last.days, last.targets), d);
      OnSchedule(last.days, last.targets, d);
      if d in last.days {
        forall i | 0 <= i < |init| ensures d !in init[i].days {
          assert s[i].days !! s[|s| - 1].days;
        }
        UnnamedDayEmpty(init, d);
        assert On(Flatten(s), d) == [] + last.targets;
      } else {
        assert On(Flatten(s), d) == DayTargets(init, d) + [];
      }
    }
  }

  lemma NothingOn(d: nat)
    ensures On([], d) == []
  {
  }

  lemma FlattenAcceptable(s: seq<Schedule>, socFeature: bool)
    requires Listable(s, socFeature)
    ensures Acceptable(Flatten(s), socFeature)
  {
    hide Flatten, On, With, SocOk, LegalTarget;
    var es := Flatten(s);
    FlattenLegal(s, socFeature);
    forall n | 0 <= n < |es| ensures |With(es, es[n].days)| <= MAX_PER_DAY {
      FlattenFrom(s, n);
      var i, j :| 0 <= i < |s| && 0 <= j < |s[i].targets| && es[n] == Entry(s[i].days, s[i].targets[j]);
      var d :| d in s[i].days;
      CompatibleWithOne(es, n);
      OnIsWith(es, es[n].days, d);
      FlattenOnDay(s, d);
      DayTargetsAt(s, i, d);
    }
  }

  /** Read-back is a fixed point: merging what was read back is accepted and changes no day. */
  lemma ReadBackFixedPoint(s: seq<Schedule>, d: nat, socFeature: bool)
    requires LegalStore(s, socFeature)
    ensures Acceptable(Flatten(s), socFeature)
    ensures DayTargets(Merged(s, Flatten(s), {}), d) == DayTargets(s, d)
  {
    StoreListable(s, socFeature);
    FlattenAcceptable(s, socFeature);
    MergeByDay(s, Flatten(s), {}, d);
    FlattenOnDay(s, d);
    NamedDaysAreTheEntryDays(Flatten(s));
  }

  lemma {:induction false} AllDaysAreTheDays(s: seq<Schedule>, d: nat)
    ensures d in AllDays(s) <==> NamesDay(s, d)
  {
    if s != [] {
      var init := s[..|s| - 1];
      AllDaysAreTheDays(init, d);
      if d in s[|s| - 1].days {
        assert NamesDay(s, d);
      } else if NamesDay(init, d) {
        var i :| 0 <= i < |init| && d in init[i].days;
        assert d in s[i].days;
      }
    }
  }

  /**
   Merging a flattened list and the days its entries name makes every named day hold exactly
   its entry's targets, an entry without targets included; every other day is kept.
   */
  lemma ListMergeByDay(s: seq<Schedule>, list: seq<Schedule>, d: nat, socFeature: bool)
    requires Listable(list, socFeature)
    ensures Acceptable(Flatten(list), socFeature)
    ensures DayTargets(Merged(s, Flatten(list), AllDays(list)), d)
         == if d in AllDays(list) then DayTargets(list, d) else DayTargets(s, d)
  {
    hide Flatten, On, With, Merged, NamedDays, AllDays, LegalTarget, SocOk;
    FlattenAcceptable(list, socFeature);
    MergeByDay(s, Flatten(list), AllDays(list), d);
    FlattenOnDay(list, d);
    AllDaysAreTheDays(list, d);
    NamedDaysAreTheEntryDays(Flatten(list));
    if d in NamedDays(Flatten(list)) {
      var n :| 0 <= n < |Flatten(list)| && d in Flatten(list)[n].days;
      FlattenFrom(list, n);
      var i, j :| 0 <= i < |list| && 0 <= j < |list[i].targets| && Flatten(list)[n] == Entry(list[i].days, list[i].targets[j]);
      assert d in list[i].days;
    } else if d in AllDays(list) {
      NotNamedNothingOn(Flatten(list), d);
    }
  }

  lemma {:induction false} NotNamedNothingOn(es: seq<Entry>, d: nat)
    requires d !in NamedDays(es)
    ensures On(es, d) == []
  {
    if es != [] {
      NotNamedNothingOn(es[..|es| - 1], d);
    }
  }

  lemma {:induction false} FlattenLength(s: seq<Schedule>)
    requires forall i :: 0 <= i < |s| ==> |s[i].targets| <= MAX_PER_DAY
    ensures |Flatten(s)| <= MAX_PER_DAY * |s|
  {
    if s != [] {
      FlattenLength(s[..|s| - 1]);
    }
  }

  /** Ten targets to every day the list names, at the most. */
  lemma {:induction false} FlattenPerDay(s: seq<Schedule>, socFeature: bool)
    requires Listable(s, socFeature)
    ensures |Flatten(s)| <= MAX_PER_DAY * |AllDays(s)|
  {
    hide LegalTarget, SocOk;
    if s != [] {
      var init, last := s[..|s| - 1], s[|s| - 1];
      FlattenPerDay(init, socFeature);
      AllDaysDisjoint(init, last.days);
      DisjointSizes(AllDays(init), last.days);
    }
  }

  lemma DisjointSizes(a: set<nat>, b: set<nat>)
    requires a !! b
    ensures |a + b| == |a| + |b| && (b != {} ==> |b| >= 1)
  {
  }

  lemma {:induction false} AllDaysInWeek(s: seq<Schedule>)
    requires forall i :: 0 <= i < |s| ==> s[i].days <= DayMask.WEEK
    ensures AllDays(s) <= DayMask.WEEK
  {
    if s != [] {
      AllDaysInWeek(s[..|s| - 1]);
      assert s[|s| - 1].days <= DayMask.WEEK;
    }
  }

  /** A list fit to be flattened never needs more than seventy rows, however long it is. */
  lemma ListFits(s: seq<Schedule>, socFeature: bool)
    requires Listable(s, socFeature)
    ensures |Flatten(s)| <= MAX_PER_DAY * MAX_DAYS
  {
    FlattenPerDay(s, socFeature);
    AllDaysInWeek(s);
    SubsetSize(AllDays(s), DayMask.WEEK);
  }

  lemma FlattenStep(s: seq<Schedule>, i: nat)
    requires i < |s|
    ensures Flatten(s[..i + 1]) == Flatten(s[..i]) + ScheduleEntries(s[i].days, s[i].targets)
  {
    assert s[..i + 1][..i] == s[..i];
  }

  lemma {:induction false} FlattenPrefix(s: seq<Schedule>, i: nat)
    requires i <= |s|
    ensures |Flatten(s[..i])| <= |Flatten(s)| && Flatten(s[..i]) == Flatten(s)[..|Flatten(s[..i])|]
    decreases |s| - i
  {
    if i == |s| {
      assert s[..i] == s;
    } else {
      FlattenStep(s, i);
      FlattenPrefix(s, i + 1);
    }
  }

  /** Where entry n of the flattened sequence comes from. */
  lemma FlattenAt(s: seq<Schedule>, i: nat, j: nat)
    requires i < |s| && j < |s[i].targets|
    ensures |Flatten(s[..i])| + j < |Flatten(s)|
    ensures Flatten(s)[|Flatten(s[..i])| + j] == Entry(s[i].days, s[i].targets[j])
  {
    hide Flatten;
    FlattenStep(s, i);
    FlattenPrefix(s, i + 1);
    assert Flatten(s[..i + 1])[|Flatten(s[..i])| + j] == Entry(s[i].days, s[i].targets[j]);
  }
}
