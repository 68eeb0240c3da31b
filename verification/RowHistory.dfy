/**
 The row commands told by their lines alone: which lines are accepted, what the session then holds, and what an apply
 hands to the bridge, over every run. Nothing here speaks of rows or sessions except to say what they are.
 */
module RowHistory {
  import opened Prelude
  import opened Rows
  import opened AtCommand
  import opened RowCommands
  import DayMask

  // ---- lines ----

  predicate EndpointField(t: Token) {
    t.Num? && 0 <= t.v <= 65535
  }

  /** The fields of a charging target: days, minute, and a charge level or an energy or both. */
  predicate TargetFields(f: seq<Token>)
    requires |f| == 7
  {
    && f[3].Num? && 1 <= f[3].v <= 127
    && f[4].Num? && 0 <= f[4].v <= 1439
    && (f[5].Blank? || (f[5].Num? && 0 <= f[5].v <= 100))
    && (f[6].Blank? || (f[6].Num? && 0 <= f[6].v < TWO_TO_63))
    && !(f[5].Blank? && f[6].Blank?)
  }

  /** A line AT+MTROW accepts: endpoint, kind 1, index, and a target. */
  predicate RowLine(f: seq<Token>) {
    |f| == 7 && EndpointField(f[0]) && f[1] == Num(1) && f[2].Num? && 0 <= f[2].v < 70 && TargetFields(f)
  }

  predicate ClearLine(f: seq<Token>) {
    |f| == 2 && EndpointField(f[0]) && f[1] == Num(1)
  }

  predicate ApplyLine(f: seq<Token>) {
    |f| == 3 && EndpointField(f[0]) && f[1] == Num(1) && f[2].Num? && 0 <= f[2].v <= 65535
  }

  /** Both lines are about the same endpoint and kind. */
  predicate SameTarget(a: seq<Token>, b: seq<Token>) {
    |a| >= 2 && |b| >= 2 && a[0] == b[0] && a[1] == b[1]
  }

  /** The value a field token stands for; a blank is an absent optional. */
  function ValueOf(t: Token): Option<int>
    requires !t.Junk?
  {
    match t case Blank => None case Num(v) => Some(v)
  }

  /** The days a line names. */
  function LineDays(f: seq<Token>): set<nat>
    requires RowLine(f)
  {
    DayMask.DaySet(Octet(f[3].v))
  }

  // ---- what a run leaves, told by its lines ----

  /** The accepted lines the current set was built from, oldest first. */
  ghost function History(run: seq<Command>): seq<seq<Token>> {
    if run == [] then []
    else
      var h, c := History(run[..|run| - 1]), run[|run| - 1];
      match c
      case MtRow(f, alloc) =>
        if RowLine(f) && (h != [] || alloc) then (if h != [] && SameTarget(h[|h| - 1], f) then h + [f] else [f]) else h
      case MtRowClear(f) => if ClearLine(f) && h != [] && SameTarget(h[|h| - 1], f) then [] else h
      case MtRowApply(f, bridge) =>
        if ApplyLine(f) && (f[2] == Num(0) || (Appliable(h, f) && bridge == Ok)) then [] else h
  }

  /** The line most recently accepted for index i. */
  ghost function Latest(h: seq<seq<Token>>, i: nat): Option<seq<Token>> {
    if h == [] then None
    else
      var last := h[|h| - 1];
      if |last| > 2 && last[2] == Num(i) then Some(last) else Latest(h[..|h| - 1], i)
  }

  /** One more than the highest index accepted. */
  ghost function Height(h: seq<seq<Token>>): int {
    if h == [] then 0
    else
      var before, last := Height(h[..|h| - 1]), h[|h| - 1];
      if |last| > 2 && last[2].Num? && last[2].v + 1 > before then last[2].v + 1 else before
  }

  ghost predicate AllRowLines(h: seq<seq<Token>>) {
    forall k :: 0 <= k < |h| ==> RowLine(h[k]) && SameTarget(h[k], h[|h| - 1])
  }

  /** The lines make a set that this apply may take: for its endpoint and kind, of its count, without gaps, day bitmaps equal or disjoint. */
  ghost predicate Appliable(h: seq<seq<Token>>, f: seq<Token>) {
    && h != [] && SameTarget(h[|h| - 1], f) && |f| > 2 && f[2] == Num(Height(h))
    && (forall i: nat :: i < Height(h) ==> Latest(h, i).Some? && RowLine(Latest(h, i).value))
    && (forall i: nat, j: nat :: i < j < Height(h) ==> Compatible(LineDays(Latest(h, i).value), LineDays(Latest(h, j).value)))
  }

  // ---- what the session is ----

  /** The row holds the fields of the line, each in its place. */
  predicate Carries(r: Row, f: seq<Token>)
    requires RowLine(f)
  {
    && |r.fields| == 8 && r.nfields == 4
    && r.fields[0] == ValueOf(f[3]) && r.fields[1] == ValueOf(f[4]) && r.fields[2] == ValueOf(f[5]) && r.fields[3] == ValueOf(f[6])
  }

  /** A staged set is what its lines say. */
  ghost predicate Tells(st: Staged, h: seq<seq<Token>>) {
    && WellFormed(st) && st.active && h != [] && AllRowLines(h)
    && Num(st.ep) == h[|h| - 1][0] && st.kind == 1 && st.count == Height(h)
    && (forall i: nat :: i < MAX_ROWS ==>
          if Latest(h, i).Some? then RowLine(Latest(h, i).value) && Carries(st.rows[i], Latest(h, i).value) else st.rows[i] == NO_ROW)
  }

  ghost predicate Remembers(s: Option<Staged>, h: seq<seq<Token>>) {
    if s.Some? then Tells(s.value, h) else h == []
  }

  // ---- AT+MTROW ----

  lemma RowLineParses(f: seq<Token>)
    requires RowLine(f)
    ensures RowFault(f).None? && TargetRow(RowOf(f)) && Carries(Row(RowOf(f).fields, 4), f)
  {
  }

  lemma OnlyRowLinesAreStaged(f: seq<Token>)
    requires RowFault(f).None? && StageCode(f[1].v, f[2].v, RowOf(f)) == Ok
    ensures RowLine(f)
  {
    assert FieldToken(f[3]) && FieldToken(f[4]) && FieldToken(f[5]) && FieldToken(f[6]);
  }

  /** A line of seven fields for kind 1 that numerals and blanks alone make up; only its values can still be refused. */
  predicate ParsedLine(f: seq<Token>) {
    && |f| == 7 && EndpointField(f[0]) && f[1] == Num(1) && f[2].Num? && 0 <= f[2].v <= 65535
    && forall i :: 3 <= i < 7 ==> f[i].Blank? || (f[i].Num? && -TWO_TO_63 <= f[i].v < TWO_TO_63)
  }

  /**
   What AT+MTROW answers. OK exactly to a row line, memory allowing; ERROR to a line of the wrong form and to one that
   found no memory; +MTERR:3 to an unknown kind; +MTERR:1 to everything else.
   */
  lemma RowReply(s: Option<Staged>, f: seq<Token>, alloc: bool)
    requires SessionOk(s)
    ensures var reply := RowOutcome(s, f, alloc).reply;
            && (reply == Done <==> RowLine(f) && (s.Some? || alloc))
            && (reply == MtErr(3) <==> 3 <= |f| <= 11 && EndpointField(f[0]) && f[1].Num? && f[1].v >= 0 && f[1].v != 1)
            && (reply == PlainError <==>
                  || !(3 <= |f| <= 11)
                  || (EndpointField(f[0]) && f[1] == Num(1) && |f| != 7)
                  || (ParsedLine(f) && s.None? && !alloc))
            && reply in {Done, MtErr(1), MtErr(3), PlainError}
  {
    if RowLine(f) {
      RowLineParses(f);
    }
    if RowFault(f).None? {
      assert ParsedLine(f) by { NoFaultIsParsed(f); }
      if StageCode(f[1].v, f[2].v, RowOf(f)) == Ok {
        OnlyRowLinesAreStaged(f);
      }
    } else if ParsedLine(f) {
      ParsedIsNoFault(f);
    }
    hide TargetRow, Stageable, TargetFields, StageRow;
  }

  lemma NoFaultIsParsed(f: seq<Token>)
    requires RowFault(f).None?
    ensures ParsedLine(f)
  {
    forall i | 3 <= i < 7 ensures f[i].Blank? || (f[i].Num? && -TWO_TO_63 <= f[i].v < TWO_TO_63) {
      assert FieldToken(f[i]);
    }
  }

  lemma ParsedIsNoFault(f: seq<Token>)
    requires ParsedLine(f)
    ensures RowFault(f).None?
  {
    forall i | 3 <= i < 7 ensures FieldToken(f[i]) {
      assert f[i].Blank? || f[i].Num?;
    }
  }

  lemma OneMoreLine(h: seq<seq<Token>>, f: seq<Token>, i: nat)
    requires RowLine(f)
    ensures Latest(h + [f], i) == if f[2] == Num(i) then Some(f) else Latest(h, i)
    ensures Height(h + [f]) == if f[2].v + 1 > Height(h) then f[2].v + 1 else Height(h)
  {
    assert (h + [f])[..|h|] == h;
  }

  lemma NoLines(i: nat)
    ensures Height([]) == 0 && Latest([], i) == None
  {
  }

  lemma StagedRow(st: Staged, f: seq<Token>)
    requires WellFormed(st) && RowLine(f)
    ensures RowFault(f).None?
    ensures var kept := Kept(st, f[0].v, 1);
            StageRow(st, f[0].v, 1, f[2].v, RowOf(f))
              == Staged(true, f[0].v, 1, if f[2].v + 1 > kept.count then f[2].v + 1 else kept.count, kept.rows[f[2].v := Row(RowOf(f).fields, 4)])
  {
    RowLineParses(f);
    hide TargetRow, TargetFields;
  }

  lemma StagingTells(st: Staged, h: seq<seq<Token>>, f: seq<Token>)
    requires WellFormed(st) && (if st.active then Tells(st, h) else st == Empty() && h == []) && RowLine(f)
    ensures RowFault(f).None?
    ensures Tells(StageRow(st, f[0].v, 1, f[2].v, RowOf(f)), if h != [] && SameTarget(h[|h| - 1], f) then h + [f] else [f])
  {
    hide TargetRow, TargetFields, Latest, Height;
    var before := if h != [] && SameTarget(h[|h| - 1], f) then h else [];
    RowLineParses(f);
    StagedRow(st, f);
    StageRowWellFormed(st, f[0].v, 1, f[2].v, RowOf(f));
    assert [] + [f] == [f];
    NoLines(0);
    OneMoreLine(before, f, 0);
    var after := StageRow(st, f[0].v, 1, f[2].v, RowOf(f));
    forall i: nat | i < MAX_ROWS
      ensures if Latest(before + [f], i).Some? then RowLine(Latest(before + [f], i).value) && Carries(after.rows[i], Latest(before + [f], i).value)
              else after.rows[i] == NO_ROW
    {
      NoLines(i);
      OneMoreLine(before, f, i);
    }
  }

  // ---- AT+MTROWCLEAR and AT+MTROWAPPLY ----

  lemma RowOfLine(st: Staged, h: seq<seq<Token>>, i: nat)
    requires Tells(st, h) && i < MAX_ROWS
    ensures TargetRow(st.rows[i]) <==> Latest(h, i).Some?
    ensures Latest(h, i).Some? ==> RowLine(Latest(h, i).value) && DaysOf(st.rows[i]) == LineDays(Latest(h, i).value)
  {
    hide Latest, Height;
  }

  lemma ValidIsAppliable(st: Staged, h: seq<seq<Token>>, f: seq<Token>)
    requires Tells(st, h) && ApplyLine(f) && f[2] != Num(0)
    ensures (st.ep == f[0].v && ValidSet(st, f[2].v)) <==> Appliable(h, f)
  {
    hide TargetRow, DaysOf, Latest, Height, Compatible, LineDays, RowLine;
    forall i: nat | i < MAX_ROWS
      ensures TargetRow(st.rows[i]) <==> Latest(h, i).Some?
      ensures Latest(h, i).Some? ==> RowLine(Latest(h, i).value) && DaysOf(st.rows[i]) == LineDays(Latest(h, i).value)
    {
      RowOfLine(st, h, i);
    }
    LastIsALine(h);
    if f[2].v == st.count {
      var rows := st.rows[..st.count];
      assert forall i :: 0 <= i < |rows| ==> rows[i] == st.rows[i];
      if Appliable(h, f) {
        assert Dense(rows);
        assert PairwiseCompatible(rows);
      }
      if ValidSet(st, f[2].v) {
        forall i: nat | i < Height(h) ensures Latest(h, i).Some? && RowLine(Latest(h, i).value) {
          assert TargetRow(rows[i]);
        }
        forall i: nat, j: nat | i < j < Height(h) ensures Compatible(LineDays(Latest(h, i).value), LineDays(Latest(h, j).value)) {
          assert Compatible(DaysOf(rows[i]), DaysOf(rows[j]));
        }
      }
    }
  }

  lemma LastIsALine(h: seq<seq<Token>>)
    requires AllRowLines(h) && h != []
    ensures |h[|h| - 1]| == 7 && h[|h| - 1][1] == Num(1)
  {
  }

  /** What a line of n fields that is not acted on is answered: its form first, then the endpoint, then the kind. */
  function Refusal(f: seq<Token>, n: nat): Reply
    requires n >= 2
  {
    if |f| != n then PlainError
    else if EndpointField(f[0]) && f[1].Num? && f[1].v >= 0 && f[1].v != 1 then MtErr(3)
    else MtErr(1)
  }

  lemma ClearTells(s: Option<Staged>, h: seq<seq<Token>>, f: seq<Token>)
    requires SessionOk(s) && Remembers(s, h)
    ensures var o := ClearOutcome(s, f);
            if ClearLine(f) && h != [] && SameTarget(h[|h| - 1], f) then o.reply == Done && o.session == None
            else o.session == s && o.reply == Refusal(f, 2)
  {
    hide Latest, Height;
    if h != [] {
      LastIsALine(h);
    }
  }

  lemma ApplyTells(s: Option<Staged>, h: seq<seq<Token>>, f: seq<Token>, bridge: Code)
    requires SessionOk(s) && Remembers(s, h)
    ensures var o := ApplyOutcome(s, f, bridge);
            if ApplyLine(f) && f[2] == Num(0) then
              o == Outcome(None, ReplyOf(bridge), Some(BridgeCall(f[0].v, 1, None)))
            else if ApplyLine(f) && Appliable(h, f) then
              o == Outcome(if bridge == Ok then None else s, ReplyOf(bridge), Some(BridgeCall(f[0].v, 1, s)))
            else o.session == s && o.call == None && o.reply == Refusal(f, 3)
  {
    hide Tells, ValidSet, Appliable;
    if ApplyLine(f) && f[2] != Num(0) {
      if s.Some? {
        ValidIsAppliable(s.value, h, f);
        TellsKind(s.value, h);
      } else {
        NothingIsAppliable(f);
      }
    }
  }

  lemma TellsKind(st: Staged, h: seq<seq<Token>>)
    requires Tells(st, h)
    ensures st.kind == 1 && st.active && WellFormed(st)
  {
  }

  lemma NothingIsAppliable(f: seq<Token>)
    ensures !Appliable([], f)
  {
  }

  // ---- over every run ----

  lemma RefusedRowKeeps(s: Option<Staged>, f: seq<Token>, alloc: bool)
    requires SessionOk(s) && RowOutcome(s, f, alloc).reply != Done
    ensures RowOutcome(s, f, alloc).session == s
  {
    hide TargetRow;
  }

  lemma AcceptedRowStages(s: Option<Staged>, f: seq<Token>, alloc: bool)
    requires SessionOk(s) && RowLine(f) && (s.Some? || alloc)
    ensures RowFault(f).None?
    ensures RowOutcome(s, f, alloc).session == Some(StageRow(if s.Some? then s.value else Empty(), f[0].v, 1, f[2].v, RowOf(f)))
  {
    RowLineParses(f);
    StagedRow(if s.Some? then s.value else Empty(), f);
    hide TargetRow, TargetFields, StageRow;
  }

  lemma RowTells(s: Option<Staged>, h: seq<seq<Token>>, f: seq<Token>, alloc: bool)
    requires SessionOk(s) && Remembers(s, h)
    ensures Remembers(RowOutcome(s, f, alloc).session,
                      if RowLine(f) && (h != [] || alloc) then (if h != [] && SameTarget(h[|h| - 1], f) then h + [f] else [f]) else h)
  {
    hide TargetFields, Latest, Height, StageRow, RowOutcome, WellFormed, AllRowLines, Carries;
    RowReply(s, f, alloc);
    if RowLine(f) && (s.Some? || alloc) {
      AcceptedRowStages(s, f, alloc);
      EmptyIsWellFormed();
      StagingTells(if s.Some? then s.value else Empty(), h, f);
    } else {
      RefusedRowKeeps(s, f, alloc);
    }
  }

  lemma EmptyIsWellFormed()
    ensures WellFormed(Empty()) && !Empty().active
  {
  }

  /** The session is its history: told by the lines alone, row i is the line last accepted for i since the set was opened or retargeted. */
  lemma {:induction false} SessionIsItsHistory(run: seq<Command>)
    ensures Remembers(SessionAfter(run), History(run))
  {
    hide Remembers, RowLine, ClearLine, ApplyLine, Appliable, SameTarget, RowOutcome, ClearOutcome, ApplyOutcome;
    if run == [] {
      NothingRemembered();
    } else {
      var before, c := run[..|run| - 1], run[|run| - 1];
      SessionIsItsHistory(before);
      var s, h := SessionAfter(before), History(before);
      NothingRemembered();
      match c
      case MtRow(f, alloc) => RowTells(s, h, f, alloc);
      case MtRowClear(f) => ClearTells(s, h, f);
      case MtRowApply(f, bridge) => ApplyTells(s, h, f, bridge);
    }
  }

  lemma NothingRemembered()
    ensures Remembers(None, [])
  {
  }

  /** Over every run AT+MTROW answers OK exactly to a row line, if a set is staged or there is memory for one; and the row then holds the fields of that line. */
  lemma LineIsStaged(run: seq<Command>, f: seq<Token>, alloc: bool)
    ensures var o := After(SessionAfter(run), MtRow(f, alloc));
            && (o.reply == Done <==> RowLine(f) && (History(run) != [] || alloc))
            && (o.reply == Done ==>
                  && o.session.Some? && Num(o.session.value.ep) == f[0] && o.session.value.kind == 1
                  && |o.session.value.rows| == 70 && f[2].v < o.session.value.count
                  && Carries(o.session.value.rows[f[2].v], f))
  {
    hide TargetFields, StageRow;
    SessionIsItsHistory(run);
    var s := SessionAfter(run);
    RowReply(s, f, alloc);
    if RowLine(f) && (s.Some? || alloc) {
      AcceptedRowStages(s, f, alloc);
      StagedRow(if s.Some? then s.value else Empty(), f);
      RowLineParses(f);
      hide RowOutcome, Tells;
    }
  }

  /** AT+MTROWCLEAR answers OK exactly for the endpoint and kind of the lines staged. */
  lemma ClearReply(run: seq<Command>, f: seq<Token>)
    ensures After(SessionAfter(run), MtRowClear(f)).reply
         == if ClearLine(f) && History(run) != [] && SameTarget(History(run)[|History(run)| - 1], f) then Done else Refusal(f, 2)
  {
    hide Remembers, ClearOutcome, SameTarget;
    SessionIsItsHistory(run);
    ClearTells(SessionAfter(run), History(run), f);
  }

  /**
   When an apply reaches the bridge, after any run of commands: a count of zero always does and hands over no rows; any
   other count does exactly when the lines accepted since the set was opened may be applied; and then row i of what is
   handed over is the line last accepted for i. A refused apply changes nothing.
   */
  lemma ApplyReachesBridge(run: seq<Command>, f: seq<Token>, bridge: Code)
    ensures var o := After(SessionAfter(run), MtRowApply(f, bridge)); var h := History(run);
            if ApplyLine(f) && (f[2] == Num(0) || Appliable(h, f)) then
              && o.call.Some? && Num(o.call.value.ep) == f[0] && o.call.value.kind == 1 && o.reply == ReplyOf(bridge)
              && var rows := CarriedRows(o.call.value);
                 && |rows| == f[2].v
                 && forall i: nat :: i < |rows| ==>
                      Latest(h, i).Some? && RowLine(Latest(h, i).value) && Carries(rows[i], Latest(h, i).value)
            else o.call == None && o.session == SessionAfter(run) && o.reply == Refusal(f, 3)
  {
    hide Appliable, ApplyOutcome, Latest, Height, RowLine, Carries;
    SessionIsItsHistory(run);
    var s, h := SessionAfter(run), History(run);
    ApplyTells(s, h, f, bridge);
    if ApplyLine(f) && f[2] != Num(0) && Appliable(h, f) {
      AppliableCount(h, f);
      assert s.Some? by { NothingIsAppliable(f); }
      var st := s.value;
      assert Num(st.ep) == f[0] by { LastNames(st, h, f); }
      forall i: nat | i < f[2].v ensures Latest(h, i).Some? && RowLine(Latest(h, i).value) && Carries(st.rows[i], Latest(h, i).value) {
      }
    }
  }

  lemma AppliableCount(h: seq<seq<Token>>, f: seq<Token>)
    requires Appliable(h, f)
    ensures |f| > 2 && h != [] && f[2] == Num(Height(h)) && SameTarget(h[|h| - 1], f)
    ensures forall i: nat :: i < Height(h) ==> Latest(h, i).Some?
  {
  }

  lemma LastNames(st: Staged, h: seq<seq<Token>>, f: seq<Token>)
    requires Tells(st, h) && SameTarget(h[|h| - 1], f)
    ensures Num(st.ep) == f[0]
  {
  }

  /**
   An apply the bridge failed can be tried again: the same line reaches the bridge once more with exactly the same rows.
   One the bridge carried out, or a count of zero, ends the set: until another row is accepted every apply that reaches
   the bridge carries no rows, and every AT+MTROWCLEAR is refused.
   */
  lemma ApplyCanBeRetried(run: seq<Command>, f: seq<Token>, bridge: Code, again: Code)
    requires ApplyOutcome(SessionAfter(run), f, bridge).call.Some?
    ensures var first := ApplyOutcome(SessionAfter(run), f, bridge);
            var now := run + [MtRowApply(f, bridge)];
            if f[2] != Num(0) && bridge != Ok then
              && History(now) == History(run)
              && ApplyOutcome(SessionAfter(now), f, again).call.Some?
              && CarriedRows(ApplyOutcome(SessionAfter(now), f, again).call.value) == CarriedRows(first.call.value)
            else
              && History(now) == []
              && (forall g, b :: ApplyOutcome(SessionAfter(now), g, b).call.Some? ==>
                    g[2] == Num(0) && CarriedRows(ApplyOutcome(SessionAfter(now), g, b).call.value) == [])
              && (forall g :: ClearOutcome(SessionAfter(now), g).reply != Done)
  {
    hide ClearOutcome, Remembers, Appliable, CarriedRows, ValidSet;
    var now := run + [MtRowApply(f, bridge)];
    assert now[..|run|] == run && now[|run|] == MtRowApply(f, bridge);
    SessionIsItsHistory(run);
    ApplyTells(SessionAfter(run), History(run), f, bridge);
    ApplyTells(SessionAfter(run), History(run), f, again);
    if f[2] == Num(0) || bridge == Ok {
      assert SessionAfter(now) == None && History(now) == [];
      forall g, b | ApplyOutcome(None, g, b).call.Some?
        ensures |g| == 3 && g[2] == Num(0) && CarriedRows(ApplyOutcome(None, g, b).call.value) == []
      {
        NothingStaged(g, b);
      }
      forall g ensures ClearOutcome(None, g).reply != Done {
        NothingStaged(g, Ok);
      }
    }
  }

  lemma NothingStaged(g: seq<Token>, b: Code)
    ensures ApplyOutcome(None, g, b).call.Some? ==> |g| == 3 && g[2] == Num(0) && CarriedRows(ApplyOutcome(None, g, b).call.value) == []
    ensures ClearOutcome(None, g).reply != Done
  {
  }
}
