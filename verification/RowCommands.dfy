/**
 The host's row commands AT+MTROW, AT+MTROWCLEAR and AT+MTROWAPPLY over one staging session
 that is allocated when a set is opened and freed when none is staged (core/mt/mt_at.c).
 */
module RowCommands {
  import opened Prelude
  import opened Rows
  import opened AtCommand

  const MAX_TOKENS: nat := 3 + MAX_FIELDS

  function ReplyOf(c: Code): Reply {
    match c
    case Ok => Done
    case Value => BAD_PARAM
    case Kind => NO_CLUSTER
    case Endpoint => NO_ENDPOINT
    case NoPayload => NO_ATTRIBUTE
    case Persist => NOT_PERSISTED
    case Form => PlainError
  }

  /** An unsigned field no larger than max. */
  function Unsigned(t: Token, max: nat): Option<nat> {
    if t.Num? && 0 <= t.v <= max then Some(t.v) else None
  }

  /** A row field: an empty token is an absent optional, anything else must be a 64-bit integer. */
  predicate FieldToken(t: Token) {
    t.Blank? || (t.Num? && -TWO_TO_63 <= t.v <= INT64_MAX)
  }

  function FieldValue(t: Token): Option<int> {
    if t.Num? then Some(t.v) else None
  }

  /** The kind field: unparsable is a bad parameter, an unknown kind is no cluster. */
  function KindFault(t: Token): Option<Reply> {
    if !t.Num? || t.v < 0 then Some(BAD_PARAM)
    else if t.v > 0xFF || FieldCount(t.v).None? then Some(NO_CLUSTER)
    else None
  }

  /** What is wrong with an AT+MTROW line, if anything. */
  function RowFault(f: seq<Token>): Option<Reply> {
    if |f| < 3 || |f| > MAX_TOKENS then Some(PlainError)
    else if Unsigned(f[0], 0xFFFF).None? then Some(BAD_PARAM)
    else if KindFault(f[1]).Some? then KindFault(f[1])
    else if |f| - 3 != FieldCount(f[1].v).value then Some(PlainError)
    else if Unsigned(f[2], 0xFFFF).None? then Some(BAD_PARAM)
    else if exists i :: 3 <= i < |f| && !FieldToken(f[i]) then Some(BAD_PARAM)
    else None
  }

  function TargetFault(f: seq<Token>, n: nat): Option<Reply>
    requires n >= 2
  {
    if |f| != n then Some(PlainError)
    else if Unsigned(f[0], 0xFFFF).None? then Some(BAD_PARAM)
    else KindFault(f[1])
  }

  function RowOf(f: seq<Token>): Row
    requires RowFault(f).None?
  {
    Row([FieldValue(f[3]), FieldValue(f[4]), FieldValue(f[5]), FieldValue(f[6]), None, None, None, None], 4)
  }

  // ---- the session as a value ----

  /** What the bridge is called with; staged is the session it may commit rows from. */
  datatype BridgeCall = BridgeCall(ep: nat, kind: nat, staged: Option<Staged>)

  /** The rows a bridge call carries: those of a set staged for exactly its endpoint and kind. */
  function CarriedRows(call: BridgeCall): seq<Row>
    requires call.staged.Some? ==> WellFormed(call.staged.value)
  {
    if call.staged.Some? && call.staged.value.active && call.staged.value.ep == call.ep && call.staged.value.kind == call.kind
    then call.staged.value.rows[..call.staged.value.count] else []
  }

  datatype Command =
    | MtRow(f: seq<Token>, alloc: bool)
    | MtRowClear(f: seq<Token>)
    | MtRowApply(f: seq<Token>, bridge: Code)

  datatype Outcome = Outcome(session: Option<Staged>, reply: Reply, call: Option<BridgeCall>)

  function Retired(s: Staged): Option<Staged> {
    if s.active then Some(s) else None
  }

  predicate SessionOk(s: Option<Staged>) {
    s.Some? ==> WellFormed(s.value) && s.value.active
  }

  predicate Matches(s: Option<Staged>, ep: nat, kind: nat) {
    s.Some? && s.value.active && s.value.ep == ep && s.value.kind == kind
  }

  function RowOutcome(s: Option<Staged>, f: seq<Token>, alloc: bool): Outcome
    requires SessionOk(s)
  {
    if RowFault(f).Some? then Outcome(s, RowFault(f).value, None)
    else if s.None? && !alloc then Outcome(None, PlainError, None)
    else
      var open := if s.Some? then s.value else Empty();
      Outcome(Retired(StageRow(open, f[0].v, f[1].v, f[2].v, RowOf(f))),
              ReplyOf(StageCode(f[1].v, f[2].v, RowOf(f))), None)
  }

  function ClearOutcome(s: Option<Staged>, f: seq<Token>): Outcome {
    if TargetFault(f, 2).Some? then Outcome(s, TargetFault(f, 2).value, None)
    else if Matches(s, f[0].v, f[1].v) then Outcome(None, Done, None)
    else Outcome(s, BAD_PARAM, None)
  }

  function ApplyOutcome(s: Option<Staged>, f: seq<Token>, bridge: Code): Outcome
    requires SessionOk(s)
  {
    if TargetFault(f, 3).Some? then Outcome(s, TargetFault(f, 3).value, None)
    else if Unsigned(f[2], 0xFFFF).None? then Outcome(s, BAD_PARAM, None)
    else if f[2].v == 0 then
      Outcome(None, ReplyOf(bridge), Some(BridgeCall(f[0].v, f[1].v, None)))
    else if !(Matches(s, f[0].v, f[1].v) && ValidSet(s.value, f[2].v)) then Outcome(s, BAD_PARAM, None)
    else
      Outcome(if bridge == Ok then None else s, ReplyOf(bridge), Some(BridgeCall(f[0].v, f[1].v, s)))
  }

  function After(s: Option<Staged>, c: Command): Outcome
    requires SessionOk(s)
  {
    match c
    case MtRow(f, alloc) => RowOutcome(s, f, alloc)
    case MtRowClear(f) => ClearOutcome(s, f)
    case MtRowApply(f, bridge) => ApplyOutcome(s, f, bridge)
  }

  // ---- the handlers ----

  class Session {
    /** null unless a set is staged. */
    var stage: RowStage?

    ghost predicate Valid()
      reads this, if stage == null then {} else {stage as object, stage.row}
    {
      stage != null ==> stage.Valid() && stage.active
    }

    function View(): Option<Staged>
      requires Valid()
      reads this, if stage == null then {} else {stage as object, stage.row}
    {
      if stage == null then None else Some(stage.View())
    }

    constructor ()
      ensures Valid() && View() == None
    {
      stage := null;
    }

    /** The session as it stands, or a fresh one if memory allows. */
    method Open(alloc: bool) returns (open: RowStage?)
      requires Valid()
      modifies this
      ensures open == stage && (open != null ==> open.Valid())
      ensures old(stage) != null ==> stage == old(stage)
      ensures old(stage) == null ==> (stage != null <==> alloc) && (alloc ==> fresh(stage) && fresh(stage.row) && stage.View() == Empty())
    {
      if stage != null {
        return stage;
      }
      if !alloc {
        return null;
      }
      var fresh' := new RowStage();
      stage := fresh';
      return stage;
    }

    /** Frees the session when nothing is staged in it any more. */
    method Retire()
      requires stage != null ==> stage.Valid()
      modifies this
      ensures Valid()
      ensures View() == if old(stage) == null then None else old(Retired(stage.View()))
      ensures stage == null || stage == old(stage)
    {
      if stage != null && !stage.active {
        stage := null;
      }
    }

    method MtRow(f: seq<Token>, alloc: bool) returns (reply: Reply)
      requires Valid()
      modifies this, if stage == null then {} else {stage as object, stage.row}
      ensures Valid()
      ensures View() == old(RowOutcome(View(), f, alloc)).session && reply == old(RowOutcome(View(), f, alloc)).reply
    {
      hide TargetRow, DaysOf;
      if |f| < 3 || |f| > MAX_TOKENS {
        return PlainError;
      }
      if Unsigned(f[0], 0xFFFF).None? {
        return BAD_PARAM;
      }
      var bad := KindFault(f[1]);
      if bad.Some? {
        return bad.value;
      }
      if |f| - 3 != FieldCount(f[1].v).value {
        return PlainError;
      }
      if Unsigned(f[2], 0xFFFF).None? {
        return BAD_PARAM;
      }
      for i := 3 to |f|
        invariant forall j :: 3 <= j < i ==> FieldToken(f[j])
      {
        if !FieldToken(f[i]) {
          return BAD_PARAM;
        }
      }
      var open := Open(alloc);
      if open == null {
        return PlainError;
      }
      var code := open.Stage(f[0].v, f[1].v, f[2].v, RowOf(f));
      Retire();
      return ReplyOf(code);
    }

    method MtRowClear(f: seq<Token>) returns (reply: Reply)
      requires Valid()
      modifies this, if stage == null then {} else {stage as object, stage.row}
      ensures Valid()
      ensures View() == old(ClearOutcome(View(), f)).session && reply == old(ClearOutcome(View(), f)).reply
    {
      hide TargetRow, DaysOf;
      var bad := TargetFault(f, 2);
      if bad.Some? {
        return bad.value;
      }
      var code := Value;
      if stage != null {
        code := stage.Clear(f[0].v, f[1].v);
      }
      Retire();
      return ReplyOf(code);
    }

    /** Validates the staged set and decides whether the bridge is called, and with what. */
    method PrepareApply(f: seq<Token>) returns (reply: Option<Reply>, call: Option<BridgeCall>)
      requires Valid()
      modifies this, if stage == null then {} else {stage as object, stage.row}
      ensures Valid() && (stage == null || stage == old(stage))
      ensures reply.Some? <==> call.None?
      ensures forall bridge :: var o := old(ApplyOutcome(View(), f, bridge));
                call == o.call && (reply.Some? ==> reply.value == o.reply && View() == o.session)
      ensures call.Some? ==> View() == call.value.staged && |f| == 3 && f[0] == Num(call.value.ep) && f[1] == Num(call.value.kind)
      ensures call.Some? ==> View() == if f[2].v == 0 then None else old(View())
    {
      hide TargetRow, DaysOf, Dense, PairwiseCompatible;
      var bad := TargetFault(f, 3);
      if bad.Some? {
        return bad, None;
      }
      if Unsigned(f[2], 0xFFFF).None? {
        return Some(BAD_PARAM), None;
      }
      var matches := stage != null && stage.active && stage.ep == f[0].v && stage.kind == f[1].v;
      if f[2].v == 0 {
        if stage != null {
          stage.Init();
        }
      } else if !matches {
        return Some(BAD_PARAM), None;
      } else {
        var code := stage.Validate(f[2].v);
        if code != Ok {
          return Some(BAD_PARAM), None;
        }
      }
      Retire();
      return None, Some(BridgeCall(f[0].v, f[1].v, View()));
    }

    /** bridge is the code the platform's apply answers. */
    method MtRowApply(f: seq<Token>, bridge: Code) returns (reply: Reply, call: Option<BridgeCall>)
      requires Valid()
      modifies this, if stage == null then {} else {stage as object, stage.row}
      ensures Valid()
      ensures old(ApplyOutcome(View(), f, bridge)) == Outcome(View(), reply, call)
    {
      hide TargetRow, DaysOf, Dense, PairwiseCompatible;
      var refused;
      refused, call := PrepareApply(f);
      if refused.Some? {
        return refused.value, call;
      }
      if bridge != Ok {
        return ReplyOf(bridge), call;
      }
      if stage != null && stage.active && stage.ep == f[0].v && stage.kind == f[1].v {
        stage.Init();
      }
      Retire();
      return Done, call;
    }
  }

  // ---- over every run ----

  /** Every command keeps the session allocated exactly when a set is staged. */
  lemma CommandKeepsSession(s: Option<Staged>, c: Command)
    requires SessionOk(s)
    ensures SessionOk(After(s, c).session)
  {
    hide TargetRow;
    if c.MtRow? && RowFault(c.f).None? {
      StageRowWellFormed(if s.Some? then s.value else Empty(), c.f[0].v, c.f[1].v, c.f[2].v, RowOf(c.f));
    }
  }

  ghost function SessionAfter(run: seq<Command>): (s: Option<Staged>)
    ensures SessionOk(s)
  {
    if run == [] then None
    else
      CommandKeepsSession(SessionAfter(run[..|run| - 1]), run[|run| - 1]);
      After(SessionAfter(run[..|run| - 1]), run[|run| - 1]).session
  }

  /**
   Staging and clearing never consult the live model: they answer nothing but OK, ERROR, +MTERR:1 or +MTERR:3. What the
   bridge answers an apply is reported as its own code, and only then can +MTERR:2, +MTERR:4 or +MTERR:7 come up.
   */
  lemma OnlyApplyReportsTheModel(s: Option<Staged>, c: Command)
    requires SessionOk(s)
    ensures !c.MtRowApply? ==> After(s, c).reply in {Done, PlainError, MtErr(1), MtErr(3)} && After(s, c).call.None?
    ensures After(s, c).reply == MtErr(7) ==> c.MtRowApply? && c.bridge == Persist && After(s, c).call.Some?
    ensures After(s, c).call.Some? ==> c.MtRowApply?
    ensures After(s, c).call.Some? ==>
      After(s, c).reply == (match c.bridge
                            case Ok => Done
                            case Form => PlainError
                            case Value => MtErr(1)
                            case Endpoint => MtErr(2)
                            case Kind => MtErr(3)
                            case NoPayload => MtErr(4)
                            case Persist => MtErr(7))
  {
    hide TargetRow, DaysOf;
  }
}
