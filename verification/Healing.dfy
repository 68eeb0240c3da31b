/**
 The semaphore between the two tasks heals itself: when a token the CHIP task takes means an answered slot, exactly,
 and the runs in which it does not.
 */
module Healing {
  import opened Prelude
  import opened Cmdbox
  import opened Adjudication
  import opened Verdicts

  /** The host does not answer a number it has not yet been sent. */
  predicate Polite(w: World, e: Event) {
    e.ByAt? && e.a.Answer? && w.gen > 0 && e.a.number == SeqOf(w.gen) ==> w.gen in w.wire
  }

  /** Every step of the run is polite, and none opens another slot. */
  predicate PoliteRun(w: World, run: seq<Event>) {
    run == []
    || (PoliteRun(w, run[..|run| - 1]) && Polite(From(w, run[..|run| - 1]), run[|run| - 1])
        && !(run[|run| - 1].ByChip? && run[|run| - 1].c.Open?))
  }

  /** The slot, the token and the answer in flight agree. */
  predicate Healthy(w: World) {
    && (w.chip in {Started, Published, Drained} ==> w.box.state == Pending && w.box.number == w.mine && !w.at.Giving? && w.gen !in w.wire)
    && (w.chip == Drained ==> !w.token)
    && (w.chip == Waiting ==>
          && w.box.state != Idle && w.box.number == w.mine && !(w.token && w.at.Giving?)
          && (w.box.state == Answered <==> w.token || w.at.Giving?))
    && (w.chip == Holding ==> w.box.state == Answered && w.box.number == w.mine && !w.token && !w.at.Giving?)
  }

  lemma ChipKeepsHealthy(w: World, e: ChipStep)
    requires BoxInv(w) && Healthy(w) && ChipCan(w, e) && !e.Open?
    ensures Healthy(ChipDo(w, e))
  {
    hide Numbered;
  }

  lemma AtKeepsHealthy(w: World, e: AtStep)
    requires BoxInv(w) && Healthy(w) && AtCan(w, e) && Polite(w, ByAt(e))
    ensures Healthy(AtDo(w, e))
  {
  }

  lemma StepKeepsHealthy(w: World, e: Event)
    requires BoxInv(w) && Healthy(w) && Enabled(w, e) && Polite(w, e) && !(e.ByChip? && e.c.Open?)
    ensures Healthy(Do(w, e))
  {
    hide BoxInv, Healthy, Polite, ChipCan, AtCan, ChipDo, AtDo;
    match e
    case ByChip(c) => ChipKeepsHealthy(w, c);
    case ByAt(a) => AtKeepsHealthy(w, a);
  }

  lemma {:induction false} RunKeepsHealthy(w: World, run: seq<Event>)
    requires Inv(w) && Healthy(w) && PoliteRun(w, run)
    ensures Inv(From(w, run)) && Healthy(From(w, run))
  {
    hide BoxInv, StageInv, OfferInv, ReadInv, ReadsInv, VerdictInv, Healthy, Polite, Enabled, Do;
    if run != [] {
      var w', e := From(w, run[..|run| - 1]), run[|run| - 1];
      RunKeepsHealthy(w, run[..|run| - 1]);
      if Enabled(w', e) {
        StepKeepsInv(w', e);
        StepKeepsHealthy(w', e);
      }
    }
  }

  lemma CollectHealthy(w: World)
    requires BoxInv(w) && VerdictInv(w) && Healthy(w) && w.chip == Holding
    ensures w.box.state == Answered && HasVerdict(w.log, w.gen, w.box.verdict)
    ensures var done := ChipDo(w, Collect);
            && done.log == w.log + [Collected(w.gen), Returned(w.gen, w.box.verdict == 1, false)]
            && !done.token && !done.at.Giving? && done.box.state == Idle
  {
  }

  /**
   Self-healing: if no accepted answer's give is still in flight when a forward opens, then, whatever token an
   earlier forward left, whenever this forward takes the token its slot is answered, it collects that very
   verdict, and it leaves no token and no give behind. While it waits, an accepted answer has a token or a give.
   */
  lemma SelfHealing(w: World, t: Target, run: seq<Event>)
    requires Inv(w) && ChipCan(w, Open(t)) && !w.at.Giving? && PoliteRun(ChipDo(w, Open(t)), run)
    ensures var now := From(ChipDo(w, Open(t)), run);
            && (now.chip == Waiting ==> (now.box.state == Answered <==> now.token || now.at.Giving?))
            && (now.chip == Holding ==>
                  && now.box.state == Answered && HasVerdict(now.log, now.gen, now.box.verdict)
                  && var then' := ChipDo(now, Collect);
                     && then'.log == now.log + [Collected(now.gen), Returned(now.gen, now.box.verdict == 1, false)]
                     && !then'.token && !then'.at.Giving? && then'.box.state == Idle)
  {
    hide StageInv, OfferInv, ReadInv, ReadsInv, VerdictInv, From, PoliteRun, HasVerdict;
    var open := ChipDo(w, Open(t));
    StepKeepsInv(w, ByChip(Open(t)));
    RunKeepsHealthy(open, run);
    if From(open, run).chip == Holding {
      CollectHealthy(From(open, run));
    }
  }

  // ---- and after a timeout ----

  /** Nothing given, nothing on its way, nothing to answer. */
  predicate Quiet(w: World) {
    !w.token && !w.at.Giving? && w.box.state != Pending
  }

  predicate OpensNothing(run: seq<Event>) {
    forall k :: 0 <= k < |run| ==> !(run[k].ByChip? && run[k].c.Open?)
  }

  lemma {:induction false} QuietUntilTheNextOpen(w: World, run: seq<Event>)
    requires Quiet(w) && OpensNothing(run)
    ensures Quiet(From(w, run))
  {
    if run != [] {
      var w', e := From(w, run[..|run| - 1]), run[|run| - 1];
      QuietUntilTheNextOpen(w, run[..|run| - 1]);
      if Enabled(w', e) {
        StepKeepsQuiet(w', e);
      }
    }
  }

  lemma StepKeepsQuiet(w: World, e: Event)
    requires Quiet(w) && Enabled(w, e) && !(e.ByChip? && e.c.Open?)
    ensures Quiet(Do(w, e))
  {
  }

  /**
   The second drain: a timed-out forward that finds no give in flight when it drains leaves no token and no give
   behind, so the next forward, whenever it opens, heals as SelfHealing says.
   */
  lemma TimeoutLeavesNothing(w: World, run: seq<Event>)
    requires Inv(w) && w.chip == Expired && !w.at.Giving? && OpensNothing(run)
    ensures Quiet(From(ChipDo(w, DrainAgain), run))
  {
    QuietUntilTheNextOpen(ChipDo(w, DrainAgain), run);
  }

  lemma RunStep(w: World, run: seq<Event>, e: Event)
    ensures From(w, run + [e]) == if Enabled(From(w, run), e) then Do(From(w, run), e) else From(w, run)
    ensures PoliteRun(w, run + [e]) <==> PoliteRun(w, run) && Polite(From(w, run), e) && !(e.ByChip? && e.c.Open?)
  {
    assert (run + [e])[..|run|] == run;
  }

  lemma EmptyRun(w: World)
    ensures From(w, []) == w && PoliteRun(w, [])
  {
  }

  /** The forward goes to wait while the give is still to come. */
  lemma WaitsForStaleGive(w: World) returns (run: seq<Event>)
    requires w.chip == Started && w.at.Giving? && w.box.state == Pending
    ensures PoliteRun(w, run)
    ensures From(w, run) == w.(chip := Waiting, inboundNumber := if w.rows then w.mine else w.inboundNumber, token := false, wire := w.wire + {w.gen})
  {
    hide From, PoliteRun;
    EmptyRun(w);
    run := [ByChip(Publish)];
    RunStep(w, [], ByChip(Publish));
    assert [] + [ByChip(Publish)] == run;
    RunStep(w, run, ByChip(Drain));
    run := run + [ByChip(Drain)];
    RunStep(w, run, ByChip(Announce));
    run := run + [ByChip(Announce)];
  }

  lemma CollectsNothing(w: World)
    requires w.chip == Holding && w.box.state == Pending
    ensures ChipDo(w, Collect).log == w.log + [Returned(w.gen, false, false)] && ChipDo(w, Collect).box.state == Pending
  {
  }

  /** With a give in flight at the open, the forward can be denied in an instant, its slot never answered. */
  lemma StaleGiveDecides(w: World, t: Target) returns (run: seq<Event>)
    requires Inv(w) && ChipCan(w, Open(t)) && w.at.Giving?
    ensures PoliteRun(ChipDo(w, Open(t)), run)
    ensures var now := From(ChipDo(w, Open(t)), run);
            && now.chip == Holding && now.box == Opened(w.box, t) && now.gen == w.gen + 1 && now.log == w.log
            && ChipDo(now, Collect).log == w.log + [Returned(w.gen + 1, false, false)]
            && ChipDo(now, Collect).box.state == Pending
  {
    hide Inv, From, PoliteRun;
    var w0 := ChipDo(w, Open(t));
    run := WaitsForStaleGive(w0);
    RunStep(w0, run, ByAt(Give));
    run := run + [ByAt(Give)];
    assert From(w0, run).chip == Waiting && From(w0, run).token && From(w0, run).box == w0.box;
    RunStep(w0, run, ByChip(TakeToken));
    run := run + [ByChip(TakeToken)];
    CollectsNothing(From(w0, run));
  }

  /** The first forward after the start, up to its timeout. */
  lemma FirstTimesOut(t: Target) returns (run: seq<Event>)
    ensures After(run) == Start().(box := Opened(FRESH, t), chip := TimedOut, mine := 1, gen := 1, wire := {1})
  {
    hide From, PoliteRun;
    EmptyRun(Start());
    run := [ByChip(Open(t))];
    RunStep(Start(), [], ByChip(Open(t)));
    assert [] + [ByChip(Open(t))] == run;
    RunStep(Start(), run, ByChip(Publish));
    run := run + [ByChip(Publish)];
    RunStep(Start(), run, ByChip(Drain));
    run := run + [ByChip(Drain)];
    RunStep(Start(), run, ByChip(Announce));
    run := run + [ByChip(Announce)];
    assert {} + {1} == {1};
    RunStep(Start(), run, ByChip(TimeOut));
    run := run + [ByChip(TimeOut)];
  }

  /** The code gets there: an answer and a timeout cross, and the forward has returned when the give is still to come. */
  lemma StaleGiveIsReachable(t: Target) returns (run: seq<Event>)
    ensures var w := After(run); Inv(w) && w.chip == Resting && w.at.Giving? && w.gen == 1
  {
    hide From, PoliteRun, Inv;
    run := FirstTimesOut(t);
    RunStep(Start(), run, ByAt(Answer(1, 1)));
    run := run + [ByAt(Answer(1, 1))];
    RunStep(Start(), run, ByChip(Expire));
    run := run + [ByChip(Expire)];
    RunStep(Start(), run, ByChip(DrainAgain));
    run := run + [ByChip(DrainAgain)];
    RunStep(Start(), run, ByChip(Report));
    run := run + [ByChip(Report)];
    EveryRunKeepsInv(run);
  }

  lemma {:induction false} FromAppend(w: World, a: seq<Event>, b: seq<Event>)
    ensures From(w, a + b) == From(From(w, a), b)
  {
    hide Enabled, Do;
    if b == [] {
      assert a + b == a;
    } else {
      assert (a + b)[..|a + b| - 1] == a + b[..|b| - 1];
      FromAppend(w, a, b[..|b| - 1]);
    }
  }

  /** So from the start on, a second forward can take a token that is not its own and return a denial while its slot is still unanswered. */
  lemma DeniedFromTheStart(t: Target, second: Target) returns (run: seq<Event>)
    ensures var w := After(run);
            && w.chip == Holding && w.gen == 2 && w.box.state == Pending && w.box.target == second
            && ChipDo(w, Collect).log == w.log + [Returned(2, false, false)]
  {
    hide From, PoliteRun, Inv;
    run := StaleGiveIsReachable(t);
    var w, open := After(run), ByChip(Open(second));
    RunStep(Start(), run, open);
    var rest := StaleGiveDecides(w, second);
    FromAppend(Start(), run + [open], rest);
    run := run + [open] + rest;
  }

  /** Exactly then: every token the forward takes means an answered slot iff no give was in flight at its open. */
  lemma HealsIffNoGiveInFlight(w: World, t: Target)
    requires Inv(w) && ChipCan(w, Open(t))
    ensures !w.at.Giving? <==>
      forall run :: PoliteRun(ChipDo(w, Open(t)), run) && From(ChipDo(w, Open(t)), run).chip == Holding ==>
        From(ChipDo(w, Open(t)), run).box.state == Answered
  {
    hide Inv, PoliteRun, From, ChipDo, ChipCan;
    if w.at.Giving? {
      var run := StaleGiveDecides(w, t);
    } else {
      forall run | PoliteRun(ChipDo(w, Open(t)), run) && From(ChipDo(w, Open(t)), run).chip == Holding
        ensures From(ChipDo(w, Open(t)), run).box.state == Answered
      {
        SelfHealing(w, t, run);
      }
    }
  }

  /** A host that answers before the number is on the wire can lose its verdict: accepted, given, drained, and never taken. */
  lemma EarlyAnswerIsLost(w: World) returns (run: seq<Event>)
    requires Inv(w) && w.chip == Published && w.box.state == Pending && w.box.number == w.mine && w.at == Free
    ensures var now := From(w, run);
            && now.chip == Waiting && now.box.state == Answered && now.log == w.log + [Accepted(w.gen, w.mine, 1)]
            && !now.token && now.at == Free && !ChipCan(now, TakeToken) && ChipCan(now, TimeOut)
  {
    hide From, PoliteRun, Polite, Numbered, StageInv, OfferInv, ReadInv, ReadsInv, VerdictInv;
    EmptyRun(w);
    var answer := ByAt(Answer(w.mine, 1));
    run := [answer];
    RunStep(w, [], answer);
    assert [] + [answer] == run;
    var w1 := From(w, run);
    assert w1 == AtDo(w, answer.a);
    RunStep(w, run, ByAt(Give));
    run := run + [ByAt(Give)];
    var w2 := From(w, run);
    assert w2 == AtDo(w1, Give);
    RunStep(w, run, ByChip(Drain));
    run := run + [ByChip(Drain)];
    var w3 := From(w, run);
    assert w3 == ChipDo(w2, Drain);
    RunStep(w, run, ByChip(Announce));
    run := run + [ByChip(Announce)];
  }
}
