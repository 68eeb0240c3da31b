/**
 What every interleaving of the two tasks guarantees: who can let a forward through, what a read answers, and what is
 merged afterwards.
 */
module Verdicts {
  import opened Prelude
  import opened Rows
  import opened Cmdbox
  import opened Adjudication

  /** The world a run leads to; a step that cannot be taken is none. */
  function From(w: World, run: seq<Event>): World {
    if run == [] then w
    else
      var w' := From(w, run[..|run| - 1]);
      if Enabled(w', run[|run| - 1]) then Do(w', run[|run| - 1]) else w'
  }

  function After(run: seq<Event>): World {
    From(Start(), run)
  }

  lemma {:induction false} EveryRunKeepsInv(run: seq<Event>)
    ensures Inv(After(run))
  {
    if run == [] {
      assert Inv(Start());
    } else {
      var w := After(run[..|run| - 1]);
      EveryRunKeepsInv(run[..|run| - 1]);
      if Enabled(w, run[|run| - 1]) {
        StepKeepsInv(w, run[|run| - 1]);
      }
    }
  }

  lemma {:induction false} LogEntryOk(log: seq<Entry>, k: nat)
    requires LogOk(log) && k < |log|
    ensures EntryOk(log[..k], log[k])
  {
    hide EntryOk;
    if k < |log| - 1 {
      LogEntryOk(log[..|log| - 1], k);
      assert log[..|log| - 1][..k] == log[..k];
    }
  }

  /**
   A forward returns true only if, after its slot was opened and before it returned, the host answered 1 to
   the number it was given and that answer was accepted; and that answer was collected in between.
   */
  lemma AllowedOnlyByTheHost(run: seq<Event>, k: nat) returns (a: nat, c: nat)
    requires k < |After(run).log| && After(run).log[k].Returned? && After(run).log[k].allow
    ensures a < k && c < k
    ensures var log := After(run).log;
            log[k].gen > 0 && log[a] == Accepted(log[k].gen, SeqOf(log[k].gen), 1) && log[c] == Collected(log[k].gen)
  {
    var log := After(run).log;
    EveryRunKeepsInv(run);
    LogEntryOk(log, k);
    a :| 0 <= a < k && log[..k][a].Accepted? && log[..k][a].gen == log[k].gen && log[..k][a].verdict == 1;
    c :| 0 <= c < k && log[..k][c].Collected? && log[..k][c].gen == log[k].gen;
    LogEntryOk(log, a);
  }

  /** No generation is answered twice, and no answer is collected twice or without having been accepted. */
  lemma AnsweredAndCollectedOnce(run: seq<Event>, i: nat, j: nat)
    requires i < j < |After(run).log|
    ensures var log := After(run).log;
            && !(log[i].Accepted? && log[j].Accepted? && log[i].gen == log[j].gen)
            && !(log[i].Collected? && log[j].Collected? && log[i].gen == log[j].gen)
            && (log[j].Collected? ==> HasAccepted(log[..j], log[j].gen))
  {
    var log := After(run).log;
    EveryRunKeepsInv(run);
    LogEntryOk(log, j);
    assert log[..j][i] == log[i];
  }

  /**
   Once a forward has timed out, an answer naming its number is accepted only for a later forward, and not
   before the counter has gone all the way round.
   */
  lemma NoAnswerAfterTimeout(run: seq<Event>, i: nat, j: nat)
    requires i < j < |After(run).log|
    requires After(run).log[i].Returned? && After(run).log[i].timedOut && After(run).log[j].Accepted?
    ensures 0 < After(run).log[i].gen < After(run).log[j].gen
    ensures After(run).log[j].number == SeqOf(After(run).log[i].gen) ==> After(run).log[j].gen >= After(run).log[i].gen + CYCLE
  {
    var log := After(run).log;
    EveryRunKeepsInv(run);
    LogEntryOk(log, i);
    LogEntryOk(log, j);
    assert log[..j][i] == log[i];
    if log[j].gen < log[i].gen + CYCLE {
      NoNumberRepeats(log[i].gen, log[j].gen);
    }
  }

  /**
   Every finished AT+MTROWGET that named a number answered exactly the set the CHIP task had staged when it
   opened that number, however the forward ended meanwhile.
   */
  lemma ReadAnswersTheStagedSet(run: seq<Event>, k: nat)
    requires k < |After(run).log| && After(run).log[k].Read?
    ensures var w := After(run); var r := w.log[k];
            && r.offer < |w.offers| && w.offers[r.offer].number == r.number && w.offers[r.offer].staged.count <= MAX_ROWS
            && |w.offers[r.offer].staged.rows| == MAX_ROWS
            && r.out == FullAnswer(w.offers[r.offer].staged, r.idx)
  {
    EveryRunKeepsInv(run);
  }

  /** From the answer to the release the buffer is what was offered under the number, and true means the host allowed that number. */
  ghost predicate MergeInv(w: World) {
    w.chip.Back? || w.chip.Merging? ==>
      && (w.inboundNumber != 0 ==>
            w.gen > 0 && w.inboundNumber == SeqOf(w.gen) && w.offers != [] && w.offers[|w.offers| - 1] == Offer(w.inboundNumber, w.buffer))
      && (w.chip.allow ==> w.inboundNumber != 0 && HasVerdict(w.log, w.gen, 1))
  }

  lemma CollectReachesMerge(w: World)
    requires BoxInv(w) && StageInv(w) && OfferInv(w) && VerdictInv(w) && ChipCan(w, Collect)
    ensures MergeInv(ChipDo(w, Collect))
  {
    hide HasAccepted, HasVerdict, HasCollected, HasTimedOut, LogOk, AnswerSoFar;
    var verdict := TakenVerdict(w.box, w.mine);
    var returned := Returned(w.gen, verdict == 1, false);
    if verdict != NO_VERDICT {
      Appended(w.log, Collected(w.gen));
      Appended(w.log + [Collected(w.gen)], returned);
      assert w.log + [Collected(w.gen), returned] == w.log + [Collected(w.gen)] + [returned];
    }
  }

  lemma ChipKeepsMerge(w: World, e: ChipStep)
    requires BoxInv(w) && StageInv(w) && OfferInv(w) && VerdictInv(w) && MergeInv(w) && ChipCan(w, e)
    ensures MergeInv(ChipDo(w, e))
  {
    hide HasAccepted, HasVerdict, HasCollected, HasTimedOut, LogOk, AnswerSoFar, VerdictInv, Holdable;
    if e == Collect {
      CollectReachesMerge(w);
    }
  }

  lemma AtKeepsMerge(w: World, e: AtStep)
    requires MergeInv(w) && AtCan(w, e)
    ensures MergeInv(AtDo(w, e))
  {
    hide HasAccepted, HasVerdict, HasCollected, HasTimedOut, LogOk;
    if e.Answer? {
      Appended(w.log, Accepted(w.gen, e.number, e.verdict));
    } else if e.EndRead? {
      Appended(w.log, Read(w.at.number, w.at.offer, w.at.idx, w.at.out));
    }
  }

  lemma {:induction false} EveryRunKeepsMerge(run: seq<Event>)
    ensures MergeInv(After(run))
  {
    hide Inv, MergeInv, ChipDo, AtDo, ChipCan, AtCan;
    if run == [] {
      StartHasNothingToMerge();
    } else {
      var w := After(run[..|run| - 1]);
      EveryRunKeepsMerge(run[..|run| - 1]);
      EveryRunKeepsInv(run[..|run| - 1]);
      InvParts(w);
      match run[|run| - 1]
      case ByChip(c) => if ChipCan(w, c) { ChipKeepsMerge(w, c); }
      case ByAt(a) => if AtCan(w, a) { AtKeepsMerge(w, a); }
    }
  }

  lemma StartHasNothingToMerge()
    ensures MergeInv(Start())
  {
  }

  lemma InvParts(w: World)
    requires Inv(w)
    ensures BoxInv(w) && StageInv(w) && OfferInv(w) && VerdictInv(w)
  {
  }

  /**
   When a forward that returned true goes on to merge, the buffer it merges is the very set that was offered
   under the number of that forward, and it is that number the host answered with 1: nothing the host did not
   see, and nothing it refused, is ever merged.
   */
  lemma MergedSetWasAllowed(run: seq<Event>) returns (a: nat)
    requires After(run).chip == Merging(true)
    ensures var w := After(run);
            && w.gen > 0 && w.offers != [] && w.offers[|w.offers| - 1] == Offer(SeqOf(w.gen), w.buffer)
            && a < |w.log| && w.log[a] == Accepted(w.gen, SeqOf(w.gen), 1)
  {
    hide From;
    EveryRunKeepsMerge(run);
    EveryRunKeepsInv(run);
    var w := After(run);
    a :| 0 <= a < |w.log| && w.log[a].Accepted? && w.log[a].gen == w.gen && w.log[a].verdict == 1;
    LogEntryOk(w.log, a);
  }

  predicate OnlyAt(run: seq<Event>) {
    forall k :: 0 <= k < |run| ==> run[k].ByAt?
  }

  lemma AtStepLeavesTheBuffer(w: World, e: AtStep)
    requires AtCan(w, e)
    ensures AtDo(w, e).buffer == w.buffer && AtDo(w, e).chip == w.chip && AtDo(w, e).offers == w.offers
    ensures AtDo(w, e).box.nextSeq == w.box.nextSeq
  {
  }

  lemma {:induction false} AtLeavesTheBuffer(w: World, run: seq<Event>)
    requires OnlyAt(run)
    ensures From(w, run).buffer == w.buffer && From(w, run).chip == w.chip && From(w, run).offers == w.offers
    ensures From(w, run).box.nextSeq == w.box.nextSeq
  {
    hide AtDo, AtCan;
    if run != [] {
      var w', e := From(w, run[..|run| - 1]), run[|run| - 1];
      AtLeavesTheBuffer(w, run[..|run| - 1]);
      if AtCan(w', e.a) {
        AtStepLeavesTheBuffer(w', e.a);
      }
    }
  }

  /** The set offered under a number is the set as the CHIP task had filled it, whatever the AT task does before the open. */
  lemma OfferIsTheFilledSet(w: World, between: seq<Event>, t: Target)
    requires w.chip == Filling && OnlyAt(between)
    ensures var proposed := From(ChipDo(w, Propose), between);
            && ChipCan(proposed, Open(t))
            && ChipDo(proposed, Open(t)).offers == w.offers + [Offer(w.box.nextSeq, w.buffer)]
            && ChipDo(proposed, Open(t)).mine == w.box.nextSeq
  {
    AtLeavesTheBuffer(ChipDo(w, Propose), between);
  }

  /** While a read is in flight its rows stay put, no claim is granted, and the read itself can always go on. */
  lemma ReadHoldsTheBuffer(run: seq<Event>, e: Event)
    requires After(run).at.Reading?
    ensures var w := After(run);
            && !ChipCan(w, Claim) && w.chip != Filling
            && (Enabled(w, e) ==> Do(w, e).buffer.rows == w.buffer.rows)
            && (AtCan(w, EmitLine) || AtCan(w, EndRead))
  {
    EveryRunKeepsInv(run);
    hide BoxInv, VerdictInv, ReadsInv, OfferInv, From, AnswerSoFar, Lines, FullAnswer, Serves;
  }
}
