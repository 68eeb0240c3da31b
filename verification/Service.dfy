/**
 What the two tasks do for each other when asked: which answers of the host are taken, which reads of the pending rows
 are served, when the stage can be claimed, and how a forward goes through.
 */
module Service {
  import opened Prelude
  import opened Rows
  import opened Cmdbox
  import opened Adjudication
  import opened Verdicts

  // ---- AT+MTCMDRESP ----

  /**
   In every reachable world the host's answer is taken exactly if a command is pending, it names the number that command
   was given, and it is 0 or 1; any other answer changes nothing.
   */
  lemma AnswerIsTaken(run: seq<Event>, number: nat, verdict: int)
    requires After(run).at == Free
    ensures var w := After(run); var answered := AtDo(w, Answer(number, verdict));
            if w.box.state == Pending && w.gen > 0 && number == SeqOf(w.gen) && (verdict == 0 || verdict == 1)
            then answered == w.(at := Giving(w.gen), box := w.box.(state := Answered, verdict := verdict),
                                log := w.log + [Accepted(w.gen, number, verdict)])
            else answered == w
  {
    EveryRunKeepsInv(run);
    hide StageInv, OfferInv, ReadInv, ReadsInv, VerdictInv, From, SeqOf;
  }

  lemma RunFour(w: World, a: Event, b: Event, c: Event, d: Event)
    requires Enabled(w, a) && Enabled(Do(w, a), b) && Enabled(Do(Do(w, a), b), c) && Enabled(Do(Do(Do(w, a), b), c), d)
    ensures From(w, [a, b, c, d]) == Do(Do(Do(Do(w, a), b), c), d)
  {
    hide Enabled, Do;
    assert [a, b, c, d][..3] == [a, b, c] && [a, b, c][..2] == [a, b] && [a, b][..1] == [a] && [a][..0] == [];
    assert From(w, [a]) == Do(w, a);
    assert From(w, [a, b]) == Do(Do(w, a), b);
    assert From(w, [a, b, c]) == Do(Do(Do(w, a), b), c);
  }

  /** While a forward waits for it, the host's answer, given and collected, is what the forward returns. */
  lemma AnswerIsReturned(run: seq<Event>, verdict: int)
    requires var w := After(run); w.chip == Waiting && w.box.state == Pending && w.at == Free
    requires verdict == 0 || verdict == 1
    ensures After(run).gen > 0
    ensures var w := After(run);
            var now := From(w, [ByAt(Answer(SeqOf(w.gen), verdict)), ByAt(Give), ByChip(TakeToken), ByChip(Collect)]);
            && now.log == w.log + [Accepted(w.gen, SeqOf(w.gen), verdict), Collected(w.gen), Returned(w.gen, verdict == 1, false)]
            && now.box.state == Idle && !now.token && now.at == Free
            && now.buffer == w.buffer && now.offers == w.offers && now.gen == w.gen
            && now.chip == if w.rows then Back(verdict == 1) else Resting
  {
    EveryRunKeepsInv(run);
    hide StageInv, OfferInv, ReadInv, ReadsInv, VerdictInv, From, SeqOf;
    var w := After(run);
    AnswerIsTaken(run, SeqOf(w.gen), verdict);
    RunFour(w, ByAt(Answer(SeqOf(w.gen), verdict)), ByAt(Give), ByChip(TakeToken), ByChip(Collect));
    assert w.log + [Accepted(w.gen, SeqOf(w.gen), verdict)] + [Collected(w.gen), Returned(w.gen, verdict == 1, false)]
        == w.log + [Accepted(w.gen, SeqOf(w.gen), verdict), Collected(w.gen), Returned(w.gen, verdict == 1, false)];
  }

  // ---- AT+MTROWGET with a number ----

  /** A rows forward has published its number, and has not been closed. */
  predicate Published(w: World) {
    || (w.rows && w.chip in {Chip.Published, Drained, Waiting, Holding, TimedOut, Expired, Emptied})
    || (w.chip.Back? && w.inboundNumber != 0)
  }

  /** The read asks for the pending set: by its number, for the endpoint and the kind it is for. */
  predicate AsksFor(o: Offer, number: nat, ep: nat, kind: nat) {
    number == o.number && ep == o.staged.ep && kind == o.staged.kind
  }

  /**
   In every reachable world a numbered read is begun exactly if a set is published and open, and the read asks for it; it
   is a read of the last offer, with the count of that set. Any other changes nothing.
   */
  lemma PublishedIsServed(run: seq<Event>, number: nat, ep: nat, kind: nat, idx: Option<nat>)
    requires After(run).at == Free
    ensures var w := After(run); var begun := AtDo(w, BeginRead(number, ep, kind, idx));
            if Published(w) && w.offers != [] && w.offers[|w.offers| - 1].staged.active && AsksFor(w.offers[|w.offers| - 1], number, ep, kind)
            then begun == w.(at := Reading(number, |w.offers| - 1, idx, w.offers[|w.offers| - 1].staged.count, 0, []), reading := true)
            else begun == w
    ensures Published(After(run)) ==> After(run).offers != [] && After(run).offers[|After(run).offers| - 1].number != 0
  {
    EveryRunKeepsInv(run);
    EveryRunKeepsMerge(run);
    hide ReadInv, ReadsInv, VerdictInv, From, SeqOf, HasVerdict;
  }

  /** AT steps alone take a read that was begun to its end, and it answers the whole of its set. */
  lemma {:induction false} ReadFinishes(w: World) returns (more: seq<Event>)
    requires ReadInv(w) && StageInv(w) && w.at.Reading?
    ensures OnlyAt(more)
    ensures var now := From(w, more); var s := w.offers[w.at.offer].staged;
            && now.at == Free && s.count <= |s.rows|
            && now.log == w.log + [Read(w.at.number, w.at.offer, w.at.idx, FullAnswer(s, w.at.idx))]
    decreases if MoreToEmit(w.at) then w.at.total + 1 - w.at.next else 0
  {
    hide From;
    if MoreToEmit(w.at) {
      var next := AtDo(w, EmitLine);
      EmittingKeepsRead(w);
      var rest := ReadFinishes(next);
      FirstStep(w, ByAt(EmitLine), rest);
      more := [ByAt(EmitLine)] + rest;
    } else {
      FirstStep(w, ByAt(EndRead), []);
      more := [ByAt(EndRead)] + [];
      NoSteps(AtDo(w, EndRead));
      WholeAnswer(w);
    }
  }

  lemma EmittingKeepsRead(w: World)
    requires ReadInv(w) && StageInv(w) && w.at.Reading? && MoreToEmit(w.at)
    ensures AtCan(w, EmitLine)
    ensures var next := AtDo(w, EmitLine); ReadInv(next) && StageInv(next) && next == w.(at := w.at.(next := w.at.next + 1, out := next.at.out))
  {
  }

  lemma WholeAnswer(w: World)
    requires ReadInv(w) && w.at.Reading? && !MoreToEmit(w.at)
    ensures w.at.out == FullAnswer(w.offers[w.at.offer].staged, w.at.idx)
  {
  }

  lemma NoSteps(w: World)
    ensures From(w, []) == w
  {
  }

  lemma {:induction false} FirstStep(w: World, e: Event, rest: seq<Event>)
    requires Enabled(w, e)
    ensures From(w, [e] + rest) == From(Do(w, e), rest)
    decreases |rest|
  {
    hide Enabled, Do;
    if rest == [] {
      assert [e] + rest == [e] && [e][..0] == [] && From(w, []) == w;
    } else {
      var init := rest[..|rest| - 1];
      FirstStep(w, e, init);
      assert ([e] + rest)[..|rest|] == [e] + init;
    }
  }

  /** A read of the pending set is served whole: begun now, it ends, by AT steps alone, having answered all that was asked of that set. */
  lemma ReadIsAnswered(run: seq<Event>, idx: Option<nat>) returns (more: seq<Event>)
    requires var w := After(run);
             w.at == Free && Published(w) && w.offers != [] && w.offers[|w.offers| - 1].staged.active
    ensures OnlyAt(more)
    ensures var w := After(run); var o := w.offers[|w.offers| - 1];
            var now := From(AtDo(w, BeginRead(o.number, o.staged.ep, o.staged.kind, idx)), more);
            && o.staged.count <= |o.staged.rows|
            && now.at == Free && now.log == w.log + [Read(o.number, |w.offers| - 1, idx, FullAnswer(o.staged, idx))]
  {
    hide Inv, From, FullAnswer;
    var w := After(run);
    var o := w.offers[|w.offers| - 1];
    var begin := ByAt(BeginRead(o.number, o.staged.ep, o.staged.kind, idx));
    PublishedIsServed(run, o.number, o.staged.ep, o.staged.kind, idx);
    EveryRunKeepsInv(run);
    StepKeepsInv(w, begin);
    var begun := Do(w, begin);
    assert ReadInv(begun) && StageInv(begun) by {
      InvHoldsReads(begun);
    }
    more := ReadFinishes(begun);
  }

  lemma InvHoldsReads(w: World)
    requires Inv(w)
    ensures ReadInv(w) && StageInv(w)
  {
  }

  // ---- a forward from end to end ----

  /** In every reachable world where no forward is under way the stage can be claimed exactly if its storage is there and nobody still reads. */
  lemma ClaimIsGranted(run: seq<Event>)
    requires After(run).chip == Resting
    ensures ChipCan(After(run), Claim) <==> After(run).committed && !After(run).at.Reading?
  {
    EveryRunKeepsInv(run);
    hide BoxInv, OfferInv, ReadsInv, VerdictInv, From;
  }

  /** The stage filled, proposed and opened: the offer is out under the next number. */
  lemma Offers(w: World, s: Staged, t: Target) returns (run: seq<Event>)
    requires ChipCan(w, Claim) && Holdable(s)
    ensures From(w, run) == w.(chip := Chip.Started, rows := true, inbound := Readable, buffer := s,
                               box := Opened(w.box, t), mine := w.box.nextSeq, gen := w.gen + 1,
                               offers := w.offers + [Offer(w.box.nextSeq, s)])
  {
    hide From;
    run := [ByChip(Claim), ByChip(Write(s)), ByChip(Propose), ByChip(Open(t))];
    RunFour(w, run[0], run[1], run[2], run[3]);
  }

  /** The number published, an old token drained, the line written: the forward waits. */
  lemma Waits(w: World) returns (run: seq<Event>)
    requires w.chip == Chip.Started && w.rows
    ensures From(w, run) == w.(chip := Waiting, inboundNumber := w.mine, token := false, wire := w.wire + {w.gen})
  {
    hide From;
    var w1 := ChipDo(w, Publish);
    var w2 := ChipDo(w1, Drain);
    run := [ByChip(Publish)] + ([ByChip(Drain)] + ([ByChip(Announce)] + []));
    FirstStep(w, ByChip(Publish), [ByChip(Drain)] + ([ByChip(Announce)] + []));
    FirstStep(w1, ByChip(Drain), [ByChip(Announce)] + []);
    FirstStep(w2, ByChip(Announce), []);
    NoSteps(ChipDo(w2, Announce));
  }

  lemma {:induction false} Continued(w: World, a: seq<Event>, b: seq<Event>)
    ensures From(w, a + b) == From(From(w, a), b)
  {
    hide Enabled, Do;
    if b == [] {
      assert a + b == a;
    } else {
      assert (a + b)[..|a + b| - 1] == a + b[..|b| - 1];
      Continued(w, a, b[..|b| - 1]);
    }
  }

  /**
   From any reachable world at rest with the stage free, a forward of any set reaches its merge: the host is offered that
   set, its answer 0 or 1 is taken, collected and returned, and what stands to be merged, if it was 1, is that set.
   */
  lemma ForwardGoesThrough(run: seq<Event>, s: Staged, t: Target, verdict: int) returns (more: seq<Event>)
    requires After(run).chip == Resting && After(run).at == Free && After(run).committed
    requires Holdable(s) && (verdict == 0 || verdict == 1)
    ensures var w := After(run); var now := After(run + more);
            && now.chip == Merging(verdict == 1) && now.buffer == s && now.gen == w.gen + 1
            && now.offers == w.offers + [Offer(SeqOf(w.gen + 1), s)]
            && now.log == w.log + [Accepted(w.gen + 1, SeqOf(w.gen + 1), verdict), Collected(w.gen + 1), Returned(w.gen + 1, verdict == 1, false)]
  {
    hide From, Inv, Enabled, SeqOf;
    var w := After(run);
    ClaimIsGranted(run);
    NextNumber(run);
    var offer := Offers(w, s, t);
    Continued(Start(), run, offer);
    var wait := Waits(From(w, offer));
    Continued(Start(), run + offer, wait);
    var waiting := run + offer + wait;
    var n := After(waiting).gen;
    AnswerIsReturned(waiting, verdict);
    var answer := [ByAt(Answer(SeqOf(n), verdict)), ByAt(Give), ByChip(TakeToken), ByChip(Collect)];
    Continued(Start(), waiting, answer);
    Closes(From(After(waiting), answer));
    Continued(Start(), waiting + answer, [ByChip(Close)]);
    more := offer + wait + answer + [ByChip(Close)];
    assert waiting + answer + [ByChip(Close)] == run + more;
  }

  lemma NextNumber(run: seq<Event>)
    ensures After(run).box.nextSeq == SeqOf(After(run).gen + 1)
  {
    EveryRunKeepsInv(run);
    hide SeqOf;
  }

  lemma Closes(w: World)
    requires w.chip.Back?
    ensures From(w, [ByChip(Close)]) == ChipDo(w, Close)
  {
    NoSteps(w);
    assert [ByChip(Close)][..0] == [];
  }
}
