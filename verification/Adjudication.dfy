/**
 A controller's command waits for the host's verdict (core/mt/mt_at.c). The CHIP task forwards it and
 blocks on one binary semaphore; the AT task answers it, and streams out the proposed rows on request.
 Every critical section, semaphore take, semaphore give and line written is one step; the steps of the
 two tasks interleave freely. accept and give of AT+MTCMDRESP are two steps.
 */
module Adjudication {
  import opened Prelude
  import opened Rows
  import opened Cmdbox

  /** Where the CHIP task stands in a forward. */
  datatype Chip =
    | Resting
    | Filling               // claimed the inbound stage and writes it
    | Offered               // the stage is readable, no number yet
    | Started               // the slot is open
    | Published | Drained | Waiting
    | Holding               // took the token
    | TimedOut | Expired | Emptied
    | Back(allow: bool)     // the forward has its answer, the stage is still readable
    | Merging(allow: bool)

  /** Where the AT task stands; answer and offer name the generation and the offer it works on. */
  datatype At =
    | Free
    | Giving(answer: nat)
    | Reading(number: nat, offer: nat, idx: Option<nat>, total: nat, next: nat, out: seq<Line>)

  datatype Line = Line(idx: nat, total: nat, row: Row)

  datatype Inbound = Unclaimed | Staging | Readable | Closed

  /** What happened, oldest first. A generation counts opens; an offer is a rows forward and its staged set. */
  datatype Entry =
    | Accepted(gen: nat, number: nat, verdict: int)
    | Collected(gen: nat)
    | Returned(gen: nat, allow: bool, timedOut: bool)
    | Read(number: nat, offer: nat, idx: Option<nat>, out: seq<Line>)

  datatype Offer = Offer(number: nat, staged: Staged)

  datatype World = World(
    box: Box, token: bool,
    chip: Chip, rows: bool, mine: nat,
    at: At,
    inbound: Inbound, inboundNumber: nat, reading: bool, committed: bool, buffer: Staged,
    gen: nat, wire: set<nat>, offers: seq<Offer>, log: seq<Entry>)

  function Start(): World {
    World(FRESH, false, Resting, false, 0, Free, Unclaimed, 0, false, false, Empty(), 0, {}, [], [])
  }

  /** The steps of the CHIP task. */
  datatype ChipStep =
    | Commit
    | Claim | Write(staged: Staged) | Propose | Abandon
    | Open(target: Target) | NotUp
    | Publish | Drain | Announce | TakeToken | TimeOut | Collect | Expire | DrainAgain | Report
    | Close | Release

  /** The steps of the AT task. */
  datatype AtStep =
    | Answer(number: nat, verdict: int) | Give
    | BeginRead(number: nat, ep: nat, kind: nat, idx: Option<nat>) | EmitLine | EndRead

  datatype Event = ByChip(c: ChipStep) | ByAt(a: AtStep)

  /** A set the stage can hold. */
  predicate Holdable(s: Staged) {
    |s.rows| == MAX_ROWS && s.count <= MAX_ROWS
  }

  /** AT+MTROWGET with this number serves the pending set. */
  predicate Serves(w: World, number: nat, ep: nat, kind: nat) {
    && number != 0 && w.inbound == Readable && w.inboundNumber == number && w.committed
    && w.buffer.active && w.buffer.ep == ep && w.buffer.kind == kind
  }

  predicate MoreToEmit(at: At)
    requires at.Reading?
  {
    if at.idx.Some? then at.next == 0 && at.idx.value < at.total else at.next < at.total
  }

  function NextLine(at: At): nat
    requires at.Reading?
  {
    if at.idx.Some? then at.idx.value else at.next
  }

  /** Which steps can be taken. A take that times out found no token. */
  predicate ChipCan(w: World, e: ChipStep) {
    match e
    case Commit => w.chip == Resting && !w.committed
    case Claim => w.chip == Resting && w.inbound == Unclaimed && !w.reading && w.committed
    case Write(s) => w.chip == Filling && Holdable(s)
    case Propose => w.chip == Filling
    case Abandon => w.chip == Filling
    case Open(t) => w.chip == Resting || w.chip == Offered
    case NotUp => w.chip == Offered
    case Publish => w.chip == Started
    case Drain => w.chip == Published
    case Announce => w.chip == Drained
    case TakeToken => w.chip == Waiting && w.token
    case TimeOut => w.chip == Waiting && !w.token
    case Collect => w.chip == Holding
    case Expire => w.chip == TimedOut
    case DrainAgain => w.chip == Expired
    case Report => w.chip == Emptied
    case Close => w.chip.Back?
    case Release => w.chip.Merging?
  }

  predicate AtCan(w: World, e: AtStep) {
    match e
    case Answer(number, verdict) => w.at == Free
    case Give => w.at.Giving?
    case BeginRead(number, ep, kind, idx) => w.at == Free
    case EmitLine => w.at.Reading? && MoreToEmit(w.at) && NextLine(w.at) < |w.buffer.rows|
    case EndRead => w.at.Reading? && !MoreToEmit(w.at)
  }

  predicate Enabled(w: World, e: Event) {
    match e
    case ByChip(c) => ChipCan(w, c)
    case ByAt(a) => AtCan(w, a)
  }

  /** The forward returns: to its caller, or to the rows forward around it. */
  function Return(w: World, entries: seq<Entry>, allow: bool): World {
    w.(chip := if w.rows then Back(allow) else Resting, log := w.log + entries)
  }

  function Released(w: World): World {
    w.(chip := Resting, inbound := Unclaimed, inboundNumber := 0, buffer := w.buffer.(active := false, count := 0))
  }

  function ChipDo(w: World, e: ChipStep): World
    requires ChipCan(w, e)
  {
    match e
    case Commit => w.(committed := true, buffer := Empty())
    case Claim => w.(chip := Filling, inbound := Staging)
    case Write(s) => w.(buffer := s)
    case Propose => w.(chip := Offered, inbound := Readable)
    case Abandon => Released(w)
    case Open(t) =>
      w.(box := Opened(w.box, t), chip := Started, rows := w.chip == Offered, mine := w.box.nextSeq, gen := w.gen + 1,
         offers := if w.chip == Offered then w.offers + [Offer(w.box.nextSeq, w.buffer)] else w.offers)
    case NotUp => w.(chip := Back(false))
    case Publish => w.(chip := Published, inboundNumber := if w.rows then w.mine else w.inboundNumber)
    case Drain => w.(chip := Drained, token := false)
    case Announce => w.(chip := Waiting, wire := w.wire + {w.gen})
    case TakeToken => w.(chip := Holding, token := false)
    case TimeOut => w.(chip := TimedOut)
    case Collect =>
      var verdict := TakenVerdict(w.box, w.mine);
      var returned := Returned(w.gen, verdict == 1, false);
      Return(w.(box := Taken(w.box, w.mine)), if verdict == NO_VERDICT then [returned] else [Collected(w.gen), returned], verdict == 1)
    case Expire => w.(chip := Expired, box := ExpiredBox(w.box, w.mine))
    case DrainAgain => w.(chip := Emptied, token := false)
    case Report => Return(w, [Returned(w.gen, false, true)], false)
    case Close => w.(chip := Merging(w.chip.allow), inbound := Closed)
    case Release => Released(w)
  }

  function LastOffer(w: World): nat {
    if w.offers == [] then 0 else |w.offers| - 1
  }

  function AtDo(w: World, e: AtStep): World
    requires AtCan(w, e)
  {
    match e
    case Answer(number, verdict) =>
      if Accepts(w.box, number, verdict)
      then w.(box := AnsweredBox(w.box, number, verdict), at := Giving(w.gen), log := w.log + [Accepted(w.gen, number, verdict)])
      else w
    case Give => w.(at := Free, token := true)
    case BeginRead(number, ep, kind, idx) =>
      if Serves(w, number, ep, kind)
      then w.(at := Reading(number, LastOffer(w), idx, w.buffer.count, 0, []), reading := true)
      else w
    case EmitLine =>
      var i := NextLine(w.at);
      w.(at := w.at.(next := w.at.next + 1, out := w.at.out + [Line(i, w.at.total, w.buffer.rows[i])]))
    case EndRead => w.(at := Free, reading := false, log := w.log + [Read(w.at.number, w.at.offer, w.at.idx, w.at.out)])
  }

  function Do(w: World, e: Event): World
    requires Enabled(w, e)
  {
    match e
    case ByChip(c) => ChipDo(w, c)
    case ByAt(a) => AtDo(w, a)
  }

  // ---- the invariants ----

  /** The forward has opened its slot and not returned yet. */
  predicate Forwarding(c: Chip) {
    c in {Started, Published, Drained, Waiting, Holding, TimedOut, Expired, Emptied}
  }

  ghost predicate BoxInv(w: World) {
    Numbered(w.box, w.gen) && (Forwarding(w.chip) ==> w.gen > 0 && w.mine == SeqOf(w.gen)) && (forall g <- w.wire :: g <= w.gen)
  }

  /** Who owns the inbound stage, and which number it answers to. */
  ghost predicate StageInv(w: World) {
    && Holdable(w.buffer) && (w.reading || w.inbound != Unclaimed ==> w.committed)
    && (w.chip == Resting ==> w.inbound == Unclaimed && w.inboundNumber == 0)
    && (w.chip == Filling ==> w.inbound == Staging && w.inboundNumber == 0 && !w.reading)
    && (w.chip == Offered ==> w.inbound == Readable && w.inboundNumber == 0)
    && (w.chip == Started && w.rows ==> w.inbound == Readable && w.inboundNumber == 0)
    && (Forwarding(w.chip) && !w.rows ==> w.inbound == Unclaimed && w.inboundNumber == 0)
    && (Forwarding(w.chip) && w.chip != Started && w.rows ==> w.inbound == Readable && w.inboundNumber == w.mine)
    && (w.chip.Back? ==> w.inbound == Readable)
    && (w.chip.Merging? ==> w.inbound == Closed)
  }

  /** While a published number is served, the buffer is the last offer. */
  ghost predicate OfferInv(w: World) {
    && (forall k :: 0 <= k < |w.offers| ==> Holdable(w.offers[k].staged))
    && (Forwarding(w.chip) && w.rows ==> w.offers != [] && w.offers[|w.offers| - 1] == Offer(w.mine, w.buffer))
    && (w.inbound == Readable && w.inboundNumber != 0 ==> w.offers != [] && w.offers[|w.offers| - 1] == Offer(w.inboundNumber, w.buffer))
  }

  function Lines(s: Staged, n: nat): (lines: seq<Line>)
    requires n <= s.count <= |s.rows|
    ensures |lines| == n && forall i :: 0 <= i < n ==> lines[i] == Line(i, s.count, s.rows[i])
  {
    if n == 0 then [] else Lines(s, n - 1) + [Line(n - 1, s.count, s.rows[n - 1])]
  }

  /** What a read of this set answers once n lines are out. */
  function AnswerSoFar(s: Staged, idx: Option<nat>, n: nat): seq<Line>
    requires s.count <= |s.rows| && (if idx.Some? then n <= 1 && (n == 1 ==> idx.value < s.count) else n <= s.count)
  {
    if idx.None? then Lines(s, n) else if n == 1 then [Line(idx.value, s.count, s.rows[idx.value])] else []
  }

  /** A read in flight holds the rows of its offer in place. */
  ghost predicate ReadInv(w: World) {
    && (w.reading <==> w.at.Reading?)
    && (w.at.Reading? ==>
          && w.at.offer < |w.offers| && w.offers[w.at.offer].number == w.at.number
          && var s := w.offers[w.at.offer].staged;
             && Holdable(s) && w.buffer.rows == s.rows && w.at.total == s.count
             && (if w.at.idx.Some? then w.at.next <= 1 && (w.at.next == 1 ==> w.at.idx.value < s.count) else w.at.next <= s.count)
             && w.at.out == AnswerSoFar(s, w.at.idx, w.at.next))
  }

  /** The whole answer to a read of this set. */
  function FullAnswer(s: Staged, idx: Option<nat>): seq<Line>
    requires s.count <= |s.rows|
  {
    if idx.None? then Lines(s, s.count)
    else if idx.value < s.count then [Line(idx.value, s.count, s.rows[idx.value])] else []
  }

  /** Every finished read answered its offer, whole. */
  ghost predicate ReadsInv(w: World) {
    forall i :: 0 <= i < |w.log| && w.log[i].Read? ==>
      && w.log[i].offer < |w.offers| && w.offers[w.log[i].offer].number == w.log[i].number
      && w.offers[w.log[i].offer].staged.count <= |w.offers[w.log[i].offer].staged.rows|
      && w.log[i].out == FullAnswer(w.offers[w.log[i].offer].staged, w.log[i].idx)
  }

  // ---- the log ----

  ghost predicate HasAccepted(log: seq<Entry>, gen: nat) {
    exists i :: 0 <= i < |log| && log[i].Accepted? && log[i].gen == gen
  }

  ghost predicate HasVerdict(log: seq<Entry>, gen: nat, verdict: int) {
    exists i :: 0 <= i < |log| && log[i].Accepted? && log[i].gen == gen && log[i].verdict == verdict
  }

  ghost predicate HasCollected(log: seq<Entry>, gen: nat) {
    exists i :: 0 <= i < |log| && log[i].Collected? && log[i].gen == gen
  }

  /** Some forward of generation gen or later timed out. */
  ghost predicate HasTimedOut(log: seq<Entry>, gen: nat) {
    exists i :: 0 <= i < |log| && log[i].Returned? && log[i].timedOut && log[i].gen >= gen
  }

  /** What the entries before it must show for an entry to be written. */
  ghost predicate EntryOk(before: seq<Entry>, e: Entry) {
    match e
    case Accepted(gen, number, verdict) =>
      gen > 0 && number == SeqOf(gen) && !HasAccepted(before, gen) && !HasTimedOut(before, gen)
    case Collected(gen) => !HasCollected(before, gen) && HasAccepted(before, gen)
    case Returned(gen, allow, timedOut) => gen > 0 && (allow ==> HasVerdict(before, gen, 1) && HasCollected(before, gen))
    case Read(number, offer, idx, out) => true
  }

  ghost predicate LogOk(log: seq<Entry>) {
    log == [] || (LogOk(log[..|log| - 1]) && EntryOk(log[..|log| - 1], log[|log| - 1]))
  }

  /** The slot and the log agree about the current generation. */
  ghost predicate VerdictInv(w: World) {
    && LogOk(w.log)
    && (w.box.state == Pending ==> !HasAccepted(w.log, w.gen) && !HasTimedOut(w.log, w.gen))
    && (w.box.state == Pending || w.box.state == Answered ==> !HasCollected(w.log, w.gen))
    && (w.box.state == Answered ==> HasVerdict(w.log, w.gen, w.box.verdict))
    && (w.chip == Expired || w.chip == Emptied ==> w.box.state != Pending)
    && (forall g :: g > w.gen ==> !HasAccepted(w.log, g) && !HasCollected(w.log, g) && !HasTimedOut(w.log, g))
  }

  ghost predicate Inv(w: World) {
    BoxInv(w) && StageInv(w) && OfferInv(w) && ReadInv(w) && ReadsInv(w) && VerdictInv(w)
  }

  // ---- every step keeps them ----

  lemma ChipKeepsBox(w: World, e: ChipStep)
    requires BoxInv(w) && ChipCan(w, e)
    ensures BoxInv(ChipDo(w, e))
  {
    hide SeqOf, Numbered;
    if e.Open? {
      OpensNumbered(w, e.target);
    } else {
      OperationsKeepNumbering(w.box, w.gen, Target(0, 0, 0), w.mine, 0);
    }
  }

  lemma OpensNumbered(w: World, t: Target)
    requires Numbered(w.box, w.gen)
    ensures Numbered(Opened(w.box, t), w.gen + 1) && w.box.nextSeq == SeqOf(w.gen + 1)
  {
    hide SeqOf;
    OperationsKeepNumbering(w.box, w.gen, t, 0, 0);
  }

  lemma AtKeepsBox(w: World, e: AtStep)
    requires BoxInv(w) && AtCan(w, e)
    ensures BoxInv(AtDo(w, e))
  {
  }

  lemma ChipKeepsStage(w: World, e: ChipStep)
    requires BoxInv(w) && StageInv(w) && ChipCan(w, e)
    ensures StageInv(ChipDo(w, e))
  {
    hide Numbered;
  }

  lemma AtKeepsStage(w: World, e: AtStep)
    requires StageInv(w) && ReadInv(w) && AtCan(w, e)
    ensures StageInv(AtDo(w, e))
  {
  }

  lemma ChipKeepsOffer(w: World, e: ChipStep)
    requires BoxInv(w) && StageInv(w) && OfferInv(w) && ChipCan(w, e)
    ensures OfferInv(ChipDo(w, e))
  {
    hide Numbered;
  }

  lemma AtKeepsOffer(w: World, e: AtStep)
    requires OfferInv(w) && AtCan(w, e)
    ensures OfferInv(AtDo(w, e))
  {
  }

  lemma ChipKeepsRead(w: World, e: ChipStep)
    requires StageInv(w) && ReadInv(w) && ReadsInv(w) && ChipCan(w, e)
    ensures ReadInv(ChipDo(w, e)) && ReadsInv(ChipDo(w, e))
  {
    hide AnswerSoFar, FullAnswer;
  }

  lemma AtKeepsRead(w: World, e: AtStep)
    requires StageInv(w) && OfferInv(w) && ReadInv(w) && AtCan(w, e)
    ensures ReadInv(AtDo(w, e))
  {
  }

  lemma AtKeepsReads(w: World, e: AtStep)
    requires ReadInv(w) && ReadsInv(w) && AtCan(w, e)
    ensures ReadsInv(AtDo(w, e))
  {
  }

  /** What one more entry adds to the log. */
  lemma Appended(log: seq<Entry>, e: Entry)
    ensures LogOk(log + [e]) <==> LogOk(log) && EntryOk(log, e)
    ensures forall g :: HasAccepted(log + [e], g) <==> HasAccepted(log, g) || (e.Accepted? && e.gen == g)
    ensures forall g, v :: HasVerdict(log + [e], g, v) <==> HasVerdict(log, g, v) || (e.Accepted? && e.gen == g && e.verdict == v)
    ensures forall g :: HasCollected(log + [e], g) <==> HasCollected(log, g) || (e.Collected? && e.gen == g)
    ensures forall g :: HasTimedOut(log + [e], g) <==> HasTimedOut(log, g) || (e.Returned? && e.timedOut && e.gen >= g)
  {
    hide EntryOk;
    var more := log + [e];
    assert more[..|more| - 1] == log && more[|log|] == e;
    forall g ensures HasAccepted(log, g) ==> HasAccepted(more, g) {
      if i :| 0 <= i < |log| && log[i].Accepted? && log[i].gen == g { assert more[i] == log[i]; }
    }
    forall g, v ensures HasVerdict(log, g, v) ==> HasVerdict(more, g, v) {
      if i :| 0 <= i < |log| && log[i].Accepted? && log[i].gen == g && log[i].verdict == v { assert more[i] == log[i]; }
    }
    forall g ensures HasCollected(log, g) ==> HasCollected(more, g) {
      if i :| 0 <= i < |log| && log[i].Collected? && log[i].gen == g { assert more[i] == log[i]; }
    }
    forall g ensures HasTimedOut(log, g) ==> HasTimedOut(more, g) {
      if i :| 0 <= i < |log| && log[i].Returned? && log[i].timedOut && log[i].gen >= g { assert more[i] == log[i]; }
    }
  }

  lemma VerdictIsAccepted(log: seq<Entry>, g: nat, v: int)
    requires HasVerdict(log, g, v)
    ensures HasAccepted(log, g)
  {
  }

  lemma CollectKeepsVerdict(w: World)
    requires BoxInv(w) && VerdictInv(w) && ChipCan(w, Collect)
    ensures VerdictInv(ChipDo(w, Collect))
  {
    hide HasAccepted, HasVerdict, HasCollected, HasTimedOut, LogOk;
    var verdict := TakenVerdict(w.box, w.mine);
    var returned := Returned(w.gen, verdict == 1, false);
    if verdict == NO_VERDICT {
      Appended(w.log, returned);
    } else {
      VerdictIsAccepted(w.log, w.gen, verdict);
      Appended(w.log, Collected(w.gen));
      Appended(w.log + [Collected(w.gen)], returned);
      assert w.log + [Collected(w.gen), returned] == w.log + [Collected(w.gen)] + [returned];
    }
  }

  lemma ChipKeepsVerdict(w: World, e: ChipStep)
    requires BoxInv(w) && VerdictInv(w) && ChipCan(w, e)
    ensures VerdictInv(ChipDo(w, e))
  {
    hide HasAccepted, HasVerdict, HasCollected, HasTimedOut, LogOk;
    if e == Collect {
      CollectKeepsVerdict(w);
    } else if e == Report {
      Appended(w.log, Returned(w.gen, false, true));
    }
  }

  lemma AtKeepsVerdict(w: World, e: AtStep)
    requires BoxInv(w) && VerdictInv(w) && AtCan(w, e)
    ensures VerdictInv(AtDo(w, e))
  {
    hide HasAccepted, HasVerdict, HasCollected, HasTimedOut, LogOk;
    if e.Answer? {
      Appended(w.log, Accepted(w.gen, e.number, e.verdict));
    } else if e.EndRead? {
      Appended(w.log, Read(w.at.number, w.at.offer, w.at.idx, w.at.out));
    }
  }

  lemma StepKeepsInv(w: World, e: Event)
    requires Inv(w) && Enabled(w, e)
    ensures Inv(Do(w, e))
  {
    hide BoxInv, StageInv, OfferInv, ReadInv, ReadsInv, VerdictInv, ChipCan, AtCan, ChipDo, AtDo;
    match e
    case ByChip(c) =>
      ChipKeepsBox(w, c);
      ChipKeepsStage(w, c);
      ChipKeepsOffer(w, c);
      ChipKeepsRead(w, c);
      ChipKeepsVerdict(w, c);
    case ByAt(a) =>
      AtKeepsBox(w, a);
      AtKeepsStage(w, a);
      AtKeepsOffer(w, a);
      AtKeepsRead(w, a);
      AtKeepsReads(w, a);
      AtKeepsVerdict(w, a);
  }
}
