/**
 What the block relay promises its host, each with the exact condition under which it does, and the runs that break
 it otherwise.
 */
module OtaRelay {
  import opened Prelude
  import opened OtaLines
  import opened OtaMachine
  import opened OtaAttempt

  // ---- what an attempt promises ----

  /** Every block counted was delivered and acknowledged, in order; DOWNLOADED raised once, when the file is over and all of them were. */
  predicate Accounts(w: World) {
    w.buf.Some? ==>
      && w.counted <= w.acked <= |w.delivered| && w.downloaded == Sum(w.delivered[..w.counted])
      && w.raised == (if w.finalized && w.counted == |w.delivered| then 1 else 0)
  }

  /** A pending block lies in the buffer as it was delivered, and no other can be copied over it. */
  predicate Kept(w: World) {
    w.pending ==>
      && w.blkLen == |Last(w.delivered)| && w.mem[..w.blkLen] == Last(w.delivered)
      && !(w.matter == Loop && w.download == Fetching)
  }

  /** The lines come at offsets 0, 96, 192, ... and decode to the block. */
  predicate Exact(p: Pull) {
    p.block != [] && (forall i :: 0 <= i < |p.out| ==> p.out[i].off == CHUNK * i) && Decoded(p.out) == p.block
  }

  /** So did every pull that ended OK from the given one on, unless its block was replaced by one of the same number. */
  predicate PullsExact(w: World, first: nat) {
    forall i :: first <= i < |w.pulls| && NotReplaced(w.relays, w.pulls[i].number, w.pulls[i].since, w.pulls[i].until) ==> Exact(w.pulls[i])
  }

  lemma InvPromises(w: World, first: nat)
    requires AttemptInv(w, first)
    ensures Accounts(w) && Kept(w)
  {
    hide OneBegin, FlightOk, Sum, PullOk, PullsOk;
  }

  lemma WholeIsExact(p: Pull)
    requires Whole(p)
    ensures Exact(p)
  {
    hide Lines, Decoded;
    LinesDecode(p.block, WholeLines(p.block));
  }

  lemma InvExact(w: World, first: nat)
    requires AttemptInv(w, first)
    ensures PullsExact(w, first)
  {
    hide LiveInv, Attempt, PullOk, Whole, Exact, NotReplaced;
    forall i | first <= i < |w.pulls| && NotReplaced(w.relays, w.pulls[i].number, w.pulls[i].since, w.pulls[i].until)
      ensures Exact(w.pulls[i])
    {
      WholeIsExact(w.pulls[i]);
    }
  }

  lemma CleanStarts(w: World, content: Memory)
    requires LiveInv(w) && MatterCan(w, Prepare(Some(content))) && Clean(w)
    ensures AttemptInv(Prepared(w, content), |w.pulls|)
  {
    hide LiveInv, Attempt, Clean;
    PreparingKeepsLive(w, Some(content));
    CleanPreparation(w, content);
  }

  lemma CleanKeepsPromises(w: World, content: Memory, run: seq<Event>)
    requires LiveInv(w) && MatterCan(w, Prepare(Some(content))) && Clean(w)
    requires From(Prepared(w, content), run).allocs == w.allocs + 1
    ensures var now := From(Prepared(w, content), run); Accounts(now) && Kept(now) && PullsExact(now, |w.pulls|)
  {
    hide LiveInv, MatterCan, Clean, AttemptInv, From, Accounts, Kept, PullsExact;
    CleanStarts(w, content);
    AttemptStays(Prepared(w, content), run, |w.pulls|);
    InvPromises(From(Prepared(w, content), run), |w.pulls|);
    InvExact(From(Prepared(w, content), run), |w.pulls|);
  }

  // ---- an attempt that is not clean ----

  /** Nothing of the attempt has happened yet. */
  predicate Fresh(w: World) {
    && w.buf.Some? && w.matter == Loop && w.pendingLen == 0 && !w.finalized && w.downloaded == 0 && !w.pending
    && w.delivered == [] && w.acked == 0 && w.counted == 0 && w.raised == 0
  }

  /** The first block is about to come, and an acknowledgement of its number is already queued. */
  predicate Poised(w: World) {
    Fresh(w) && w.download == Fetching && w.mode && w.at == Free && w.queue == [Ack(w.number)]
  }

  lemma RunOne(w: World, e: Event)
    requires Enabled(w, e)
    ensures From(w, [e]) == Do(w, e)
  {
    EmptyRun(w);
    RunStep(w, [], e);
    assert [] + [e] == [e];
  }

  lemma OnlyBegin(queue: seq<Work>)
    requires OneBegin(queue) && queue != [] && queue[0].Begin? && queue[|queue| - 1].Begin?
    ensures |queue| == 1
  {
  }

  lemma {:induction false} RunUntilBegun(w: World) returns (run: seq<Event>)
    requires Fresh(w) && w.download == Preparing && w.queue != [] && w.queue[|w.queue| - 1].Begin? && OneBegin(w.queue)
    ensures From(w, run) == w.(queue := [], number := Arriving(w.number, w.queue), download := Fetching)
    decreases |w.queue|
  {
    hide From, OneBegin;
    var e := ByMatter(RunWork(false));
    RunOne(w, e);
    run := [e];
    OneBeginRest(w.queue);
    var next := Do(w, e);
    if w.queue[0].Begin? {
      OnlyBegin(w.queue);
    } else {
      assert next.queue[|next.queue| - 1] == w.queue[|w.queue| - 1];
      var rest := RunUntilBegun(next);
      FromAppend(w, run, rest);
      run := run + rest;
    }
  }

  lemma ReachPoised(w: World, content: Memory) returns (run: seq<Event>)
    requires LiveInv(w) && MatterCan(w, Prepare(Some(content))) && !Clean(w)
    ensures var now := From(Prepared(w, content), run);
            Poised(now) && now.allocs == w.allocs + 1 && now.pulls == w.pulls && now.relays == w.relays
  {
    hide From, Arriving, OneBegin;
    var started := Prepared(w, content);
    OneBeginMore(w.queue, Begin);
    BeginQueued(w.queue, 0);
    run := RunUntilBegun(started);
    RunStep(started, run, ByAt(AckQueue));
    run := run + [ByAt(AckQueue)];
    assert [] + [Ack(w.at.number)] == [Ack(w.at.number)];
    RunStep(started, run, ByAt(SwitchOn));
    run := run + [ByAt(SwitchOn)];
  }

  /** A block received, relayed and settled. */
  function Delivered(w: World, block: seq<byte>, eof: bool): World
    requires w.buf.Some? && |block| <= BLOCK_SIZE
  {
    w.(mem := block + w.mem[|block|..], pendingLen := |block|, pending := true, blkBuf := w.buf.value, blkNumber := w.number,
       blkLen := |block|, relays := w.relays + [w.number], delivered := w.delivered + [block],
       finalized := w.finalized || eof, download := if eof then Complete else Waiting)
  }

  lemma Deliver(w: World, block: seq<byte>, eof: bool) returns (run: seq<Event>)
    requires Fresh(w) && w.download == Fetching && w.mode && 0 < |block| <= BLOCK_SIZE
    ensures From(w, run) == Delivered(w, block, eof)
  {
    hide From;
    RunOne(w, ByMatter(Receive(block, eof, false)));
    run := [ByMatter(Receive(block, eof, false))];
    RunStep(w, run, ByMatter(CheckMode));
    run := run + [ByMatter(CheckMode)];
    RunStep(w, run, ByMatter(Relay));
    run := run + [ByMatter(Relay)];
    RunStep(w, run, ByMatter(Arm(true)));
    run := run + [ByMatter(Arm(true))];
    RunStep(w, run, ByMatter(Settle));
    run := run + [ByMatter(Settle)];
  }

  /** The only block of a file is counted and DOWNLOADED raised; the host never acknowledged it. */
  lemma CompleteUnacknowledged(w: World) returns (run: seq<Event>)
    requires Poised(w)
    ensures var now := From(w, run);
            now.allocs == w.allocs && now.buf.Some? && now.raised == 1 && now.acked == 0 && |now.delivered| == 1
  {
    hide From;
    run := Deliver(w, [0], true);
    RunStep(w, run, ByMatter(RunWork(false)));
    run := run + [ByMatter(RunWork(false))];
  }

  function FirstBlock(): (block: seq<byte>)
    ensures |block| == CHUNK + 1 && block[CHUNK] == 0
  {
    Zeros(CHUNK + 1)
  }

  function SecondBlock(): (block: seq<byte>)
    ensures |block| == CHUNK + 1 && block[CHUNK] == 1
  {
    Zeros(CHUNK) + [1]
  }

  /** The first line of the first block is out; then the second block is copied over it while it is pending. */
  lemma Overwrite(w: World) returns (run: seq<Event>)
    requires Poised(w)
    ensures var now := From(w, run); var out := [Line(0, Hex(FirstBlock()[..CHUNK]))];
            && now.allocs == w.allocs && now.pulls == w.pulls && now.relays == w.relays + [w.number]
            && now.pending && now.blkNumber == w.number && now.blkLen == CHUNK + 1 && now.delivered == [FirstBlock()]
            && now.mem[..CHUNK + 1] == SecondBlock() && now.at == Pulling(w.number, out, |now.relays|)
  {
    hide From, Hex, FirstBlock, SecondBlock;
    run := Deliver(w, FirstBlock(), false);
    RunStep(w, run, ByAt(PullBegin(w.number)));
    run := run + [ByAt(PullBegin(w.number))];
    assert From(w, run).mem[0..CHUNK] == FirstBlock()[..CHUNK];
    RunStep(w, run, ByAt(PullChunk));
    run := run + [ByAt(PullChunk)];
    RunStep(w, run, ByMatter(RunWork(false)));
    run := run + [ByMatter(RunWork(false))];
    RunStep(w, run, ByMatter(Receive(SecondBlock(), false, false)));
    run := run + [ByMatter(Receive(SecondBlock(), false, false))];
  }

  lemma MixedLines()
    ensures Decoded([Line(0, Hex(FirstBlock()[..CHUNK])), Line(CHUNK, Hex(SecondBlock()[CHUNK..]))]) != FirstBlock()
  {
    hide Hex, Unhex, FirstBlock, SecondBlock, Decoded;
    var one, two := Line(0, Hex(FirstBlock()[..CHUNK])), Line(CHUNK, Hex(SecondBlock()[CHUNK..]));
    NoLines([]);
    DecodedStep([], one);
    DecodedStep([one], two);
    assert [] + [one] == [one] && [one] + [two] == [one, two];
    UnhexHex(FirstBlock()[..CHUNK]);
    UnhexHex(SecondBlock()[CHUNK..]);
    assert (Decoded([one]) + SecondBlock()[CHUNK..])[CHUNK] == 1;
  }

  /** A pull that goes on ends OK, with lines of two different blocks. */
  lemma PullMixed(w: World) returns (run: seq<Event>)
    requires Poised(w)
    ensures var now := From(w, run);
            && now.allocs == w.allocs && |now.pulls| == |w.pulls| + 1
            && var p := now.pulls[|w.pulls|];
               NotReplaced(now.relays, p.number, p.since, p.until) && Decoded(p.out) != p.block
  {
    hide From, Hex, FirstBlock, SecondBlock, Decoded;
    run := Overwrite(w);
    var mixed := From(w, run);
    assert mixed.mem[CHUNK..CHUNK + 1] == SecondBlock()[CHUNK..];
    RunStep(w, run, ByAt(PullChunk));
    run := run + [ByAt(PullChunk)];
    assert From(w, run).at.out == [Line(0, Hex(FirstBlock()[..CHUNK])), Line(CHUNK, Hex(SecondBlock()[CHUNK..]))];
    RunStep(w, run, ByAt(PullChunk));
    run := run + [ByAt(PullChunk)];
    MixedLines();
  }

  // ---- exactly then ----

  /**
   For as long as the attempt lasts, the downloaded bytes are those of the blocks delivered and acknowledged, and
   DOWNLOADED is raised at most once and only when every block was, exactly if the preparation was clean.
   */
  lemma AccountsBalance(w: World, content: Memory)
    requires LiveInv(w) && MatterCan(w, Prepare(Some(content)))
    ensures Clean(w) <==>
      forall run :: From(Prepared(w, content), run).allocs == w.allocs + 1 ==> Accounts(From(Prepared(w, content), run))
  {
    hide From, LiveInv, Clean, MatterCan, Kept, PullsExact;
    var started := Prepared(w, content);
    if Clean(w) {
      forall run | From(started, run).allocs == w.allocs + 1 ensures Accounts(From(started, run)) {
        CleanKeepsPromises(w, content, run);
      }
    } else {
      var run := ReachPoised(w, content);
      var more := CompleteUnacknowledged(From(started, run));
      FromAppend(started, run, more);
      assert !Accounts(From(started, run + more));
    }
  }

  /** A pending block stays in the buffer as it was delivered, exactly if the preparation was clean. */
  lemma PendingBlockStays(w: World, content: Memory)
    requires LiveInv(w) && MatterCan(w, Prepare(Some(content)))
    ensures Clean(w) <==>
      forall run :: From(Prepared(w, content), run).allocs == w.allocs + 1 ==> Kept(From(Prepared(w, content), run))
  {
    hide From, LiveInv, Clean, MatterCan, Accounts, PullsExact, FirstBlock, SecondBlock, Hex;
    var started := Prepared(w, content);
    if Clean(w) {
      forall run | From(started, run).allocs == w.allocs + 1 ensures Kept(From(started, run)) {
        CleanKeepsPromises(w, content, run);
      }
    } else {
      var run := ReachPoised(w, content);
      var more := Overwrite(From(started, run));
      FromAppend(started, run, more);
      assert !Kept(From(started, run + more));
    }
  }

  /**
   A pull that ended OK emitted lines at offsets 0, 96, 192, ... whose hex decodes to exactly the block that was
   pending, unless a block of the same number was relayed after its first line; exactly if the preparation was clean.
   */
  lemma PullIsExact(w: World, content: Memory)
    requires LiveInv(w) && MatterCan(w, Prepare(Some(content)))
    ensures Clean(w) <==>
      forall run :: From(Prepared(w, content), run).allocs == w.allocs + 1 ==> PullsExact(From(Prepared(w, content), run), |w.pulls|)
  {
    hide From, LiveInv, Clean, MatterCan, Accounts, Kept, NotReplaced, Decoded;
    var started := Prepared(w, content);
    if Clean(w) {
      forall run | From(started, run).allocs == w.allocs + 1 ensures PullsExact(From(started, run), |w.pulls|) {
        CleanKeepsPromises(w, content, run);
      }
    } else {
      var run := ReachPoised(w, content);
      var more := PullMixed(From(started, run));
      FromAppend(started, run, more);
      assert !Exact(From(started, run + more).pulls[|w.pulls|]);
    }
  }

  lemma FirstDownload() returns (run: seq<Event>)
    ensures var w := From(Boot(), run);
            Fresh(w) && w.download == Fetching && w.mode && w.number == 0 && w.queue == [] && w.at == Free
  {
    hide From, Zeros;
    RunOne(Boot(), ByAt(SwitchOn));
    run := [ByAt(SwitchOn)];
    RunStep(Boot(), run, ByMatter(Prepare(Some(Zeros(BLOCK_SIZE)))));
    run := run + [ByMatter(Prepare(Some(Zeros(BLOCK_SIZE))))];
    assert [] + [Begin] == [Begin];
    RunStep(Boot(), run, ByMatter(RunWork(false)));
    run := run + [ByMatter(RunWork(false))];
  }

  /** The code gets there: a host acknowledges a block just as the attempt is cancelled and the next one prepared. */
  lemma UncleanIsReachable() returns (run: seq<Event>)
    ensures var w := From(Boot(), run); LiveInv(w) && MatterCan(w, Prepare(Some(Zeros(BLOCK_SIZE)))) && !Clean(w)
  {
    hide From, Zeros, LiveInv;
    run := FirstDownload();
    var more := Deliver(From(Boot(), run), [7], false);
    FromAppend(Boot(), run, more);
    run := run + more;
    RunStep(Boot(), run, ByAt(AckBegin(0)));
    run := run + [ByAt(AckBegin(0))];
    RunStep(Boot(), run, ByMatter(Drop));
    run := run + [ByMatter(Drop)];
    RunStep(Boot(), run, ByMatter(Release));
    run := run + [ByMatter(Release)];
    PendingIsLive(run);
  }

  /** So from the boot on, DOWNLOADED can be raised for a block nobody acknowledged, and a pull can mix two blocks. */
  lemma BothFailFromBoot() returns (lost: seq<Event>, mixed: seq<Event>)
    ensures From(Boot(), lost).raised == 1 && From(Boot(), lost).acked == 0 && |From(Boot(), lost).delivered| == 1
    ensures var now := From(Boot(), mixed);
            && now.pulls != []
            && var p := now.pulls[|now.pulls| - 1];
               NotReplaced(now.relays, p.number, p.since, p.until) && Decoded(p.out) != p.block
  {
    hide From, LiveInv, Clean, NotReplaced, Decoded;
    var run := UncleanIsReachable();
    var w := From(Boot(), run);
    var e := ByMatter(Prepare(Some(Zeros(BLOCK_SIZE))));
    RunStep(Boot(), run, e);
    var more := ReachPoised(w, Zeros(BLOCK_SIZE));
    FromAppend(Boot(), run + [e], more);
    var poised := run + [e] + more;
    lost := CompleteUnacknowledged(From(Boot(), poised));
    FromAppend(Boot(), poised, lost);
    lost := poised + lost;
    mixed := PullMixed(From(Boot(), poised));
    FromAppend(Boot(), poised, mixed);
    mixed := poised + mixed;
  }

  // ---- after an attempt ----

  /** What an attempt came to. */
  predicate SameResult(w: World, now: World) {
    && now.downloaded == w.downloaded && now.number == w.number && now.counted == w.counted
    && now.delivered == w.delivered && now.raised == w.raised && now.finalized == w.finalized && now.relays == w.relays
  }

  lemma MatterStaysClosed(w: World, e: MatterStep)
    requires LiveInv(w) && w.buf.None? && MatterCan(w, e) && !(e.Prepare? && e.memory.Some?)
    ensures MatterDo(w, e).buf.None? && SameResult(w, MatterDo(w, e))
  {
    hide OneBegin;
  }

  lemma AtStaysClosed(w: World, e: AtStep)
    requires AtCan(w, e)
    ensures AtDo(w, e).buf == w.buf && SameResult(w, AtDo(w, e))
  {
    hide Hex;
  }

  lemma StaysClosed(w: World, e: Event)
    requires LiveInv(w) && w.buf.None? && Enabled(w, e) && !Prepares(e)
    ensures Do(w, e).buf.None? && SameResult(w, Do(w, e))
  {
    hide LiveInv, SameResult, MatterDo, AtDo, MatterCan, AtCan;
    match e
    case ByMatter(m) => MatterStaysClosed(w, m);
    case ByAt(a) => AtStaysClosed(w, a);
  }

  /**
   A released attempt is over: until another download is prepared, no late acknowledgement, no scheduled half that
   was still queued and no command changes what it came to, raises DOWNLOADED or relays a block.
   */
  lemma {:induction false} ReleasedAttemptIsClosed(w: World, run: seq<Event>)
    requires LiveInv(w) && w.buf.None?
    ensures var now := From(w, run);
            && now.allocs >= w.allocs
            && (now.allocs == w.allocs ==> now.buf.None? && !now.pending && SameResult(w, now))
  {
    hide Enabled, Do, OneBegin;
    if run != [] {
      var before, e := From(w, run[..|run| - 1]), run[|run| - 1];
      ReleasedAttemptIsClosed(w, run[..|run| - 1]);
      RunsKeepLive(w, run);
      RunsKeepLive(w, run[..|run| - 1]);
      if Enabled(before, e) {
        PreparingAllocates(before, e);
        if !Prepares(e) && before.allocs == w.allocs {
          StaysClosed(before, e);
        }
      }
    }
  }

  // ---- after AT+MTOTA=0 ----

  predicate NeverSwitchesOn(run: seq<Event>) {
    forall k :: 0 <= k < |run| ==> run[k] != ByAt(SwitchOn)
  }

  /** Off, and no block has passed the mode check before it. */
  predicate Silent(w: World) {
    !w.mode && !w.pending && !w.matter.Checked?
  }

  lemma MatterStaysSilent(w: World, e: MatterStep)
    requires Silent(w) && MatterCan(w, e)
    ensures Silent(MatterDo(w, e))
  {
  }

  lemma AtStaysSilent(w: World, e: AtStep)
    requires Silent(w) && AtCan(w, e) && e != SwitchOn
    ensures Silent(AtDo(w, e))
  {
    hide Hex;
  }

  lemma {:induction false} SilentRuns(w: World, run: seq<Event>)
    requires Silent(w) && NeverSwitchesOn(run)
    ensures Silent(From(w, run))
  {
    hide Silent, MatterDo, MatterCan, AtDo, AtCan;
    if run != [] {
      var before, e := From(w, run[..|run| - 1]), run[|run| - 1];
      SilentRuns(w, run[..|run| - 1]);
      match e
      case ByMatter(m) => if MatterCan(before, m) { MatterStaysSilent(before, m); }
      case ByAt(a) => if AtCan(before, a) { AtStaysSilent(before, a); }
    }
  }

  /**
   Once AT+MTOTA=0 has dropped the pending block, no block is handed to the host until the relay is switched on
   again, exactly if the Matter thread was not between the mode check and the critical section of mt_ota_on_block.
   */
  lemma SwitchedOffIsSilent(w: World)
    requires LiveInv(w) && AtCan(w, DropOff) && !w.mode
    ensures !w.matter.Checked? <==>
      forall run :: NeverSwitchesOn(run) ==> !From(AtDo(w, DropOff), run).pending
  {
    hide From, NeverSwitchesOn, OneBegin;
    var off := AtDo(w, DropOff);
    if w.matter.Checked? {
      var run := [ByMatter(Relay)];
      OnlyRelays();
      RunOne(off, run[0]);
    } else {
      forall run | NeverSwitchesOn(run) ensures !From(off, run).pending {
        SilentRuns(off, run);
      }
    }
  }

  lemma OnlyRelays()
    ensures NeverSwitchesOn([ByMatter(Relay)])
  {
  }

  /** The code gets there: a block passes the mode check, then AT+MTOTA=0 runs to its drop. */
  lemma OffRaceIsReachable() returns (run: seq<Event>)
    ensures var w := From(Boot(), run); LiveInv(w) && AtCan(w, DropOff) && !w.mode && w.matter.Checked?
  {
    hide From, Zeros, LiveInv;
    run := FirstDownload();
    RunStep(Boot(), run, ByMatter(Receive([7], false, false)));
    run := run + [ByMatter(Receive([7], false, false))];
    RunStep(Boot(), run, ByMatter(CheckMode));
    run := run + [ByMatter(CheckMode)];
    RunStep(Boot(), run, ByAt(SwitchOff));
    run := run + [ByAt(SwitchOff)];
    PendingIsLive(run);
  }
}
