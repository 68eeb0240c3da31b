/**
 One attempt to download, from its preparation on: the acknowledgements still on their way, what is counted, where the
 block that is out stands, and what a pull has emitted; kept by every step if the preparation was clean.
 */
module OtaAttempt {
  import opened Prelude
  import opened OtaLines
  import opened OtaMachine

  // ---- acknowledgements on their way ----

  function QueuedAcks(queue: seq<Work>): seq<nat> {
    if queue == [] then []
    else if queue[0].Ack? then [queue[0].number] + QueuedAcks(queue[1..])
    else QueuedAcks(queue[1..])
  }

  /** Those queued behind Begin. */
  function LaterAcks(queue: seq<Work>): seq<nat> {
    if queue == [] then []
    else if queue[0].Begin? then QueuedAcks(queue[1..])
    else LaterAcks(queue[1..])
  }

  /** The block number a preparation arrives at: an old acknowledgement that is run before Begin still counts up. */
  function Arriving(number: nat, queue: seq<Work>): nat
    decreases queue
  {
    if queue == [] || queue[0].Begin? then number
    else if queue[0].number == number then Arriving(Next(number), queue[1..])
    else Arriving(number, queue[1..])
  }

  /** Numbers of the acknowledgements that will be run once blocks are fetched, in that order. */
  function Flight(w: World): seq<nat> {
    (if w.download == Preparing then LaterAcks(w.queue) else QueuedAcks(w.queue)) + if w.at.Acking? then [w.at.number] else []
  }

  /** The number of the block fetched next. */
  function Base(w: World): nat {
    if w.download == Preparing then Arriving(w.number, w.queue) else w.number
  }

  lemma {:induction false} AckQueued(queue: seq<Work>, number: nat)
    ensures QueuedAcks(queue + [Ack(number)]) == QueuedAcks(queue) + [number]
  {
    var more := queue + [Ack(number)];
    if queue == [] {
      assert more[1..] == [];
    } else {
      assert more[1..] == queue[1..] + [Ack(number)];
      AckQueued(queue[1..], number);
    }
  }

  lemma {:induction false} AckQueuedLater(queue: seq<Work>, acked: nat, number: nat)
    requires Begin in queue
    ensures LaterAcks(queue + [Ack(acked)]) == LaterAcks(queue) + [acked]
    ensures Arriving(number, queue + [Ack(acked)]) == Arriving(number, queue)
  {
    assert (queue + [Ack(acked)])[1..] == queue[1..] + [Ack(acked)];
    if queue[0].Begin? {
      AckQueued(queue[1..], acked);
    } else {
      AckQueuedLater(queue[1..], acked, if queue[0].number == number then Next(number) else number);
    }
  }

  lemma {:induction false} BeginQueued(queue: seq<Work>, number: nat)
    requires Begin !in queue
    ensures LaterAcks(queue + [Begin]) == [] && Arriving(number, queue + [Begin]) == Arriving(number, queue)
  {
    if queue == [] {
      assert [Begin][1..] == [] && queue + [Begin] == [Begin];
    } else {
      assert queue[0] in queue;
      assert (queue + [Begin])[1..] == queue[1..] + [Begin];
      BeginQueued(queue[1..], if queue[0].number == number then Next(number) else number);
    }
  }

  /** The acknowledgements among those that no block of this attempt earned. */
  function Stale(flight: seq<nat>, acked: nat, counted: nat): seq<nat> {
    if acked == counted + 1 && flight != [] then flight[..|flight| - 1] else flight
  }

  /** The earned one comes last and fits; the others miss, and are gone before the first block is counted. */
  predicate FlightOk(flight: seq<nat>, base: nat, number: nat, acked: nat, counted: nat) {
    && (acked == counted + 1 ==> flight != [] && flight[|flight| - 1] == number && base == number)
    && base !in Stale(flight, acked, counted)
    && (Stale(flight, acked, counted) != [] ==> counted == 0)
  }

  lemma StaleMisses(flight: seq<nat>, base: nat, number: nat, acked: nat, counted: nat)
    requires FlightOk(flight, base, number, acked, counted) && flight != [] && flight[0] != base
    ensures FlightOk(flight[1..], base, number, acked, counted)
  {
    if acked == counted + 1 {
      assert Stale(flight[1..], acked, counted) == Stale(flight, acked, counted)[1..];
    }
  }

  lemma FirstOfMany(flight: seq<nat>)
    requires flight != []
    ensures |flight| == 1 || flight[0] in flight[..|flight| - 1]
  {
    if |flight| > 1 {
      assert flight[..|flight| - 1][0] == flight[0];
    }
  }

  lemma EarnedFits(flight: seq<nat>, number: nat, acked: nat, counted: nat)
    requires FlightOk(flight, number, number, acked, counted) && flight != [] && flight[0] == number
    ensures acked == counted + 1 && flight == [number]
  {
    FirstOfMany(flight);
  }

  // ---- an attempt ----

  /** One block at most is out: delivered and not counted. */
  predicate Outstanding(w: World) {
    |w.delivered| == w.counted + 1
  }

  /** What the attempt has counted is what was delivered and acknowledged. */
  predicate Counts(w: World) {
    && w.counted <= |w.delivered| <= w.counted + 1 && w.counted <= w.acked <= |w.delivered|
    && w.downloaded == Sum(w.delivered[..w.counted])
    && w.raised == (if w.finalized && !Outstanding(w) then 1 else 0)
    && (w.finalized <==> w.download == Complete)
    && (Outstanding(w) ==> Last(w.delivered) != [])
  }

  /** The block handed over and not yet settled, or settled and waited for. */
  predicate CanBeOut(w: World) {
    w.matter.Relayed? || w.matter.Processed? || w.download == Waiting || w.download == Complete || w.download == Failed
  }

  /** Where the block that is out stands. */
  predicate Blocks(w: World) {
    && (w.pending ==>
          && Outstanding(w) && w.acked == w.counted && w.blkNumber == w.number
          && w.blkLen == |Last(w.delivered)| && w.mem[..w.blkLen] == Last(w.delivered))
    && (Outstanding(w) ==> CanBeOut(w) && w.pendingLen == |Last(w.delivered)|)
    && (w.matter.Relayed? ==> Outstanding(w))
    && (!Outstanding(w) && w.pendingLen > 0 ==> w.matter.Copied? || w.matter.Checked? || w.download == Failed)
    && (w.download == Preparing ==> w.delivered == [])
  }

  predicate Attempt(w: World) {
    w.buf.Some? ==> Counts(w) && Blocks(w) && FlightOk(Flight(w), Base(w), w.number, w.acked, w.counted)
  }

  lemma SumStep(blocks: seq<seq<byte>>, n: nat)
    requires n < |blocks|
    ensures Sum(blocks[..n + 1]) == Sum(blocks[..n]) + |blocks[n]|
  {
    assert blocks[..n + 1][..n] == blocks[..n];
  }

  /** A preparation is clean unless the one acknowledgement not queued yet carries the number it will arrive at. */
  predicate Clean(w: World) {
    w.at.Acking? ==> w.at.number != Arriving(0, w.queue)
  }

  lemma CleanPreparation(w: World, content: Memory)
    requires LiveInv(w) && MatterCan(w, Prepare(Some(content))) && Clean(w)
    ensures Attempt(Prepared(w, content)) && !Prepared(w, content).pending
  {
    hide LaterAcks, Arriving;
    BeginQueued(w.queue, 0);
  }

  lemma CountingWhilePreparing(w: World)
    requires LiveInv(w) && Attempt(w) && MatterCan(w, RunWork(false)) && w.queue[0].Ack? && w.download == Preparing
    ensures Attempt(Counted(w, w.queue[0].number))
  {
    hide QueuedAcks, OneBegin, FlightOk, Sum;
    assert Arriving(Counted(w, w.queue[0].number).number, w.queue[1..]) == Arriving(w.number, w.queue);
    assert FlightOk(Flight(w), Base(w), w.number, 0, 0);
    NothingEarned(Flight(w), Base(w), w.number, Counted(w, w.queue[0].number).number);
  }

  lemma NothingEarned(flight: seq<nat>, base: nat, number: nat, after: nat)
    requires FlightOk(flight, base, number, 0, 0)
    ensures FlightOk(flight, base, after, 0, 0)
  {
  }

  lemma BeginningKeepsAttempt(w: World, refused: bool)
    requires LiveInv(w) && Attempt(w) && MatterCan(w, RunWork(refused)) && w.queue[0].Begin?
    ensures Attempt(Begun(w, refused))
  {
    hide QueuedAcks, OneBegin, FlightOk, Sum;
  }

  lemma CountingKeepsAttempt(w: World)
    requires LiveInv(w) && Attempt(w) && MatterCan(w, RunWork(false)) && w.queue[0].Ack? && w.buf.Some? && w.download != Preparing
    ensures Attempt(Counted(w, w.queue[0].number))
  {
    hide OneBegin, Sum, FlightOk, Counts, Blocks;
    var flight, after := Flight(w), Counted(w, w.queue[0].number);
    assert flight[0] == w.queue[0].number && Flight(after) == flight[1..];
    if flight[0] == w.number {
      EarnedFits(flight, w.number, w.acked, w.counted);
      CountingOne(w);
      EmptyFits(Next(w.number), w.acked, after.counted);
    } else {
      StaleMisses(flight, w.number, w.number, w.acked, w.counted);
      CountingNone(w);
    }
  }

  lemma CountingOne(w: World)
    requires LiveInv(w) && Counts(w) && Blocks(w) && MatterCan(w, RunWork(false)) && w.buf.Some? && w.download != Preparing
    requires w.queue[0] == Ack(w.number) && w.acked == w.counted + 1
    ensures var after := Counted(w, w.number); Counts(after) && Blocks(after) && after.counted == w.counted + 1 == w.acked
  {
    hide OneBegin, Sum;
    SumStep(w.delivered, w.counted);
  }

  lemma CountingNone(w: World)
    requires Counts(w) && Blocks(w) && w.queue != [] && w.queue[0].Ack? && w.queue[0].number != w.number
    ensures var after := Counted(w, w.queue[0].number); Counts(after) && Blocks(after)
  {
    hide Sum;
  }

  lemma EmptyFits(number: nat, acked: nat, counted: nat)
    requires acked == counted
    ensures FlightOk([], number, number, acked, counted)
  {
  }

  lemma SameFlight(w: World, after: World)
    requires after.queue == w.queue && after.number == w.number && after.acked == w.acked && after.counted == w.counted
    requires (after.at.Acking? || w.at.Acking?) ==> after.at == w.at
    requires (after.download == Preparing <==> w.download == Preparing)
    ensures Flight(after) == Flight(w) && Base(after) == Base(w)
  {
  }

  lemma RelayingKeepsCounts(w: World)
    requires LiveInv(w) && Counts(w) && Blocks(w) && MatterCan(w, Relay) && w.buf.Some?
    ensures Counts(MatterDo(w, Relay))
  {
    hide OneBegin, Sum;
    var more := w.delivered + [w.matter.block];
    assert more[..w.counted] == w.delivered[..w.counted];
  }

  lemma RelayingKeepsBlocks(w: World)
    requires LiveInv(w) && Counts(w) && Blocks(w) && MatterCan(w, Relay) && w.buf.Some?
    ensures Blocks(MatterDo(w, Relay))
  {
    hide OneBegin, Sum;
    assert Last(w.delivered + [w.matter.block]) == w.matter.block;
  }

  lemma ReceivingKeepsBlocks(w: World, block: seq<byte>, eof: bool, malformed: bool)
    requires LiveInv(w) && Counts(w) && Blocks(w) && MatterCan(w, Receive(block, eof, malformed)) && w.buf.Some?
    ensures Counts(MatterDo(w, Receive(block, eof, malformed))) && Blocks(MatterDo(w, Receive(block, eof, malformed)))
  {
    hide OneBegin, Sum;
  }

  lemma CheckingKeepsBlocks(w: World)
    requires LiveInv(w) && Counts(w) && Blocks(w) && MatterCan(w, CheckMode) && w.buf.Some?
    ensures Counts(MatterDo(w, CheckMode)) && Blocks(MatterDo(w, CheckMode))
  {
    hide OneBegin, Sum;
  }

  lemma ArmingKeepsBlocks(w: World, timer: bool)
    requires LiveInv(w) && Counts(w) && Blocks(w) && MatterCan(w, Arm(timer)) && w.buf.Some?
    ensures Counts(MatterDo(w, Arm(timer))) && Blocks(MatterDo(w, Arm(timer)))
  {
    hide OneBegin, Sum;
  }

  lemma SettlingKeepsBlocks(w: World)
    requires LiveInv(w) && Counts(w) && Blocks(w) && MatterCan(w, Settle) && w.buf.Some?
    ensures Counts(MatterDo(w, Settle)) && Blocks(MatterDo(w, Settle))
  {
    hide OneBegin, Sum;
  }

  lemma DroppingKeepsBlocks(w: World)
    requires LiveInv(w) && Counts(w) && Blocks(w) && MatterCan(w, Drop) && w.buf.Some?
    ensures Counts(MatterDo(w, Drop)) && Blocks(MatterDo(w, Drop))
  {
    hide OneBegin, Sum;
  }

  lemma ProcessingKeepsAttempt(w: World, e: MatterStep)
    requires LiveInv(w) && Attempt(w) && MatterCan(w, e) && !e.Prepare? && !e.RunWork? && !e.Release?
    ensures Attempt(MatterDo(w, e))
  {
    ProcessingKeepsFlight(w, e);
    hide LiveInv, MatterDo, MatterCan, Counts, Blocks, Flight, Base, FlightOk;
    if w.buf.Some? {
      match e
      case Receive(block, eof, malformed) => ReceivingKeepsBlocks(w, block, eof, malformed);
      case CheckMode => CheckingKeepsBlocks(w);
      case Relay =>
        RelayingKeepsCounts(w);
        RelayingKeepsBlocks(w);
      case Arm(timer) => ArmingKeepsBlocks(w, timer);
      case Settle => SettlingKeepsBlocks(w);
      case Drop => DroppingKeepsBlocks(w);
    }
  }

  lemma ProcessingKeepsFlight(w: World, e: MatterStep)
    requires LiveInv(w) && MatterCan(w, e) && !e.Prepare? && !e.RunWork? && !e.Release?
    ensures var after := MatterDo(w, e);
            after.buf == w.buf && after.number == w.number && after.acked == w.acked && after.counted == w.counted
            && (w.buf.Some? ==> Flight(after) == Flight(w) && Base(after) == Base(w))
  {
    hide OneBegin, Flight, Base;
    if w.buf.Some? {
      SameFlight(w, MatterDo(w, e));
    }
  }

  lemma MatterKeepsAttempt(w: World, e: MatterStep)
    requires LiveInv(w) && Attempt(w) && MatterCan(w, e) && (e.Prepare? && e.memory.Some? ==> Clean(w))
    ensures Attempt(MatterDo(w, e))
  {
    match e
    case Prepare(memory) =>
      hide LiveInv, Attempt;
      if memory.Some? {
        CleanPreparation(w, memory.value);
      }
    case RunWork(refused) =>
      hide LiveInv, Counts, Blocks, Flight, Base, FlightOk;
      if w.queue[0].Begin? {
        BeginningKeepsAttempt(w, refused);
      } else if w.buf.Some? && w.download == Preparing {
        CountingWhilePreparing(w);
      } else if w.buf.Some? {
        CountingKeepsAttempt(w);
      }
    case Release => hide Counts, Blocks, FlightOk;
    case _ =>
      hide LiveInv, Attempt, MatterDo, MatterCan;
      ProcessingKeepsAttempt(w, e);
  }

  lemma Earns(flight: seq<nat>, number: nat, acked: nat, counted: nat)
    requires FlightOk(flight, number, number, acked, counted) && acked == counted
    ensures FlightOk(flight + [number], number, number, acked + 1, counted)
  {
    assert (flight + [number])[..|flight|] == flight;
  }

  lemma AcknowledgingKeepsBlocks(w: World, number: nat)
    requires Counts(w) && Blocks(w) && AtCan(w, AckBegin(number)) && w.pending && w.blkNumber == number
    ensures var after := AtDo(w, AckBegin(number)); Counts(after) && Blocks(after)
  {
    hide Sum;
  }

  lemma AcknowledgingKeepsAttempt(w: World, number: nat)
    requires LiveInv(w) && Attempt(w) && AtCan(w, AckBegin(number)) && w.pending && w.blkNumber == number
    ensures Attempt(AtDo(w, AckBegin(number)))
  {
    AcknowledgingEarns(w, number);
    hide OneBegin, Flight, Base, FlightOk, Sum;
    AcknowledgingKeepsBlocks(w, number);
    Earns(Flight(w), number, w.acked, w.counted);
  }

  lemma MissingChangesNothing(w: World, number: nat)
    requires AtCan(w, AckBegin(number)) && !(w.pending && w.blkNumber == number)
    ensures AtDo(w, AckBegin(number)) == w
  {
  }

  lemma AcknowledgingEarns(w: World, number: nat)
    requires AtCan(w, AckBegin(number)) && Blocks(w) && w.pending && w.blkNumber == number
    ensures var after := AtDo(w, AckBegin(number));
            Flight(after) == Flight(w) + [number] && Base(after) == Base(w) == number
  {
    hide Sum;
  }

  lemma QueueingKeepsAttempt(w: World)
    requires LiveInv(w) && Attempt(w) && AtCan(w, AckQueue)
    ensures Attempt(AtDo(w, AckQueue))
  {
    hide OneBegin, Sum, FlightOk;
    if w.buf.Some? {
      if w.download == Preparing {
        AckQueuedLater(w.queue, w.at.number, w.number);
      } else {
        AckQueued(w.queue, w.at.number);
      }
      assert Flight(AtDo(w, AckQueue)) == Flight(w);
    }
  }

  lemma PullsDoNotMatter(w: World, at: At, pulls: seq<Pull>)
    requires Attempt(w) && !w.at.Acking? && !at.Acking?
    ensures Attempt(w.(at := at, pulls := pulls))
  {
    SameFlight(w, w.(at := at, pulls := pulls));
    hide Flight, Base, FlightOk, Sum;
  }

  lemma PullingKeepsAttempt(w: World, e: AtStep)
    requires Attempt(w) && AtCan(w, e) && (e.PullBegin? || e.PullChunk?)
    ensures Attempt(AtDo(w, e))
  {
    hide Hex, Attempt;
    var after := AtDo(w, e);
    assert after == w.(at := after.at, pulls := after.pulls);
    PullsDoNotMatter(w, after.at, after.pulls);
  }

  lemma SwitchingKeepsAttempt(w: World, e: AtStep)
    requires LiveInv(w) && Attempt(w) && AtCan(w, e) && (e.SwitchOn? || e.SwitchOff? || e.DropOff?)
    ensures Attempt(AtDo(w, e))
  {
    SameFlight(w, AtDo(w, e));
    hide Flight, Base, FlightOk, OneBegin, Sum;
  }

  lemma AtKeepsAttempt(w: World, e: AtStep)
    requires LiveInv(w) && Attempt(w) && AtCan(w, e)
    ensures Attempt(AtDo(w, e))
  {
    hide LiveInv, Attempt, AtDo, AtCan;
    match e
    case AckBegin(number) =>
      if w.pending && w.blkNumber == number {
        AcknowledgingKeepsAttempt(w, number);
      } else {
        MissingChangesNothing(w, number);
      }
    case AckQueue => QueueingKeepsAttempt(w);
    case PullBegin(_) => PullingKeepsAttempt(w, e);
    case PullChunk => PullingKeepsAttempt(w, e);
    case _ => SwitchingKeepsAttempt(w, e);
  }

  // ---- pulls ----

  /** No block of this number was relayed from the given moment on. */
  predicate NotReplaced(relays: seq<nat>, number: nat, since: nat, until: nat) {
    forall i :: since <= i < until && i < |relays| ==> relays[i] != number
  }

  /** While the block is not replaced by one of the same number, what has been emitted is its beginning. */
  predicate PullOk(w: World) {
    w.at.Pulling? && w.at.out != [] && w.pending && w.blkNumber == w.at.number && NotReplaced(w.relays, w.at.number, w.at.since, |w.relays|) ==>
      CHUNK * (|w.at.out| - 1) < |Last(w.delivered)| && w.at.out == Lines(Last(w.delivered), |w.at.out|)
  }

  predicate Whole(p: Pull) {
    p.block != [] && p.out == Lines(p.block, WholeLines(p.block))
  }

  /** Every pull from the given one on that ended OK, its block not replaced meanwhile, emitted the whole of it. */
  predicate PullsOk(w: World, first: nat) {
    forall i :: first <= i < |w.pulls| ==>
      && w.pulls[i].until <= |w.relays|
      && (NotReplaced(w.relays, w.pulls[i].number, w.pulls[i].since, w.pulls[i].until) ==> Whole(w.pulls[i]))
  }

  lemma MatterKeepsRelays(w: World, e: MatterStep)
    requires MatterCan(w, e) && !e.Relay?
    ensures MatterDo(w, e).at == w.at && MatterDo(w, e).relays == w.relays
  {
  }

  lemma MatterPullsNothing(w: World, e: MatterStep)
    requires MatterCan(w, e)
    ensures MatterDo(w, e).pulls == w.pulls
  {
  }

  lemma MatterKeepsSlot(w: World, e: MatterStep)
    requires MatterCan(w, e) && !e.Relay? && !e.Prepare?
    ensures var after := MatterDo(w, e);
            after.pending ==> w.pending && after.blkNumber == w.blkNumber && after.delivered == w.delivered
  {
  }

  lemma PreparingDrops(w: World, e: MatterStep)
    requires LiveInv(w) && MatterCan(w, e) && e.Prepare?
    ensures !MatterDo(w, e).pending
  {
    hide OneBegin;
  }

  lemma RelayReplaces(w: World)
    requires LiveInv(w) && MatterCan(w, Relay)
    ensures var after := MatterDo(w, Relay);
            && after.at == w.at && w.relays <= after.relays
            && (after == w.(download := Failed, matter := Loop) || (|after.relays| == |w.relays| + 1 && after.relays[|w.relays|] == after.blkNumber))
  {
    hide OneBegin;
  }

  lemma MatterKeepsPull(w: World, e: MatterStep)
    requires LiveInv(w) && PullOk(w) && MatterCan(w, e)
    ensures PullOk(MatterDo(w, e))
  {
    hide Lines, OneBegin, MatterDo, MatterCan;
    match e
    case Relay => RelayReplaces(w);
    case Prepare(_) => PreparingDrops(w, e);
    case _ =>
      MatterKeepsRelays(w, e);
      MatterKeepsSlot(w, e);
  }

  lemma MatterKeepsPulls(w: World, e: MatterStep, first: nat)
    requires LiveInv(w) && PullsOk(w, first) && MatterCan(w, e)
    ensures PullsOk(MatterDo(w, e), first)
  {
    hide Whole, LiveInv, MatterDo, MatterCan;
    var after := MatterDo(w, e);
    MatterPullsNothing(w, e);
    if e.Relay? {
      RelayReplaces(w);
    } else {
      MatterKeepsRelays(w, e);
    }
    forall i | first <= i < |w.pulls| && NotReplaced(after.relays, w.pulls[i].number, w.pulls[i].since, w.pulls[i].until)
      ensures NotReplaced(w.relays, w.pulls[i].number, w.pulls[i].since, w.pulls[i].until)
    {
      assert forall k :: 0 <= k < |w.relays| ==> after.relays[k] == w.relays[k];
    }
  }

  lemma AtKeepsPull(w: World, e: AtStep)
    requires LiveInv(w) && Attempt(w) && PullOk(w) && AtCan(w, e)
    ensures PullOk(AtDo(w, e))
  {
    hide OneBegin, FlightOk, Sum, Hex, Lines;
    if e.PullChunk? && w.pending && w.blkNumber == w.at.number && CHUNK * |w.at.out| < w.blkLen {
      var block, off := Last(w.delivered), CHUNK * |w.at.out|;
      ChunkInBlock(w.mem, w.blkLen, off);
      NoLines(block);
      LinesStep(block, |w.at.out| + 1);
      assert w.mem[off..ChunkEnd(off, w.blkLen)] == block[off..ChunkEnd(off, |block|)];
    }
  }

  lemma AtKeepsPulls(w: World, e: AtStep, first: nat)
    requires LiveInv(w) && Attempt(w) && PullOk(w) && PullsOk(w, first) && AtCan(w, e)
    ensures PullsOk(AtDo(w, e), first)
  {
    hide OneBegin, FlightOk, Sum, Hex, Lines, WholeLines;
    if e.PullChunk? && w.pending && w.blkNumber == w.at.number && CHUNK * |w.at.out| >= w.blkLen {
      if NotReplaced(w.relays, w.at.number, w.at.since, |w.relays|) {
        WholeIsReached(Last(w.delivered), |w.at.out|);
      }
    }
  }

  // ---- one attempt, from its preparation on ----

  predicate AttemptInv(w: World, first: nat) {
    LiveInv(w) && Attempt(w) && PullOk(w) && PullsOk(w, first)
  }

  lemma MatterKeepsInv(w: World, e: MatterStep, first: nat)
    requires AttemptInv(w, first) && MatterCan(w, e) && (e.Prepare? ==> e.memory.None?)
    ensures AttemptInv(MatterDo(w, e), first)
  {
    hide LiveInv, Attempt, PullOk, PullsOk, MatterDo, MatterCan;
    MatterKeepsLive(w, e);
    MatterKeepsAttempt(w, e);
    MatterKeepsPull(w, e);
    MatterKeepsPulls(w, e, first);
  }

  lemma AtKeepsInv(w: World, e: AtStep, first: nat)
    requires AttemptInv(w, first) && AtCan(w, e)
    ensures AttemptInv(AtDo(w, e), first)
  {
    hide LiveInv, Attempt, PullOk, PullsOk, AtDo, AtCan;
    AtKeepsLive(w, e);
    AtKeepsAttempt(w, e);
    AtKeepsPull(w, e);
    AtKeepsPulls(w, e, first);
  }

  predicate Prepares(e: Event) {
    e.ByMatter? && e.m.Prepare? && e.m.memory.Some?
  }

  lemma MatterAllocates(w: World, e: MatterStep)
    requires MatterCan(w, e)
    ensures MatterDo(w, e).allocs == if e.Prepare? && e.memory.Some? then w.allocs + 1 else w.allocs
  {
  }

  lemma AtAllocatesNothing(w: World, e: AtStep)
    requires AtCan(w, e)
    ensures AtDo(w, e).allocs == w.allocs
  {
    hide Hex;
  }

  lemma PreparingAllocates(w: World, e: Event)
    requires Enabled(w, e)
    ensures Do(w, e).allocs == if Prepares(e) then w.allocs + 1 else w.allocs
  {
    hide MatterDo, AtDo, MatterCan, AtCan;
    match e
    case ByMatter(m) => MatterAllocates(w, m);
    case ByAt(a) => AtAllocatesNothing(w, a);
  }

  /** As long as no other download is prepared, the invariants of a clean attempt stay. */
  lemma {:induction false} AttemptStays(w: World, run: seq<Event>, first: nat)
    requires AttemptInv(w, first)
    ensures From(w, run).allocs >= w.allocs
    ensures From(w, run).allocs == w.allocs ==> AttemptInv(From(w, run), first)
  {
    hide AttemptInv, Enabled, Do;
    if run != [] {
      AttemptStays(w, run[..|run| - 1], first);
      var before, e := From(w, run[..|run| - 1]), run[|run| - 1];
      if Enabled(before, e) {
        PreparingAllocates(before, e);
        if !Prepares(e) && before.allocs == w.allocs {
          StepKeepsInv(before, e, first);
        }
      }
    }
  }

  lemma StepKeepsInv(w: World, e: Event, first: nat)
    requires AttemptInv(w, first) && Enabled(w, e) && !Prepares(e)
    ensures AttemptInv(Do(w, e), first)
  {
    hide AttemptInv, MatterDo, MatterCan, AtDo, AtCan;
    match e
    case ByMatter(m) => MatterKeepsInv(w, m, first);
    case ByAt(a) => AtKeepsInv(w, a, first);
  }
}
