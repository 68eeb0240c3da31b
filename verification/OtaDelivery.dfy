/**
 What the relay is for: with the host switching it on, pulling every block and acknowledging it, a whole file
 arrives, block after block, byte for byte, and is announced once.
 */
module OtaDelivery {
  import opened Prelude
  import opened OtaLines
  import opened OtaMachine
  import OtaRelay

  // ---- one pull ----

  function Chunks(n: nat): (run: seq<Event>)
    ensures |run| == n
  {
    if n == 0 then [] else Chunks(n - 1) + [ByAt(PullChunk)]
  }

  /** AT+MTOTAGET: as many lines as 96 bytes at a time take, and the read that finds the end. */
  function PullRun(number: nat, size: nat): seq<Event> {
    [ByAt(PullBegin(number))] + Chunks((size + 95) / 96) + [ByAt(PullChunk)]
  }

  /** This block is out, under this number. */
  predicate Out(w: World, number: nat, block: seq<byte>) {
    && w.pending && w.blkNumber == number && w.blkLen == |block| && w.mem[..|block|] == block
    && w.delivered != [] && Last(w.delivered) == block
  }

  lemma LinesStand(size: nat, n: nat)
    ensures n < (size + 95) / 96 ==> 96 * n < size
    ensures n == (size + 95) / 96 ==> size <= 96 * n
    ensures 0 < n <= (size + 95) / 96 ==> 96 * (n - 1) < size
  {
  }

  lemma {:induction false} ChunksComeOut(w: World, number: nat, block: seq<byte>, n: nat)
    requires Out(w, number, block) && w.at == Pulling(number, [], |w.relays|) && n <= (|block| + 95) / 96
    requires n == 0 || CHUNK * (n - 1) < |block|
    ensures From(w, Chunks(n)) == w.(at := Pulling(number, Lines(block, n), |w.relays|))
  {
    hide From, Hex, Lines;
    if n == 0 {
      EmptyRun(w);
      NoLines(block);
    } else {
      LinesStand(|block|, n - 1);
      ChunksComeOut(w, number, block, n - 1);
      RunStep(w, Chunks(n - 1), ByAt(PullChunk));
      ChunkInBlock(w.mem, |block|, CHUNK * (n - 1));
      LinesStep(block, n);
    }
  }

  /** The pull of the block that is out ends OK with all of its lines, and changes nothing else. */
  lemma BlockIsPulled(w: World, number: nat, block: seq<byte>)
    requires Out(w, number, block) && w.at == Free
    ensures From(w, PullRun(number, |block|)) ==
      w.(pulls := w.pulls + [Pull(number, Lines(block, (|block| + 95) / 96), block, |w.relays|, |w.relays|)])
  {
    hide From, Hex, Lines, Chunks;
    var n := (|block| + 95) / 96;
    RunStep(w, [], ByAt(PullBegin(number)));
    EmptyRun(w);
    assert [] + [ByAt(PullBegin(number))] == [ByAt(PullBegin(number))];
    var begun := From(w, [ByAt(PullBegin(number))]);
    LinesStand(|block|, n);
    ChunksComeOut(begun, number, block, n);
    FromAppend(w, [ByAt(PullBegin(number))], Chunks(n));
    RunStep(w, [ByAt(PullBegin(number))] + Chunks(n), ByAt(PullChunk));
  }

  // ---- one block ----

  /** The next block can come. */
  predicate Ready(w: World) {
    && w.buf.Some? && w.mode && w.at == Free && w.queue == [] && w.download == Fetching && w.matter == Loop
    && !w.pending && !w.finalized
  }

  function Arrival(block: seq<byte>, eof: bool): seq<Event> {
    [ByMatter(Receive(block, eof, false)), ByMatter(CheckMode), ByMatter(Relay), ByMatter(Arm(true)), ByMatter(Settle)]
  }

  function Acknowledgement(number: nat): seq<Event> {
    [ByAt(AckBegin(number)), ByAt(AckQueue), ByMatter(RunWork(false))]
  }

  function Course(number: nat, block: seq<byte>, eof: bool): seq<Event> {
    Arrival(block, eof) + PullRun(number, |block|) + Acknowledgement(number)
  }

  function Arrived(w: World, block: seq<byte>, eof: bool): World
    requires w.buf.Some? && |block| <= BLOCK_SIZE
  {
    w.(mem := block + w.mem[|block|..], pendingLen := |block|, pending := true, blkBuf := w.buf.value, blkNumber := w.number,
       blkLen := |block|, relays := w.relays + [w.number], delivered := w.delivered + [block],
       finalized := w.finalized || eof, download := if eof then Complete else Waiting)
  }

  lemma BlockArrives(w: World, block: seq<byte>, eof: bool)
    requires Ready(w) && 0 < |block| <= 1024
    ensures From(w, Arrival(block, eof)) == Arrived(w, block, eof)
  {
    hide From;
    OtaRelay.RunOne(w, ByMatter(Receive(block, eof, false)));
    var run := [ByMatter(Receive(block, eof, false))];
    RunStep(w, run, ByMatter(CheckMode));
    run := run + [ByMatter(CheckMode)];
    RunStep(w, run, ByMatter(Relay));
    run := run + [ByMatter(Relay)];
    RunStep(w, run, ByMatter(Arm(true)));
    run := run + [ByMatter(Arm(true))];
    RunStep(w, run, ByMatter(Settle));
    assert run + [ByMatter(Settle)] == Arrival(block, eof);
  }

  lemma BlockIsAcknowledged(w: World, number: nat)
    requires w.pending && w.blkNumber == number == w.number && w.at == Free && w.queue == [] && w.matter == Loop && w.buf.Some?
    requires w.pendingLen > 0
    ensures From(w, Acknowledgement(number)) ==
      w.(pending := false, acked := w.acked + 1, downloaded := w.downloaded + w.pendingLen, pendingLen := 0,
         number := (w.number + 1) % 0x1_0000_0000, counted := w.counted + 1,
         raised := if w.finalized then w.raised + 1 else w.raised,
         download := if w.download == Waiting || w.download == Failed then Fetching else w.download)
  {
    hide From;
    OtaRelay.RunOne(w, ByAt(AckBegin(number)));
    var run := [ByAt(AckBegin(number))];
    RunStep(w, run, ByAt(AckQueue));
    run := run + [ByAt(AckQueue)];
    assert [] + [Ack(number)] == [Ack(number)];
    assert From(w, run) == w.(pending := false, acked := w.acked + 1, queue := [Ack(number)]);
    RunStep(w, run, ByMatter(RunWork(false)));
    AckIsCounted(From(w, run), number);
    assert run + [ByMatter(RunWork(false))] == Acknowledgement(number);
  }

  lemma AckIsCounted(w: World, number: nat)
    requires w.queue == [Ack(number)] && number == w.number && w.matter == Loop && w.buf.Some? && w.pendingLen > 0
    ensures Enabled(w, ByMatter(RunWork(false)))
    ensures Do(w, ByMatter(RunWork(false))) ==
      w.(queue := [], downloaded := w.downloaded + w.pendingLen, pendingLen := 0, number := (w.number + 1) % 0x1_0000_0000,
         counted := w.counted + 1, raised := if w.finalized then w.raised + 1 else w.raised,
         download := if w.download == Waiting || w.download == Failed then Fetching else w.download)
  {
    assert [Ack(number)][1..] == [];
  }

  /** What one more block adds; and the next can come, unless it was the last. */
  predicate OneMore(w: World, now: World, block: seq<byte>, eof: bool) {
    && now.delivered == w.delivered + [block] && now.downloaded == w.downloaded + |block|
    && now.acked == w.acked + 1 && now.counted == w.counted + 1
    && now.raised == w.raised + (if eof then 1 else 0) && now.finalized == eof
    && now.number == (w.number + 1) % 0x1_0000_0000
    && now.pulls == w.pulls + [Pull(w.number, Lines(block, (|block| + 95) / 96), block, |now.relays|, |now.relays|)]
    && (!eof ==> Ready(now))
  }

  lemma BlockGoesThrough(w: World, block: seq<byte>, eof: bool)
    requires Ready(w) && 0 < |block| <= 1024
    ensures OneMore(w, From(w, Course(w.number, block, eof)), block, eof)
  {
    hide From, Lines, PullRun, Acknowledgement, Arrival;
    BlockArrives(w, block, eof);
    var arrived := Arrived(w, block, eof);
    BlockIsPulled(arrived, w.number, block);
    FromAppend(w, Arrival(block, eof), PullRun(w.number, |block|));
    var pulled := From(arrived, PullRun(w.number, |block|));
    BlockIsAcknowledged(pulled, w.number);
    FromAppend(w, Arrival(block, eof) + PullRun(w.number, |block|), Acknowledgement(w.number));
  }

  // ---- the file ----

  /** Blocks under consecutive numbers, the last one ending the file. */
  function Transfer(number: nat, blocks: seq<seq<byte>>): seq<Event>
    decreases blocks
  {
    if blocks == [] then []
    else Course(number, blocks[0], |blocks| == 1) + Transfer((number + 1) % 0x1_0000_0000, blocks[1..])
  }

  /** What the host has when it puts its pulls together. */
  function Collected(pulls: seq<Pull>): seq<byte> {
    if pulls == [] then [] else Decoded(pulls[0].out) + Collected(pulls[1..])
  }

  function Joined(blocks: seq<seq<byte>>): seq<byte> {
    if blocks == [] then [] else blocks[0] + Joined(blocks[1..])
  }

  /** The file as one: every block handed over, pulled whole, acknowledged, counted; DOWNLOADED raised once. */
  predicate FileArrived(w: World, now: World, blocks: seq<seq<byte>>) {
    && now.delivered == w.delivered + blocks && now.downloaded == w.downloaded + |Joined(blocks)|
    && now.acked == w.acked + |blocks| && now.counted == w.counted + |blocks|
    && now.raised == w.raised + 1 && now.finalized
    && |w.pulls| <= |now.pulls| && now.pulls[..|w.pulls|] == w.pulls && |now.pulls| == |w.pulls| + |blocks|
    && Collected(now.pulls[|w.pulls|..]) == Joined(blocks)
  }

  lemma WholeBlock(block: seq<byte>)
    ensures var n := (|block| + 95) / 96; n == 0 || CHUNK * (n - 1) < |block|
    ensures Decoded(Lines(block, (|block| + 95) / 96)) == block
  {
    hide Lines, Decoded;
    var n := (|block| + 95) / 96;
    LinesStand(|block|, n);
    LinesDecode(block, n);
    assert block[..|block|] == block;
  }

  lemma CollectedStep(earlier: seq<Pull>, first: Pull, now: seq<Pull>)
    requires |earlier| < |now| && now[..|earlier| + 1] == earlier + [first]
    ensures now[..|earlier|] == earlier
    ensures Collected(now[|earlier|..]) == Decoded(first.out) + Collected(now[|earlier| + 1..])
  {
    var late := now[|earlier|..];
    assert now[..|earlier| + 1][|earlier|] == first;
    assert late[0] == first && late[1..] == now[|earlier| + 1..];
    assert now[..|earlier|] == now[..|earlier| + 1][..|earlier|];
  }

  /**
   A file of any number of blocks of 1 to 1024 bytes arrives: after each block has come, been pulled and been
   acknowledged, the host has exactly the file, every byte of it is counted, and DOWNLOADED is raised once.
   */
  lemma {:induction false} FileArrives(w: World, blocks: seq<seq<byte>>)
    requires Ready(w) && blocks != [] && forall i :: 0 <= i < |blocks| ==> 0 < |blocks[i]| <= 1024
    ensures FileArrived(w, From(w, Transfer(w.number, blocks)), blocks)
    decreases blocks
  {
    hide From, Course, Lines, Decoded;
    var block, rest := blocks[0], blocks[1..];
    var course := Course(w.number, block, |blocks| == 1);
    BlockGoesThrough(w, block, |blocks| == 1);
    WholeBlock(block);
    var next := From(w, course);
    FromAppend(w, course, Transfer(next.number, rest));
    if rest != [] {
      FileArrives(next, rest);
    } else {
      EmptyRun(next);
      assert next.pulls[|w.pulls| + 1..] == [];
    }
    var now := From(w, Transfer(w.number, blocks));
    CollectedStep(w.pulls, next.pulls[|w.pulls|], now.pulls);
    assert blocks == [block] + rest;
  }

  /** And the boot gets there: the relay switched on, a download prepared and begun. */
  lemma FileArrivesFromBoot(blocks: seq<seq<byte>>) returns (run: seq<Event>)
    requires blocks != [] && forall i :: 0 <= i < |blocks| ==> 0 < |blocks[i]| <= 1024
    ensures var now := From(Boot(), run);
            && Collected(now.pulls) == Joined(blocks) && now.downloaded == |Joined(blocks)| && now.raised == 1
  {
    hide From, Transfer, OtaRelay.Fresh;
    run := [ByAt(SwitchOn), ByMatter(Prepare(Some(Zeros(BLOCK_SIZE)))), ByMatter(RunWork(false))];
    FirstSteps();
    var w := From(Boot(), run);
    FileArrives(w, blocks);
    FromAppend(Boot(), run, Transfer(w.number, blocks));
    run := run + Transfer(w.number, blocks);
    var now := From(Boot(), run);
    assert now.pulls[0..] == now.pulls;
  }

  lemma FirstSteps()
    ensures var w := From(Boot(), [ByAt(SwitchOn), ByMatter(Prepare(Some(Zeros(BLOCK_SIZE)))), ByMatter(RunWork(false))]);
            Ready(w) && w.number == 0 && w.pulls == [] && w.downloaded == 0 && w.raised == 0
  {
    hide From, Zeros;
    OtaRelay.RunOne(Boot(), ByAt(SwitchOn));
    var run := [ByAt(SwitchOn)];
    RunStep(Boot(), run, ByMatter(Prepare(Some(Zeros(BLOCK_SIZE)))));
    run := run + [ByMatter(Prepare(Some(Zeros(BLOCK_SIZE))))];
    assert [] + [Begin] == [Begin];
    RunStep(Boot(), run, ByMatter(RunWork(false)));
    assert run + [ByMatter(RunWork(false))] == [ByAt(SwitchOn), ByMatter(Prepare(Some(Zeros(BLOCK_SIZE)))), ByMatter(RunWork(false))];
  }
}
