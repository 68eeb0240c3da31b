/**
 The block relay of a firmware update (core/mt/mt_ota.c, platform/common/hearth_ota_requestor.cpp). The Matter
 thread downloads a block into one buffer and hands it to the core; the AT task pulls it out in hex chunks and
 acknowledges it. Critical sections, unlocked checks, the copy into the buffer, the timer, the free and the
 queueing of work are separate steps, and the two threads interleave freely. The downloader is only its call
 order: a block comes after a fetch, Finalize straight after the end-of-file block, and a download is prepared
 when the last one has been released and its scheduled half has run.
 */
module OtaMachine {
  import opened Prelude
  import opened OtaLines

  const BLOCK_SIZE: nat := 1024

  type Memory = m: seq<byte> | |m| == BLOCK_SIZE witness Zeros(BLOCK_SIZE)
  type Length = n: nat | n <= BLOCK_SIZE

  function Zeros(n: nat): (z: seq<byte>)
    ensures |z| == n && forall i :: 0 <= i < n ==> z[i] == 0
  {
    seq(n, i => 0)
  }

  /** Work posted to the Matter thread, run in order: a block acknowledged, the scheduled half of a preparation. */
  datatype Work = Ack(number: nat) | Begin

  datatype Matter =
    | Loop
    | Copied(block: seq<byte>, eof: bool)
    | Checked(block: seq<byte>, eof: bool)
    | Relayed(eof: bool)
    | Processed(eof: bool)
    | Releasing

  /** Preparing until Begin has run; Failed when a block was refused and the update is about to be cancelled. */
  datatype Download = Off | Preparing | Fetching | Waiting | Complete | Failed

  datatype At = Free | Dropping | Acking(number: nat) | Pulling(number: nat, out: seq<Line>, since: nat)

  /** A pull that ended OK: what it emitted, the block then pending, and how many blocks had been relayed at its first line and its end. */
  datatype Pull = Pull(number: nat, out: seq<Line>, block: seq<byte>, since: nat, until: nat)

  /**
   buf names the live buffer. delivered, acked and counted tell of the current attempt: the blocks handed to the
   core, how many of them the host acknowledged, how many acknowledgements were counted. relays holds the numbers
   of all blocks ever handed to the core.
   */
  datatype World = World(
    buf: Option<nat>, allocs: nat, mem: Memory, number: nat, pendingLen: Length, finalized: bool, downloaded: nat,
    download: Download, matter: Matter, queue: seq<Work>,
    mode: bool, pending: bool, blkBuf: nat, blkNumber: nat, blkLen: Length,
    at: At,
    relays: seq<nat>, delivered: seq<seq<byte>>, acked: nat, counted: nat, raised: nat, pulls: seq<Pull>)

  datatype MatterStep =
    | Prepare(memory: Option<Memory>)
    | RunWork(refused: bool)
    | Receive(block: seq<byte>, eof: bool, malformed: bool)
    | CheckMode
    | Relay
    | Arm(timer: bool)
    | Settle
    | Drop
    | Release

  datatype AtStep =
    | SwitchOn
    | SwitchOff | DropOff
    | AckBegin(number: nat) | AckQueue
    | PullBegin(number: nat) | PullChunk

  function Boot(): World {
    World(None, 0, Zeros(BLOCK_SIZE), 0, 0, false, 0, Off, Loop, [], false, false, 0, 0, 0, Free, [], [], 0, 0, 0, [])
  }

  predicate MatterCan(w: World, e: MatterStep) {
    match e
    case Prepare(memory) => w.buf.None? && w.matter == Loop && Begin !in w.queue
    case RunWork(refused) => w.matter == Loop && w.queue != []
    case Receive(block, eof, malformed) => w.matter == Loop && w.download == Fetching
    case CheckMode => w.matter.Copied?
    case Relay => w.matter.Checked?
    case Arm(timer) => w.matter.Relayed?
    case Settle => w.matter.Processed?
    case Drop => w.matter == Loop
    case Release => w.matter == Releasing
  }

  predicate AtCan(w: World, e: AtStep) {
    match e
    case SwitchOn => w.at == Free
    case SwitchOff => w.at == Free
    case DropOff => w.at == Dropping
    case AckBegin(number) => w.at == Free
    case AckQueue => w.at.Acking?
    case PullBegin(number) => w.at == Free
    case PullChunk => w.at.Pulling?
  }

  function Next(number: nat): nat {
    (number + 1) % TWO_TO_32
  }

  /** PrepareDownload: the buffer and the counters at once, the transfer itself as scheduled work. */
  function Prepared(w: World, content: Memory): World {
    w.(buf := Some(w.allocs), allocs := w.allocs + 1, mem := content, number := 0, pendingLen := 0, finalized := false,
       downloaded := 0, download := Preparing, queue := w.queue + [Begin],
       delivered := [], acked := 0, counted := 0, raised := 0)
  }

  /** The scheduled half: refused if the requestor does not own the download any more. */
  function Begun(w: World, refused: bool): World
    requires w.queue != []
  {
    w.(queue := w.queue[1..], download := if w.buf.None? || refused then Off else Fetching)
  }

  /** BlockAcked. */
  function Counted(w: World, number: nat): World
    requires w.queue != []
  {
    if w.buf.None? || number != w.number then w.(queue := w.queue[1..])
    else
      w.(queue := w.queue[1..], downloaded := w.downloaded + w.pendingLen, pendingLen := 0, number := Next(w.number),
         counted := if w.pendingLen > 0 then w.counted + 1 else w.counted,
         raised := if w.finalized then w.raised + 1 else w.raised,
         download := if w.download == Waiting || w.download == Failed then Fetching else w.download)
  }

  function Received(w: World, block: seq<byte>, eof: bool, malformed: bool): World {
    if |block| > BLOCK_SIZE then w.(download := Failed)
    else if block == [] then w.(matter := Processed(eof))
    else if malformed then w.(download := Failed)
    else w.(mem := block + w.mem[|block|..], pendingLen := |block|, matter := Copied(block, eof))
  }

  /** The critical section of mt_ota_on_block. */
  function Taken(w: World): World
    requires w.matter.Checked?
  {
    if w.buf.None? || w.pending then w.(download := Failed, matter := Loop)
    else
      w.(pending := true, blkBuf := w.buf.value, blkNumber := w.number, blkLen := w.pendingLen,
         relays := w.relays + [w.number], delivered := w.delivered + [w.matter.block], matter := Relayed(w.matter.eof))
  }

  function MatterDo(w: World, e: MatterStep): World
    requires MatterCan(w, e)
  {
    match e
    case Prepare(memory) => if memory.None? then w else Prepared(w, memory.value)
    case RunWork(refused) => if w.queue[0].Begin? then Begun(w, refused) else Counted(w, w.queue[0].number)
    case Receive(block, eof, malformed) => Received(w, block, eof, malformed)
    case CheckMode => if w.mode then w.(matter := Checked(w.matter.block, w.matter.eof)) else w.(download := Failed, matter := Loop)
    case Relay => Taken(w)
    case Arm(timer) => if timer then w.(matter := Processed(w.matter.eof)) else w.(download := Failed, matter := Loop)
    case Settle =>
      if w.matter.eof then
        w.(finalized := true, raised := if w.pendingLen == 0 then w.raised + 1 else w.raised, download := Complete, matter := Loop)
      else w.(download := Waiting, matter := Loop)
    case Drop => w.(pending := false, matter := Releasing)
    case Release => w.(buf := None, pendingLen := 0, download := Off, matter := Loop)
  }

  function AtDo(w: World, e: AtStep): World
    requires AtCan(w, e)
  {
    match e
    case SwitchOn => w.(mode := true)
    case SwitchOff => w.(mode := false, at := Dropping)
    case DropOff => w.(pending := false, at := Free)
    case AckBegin(number) =>
      if w.pending && w.blkNumber == number then w.(pending := false, acked := w.acked + 1, at := Acking(number)) else w
    case AckQueue => w.(queue := w.queue + [Ack(w.at.number)], at := Free)
    case PullBegin(number) => w.(at := Pulling(number, [], |w.relays|))
    case PullChunk =>
      var off := CHUNK * |w.at.out|;
      if !w.pending || w.blkNumber != w.at.number then w.(at := Free)
      else if off >= w.blkLen then
        w.(at := Free, pulls := w.pulls + [Pull(w.at.number, w.at.out, Last(w.delivered), w.at.since, |w.relays|)])
      else
        w.(at := w.at.(out := w.at.out + [Line(off, Hex(w.mem[off..ChunkEnd(off, w.blkLen)]))],
                       since := if w.at.out == [] then |w.relays| else w.at.since))
  }

  datatype Event = ByMatter(m: MatterStep) | ByAt(a: AtStep)

  predicate Enabled(w: World, e: Event) {
    match e
    case ByMatter(m) => MatterCan(w, m)
    case ByAt(a) => AtCan(w, a)
  }

  function Do(w: World, e: Event): World
    requires Enabled(w, e)
  {
    match e
    case ByMatter(m) => MatterDo(w, m)
    case ByAt(a) => AtDo(w, a)
  }

  function From(w: World, run: seq<Event>): World {
    if run == [] then w
    else
      var w' := From(w, run[..|run| - 1]);
      if Enabled(w', run[|run| - 1]) then Do(w', run[|run| - 1]) else w'
  }

  lemma RunStep(w: World, run: seq<Event>, e: Event)
    ensures From(w, run + [e]) == if Enabled(From(w, run), e) then Do(From(w, run), e) else From(w, run)
  {
    assert (run + [e])[..|run|] == run;
  }

  lemma {:induction false} FromAppend(w: World, a: seq<Event>, b: seq<Event>)
    ensures From(w, a + b) == From(From(w, a), b)
  {
    hide Enabled, Do;
    if b == [] {
      assert a + b == a;
    } else {
      assert (a + b)[..|a + b| - 1] == a + b[..|b| - 1];
      FromAppend(w, a, b[..|b| - 1]);
    }
  }

  lemma EmptyRun(w: World)
    ensures From(w, []) == w
  {
  }

  // ---- in every interleaving ----

  function Sum(blocks: seq<seq<byte>>): nat {
    if blocks == [] then 0 else Sum(blocks[..|blocks| - 1]) + |blocks[|blocks| - 1]|
  }

  function Last(blocks: seq<seq<byte>>): seq<byte> {
    if blocks == [] then [] else blocks[|blocks| - 1]
  }

  /** A pending block points into the live buffer; nothing else is ever read. */
  predicate LiveInv(w: World) {
    && (w.pending ==> w.buf == Some(w.blkBuf) && w.blkLen > 0 && w.delivered != [])
    && (w.matter == Releasing ==> !w.pending)
    && (w.matter.Copied? || w.matter.Checked? ==>
          && w.buf.Some? && w.download == Fetching
          && 0 < |w.matter.block| == w.pendingLen && w.mem[..w.pendingLen] == w.matter.block)
    && (w.matter.Relayed? || w.matter.Processed? ==> w.buf.Some? && w.download == Fetching)
    && (w.buf.None? ==> w.download == Off && w.pendingLen == 0)
    && (w.buf.Some? ==> (Begin in w.queue <==> w.download == Preparing))
    && OneBegin(w.queue)
    && (w.at.Pulling? ==> w.at.since <= |w.relays|)
  }

  predicate OneBegin(queue: seq<Work>) {
    forall i, j :: 0 <= i < j < |queue| ==> !(queue[i].Begin? && queue[j].Begin?)
  }

  lemma OneBeginRest(queue: seq<Work>)
    requires queue != [] && OneBegin(queue)
    ensures OneBegin(queue[1..]) && (Begin in queue <==> queue[0].Begin? || Begin in queue[1..])
    ensures queue[0].Begin? ==> Begin !in queue[1..]
  {
    var rest := queue[1..];
    assert forall i :: 0 <= i < |rest| ==> rest[i] == queue[i + 1];
  }

  lemma OneBeginMore(queue: seq<Work>, work: Work)
    requires OneBegin(queue) && (work.Begin? ==> Begin !in queue)
    ensures OneBegin(queue + [work]) && (Begin in queue + [work] <==> Begin in queue || work.Begin?)
  {
  }

  lemma PreparingKeepsLive(w: World, memory: Option<Memory>)
    requires LiveInv(w) && MatterCan(w, Prepare(memory))
    ensures LiveInv(MatterDo(w, Prepare(memory)))
  {
    hide OneBegin;
    OneBeginMore(w.queue, Begin);
  }

  lemma RunningKeepsLive(w: World, refused: bool)
    requires LiveInv(w) && MatterCan(w, RunWork(refused))
    ensures LiveInv(MatterDo(w, RunWork(refused)))
  {
    hide OneBegin;
    OneBeginRest(w.queue);
  }

  lemma ReceivingKeepsLive(w: World, block: seq<byte>, eof: bool, malformed: bool)
    requires LiveInv(w) && MatterCan(w, Receive(block, eof, malformed))
    ensures LiveInv(MatterDo(w, Receive(block, eof, malformed)))
  {
    hide OneBegin;
  }

  lemma RelayingKeepsLive(w: World)
    requires LiveInv(w) && MatterCan(w, Relay)
    ensures LiveInv(MatterDo(w, Relay))
  {
    hide OneBegin;
  }

  lemma EndingKeepsLive(w: World, e: MatterStep)
    requires LiveInv(w) && MatterCan(w, e) && !e.Prepare? && !e.RunWork? && !e.Receive? && !e.Relay?
    ensures LiveInv(MatterDo(w, e))
  {
    hide OneBegin;
  }

  lemma MatterKeepsLive(w: World, e: MatterStep)
    requires LiveInv(w) && MatterCan(w, e)
    ensures LiveInv(MatterDo(w, e))
  {
    hide LiveInv, MatterDo, MatterCan;
    match e
    case Prepare(memory) => PreparingKeepsLive(w, memory);
    case RunWork(refused) => RunningKeepsLive(w, refused);
    case Receive(block, eof, malformed) => ReceivingKeepsLive(w, block, eof, malformed);
    case Relay => RelayingKeepsLive(w);
    case _ => EndingKeepsLive(w, e);
  }

  lemma AtKeepsLive(w: World, e: AtStep)
    requires LiveInv(w) && AtCan(w, e)
    ensures LiveInv(AtDo(w, e))
  {
    hide Hex, OneBegin;
    if e.AckQueue? {
      OneBeginMore(w.queue, Ack(w.at.number));
    }
  }

  lemma KeepsLive(w: World, e: Event)
    requires LiveInv(w) && Enabled(w, e)
    ensures LiveInv(Do(w, e))
  {
    hide LiveInv, MatterDo, AtDo, MatterCan, AtCan;
    match e
    case ByMatter(m) => MatterKeepsLive(w, m);
    case ByAt(a) => AtKeepsLive(w, a);
  }

  lemma {:induction false} RunsKeepLive(w: World, run: seq<Event>)
    requires LiveInv(w)
    ensures LiveInv(From(w, run))
  {
    hide LiveInv, Enabled, Do;
    if run != [] {
      RunsKeepLive(w, run[..|run| - 1]);
      var w' := From(w, run[..|run| - 1]);
      if Enabled(w', run[|run| - 1]) {
        KeepsLive(w', run[|run| - 1]);
      }
    }
  }

  /** In every interleaving whatsoever a pending block is in the live buffer, and it is what the last relay handed over. */
  lemma PendingIsLive(run: seq<Event>)
    ensures LiveInv(From(Boot(), run))
    ensures From(Boot(), run).pending ==> From(Boot(), run).buf == Some(From(Boot(), run).blkBuf)
  {
    hide From;
    RunsKeepLive(Boot(), run);
  }
}
