/**
 The relay as the code that runs: the statics of core/mt/mt_ota.c and the image processor of
 platform/common/hearth_ota_requestor.cpp, each step of the machine in OtaMachine as a method.
 */
module OtaCode {
  import opened Prelude
  import opened OtaLines
  import opened OtaMachine

  /** mt_ota.c: the mode and the pending block. */
  class Core {
    var mode: bool
    var pending: bool
    var number: nat
    var data: array?<byte>
    var len: nat

    predicate Valid()
      reads this
    {
      pending ==> data != null && data.Length == BLOCK_SIZE && 0 < len <= BLOCK_SIZE
    }

    /** The slot is that of w; a pending block lies in buf. */
    ghost predicate Shows(w: World, buf: array?<byte>)
      reads this
    {
      && Valid() && mode == w.mode && pending == w.pending
      && (pending ==> data == buf && number == w.blkNumber && len == w.blkLen)
    }

    constructor ()
      ensures Shows(Boot(), null)
    {
      mode, pending, number, data, len := false, false, 0, null, 0;
    }

    method DropPending()
      modifies this`pending, this`data, this`len
      ensures Valid() && !pending
    {
      pending, data, len := false, null, 0;
    }

    /** AT+MTOTA=1, and the two halves of AT+MTOTA=0. */
    method SetMode(on: bool, buf: array?<byte>, ghost w: World)
      requires Shows(w, buf) && w.at == Free
      modifies this
      ensures Shows(if on then AtDo(w, SwitchOn) else AtDo(AtDo(w, SwitchOff), DropOff), buf)
    {
      mode := on;
      if !on {
        DropPending();
      }
    }

    /** The critical section of mt_ota_on_block, entered with the relay on. */
    method TakeBlock(number: nat, data: array<byte>, len: nat, ghost w: World) returns (ok: bool)
      requires Shows(w, data) && MatterCan(w, Relay) && LiveInv(w) && data.Length == BLOCK_SIZE
      requires number == w.number && len == w.pendingLen
      modifies this
      ensures Shows(MatterDo(w, Relay), data)
      ensures ok <==> !old(pending)
      ensures ok ==> |MatterDo(w, Relay).delivered| == |w.delivered| + 1
    {
      if pending {
        return false;
      }
      pending, this.number, this.data, this.len := true, number, data, len;
      return true;
    }

    /** The critical section of AT+MTOTAACK; on true the acknowledgement is queued next. */
    method Acknowledge(number: nat, buf: array?<byte>, ghost w: World) returns (ok: bool)
      requires Shows(w, buf) && w.at == Free
      modifies this
      ensures Shows(AtDo(w, AckBegin(number)), buf)
      ensures ok <==> AtDo(w, AckBegin(number)).at == Acking(number)
      ensures ok <==> old(pending) && old(this.number) == number
    {
      if !pending || this.number != number {
        return false;
      }
      DropPending();
      return true;
    }

    /** The critical section of one chunk of AT+MTOTAGET: the chunk, the end of the block, or its loss. */
    method CopyChunk(number: nat, off: nat, buf: array?<byte>, ghost w: World) returns (lost: bool, chunk: seq<byte>)
      requires Shows(w, buf) && (buf != null ==> buf.Length == BLOCK_SIZE && buf[..] == w.mem)
      requires w.at.Pulling? && number == w.at.number && off == CHUNK * |w.at.out|
      ensures Shows(AtDo(w, PullChunk), buf) && |chunk| <= CHUNK
      ensures lost <==> !pending || this.number != number
      ensures lost ==> AtDo(w, PullChunk) == w.(at := Free)
      ensures !lost && chunk == [] ==> AtDo(w, PullChunk).at == Free && |AtDo(w, PullChunk).pulls| == |w.pulls| + 1
      ensures chunk != [] ==> !lost && AtDo(w, PullChunk).at.Pulling? && AtDo(w, PullChunk).at.out == w.at.out + [Line(off, Hex(chunk))]
    {
      hide Hex;
      if !pending || this.number != number {
        return true, [];
      }
      if off >= len {
        return false, [];
      }
      var n := if len - off > CHUNK then CHUNK else len - off;
      assert data[off..off + n] == w.mem[off..ChunkEnd(off, w.blkLen)];
      return false, data[off..off + n];
    }

    /** AT+MTOTAGET when nothing comes in between: every chunk of the block, in order, or nothing. */
    method PullBlock(number: nat) returns (ok: bool, lines: seq<Line>)
      requires Valid()
      ensures ok <==> pending && this.number == number
      ensures ok ==> lines == Lines(data[..len], WholeLines(data[..len])) && Decoded(lines) == data[..len]
      ensures !ok ==> lines == []
    {
      hide Lines, Hex, WholeLines, Decoded;
      lines := [];
      if !pending || this.number != number {
        return false, lines;
      }
      ghost var block := data[..len];
      var off := 0;
      NoLines(block);
      while off < len
        invariant off == CHUNK * |lines| && (lines != [] ==> CHUNK * (|lines| - 1) < len)
        invariant lines == Lines(block, |lines|)
        decreases len - off
      {
        var n := if len - off > CHUNK then CHUNK else len - off;
        var hex := RenderHex(data[off..off + n]);
        LinesStep(block, |lines| + 1);
        ChunkInBlock(data[..], len, off);
        assert block == data[..][..len] && data[..][off..ChunkEnd(off, len)] == data[off..off + n];
        lines := lines + [Line(off, hex)];
        off := off + CHUNK;
      }
      WholeIsReached(block, |lines|);
      LinesDecode(block, |lines|);
      return true, lines;
    }
  }

  /** The memcpy of a block into the buffer. */
  method CopyInto(buf: array<byte>, block: seq<byte>)
    requires |block| <= buf.Length
    modifies buf
    ensures buf[..] == block + old(buf[..])[|block|..]
  {
    for i := 0 to |block|
      invariant forall k :: 0 <= k < i ==> buf[k] == block[k]
      invariant forall k :: i <= k < buf.Length ==> buf[k] == old(buf[k])
    {
      buf[i] := block[i];
    }
  }

  /** The image processor: the block buffer and its bookkeeping, all of it on the Matter thread. */
  class ImageProcessor {
    const core: Core
    var buf: array?<byte>
    var number: nat
    var pendingLen: nat
    var finalized: bool
    var downloaded: nat
    var scheduled: seq<Work>

    predicate Valid()
      reads this, core
    {
      core.Valid() && (buf != null ==> buf.Length == BLOCK_SIZE)
    }

    /** Both sides of the relay stand as in w. */
    ghost predicate Shows(w: World)
      reads this, core, buf
    {
      && Valid() && core.Shows(w, buf) && (buf == null <==> w.buf.None?) && (buf != null ==> buf[..] == w.mem)
      && number == w.number && pendingLen == w.pendingLen && finalized == w.finalized && downloaded == w.downloaded
      && scheduled == w.queue
    }

    constructor (core: Core)
      requires core.Shows(Boot(), null)
      ensures Shows(Boot()) && this.core == core
    {
      this.core := core;
      buf, number, pendingLen, finalized, downloaded, scheduled := null, 0, 0, false, 0, [];
    }

    /** PrepareDownload, called by the downloader; memory is what hearth_stage_alloc gave. */
    method PrepareDownload(owned: bool, memory: array?<byte>, ghost w: World) returns (ok: bool)
      requires Shows(w) && LiveInv(w) && MatterCan(w, Prepare(None))
      requires memory != null ==> memory.Length == BLOCK_SIZE
      modifies this
      ensures ok <==> owned && memory != null
      ensures Shows(MatterDo(w, Prepare(if ok then Some(memory[..]) else None)))
    {
      if !owned {
        return false;
      }
      if buf == null {
        buf := memory;
      }
      if buf == null {
        return false;
      }
      downloaded, number, pendingLen, finalized := 0, 0, 0, false;
      scheduled := scheduled + [Begin];
      return true;
    }

    /** ProcessBlock up to the copy. */
    method CopyBlock(block: seq<byte>, eof: bool, malformed: bool, ghost w: World) returns (failed: bool)
      requires Shows(w) && LiveInv(w) && MatterCan(w, Receive(block, eof, malformed))
      modifies this`pendingLen, buf
      ensures Shows(MatterDo(w, Receive(block, eof, malformed)))
      ensures failed <==> MatterDo(w, Receive(block, eof, malformed)).download == Failed
      ensures failed <==> |block| > 1024 || (block != [] && malformed)
    {
      if |block| > BLOCK_SIZE {
        return true;
      }
      if |block| == 0 {
        return false;
      }
      if malformed {
        return true;
      }
      CopyInto(buf, block);
      pendingLen := |block|;
      return false;
    }

    /** The rest of ProcessBlock when no step of the AT task comes in between: hand the block over and arm the timer. */
    method HandOver(timer: bool, ghost w: World) returns (failed: bool)
      requires Shows(w) && LiveInv(w) && MatterCan(w, CheckMode)
      modifies core
      ensures var checked := MatterDo(w, CheckMode);
              if !checked.matter.Checked? then failed && Shows(checked)
              else
                var taken := MatterDo(checked, Relay);
                if !taken.matter.Relayed? then failed && Shows(taken)
                else Shows(MatterDo(taken, Arm(timer))) && (failed <==> !timer)
      ensures failed <==> !old(core.mode) || old(core.pending) || !timer
    {
      if !core.mode {
        return true;
      }
      var ok := core.TakeBlock(number, buf, pendingLen, MatterDo(w, CheckMode));
      return !ok || !timer;
    }

    /** Finalize, straight after the end-of-file block. */
    method Finalize(ghost w: World) returns (announce: bool)
      requires Shows(w) && MatterCan(w, Settle) && w.matter.eof
      modifies this`finalized
      ensures Shows(MatterDo(w, Settle)) && MatterDo(w, Settle).raised == w.raised + if announce then 1 else 0
    {
      finalized := true;
      return pendingLen == 0;
    }

    /** The next piece of scheduled work; owned is whether the requestor still owns the download. */
    method RunScheduled(owned: bool, ghost w: World) returns (announce: bool)
      requires Shows(w) && LiveInv(w) && MatterCan(w, RunWork(!owned))
      modifies this
      ensures Shows(MatterDo(w, RunWork(!owned))) && MatterDo(w, RunWork(!owned)).raised == w.raised + if announce then 1 else 0
    {
      announce := false;
      var work := scheduled[0];
      scheduled := scheduled[1..];
      if work.Ack? {
        announce := BlockAcked(work.number);
      }
    }

    method BlockAcked(seqNumber: nat) returns (announce: bool)
      modifies this`number, this`pendingLen, this`downloaded
      ensures if buf == null || seqNumber != old(number)
              then number == old(number) && pendingLen == old(pendingLen) && downloaded == old(downloaded) && !announce
              else number == Next(old(number)) && pendingLen == 0 && downloaded == old(downloaded) + old(pendingLen) && announce == finalized
    {
      if buf == null || seqNumber != number {
        return false;
      }
      downloaded := downloaded + pendingLen;
      pendingLen := 0;
      number := (number + 1) % TWO_TO_32;
      return finalized;
    }

    /** mt_matter_ota_block_acked, from the AT task: the acknowledgement is scheduled. */
    method Schedule(number: nat, ghost w: World)
      requires Shows(w) && w.at == Acking(number)
      modifies this`scheduled
      ensures Shows(AtDo(w, AckQueue))
    {
      scheduled := scheduled + [Ack(number)];
    }

    /** Release: the core forgets the block first, then the buffer is freed. */
    method Release(ghost w: World)
      requires Shows(w) && MatterCan(w, Drop)
      modifies this, core
      ensures Shows(MatterDo(MatterDo(w, Drop), MatterStep.Release))
    {
      core.DropPending();
      buf, pendingLen := null, 0;
    }
  }
}
