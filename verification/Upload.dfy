/**
 The image upload over SMP (platform/nrf54l15/fw/flash.py): a frame at a time, resent on silence, always from
 the offset the bootloader last reported. The link loses frames, and hands over replies late or stale.
 */
module Upload {
  import opened Prelude

  const CHUNK: nat := 512
  const MAX_TIMEOUTS: nat := 5
  const MAX_NO_PROGRESS: nat := 5
  const MGMT_ERR_OK: int := 0

  /** A decoded reply: its sequence byte, and its rc and off entries if it has them. */
  datatype Reply = Reply(number: byte, rc: Option<int>, off: Option<int>)

  /** Sequence numbers, one byte wide. */
  function NextNumber(n: nat): byte {
    (n + 1) % 256
  }

  class SeqCounter {
    var n: nat

    constructor ()
      ensures n == 0
    {
      n := 0;
    }

    method Next() returns (number: byte)
      modifies this
      ensures n == number == NextNumber(old(n))
    {
      n := (n + 1) % 256;
      return n;
    }
  }

  // ---- the other side ----

  /** What becomes of a frame on its way: lost, taken by the bootloader, or refused with an error code. */
  datatype Delivery = Lost | Taken | Refused(rc: int)

  /** One iteration's luck: the frame's, and which reply seen so far is read, if one is read in time. */
  datatype Move = Move(delivery: Delivery, read: Option<nat>)

  /** The bootloader: the bytes it holds, and every reply it has sent, any of which may still arrive, even twice. */
  datatype Device = Device(held: seq<byte>, replies: seq<Reply>)

  /** It stores a chunk only at the offset it expects, and reports the offset it expects next. */
  function Receive(d: Device, number: byte, off: int, data: seq<byte>, delivery: Delivery): Device {
    match delivery
    case Lost => d
    case Refused(rc) => d.(replies := d.replies + [Reply(number, Some(if rc == MGMT_ERR_OK then 1 else rc), None)])
    case Taken =>
      var held := if off == |d.held| then d.held + data else d.held;
      Device(held, d.replies + [Reply(number, Some(MGMT_ERR_OK), Some(|held|))])
  }

  /** The reply read_response returns: one that carries the number asked for. None is a timeout. */
  function ReadResponse(d: Device, number: byte, read: Option<nat>): Option<Reply> {
    if read.Some? && read.value < |d.replies| && d.replies[read.value].number == number then Some(d.replies[read.value]) else None
  }

  // ---- the uploader as a state machine ----

  datatype Status = Running | Finished | Died

  datatype Run = Run(off: int, timeouts: nat, noProgress: nat, number: byte, status: Status, device: Device)

  /** Where a slice bound falls: a negative one counts from the end, and none falls outside. */
  function SliceBound(i: int, n: nat): (k: nat)
    ensures k <= n
  {
    if i < 0 then (if i + n < 0 then 0 else i + n) else if i > n then n else i
  }

  /** The slice of the image sent from this offset, whatever the bootloader reported it to be. */
  function Chunk(image: seq<byte>, off: int): seq<byte> {
    var first, last := SliceBound(off, |image|), SliceBound(off + CHUNK, |image|);
    if first < last then image[first..last] else []
  }

  /** What the reply makes of the run. */
  function Answered(image: seq<byte>, r: Run, reply: Option<Reply>): Run {
    if reply.None? then
      if r.timeouts + 1 > MAX_TIMEOUTS then r.(timeouts := r.timeouts + 1, status := Died) else r.(timeouts := r.timeouts + 1)
    else if reply.value.rc != Some(MGMT_ERR_OK) || reply.value.off.None? then r.(timeouts := 0, status := Died)
    else
      var off := reply.value.off.value;
      var stuck := if off <= r.off then r.noProgress + 1 else 0;
      if stuck > MAX_NO_PROGRESS then r.(timeouts := 0, noProgress := stuck, status := Died)
      else Run(off, 0, stuck, NextNumber(r.number), if off < |image| then Running else Finished, r.device)
  }

  function Step(image: seq<byte>, r: Run, m: Move): Run {
    if r.status != Running then r
    else
      var device := Receive(r.device, r.number, r.off, Chunk(image, r.off), m.delivery);
      Answered(image, r.(device := device), ReadResponse(device, r.number, m.read))
  }

  function Begin(image: seq<byte>, number: byte, replies: seq<Reply>): Run {
    Run(0, 0, 0, number, if image == [] then Finished else Running, Device([], replies))
  }

  function After(image: seq<byte>, number: byte, replies: seq<Reply>, moves: seq<Move>): Run {
    if moves == [] then Begin(image, number, replies)
    else Step(image, After(image, number, replies, moves[..|moves| - 1]), moves[|moves| - 1])
  }

  /** The loop itself, for as long as the link's luck is given. */
  method Upload(image: seq<byte>, counter: SeqCounter, device: Device, moves: seq<Move>)
    returns (status: Status, after: Device)
    requires device.held == []
    modifies counter
    ensures var r := After(image, NextNumber(old(counter.n)), device.replies, moves);
            status == r.status && after == r.device
  {
    hide Chunk, Receive, ReadResponse;
    var off: int := 0;
    var timeouts, noProgress := 0, 0;
    var number := counter.Next();
    ghost var first := number;
    after := device;
    var k := 0;
    while off < |image| && k < |moves|
      invariant 0 <= k <= |moves|
      invariant After(image, first, device.replies, moves[..k])
             == Run(off, timeouts, noProgress, number, if off < |image| then Running else Finished, after)
      invariant counter.n == number
      decreases |moves| - k
    {
      AfterStep(image, first, device.replies, moves, k);
      after := Receive(after, number, off, Chunk(image, off), moves[k].delivery);
      var reply := ReadResponse(after, number, moves[k].read);
      k := k + 1;
      if reply.None? {
        timeouts := timeouts + 1;
        if timeouts > MAX_TIMEOUTS {
          DeadStaysDead(image, first, device.replies, moves, k);
          return Died, after;
        }
        continue;
      }
      timeouts := 0;
      if reply.value.rc != Some(MGMT_ERR_OK) || reply.value.off.None? {
        DeadStaysDead(image, first, device.replies, moves, k);
        return Died, after;
      }
      var newOff := reply.value.off.value;
      if newOff <= off {
        noProgress := noProgress + 1;
        if noProgress > MAX_NO_PROGRESS {
          DeadStaysDead(image, first, device.replies, moves, k);
          return Died, after;
        }
      } else {
        noProgress := 0;
      }
      off := newOff;
      number := counter.Next();
    }
    DeadStaysDead(image, first, device.replies, moves, k);
    assert k == |moves| ==> moves[..k] == moves;
    return if off < |image| then Running else Finished, after;
  }

  lemma AfterStep(image: seq<byte>, number: byte, replies: seq<Reply>, moves: seq<Move>, k: nat)
    requires k < |moves|
    ensures After(image, number, replies, moves[..k + 1]) == Step(image, After(image, number, replies, moves[..k]), moves[k])
  {
    assert moves[..k + 1][..k] == moves[..k];
  }

  lemma {:induction false} DeadStaysDead(image: seq<byte>, number: byte, replies: seq<Reply>, moves: seq<Move>, k: nat)
    requires k <= |moves|
    ensures After(image, number, replies, moves[..k]).status != Running ==>
      After(image, number, replies, moves) == After(image, number, replies, moves[..k])
    decreases |moves| - k
  {
    hide Step;
    if k == |moves| {
      assert moves[..k] == moves;
    } else {
      AfterStep(image, number, replies, moves, k);
      StoppedStays(image, After(image, number, replies, moves[..k]), moves[k]);
      DeadStaysDead(image, number, replies, moves, k + 1);
    }
  }

  lemma StoppedStays(image: seq<byte>, r: Run, m: Move)
    ensures r.status != Running ==> Step(image, r, m) == r
  {
  }

  // ---- what a normal return means ----

  /** A success that reports an offset. */
  predicate Reports(reply: Reply) {
    reply.rc == Some(MGMT_ERR_OK) && reply.off.Some?
  }

  /** No reply left over from before the upload reports an offset at or past the end of the image. */
  predicate Unrelated(image: seq<byte>, replies: seq<Reply>) {
    image == [] || forall i :: 0 <= i < |replies| && Reports(replies[i]) ==> replies[i].off.value < |image|
  }

  /** The device holds a prefix of the image, and its end is reported only once it holds all of it. */
  predicate Safe(image: seq<byte>, r: Run) {
    && |r.device.held| <= |image| && r.device.held == image[..|r.device.held|]
    && (forall i :: 0 <= i < |r.device.replies| && Reports(r.device.replies[i]) && r.device.replies[i].off.value >= |image| ==>
          |r.device.held| == |image|)
    && (r.off >= |image| ==> |r.device.held| == |image|)
    && (r.status == Finished ==> r.off >= |image|)
  }

  lemma StoreKeepsPrefix(image: seq<byte>, held: seq<byte>)
    requires |held| <= |image| && held == image[..|held|]
    ensures |held + Chunk(image, |held|)| <= |image|
    ensures held + Chunk(image, |held|) == image[..|held + Chunk(image, |held|)|]
  {
  }

  lemma StepKeepsSafe(image: seq<byte>, r: Run, m: Move)
    requires Safe(image, r)
    ensures Safe(image, Step(image, r, m))
  {
    hide Chunk;
    StoreKeepsPrefix(image, r.device.held);
  }

  lemma {:induction false} RunsStaySafe(image: seq<byte>, number: byte, replies: seq<Reply>, moves: seq<Move>)
    requires Unrelated(image, replies)
    ensures Safe(image, After(image, number, replies, moves))
  {
    hide Safe, Step;
    if moves == [] {
      BeginsSafe(image, number, replies);
    } else {
      RunsStaySafe(image, number, replies, moves[..|moves| - 1]);
      StepKeepsSafe(image, After(image, number, replies, moves[..|moves| - 1]), moves[|moves| - 1]);
    }
  }

  lemma BeginsSafe(image: seq<byte>, number: byte, replies: seq<Reply>)
    requires Unrelated(image, replies)
    ensures Safe(image, Begin(image, number, replies))
  {
  }

  /** One leftover report past the end, read in place of the first answer, ends the upload with nothing sent. */
  lemma LeftoverEndsIt(image: seq<byte>, replies: seq<Reply>, i: nat)
    requires image != [] && i < |replies| && Reports(replies[i]) && replies[i].off.value >= |image|
    ensures var r := After(image, replies[i].number, replies, [Move(Lost, Some(i))]);
            r.status == Finished && r.device.held == [] != image
  {
    var one := [Move(Lost, Some(i))];
    assert one[..0] == [];
    assert After(image, replies[i].number, replies, one) == Step(image, Begin(image, replies[i].number, replies), one[0]);
  }

  /**
   If the uploader returns, the device holds exactly the image: whatever is lost, late, repeated or stale, whatever
   the first number. It holds exactly if no leftover reply reports an offset at or past the end of the image; one
   that reports any other offset, negative or not, does no harm.
   */
  lemma ReturnMeansHeld(image: seq<byte>, replies: seq<Reply>)
    ensures Unrelated(image, replies) <==>
      forall number: byte, moves :: After(image, number, replies, moves).status == Finished ==>
        After(image, number, replies, moves).device.held == image
  {
    hide After, Unrelated;
    if Unrelated(image, replies) {
      forall number: byte, moves | After(image, number, replies, moves).status == Finished
        ensures After(image, number, replies, moves).device.held == image
      {
        RunsStaySafe(image, number, replies, moves);
        assert image[..|image|] == image;
      }
    } else {
      var i := RelatedReply(image, replies);
      LeftoverEndsIt(image, replies, i);
    }
  }

  lemma RelatedReply(image: seq<byte>, replies: seq<Reply>) returns (i: nat)
    requires !Unrelated(image, replies)
    ensures image != [] && i < |replies| && Reports(replies[i]) && replies[i].off.value >= |image|
  {
    i :| 0 <= i < |replies| && Reports(replies[i]) && replies[i].off.value >= |image|;
  }

  // ---- over a link that carries everything ----

  /** k frames in a row taken, and each one's own reply read, when n replies came before. */
  function Carried(n: nat, k: nat): (moves: seq<Move>)
    ensures |moves| == k && forall i :: 0 <= i < k ==> moves[i] == Move(Taken, Some(n + i))
  {
    if k == 0 then [] else Carried(n, k - 1) + [Move(Taken, Some(n + k - 1))]
  }

  /** What the device holds after k more frames of 512 bytes, when it held `held`. */
  function Reached(size: nat, held: nat, k: nat): nat {
    if held + 512 * k < size then held + 512 * k else size
  }

  lemma ChunkIsTheNextPart(image: seq<byte>, held: nat)
    requires held <= |image|
    ensures image[..held] + Chunk(image, held) == image[..Reached(|image|, held, 1)]
  {
  }

  lemma CarriedStep(image: seq<byte>, r: Run)
    requires r.status == Running && 0 <= r.off == |r.device.held| < |image| && r.device.held == image[..r.off]
    ensures var next := Step(image, r, Move(Taken, Some(|r.device.replies|)));
            && next.device.held == image[..Reached(|image|, r.off, 1)] && |next.device.replies| == |r.device.replies| + 1
            && next.off == Reached(|image|, r.off, 1) && next.timeouts == 0 && next.noProgress == 0
            && next.status == if next.off < |image| then Running else Finished
  {
    ChunkIsTheNextPart(image, r.off);
    hide Chunk;
  }

  /** From any state in which uploader and device agree, each frame carried brings 512 more bytes, or the last ones. */
  lemma {:induction false} CarriedRun(image: seq<byte>, number: byte, replies: seq<Reply>, moves: seq<Move>, k: nat)
    requires var r := After(image, number, replies, moves);
             && r.status == Running && 0 <= r.off == |r.device.held| < |image| && r.device.held == image[..r.off]
             && (k == 0 || r.off + 512 * (k - 1) < |image|)
    ensures var r := After(image, number, replies, moves);
            var now := After(image, number, replies, moves + Carried(|r.device.replies|, k));
            && now.device.held == image[..Reached(|image|, r.off, k)] && now.off == |now.device.held|
            && |now.device.replies| == |r.device.replies| + k
            && now.status == if Reached(|image|, r.off, k) < |image| then Running else Finished
  {
    hide Step;
    var r := After(image, number, replies, moves);
    if k == 0 {
      assert moves + [] == moves;
    } else {
      var before := moves + Carried(|r.device.replies|, k - 1);
      CarriedRun(image, number, replies, moves, k - 1);
      var more := moves + Carried(|r.device.replies|, k);
      assert more[..|more| - 1] == before && more[|more| - 1] == Move(Taken, Some(|r.device.replies| + k - 1));
      CarriedStep(image, After(image, number, replies, before));
    }
  }

  /** How many frames an image of this size takes. */
  function Frames(size: nat): nat {
    (size + 511) / 512
  }

  /**
   Over a link that takes every frame and reads its own reply, whatever the first number and whatever replies are left
   over, after k frames the device holds the first 512 * k bytes of the image, or all of it; and the uploader returns
   after exactly as many frames as that takes.
   */
  lemma CarriedUpload(image: seq<byte>, number: byte, replies: seq<Reply>, k: nat)
    requires k <= Frames(|image|)
    ensures var now := After(image, number, replies, Carried(|replies|, k));
            && now.device.held == image[..if 512 * k < |image| then 512 * k else |image|]
            && (now.status == Finished <==> k == Frames(|image|)) && now.status != Died
            && (k == Frames(|image|) ==> now.device.held == image)
  {
    assert [] + Carried(|replies|, k) == Carried(|replies|, k);
    if image == [] {
      assert k == 0;
    } else {
      CarriedRun(image, number, replies, [], k);
    }
  }

  /**
   A link that heals: from any moment of any run at which the uploader goes on and does not lead the device, one frame
   carried makes them agree, and the rest of the image follows frame by frame.
   */
  lemma HealedLinkFinishes(image: seq<byte>, number: byte, replies: seq<Reply>, moves: seq<Move>) returns (k: nat)
    requires Unrelated(image, replies)
    requires var r := After(image, number, replies, moves); r.status == Running && 0 <= r.off <= |r.device.held| && r.noProgress < 5
    ensures var now := After(image, number, replies, moves + Carried(|After(image, number, replies, moves).device.replies|, k));
            now.status == Finished && now.device.held == image
  {
    hide Step, Safe, Unrelated, Carried, Reached, After;
    var r := After(image, number, replies, moves);
    var n := |r.device.replies|;
    RunsStaySafe(image, number, replies, moves);
    RunsRun(image, number, replies, moves);
    OneCarried(image, number, replies, moves, n);
    CatchesUp(image, r);
    var next := Step(image, r, Move(Taken, Some(n)));
    assert image[..|image|] == image;
    if next.status == Finished {
      RunsStaySafe(image, number, replies, moves + Carried(n, 1));
      FinishedHoldsAll(image, next);
      k := 1;
    } else {
      var more := Frames(|image| - next.off);
      CarriedRun(image, number, replies, moves + Carried(n, 1), more);
      CarriedMore(n, more);
      Associate(moves, Carried(n, 1), Carried(n + 1, more));
      WholeImageReached(|image|, next.off);
      k := more + 1;
    }
  }

  lemma FinishedHoldsAll(image: seq<byte>, r: Run)
    requires Safe(image, r) && r.status == Finished
    ensures r.device.held == image
  {
    assert image[..|image|] == image;
  }

  lemma WholeImageReached(size: nat, held: nat)
    requires held < size
    ensures Reached(size, held, Frames(size - held)) == size && held + 512 * (Frames(size - held) - 1) < size
  {
  }

  lemma OneCarried(image: seq<byte>, number: byte, replies: seq<Reply>, moves: seq<Move>, n: nat)
    ensures After(image, number, replies, moves + Carried(n, 1)) == Step(image, After(image, number, replies, moves), Move(Taken, Some(n)))
  {
    hide Step;
    var one := moves + Carried(n, 1);
    assert one[..|moves|] == moves && one[|moves|] == Move(Taken, Some(n));
  }

  lemma {:induction false} CarriedMore(n: nat, k: nat)
    ensures Carried(n, 1) + Carried(n + 1, k) == Carried(n, k + 1)
  {
  }

  lemma CatchesUp(image: seq<byte>, r: Run)
    requires Safe(image, r) && r.status == Running && 0 <= r.off <= |r.device.held| && r.off < |image| && r.noProgress < 5
    ensures var next := Step(image, r, Move(Taken, Some(|r.device.replies|)));
            && next.status != Died && next.off == |next.device.held| && next.device.held == image[..next.off]
            && (next.status == Running ==> next.off < |image|)
            && |next.device.replies| == |r.device.replies| + 1
  {
    StoreKeepsPrefix(image, r.device.held);
  }

  /** A run that goes on has bytes to send. */
  lemma {:induction false} RunsRun(image: seq<byte>, number: byte, replies: seq<Reply>, moves: seq<Move>)
    ensures After(image, number, replies, moves).status == Running ==> After(image, number, replies, moves).off < |image|
  {
    hide Chunk, Receive;
    if moves != [] {
      RunsRun(image, number, replies, moves[..|moves| - 1]);
    }
  }

  // ---- the run is what was heard ----

  /** What the uploader read, frame by frame, for as long as it went on: a reply, or None for a silence. */
  function Heard(image: seq<byte>, number: byte, replies: seq<Reply>, moves: seq<Move>): seq<Option<Reply>> {
    if moves == [] then []
    else
      var before, m := After(image, number, replies, moves[..|moves| - 1]), moves[|moves| - 1];
      Heard(image, number, replies, moves[..|moves| - 1])
      + if before.status == Running
        then [ReadResponse(Receive(before.device, before.number, before.off, Chunk(image, before.off), m.delivery), before.number, m.read)]
        else []
  }

  /** The offset last reported. */
  function Reported(heard: seq<Option<Reply>>): int {
    if heard == [] then 0
    else
      var last := heard[|heard| - 1];
      if last.Some? && last.value.off.Some? then last.value.off.value else Reported(heard[..|heard| - 1])
  }

  /** How many silences in a row it ends with. */
  function Silences(heard: seq<Option<Reply>>): nat {
    if heard == [] || heard[|heard| - 1].Some? then 0 else Silences(heard[..|heard| - 1]) + 1
  }

  /** How many replies in a row, silences in between not counting, did not report more than was reported before. */
  function Stalls(heard: seq<Option<Reply>>): nat {
    if heard == [] then 0
    else
      var before, last := heard[..|heard| - 1], heard[|heard| - 1];
      if last.None? then Stalls(before)
      else if last.value.off.Some? && last.value.off.value > Reported(before) then 0
      else Stalls(before) + 1
  }

  /** What ends an upload in an error: a sixth silence in a row, an error code, a missing offset, a sixth reply in a row without progress. */
  predicate Fatal(heard: seq<Option<Reply>>) {
    heard != []
    && var last := heard[|heard| - 1];
       if last.None? then Silences(heard) >= 6
       else last.value.rc != Some(0) || last.value.off.None? || Stalls(heard) >= 6
  }

  predicate Tells(image: seq<byte>, r: Run, heard: seq<Option<Reply>>) {
    && (r.status == Died <==> Fatal(heard))
    && (r.status == Finished <==> !Fatal(heard) && Reported(heard) >= |image|)
    && (r.status == Running ==> r.off == Reported(heard) && r.timeouts == Silences(heard) && r.noProgress == Stalls(heard))
  }

  lemma OneMoreHeard(heard: seq<Option<Reply>>, reply: Option<Reply>)
    ensures var more := heard + [reply];
            && more[|more| - 1] == reply
            && Silences(more) == (if reply.None? then Silences(heard) + 1 else 0)
            && Reported(more) == (if reply.Some? && reply.value.off.Some? then reply.value.off.value else Reported(heard))
            && Stalls(more) == (if reply.None? then Stalls(heard)
                                else if reply.value.off.Some? && reply.value.off.value > Reported(heard) then 0 else Stalls(heard) + 1)
  {
    assert (heard + [reply])[..|heard|] == heard;
  }

  lemma HeardOneMore(image: seq<byte>, r: Run, reply: Option<Reply>, heard: seq<Option<Reply>>)
    requires r.status == Running && r.off < |image| && Tells(image, r, heard)
    ensures Tells(image, Answered(image, r, reply), heard + [reply])
  {
    OneMoreHeard(heard, reply);
    hide Silences, Reported, Stalls;
  }

  /**
   How the run stands is told by what was read alone: it dies exactly of a sixth silence in a row, a sixth reply in a row
   without progress, an error code or a missing offset; it returns exactly when the offset last reported is at the end
   of the image or past it; and otherwise it goes on, from that offset.
   */
  lemma {:induction false} RunIsWhatWasHeard(image: seq<byte>, number: byte, replies: seq<Reply>, moves: seq<Move>)
    ensures Tells(image, After(image, number, replies, moves), Heard(image, number, replies, moves))
  {
    hide Receive, Chunk, ReadResponse, Answered, Tells;
    if moves == [] {
      NothingHeard(image, number, replies);
    } else {
      var init, m := moves[..|moves| - 1], moves[|moves| - 1];
      var r := After(image, number, replies, init);
      RunIsWhatWasHeard(image, number, replies, init);
      if r.status == Running {
        RunsRun(image, number, replies, init);
        var device := Receive(r.device, r.number, r.off, Chunk(image, r.off), m.delivery);
        var reply := ReadResponse(device, r.number, m.read);
        SameButDevice(image, r, device, Heard(image, number, replies, init));
        HeardOneMore(image, r.(device := device), reply, Heard(image, number, replies, init));
      } else {
        assert Heard(image, number, replies, init) + [] == Heard(image, number, replies, init);
      }
    }
  }

  lemma SameButDevice(image: seq<byte>, r: Run, device: Device, heard: seq<Option<Reply>>)
    requires Tells(image, r, heard)
    ensures Tells(image, r.(device := device), heard)
  {
  }

  lemma NothingHeard(image: seq<byte>, number: byte, replies: seq<Reply>)
    ensures Tells(image, Begin(image, number, replies), [])
  {
  }

  /** How many requests were answered. */
  function Answers(heard: seq<Option<Reply>>): nat {
    if heard == [] then 0 else Answers(heard[..|heard| - 1]) + if heard[|heard| - 1].Some? then 1 else 0
  }

  /** The number n requests after the first. */
  function Nth(first: byte, n: nat): byte {
    (first + n) % 256
  }

  /** Every reply read carries the number of the request it was read for: the first number, then the next after each answer. */
  predicate InTurn(first: byte, heard: seq<Option<Reply>>) {
    forall i :: 0 <= i < |heard| && heard[i].Some? ==> heard[i].value.number == Nth(first, Answers(heard[..i]))
  }

  lemma OneMoreAnswer(heard: seq<Option<Reply>>, reply: Option<Reply>)
    ensures Answers(heard + [reply]) == Answers(heard) + if reply.Some? then 1 else 0
  {
    assert (heard + [reply])[..|heard|] == heard;
  }

  lemma InTurnMore(first: byte, heard: seq<Option<Reply>>, reply: Option<Reply>)
    requires InTurn(first, heard) && (reply.Some? ==> reply.value.number == Nth(first, Answers(heard)))
    ensures InTurn(first, heard + [reply])
  {
    hide Answers, Nth;
    var more := heard + [reply];
    forall i | 0 <= i < |more| && more[i].Some? ensures more[i].value.number == Nth(first, Answers(more[..i])) {
      assert more[..i] == if i < |heard| then heard[..i] else heard;
    }
  }

  lemma NextInTurn(first: byte, n: nat)
    ensures NextNumber(Nth(first, n)) == Nth(first, n + 1)
  {
  }

  lemma AnsweredNumber(image: seq<byte>, r: Run, reply: Option<Reply>)
    ensures var after := Answered(image, r, reply);
            after.status == Running ==> after.number == if reply.None? then r.number else NextNumber(r.number)
  {
  }

  /** No reply to an earlier request is taken for the answer to a later one, until the numbers have gone all the way round. */
  lemma {:induction false} RepliesInTurn(image: seq<byte>, number: byte, replies: seq<Reply>, moves: seq<Move>)
    ensures var r, heard := After(image, number, replies, moves), Heard(image, number, replies, moves);
            InTurn(number, heard) && (r.status == Running ==> r.number == Nth(number, Answers(heard)))
  {
    hide Receive, Chunk, Answered, Answers, InTurn, NextNumber, Nth;
    if moves == [] {
      NothingInTurn(number);
    } else {
      var init, m := moves[..|moves| - 1], moves[|moves| - 1];
      var r, heard := After(image, number, replies, init), Heard(image, number, replies, init);
      RepliesInTurn(image, number, replies, init);
      if r.status == Running {
        var device := Receive(r.device, r.number, r.off, Chunk(image, r.off), m.delivery);
        var reply := ReadResponse(device, r.number, m.read);
        InTurnMore(number, heard, reply);
        OneMoreAnswer(heard, reply);
        AnsweredNumber(image, r.(device := device), reply);
        NextInTurn(number, Answers(heard));
      } else {
        assert heard + [] == heard;
      }
    }
  }

  lemma NothingInTurn(first: byte)
    ensures InTurn(first, []) && Answers([]) == 0 && Nth(first, 0) == first
  {
  }

  // ---- how long it can take ----

  /** The reply read in this step reports an offset below the one the frame was sent from. */
  predicate Falls(before: Run, after: Run) {
    before.status == Running && after.off < before.off
  }

  /** How many replies of the run reported a lower offset. */
  function FallCount(image: seq<byte>, number: byte, replies: seq<Reply>, moves: seq<Move>): nat {
    if moves == [] then 0
    else
      FallCount(image, number, replies, moves[..|moves| - 1])
      + if Falls(After(image, number, replies, moves[..|moves| - 1]), After(image, number, replies, moves)) then 1 else 0
  }

  /** The lowest offset any of the replies reports, or zero. */
  function Lowest(replies: seq<Reply>): (low: int)
    ensures low <= 0 && forall i :: 0 <= i < |replies| && Reports(replies[i]) ==> low <= replies[i].off.value
  {
    if replies == [] then 0
    else
      var low, last := Lowest(replies[..|replies| - 1]), replies[|replies| - 1];
      if Reports(last) && last.off.value < low then last.off.value else low
  }

  /** No offset is below low, and the counters of a run that goes on are within their bounds. */
  predicate Bounded(image: seq<byte>, r: Run, low: int) {
    && low <= 0 && low <= r.off
    && (forall i :: 0 <= i < |r.device.replies| && Reports(r.device.replies[i]) ==> low <= r.device.replies[i].off.value)
    && (r.status == Running ==> r.off < |image| && r.timeouts <= MAX_TIMEOUTS && r.noProgress <= MAX_NO_PROGRESS)
  }

  lemma StepKeepsBounded(image: seq<byte>, r: Run, m: Move, low: int)
    requires Bounded(image, r, low)
    ensures Bounded(image, Step(image, r, m), low)
  {
    hide Chunk;
  }

  /** Bytes to go, then replies to spare, then silences to spare. */
  function Fuel(image: seq<byte>, r: Run): int {
    ((|image| - r.off) * (MAX_NO_PROGRESS + 1) + MAX_NO_PROGRESS - r.noProgress) * (MAX_TIMEOUTS + 1) + MAX_TIMEOUTS - r.timeouts
  }

  function FullFuel(image: seq<byte>, low: int): nat
    requires low <= 0
  {
    ((|image| - low) * (MAX_NO_PROGRESS + 1) + MAX_NO_PROGRESS) * (MAX_TIMEOUTS + 1) + MAX_TIMEOUTS
  }

  /** An iteration that goes on uses fuel, unless the reported offset fell. */
  lemma StepUsesFuel(image: seq<byte>, r: Run, m: Move, low: int)
    requires Bounded(image, r, low) && r.status == Running && Step(image, r, m).status == Running
    ensures 0 <= Fuel(image, Step(image, r, m)) <= FullFuel(image, low)
    ensures !Falls(r, Step(image, r, m)) ==> Fuel(image, Step(image, r, m)) < Fuel(image, r)
  {
    StepKeepsBounded(image, r, m, low);
    hide Chunk, Receive, ReadResponse;
  }

  /**
   A run is no longer than its falling replies allow; in particular it ends if reported offsets never fall. Whatever
   replies are left over, an upload that sees no offset fall gives up or finishes within (6n + 5) * 6 + 5 iterations,
   n being the bytes from the lowest offset any of them reports to the end of the image.
   */
  lemma {:induction false} RunsEnd(image: seq<byte>, number: byte, replies: seq<Reply>, moves: seq<Move>)
    requires After(image, number, replies, moves).status == Running
    ensures var full := FullFuel(image, Lowest(replies));
            |moves| + Fuel(image, After(image, number, replies, moves)) <= full + FallCount(image, number, replies, moves) * (full + 1)
    ensures Fuel(image, After(image, number, replies, moves)) >= 0 && Bounded(image, After(image, number, replies, moves), Lowest(replies))
    ensures FallCount(image, number, replies, moves) == 0 ==> |moves| <= FullFuel(image, Lowest(replies))
  {
    hide Step, Fuel, Falls, FullFuel, Bounded, Lowest;
    if moves == [] {
      FuelAtStart(image, number, replies);
    } else {
      var init, m := moves[..|moves| - 1], moves[|moves| - 1];
      var r := After(image, number, replies, init);
      StoppedStays(image, r, m);
      RunsEnd(image, number, replies, init);
      StepKeepsBounded(image, r, m, Lowest(replies));
      StepUsesFuel(image, r, m, Lowest(replies));
      OneMoreFall(FallCount(image, number, replies, init), FullFuel(image, Lowest(replies)) + 1);
    }
  }

  lemma OneMoreFall(n: nat, k: nat)
    ensures (n + 1) * k == n * k + k
  {
  }

  lemma FuelAtStart(image: seq<byte>, number: byte, replies: seq<Reply>)
    requires image != []
    ensures Bounded(image, Begin(image, number, replies), Lowest(replies))
    ensures 0 <= Fuel(image, Begin(image, number, replies)) <= FullFuel(image, Lowest(replies))
  {
  }
}
