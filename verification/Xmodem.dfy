/**
 The XMODEM sender (platform/silabs/fw/xmodem.py) against a classic receiver: fixed-size blocks under a CRC,
 a NAK for a bad block, an ACK for a good one, and a block received twice stored once.
 */
module Xmodem {
  import opened Prelude
  import Crc16

  const SOH: byte := 0x01
  const STX: byte := 0x02
  const EOT: byte := 0x04
  const ACK: byte := 0x06
  const NAK: byte := 0x15
  const CAN: byte := 0x18
  const FILL: byte := 0x1A

  predicate BlockSize(n: nat) {
    n == 128 || n == 1024
  }

  // ---- building a block ----

  function Fill(n: nat): (f: seq<byte>)
    ensures |f| == n && forall i :: 0 <= i < n ==> f[i] == FILL
  {
    if n == 0 then [] else Fill(n - 1) + [FILL]
  }

  /** The first `size` bytes of the payload, filled up. */
  function Body(payload: seq<byte>, size: nat): (b: seq<byte>)
    ensures |b| == size
  {
    if |payload| >= size then payload[..size] else payload + Fill(size - |payload|)
  }

  /** None is the ValueError for any other block size. */
  function BuildBlock(number: nat, payload: seq<byte>, size: nat): Option<seq<byte>> {
    if !BlockSize(size) then None
    else
      var body := Body(payload, size);
      Some([if size == 1024 then STX else SOH, number % 256, 255 - number % 256] + (body + Crc16.CrcBytes(Crc16.Crc(body, 0))))
  }

  // ---- the receiver ----

  /** done once the end of the transmission was announced and acknowledged. */
  datatype Receiver = Receiver(size: nat, expected: nat, got: seq<byte>, done: bool)

  /** The length, the marker and the complement are right. */
  predicate HeaderOk(size: nat, frame: seq<byte>) {
    |frame| == size + 5 && frame[0] == (if size == 1024 then STX else SOH) && frame[2] == 255 - frame[1]
  }

  /** And so is the CRC. */
  predicate Intact(size: nat, frame: seq<byte>) {
    HeaderOk(size, frame) && Crc16.Crc(frame[3..], 0) == 0
  }

  /** The receiver goes by the first byte. */
  predicate Ends(frame: seq<byte>) {
    frame != [] && frame[0] == EOT
  }

  /** A good block in turn is stored; the one before it, received again, is only acknowledged; an EOT ends it. */
  function Receive(r: Receiver, frame: seq<byte>): (Receiver, byte) {
    if Ends(frame) then (r.(done := true), ACK)
    else if !Intact(r.size, frame) then (r, NAK)
    else if frame[1] == r.expected then
      (r.(expected := (r.expected + 1) % 256, got := r.got + frame[3..r.size + 3]), ACK)
    else if frame[1] == (r.expected + 255) % 256 then (r, ACK)
    else (r, CAN)
  }

  // ---- the line ----

  /**
   What the line may do to a frame: nothing, damage within two adjacent bytes of its body and CRC, or spoil its header;
   but it never makes an EOT of the marker.
   */
  ghost predicate Carried(size: nat, frame: seq<byte>, arrived: seq<byte>) {
    || arrived == frame
    || (|arrived| == |frame| && |frame| >= 5 && arrived != frame && exists at: nat :: DamagedAt(frame, arrived, at))
    || (!HeaderOk(size, arrived) && !Ends(arrived))
  }

  predicate DamagedAt(frame: seq<byte>, arrived: seq<byte>, at: nat) {
    |frame| == |arrived| && 3 <= at && at + 2 <= |frame| && forall i :: 0 <= i < |frame| && i != at && i != at + 1 ==> arrived[i] == frame[i]
  }

  /** The reply the sender reads: the one sent, or a NAK or a CAN in its place, or none. An ACK is never made up. */
  predicate Heard(sent: byte, reply: Option<byte>) {
    reply.Some? ==> reply.value == sent || reply.value == NAK || reply.value == CAN
  }

  /** The damage, seen behind the three header bytes. */
  lemma DamageIsInTheBody(frame: seq<byte>, arrived: seq<byte>, at: nat)
    requires DamagedAt(frame, arrived, at) && arrived != frame
    ensures |frame[3..]| == |arrived[3..]| && arrived[3..] != frame[3..]
    ensures forall i :: 0 <= i < |frame[3..]| && i != at - 3 && i != at - 2 ==> arrived[3..][i] == frame[3..][i]
  {
    assert frame == frame[..3] + frame[3..] && arrived == arrived[..3] + arrived[3..];
    assert forall i :: 0 <= i < 3 ==> arrived[i] == frame[i];
    assert frame[..3] == arrived[..3];
  }

  /** A frame the receiver accepts is the frame that was sent. */
  lemma OnlyTheSentFrameIsIntact(size: nat, frame: seq<byte>, arrived: seq<byte>)
    requires Intact(size, frame) && Carried(size, frame, arrived) && Intact(size, arrived)
    ensures arrived == frame
  {
    hide Crc16.Crc, HeaderOk, DamagedAt, Ends;
    if arrived != frame {
      var at: nat :| DamagedAt(frame, arrived, at);
      DamageIsInTheBody(frame, arrived, at);
      DamageHasRoom(frame, arrived, at);
      Crc16.DamagedBodyNeverChecks(frame[3..], arrived[3..], at - 3);
    }
  }

  lemma DamageHasRoom(frame: seq<byte>, arrived: seq<byte>, at: nat)
    requires DamagedAt(frame, arrived, at)
    ensures 3 <= at && at + 2 <= |frame|
  {
  }

  lemma BuiltBlockIsIntact(number: nat, payload: seq<byte>, size: nat)
    requires BlockSize(size)
    ensures var frame := BuildBlock(number, payload, size).value;
            Intact(size, frame) && frame[1] == number % 256 && frame[3..size + 3] == Body(payload, size)
  {
    hide Crc16.Crc, Crc16.CrcBytes, Body;
    var body := Body(payload, size);
    var frame := BuildBlock(number, payload, size).value;
    assert frame[3..] == body + Crc16.CrcBytes(Crc16.Crc(body, 0));
    Crc16.AppendedCrcLeavesZero(body, 0);
  }

  /** The header and the trailer of a block: the marker of its size, its number and the complement, the CRC high byte first. */
  lemma BlockBytes(number: nat, payload: seq<byte>)
    ensures var frame := BuildBlock(number, payload, 128).value;
            |frame| == 133 && frame[..3] == [1, number % 256, 255 - number % 256]
    ensures var frame := BuildBlock(number, payload, 1024).value;
            |frame| == 1029 && frame[..3] == [2, number % 256, 255 - number % 256]
    ensures BuildBlock(number, [], 128).value[3..131] == seq(128, i => 0x1A)
    ensures BuildBlock(number, [], 128).value[131..] == Crc16.CrcBytes(Crc16.Crc(seq(128, i => 0x1A), 0))
  {
    hide Crc16.Crc, Crc16.CrcBytes;
    var frame := BuildBlock(number, [], 128).value;
    assert Body([], 128) == seq(128, i => 0x1A);
    assert frame[3..131] == Body([], 128);
  }

  /** The end is acknowledged whatever came before; then 6 for a good block, 0x15 for a bad one, 0x18 for one out of turn. */
  lemma ReplyBytes(r: Receiver, frame: seq<byte>)
    ensures Receive(r, [4]) == (r.(done := true), 6)
    ensures Receive(r, []) == (r, 0x15)
    ensures frame != [] && frame[0] != 4 && Intact(r.size, frame) ==>
      Receive(r, frame).1 == (if frame[1] == r.expected || frame[1] == (r.expected + 255) % 256 then 6 else 0x18)
  {
    hide Crc16.Crc;
  }

  /** One line between the sender and a receiver; its luck is not determined. */
  class Link {
    var receiver: Receiver
    /** Whether each read before the first block was a request for it; every answer to a block; every read after the end. */
    ghost var opening: seq<bool>
    ghost var answers: seq<Option<byte>>
    ghost var closing: seq<Option<byte>>

    constructor (size: nat)
      ensures receiver == Receiver(size, 1, [], false) && opening == [] && answers == [] && closing == []
    {
      receiver := Receiver(size, 1, [], false);
      opening, answers, closing := [], [], [];
    }

    /** Reads up to `tries` bytes for the receiver's request for the first block. */
    method Start(tries: nat) returns (asked: bool)
      requires opening == []
      modifies this`opening
      ensures asked <==> true in opening
      ensures !asked ==> |opening| == tries
    {
      for i := 0 to tries
        invariant |opening| == i && true !in opening
      {
        var wanted: bool := *;
        opening := opening + [wanted];
        if wanted {
          return true;
        }
      }
      return false;
    }

    /** Writes a frame and waits for the answer to it. */
    method Exchange(frame: seq<byte>) returns (reply: Option<byte>)
      requires Intact(receiver.size, frame)
      modifies this`receiver, this`answers
      ensures answers == old(answers) + [reply]
      ensures receiver == old(receiver) || receiver == old(Receive(receiver, frame)).0
      ensures reply == Some(ACK) ==> receiver == old(Receive(receiver, frame)).0 && old(Receive(receiver, frame)).1 == ACK
      ensures reply.Some? ==> reply.value in {ACK, NAK, CAN}
    {
      var arrived := Carry(receiver.size, frame);
      if Intact(receiver.size, arrived) {
        OnlyTheSentFrameIsIntact(receiver.size, frame, arrived);
      }
      var (after, sent) := Receive(receiver, arrived);
      receiver := after;
      reply := Hear(sent);
      answers := answers + [reply];
    }

    /** Writes the end-of-transmission once and reads up to `tries` bytes for its acknowledgement. */
    method Finish(tries: nat) returns (ended: bool)
      requires closing == []
      modifies this`receiver, this`closing
      ensures ended <==> Some(ACK) in closing
      ensures !ended ==> |closing| == tries
      ensures receiver == old(receiver) || receiver == old(Receive(receiver, [EOT])).0
      ensures ended ==> tries > 0 && receiver == old(Receive(receiver, [EOT])).0
    {
      var arrived: bool := *;
      var sent := NAK;
      if arrived {
        var (after, answer) := Receive(receiver, [EOT]);
        receiver, sent := after, answer;
      }
      ghost var after' := receiver;
      for i := 0 to tries
        invariant receiver == after' && |closing| == i && Some(ACK) !in closing
      {
        var reply := Hear(sent);
        closing := closing + [reply];
        if reply == Some(ACK) {
          return true;
        }
      }
      return false;
    }
  }

  /** Delivers any bytes the line may make of a frame. */
  method Carry(size: nat, frame: seq<byte>) returns (arrived: seq<byte>)
    ensures Carried(size, frame, arrived)
  {
    var noise: seq<byte> := *;
    if |noise| == |frame| && |frame| >= 5 && noise != frame {
      var at: nat := *;
      if DamagedAt(frame, noise, at) {
        return noise;
      }
    }
    if !HeaderOk(size, noise) && !Ends(noise) {
      return noise;
    }
    return frame;
  }

  method Hear(sent: byte) returns (reply: Option<byte>)
    ensures Heard(sent, reply)
  {
    var luck: int := *;
    return if luck == 0 then Some(sent) else if luck == 1 then Some(NAK) else if luck == 2 then Some(CAN) else None;
  }

  // ---- the sender ----

  /** The image, filled up to a whole number of blocks. */
  function Padded(image: seq<byte>, size: nat): seq<byte>
    requires size > 0
    decreases |image|
  {
    if image == [] then [] else if |image| <= size then Body(image, size) else image[..size] + Padded(image[size..], size)
  }

  /** The receiver stands before block number `number`, or just after it. */
  predicate Before(r: Receiver, size: nat, number: nat, stored: seq<byte>) {
    r == Receiver(size, number, stored, false)
  }

  predicate Behind(r: Receiver, size: nat, number: nat, stored: seq<byte>, body: seq<byte>) {
    r == Receiver(size, (number + 1) % 256, stored + body, false)
  }

  /** That many refusals in a row. */
  ghost function Naks(n: nat): (naks: seq<Option<byte>>)
    ensures |naks| == n && forall i :: 0 <= i < n ==> naks[i] == Some(NAK)
  {
    if n == 0 then [] else Naks(n - 1) + [Some(NAK)]
  }

  lemma MoreNaks(before: seq<Option<byte>>, n: nat)
    ensures before + Naks(n) + [Some(NAK)] == before + Naks(n + 1)
  {
  }

  /** After so many refusals of a block this answer settles it: accepted, cancelled, silence, or refused once more than it may be sent again. */
  predicate Concludes(naks: nat, last: Option<byte>, retries: nat) {
    naks <= retries && (last == Some(ACK) || last == Some(CAN) || last == None || (last == Some(NAK) && naks == retries))
  }

  /** The answers end with one that fails a block. */
  ghost predicate GaveUp(answers: seq<Option<byte>>, retries: nat) {
    exists before, naks: nat, last :: answers == before + Naks(naks) + [last] && Concludes(naks, last, retries) && last != Some(ACK)
  }

  predicate Accepted(answers: seq<Option<byte>>) {
    answers == [] || answers[|answers| - 1] == Some(ACK)
  }

  lemma AcceptedIsNotGivenUp(answers: seq<Option<byte>>, retries: nat)
    requires Accepted(answers)
    ensures !GaveUp(answers, retries)
  {
  }

  /** Sends one block until it is acknowledged; false is an XmodemError. */
  method SendBlock(line: Link, number: nat, payload: seq<byte>, size: nat, retries: nat) returns (ok: bool)
    requires BlockSize(size) && number < 256 && line.receiver.size == size && line.receiver.expected == number && !line.receiver.done
    modifies line`receiver, line`answers
    ensures ok ==> Behind(line.receiver, size, number, old(line.receiver.got), Body(payload, size))
    ensures exists naks: nat, last :: line.answers == old(line.answers) + Naks(naks) + [last] && Concludes(naks, last, retries) && (ok <==> last == Some(ACK))
  {
    hide Crc16.Crc, Crc16.CrcBytes, Body;
    var frame := BuildBlock(number, payload, size).value;
    ghost var stored, before := line.receiver.got, line.answers;
    assert before + Naks(0) == before;
    BuiltBlockIsIntact(number, payload, size);
    for attempt := 0 to retries + 1
      invariant Before(line.receiver, size, number, stored) || Behind(line.receiver, size, number, stored, Body(payload, size))
      invariant attempt <= retries && line.answers == before + Naks(attempt)
    {
      var reply := line.Exchange(frame);
      assert Concludes(attempt, reply, retries) || (reply == Some(NAK) && attempt < retries);
      if reply == Some(NAK) {
        MoreNaks(before, attempt);
      }
      if reply == Some(ACK) {
        return true;
      }
      if reply.None? || reply == Some(CAN) || attempt == retries {
        return false;
      }
    }
    assert false;
    return false;
  }

  /** How many blocks of this size n bytes take. */
  function Blocks(n: nat, size: nat): nat
    requires size > 0
    decreases n
  {
    if n == 0 then 0 else if n <= size then 1 else 1 + Blocks(n - size, size)
  }

  lemma PaddedStep(image: seq<byte>, size: nat)
    requires size > 0 && image != []
    ensures var n := if |image| < size then |image| else size;
            Padded(image, size) == Body(image[..n], size) + Padded(image[n..], size)
  {
    hide Fill;
    if |image| <= size {
      assert image[..|image|] == image && image[|image|..] == [];
      assert Body(image, size) + [] == Body(image, size);
    }
  }

  /**
   A normal return, whatever blocks were NAKed and whatever was received twice, means the receiver got exactly
   the padded image, in as many blocks as are reported, and was told that it is over. None is an exception.
   */
  method Send(line: Link, image: seq<byte>, size: nat, retries: nat) returns (blocks: Option<nat>)
    requires line.receiver == Receiver(size, 1, [], false) && line.opening == [] && line.answers == [] && line.closing == []
    modifies line
    ensures blocks.None? <==>
      true !in line.opening || size == 0 || (image != [] && !BlockSize(size)) || GaveUp(line.answers, retries) || Some(ACK) !in line.closing
    ensures true !in line.opening ==> |line.opening| == retries
    ensures line.closing != [] && Some(ACK) !in line.closing ==> |line.closing| == retries
    ensures blocks.Some? ==>
      size > 0 && line.receiver.done && line.receiver.got == Padded(image, size) && blocks.value == Blocks(|image|, size)
    ensures image != [] && !BlockSize(size) ==> blocks.None?
  {
    hide Padded, Body, Blocks;
    var started := line.Start(retries);
    if !started || size == 0 {
      return None;
    }
    var count, number, off := 0, 1, 0;
    assert image[0..] == image;
    while off < |image|
      invariant off <= |image| && number < 256
      invariant line.receiver.size == size && line.receiver.expected == number && !line.receiver.done
      invariant line.receiver.got + Padded(image[off..], size) == Padded(image, size)
      invariant count + Blocks(|image| - off, size) == Blocks(|image|, size)
      invariant off > 0 ==> BlockSize(size)
      invariant line.closing == [] && true in line.opening && Accepted(line.answers)
    {
      if !BlockSize(size) {
        AcceptedIsNotGivenUp(line.answers, retries);
        return None;
      }
      ghost var left := image[off..];
      BlocksStep(|image| - off, size);
      var end := if off + size < |image| then off + size else |image|;
      PaddedStep(left, size);
      ghost var stored := line.receiver.got;
      assert left[..end - off] == image[off..end] && left[end - off..] == image[end..];
      Associate(stored, Body(image[off..end], size), Padded(image[end..], size));
      var ok := SendBlock(line, number, image[off..end], size, retries);
      if !ok {
        return None;
      }
      number := (number + 1) % 256;
      count := count + 1;
      off := end;
    }
    assert image[off..] == [];
    PaddedNothing(size);
    assert line.receiver.got + [] == line.receiver.got;
    AcceptedIsNotGivenUp(line.answers, retries);
    var ended := line.Finish(retries);
    return if ended then Some(count) else None;
  }

  lemma PaddedNothing(size: nat)
    requires size > 0
    ensures Padded([], size) == [] && Blocks(0, size) == 0
  {
  }

  lemma BlocksStep(n: nat, size: nat)
    requires size > 0 && n > 0
    ensures Blocks(n, size) == 1 + Blocks(if n < size then 0 else n - size, size)
  {
  }

  /** The padded image is the image and fill, a whole number of blocks, and no block of it is all fill. */
  lemma {:induction false} PaddedIsImageAndFill(image: seq<byte>, size: nat)
    requires size > 0
    ensures |Padded(image, size)| == Blocks(|image|, size) * size < |image| + size
    ensures |image| <= |Padded(image, size)| && Padded(image, size)[..|image|] == image
    ensures forall i :: |image| <= i < |Padded(image, size)| ==> Padded(image, size)[i] == FILL
    decreases |image|
  {
    if |image| > size {
      PaddedIsImageAndFill(image[size..], size);
      assert image == image[..size] + image[size..];
      Distribute(Blocks(|image| - size, size), size);
    }
  }

  lemma Distribute(n: nat, size: nat)
    ensures (1 + n) * size == size + n * size
  {
  }
}
