/** SMP frames: an eight-byte big-endian header and a CBOR payload (platform/nrf54l15/fw/smp.py). */
module SmpFrames {
  import opened Prelude
  import Cbor
  import CborRoundTrip
  import SmpFraming

  const HEADER_LEN: nat := 8

  datatype Header = Header(op: byte, flags: byte, length: nat, group: nat, number: byte, id: byte)
  datatype Frame = Frame(header: Header, payload: Cbor.Value)

  function HeaderBytes(h: Header): (b: seq<byte>)
    ensures |b| == HEADER_LEN
  {
    [h.op, h.flags] + BigEndian(h.length, 2) + BigEndian(h.group, 2) + [h.number, h.id]
  }

  function ParseHeader(b: seq<byte>): Header
    requires |b| >= HEADER_LEN
  {
    Header(b[0], b[1], FromBigEndian(b[2..4]), FromBigEndian(b[4..6]), b[6], b[7])
  }

  /** None is an exception: the payload cannot be encoded, or is longer than its length field can say. */
  function EncodeFrame(op: int, group: int, id: int, payload: Cbor.Value, number: int): Option<seq<byte>> {
    match Cbor.CborEncode(payload)
    case None => None
    case Some(body) =>
      if |body| > 0xFFFF then None
      else Some(HeaderBytes(Header(op % 256, 0, |body|, group % 0x10000, number % 256, id % 256)) + body)
  }

  /** Whether a whole frame stands at the front. */
  predicate Complete(b: seq<byte>) {
    |b| >= HEADER_LEN && HEADER_LEN + ParseHeader(b).length <= |b|
  }

  function ParseFrame(b: seq<byte>): Option<Frame>
    requires Complete(b)
  {
    var h := ParseHeader(b);
    var body := b[HEADER_LEN..HEADER_LEN + h.length];
    if body == [] then Some(Frame(h, Cbor.Map([])))
    else match Cbor.Decode(body) case Fail => None case Got(v, _) => Some(Frame(h, v))
  }

  /** The frames at the front of a buffer; None is an exception from a payload. */
  function Frames(b: seq<byte>): Option<seq<Frame>>
    decreases |b|
  {
    if !Complete(b) then Some([])
    else
      match ParseFrame(b)
      case None => None
      case Some(f) =>
        match Frames(b[HEADER_LEN + f.header.length..])
        case None => None
        case Some(more) => Some([f] + more)
  }

  /** The whole split is `done` followed by the split of b. */
  ghost predicate Continues(all: Option<seq<Frame>>, done: seq<Frame>, b: seq<byte>) {
    all == match Frames(b) case None => None case Some(more) => Some(done + more)
  }

  lemma ContinuesStart(b: seq<byte>)
    ensures Continues(Frames(b), [], b)
  {
    if Frames(b).Some? {
      assert [] + Frames(b).value == Frames(b).value;
    }
  }

  lemma ContinuesStep(all: Option<seq<Frame>>, done: seq<Frame>, b: seq<byte>)
    requires Continues(all, done, b)
    ensures !Complete(b) ==> all == Some(done)
    ensures Complete(b) && ParseFrame(b).None? ==> all == None
    ensures Complete(b) && ParseFrame(b).Some? ==>
      Continues(all, done + [ParseFrame(b).value], b[HEADER_LEN + ParseHeader(b).length..])
  {
    hide ParseFrame, ParseHeader;
    assert done + [] == done;
    if Complete(b) && ParseFrame(b).Some? {
      HeaderOfParsed(b);
      var rest := Frames(b[HEADER_LEN + ParseHeader(b).length..]);
      if rest.Some? {
        Associate(done, [ParseFrame(b).value], rest.value);
      }
    }
  }

  method DecodeFrames(buf: seq<byte>) returns (frames: Option<seq<Frame>>)
    ensures frames == Frames(buf)
  {
    hide ParseFrame, ParseHeader, Continues;
    var pos := 0;
    var done: seq<Frame> := [];
    assert buf[0..] == buf;
    ContinuesStart(buf);
    while pos + HEADER_LEN <= |buf|
      invariant pos <= |buf|
      invariant Continues(Frames(buf), done, buf[pos..])
    {
      var left := buf[pos..];
      var h := ParseHeader(left);
      ContinuesStep(Frames(buf), done, left);
      if pos + HEADER_LEN + h.length > |buf| {
        return Some(done);
      }
      var f := ParseFrame(left);
      if f.None? {
        return None;
      }
      assert left[HEADER_LEN + h.length..] == buf[pos + HEADER_LEN + h.length..];
      done := done + [f.value];
      pos := pos + HEADER_LEN + h.length;
    }
    ContinuesStep(Frames(buf), done, buf[pos..]);
    return Some(done);
  }

  lemma HeaderRoundTrip(h: Header, tail: seq<byte>)
    requires h.length <= 0xFFFF && h.group <= 0xFFFF
    ensures ParseHeader(HeaderBytes(h) + tail) == h
  {
    hide BigEndian, FromBigEndian, Power256;
    Powers();
    BigEndianRoundTrip(h.length, 2);
    BigEndianRoundTrip(h.group, 2);
    var b := HeaderBytes(h) + tail;
    assert b[2..4] == BigEndian(h.length, 2) && b[4..6] == BigEndian(h.group, 2);
  }

  /** A request, as a caller passes it. */
  datatype Request = Request(op: int, group: int, id: int, payload: Cbor.Value, number: int)

  /** The payload can be encoded, and its bytes fit the length field. */
  predicate Sendable(r: Request) {
    Cbor.Proper(r.payload) && CborRoundTrip.Encodable(r.payload)
    && Cbor.CborEncode(r.payload).Some? && |Cbor.CborEncode(r.payload).value| <= 0xFFFF
  }

  /** Exactly such a payload is framed. */
  lemma FrameDomain(op: int, group: int, id: int, payload: Cbor.Value, number: int)
    ensures EncodeFrame(op, group, id, payload, number).Some? <==>
      CborRoundTrip.Encodable(payload) && Cbor.CborEncode(payload).Some? && |Cbor.CborEncode(payload).value| <= 0xFFFF
  {
    hide Cbor.CborEncode, CborRoundTrip.Encodable, HeaderBytes;
    CborRoundTrip.EncoderDomain(payload);
  }

  /** The eight bytes before the payload {"a": 1} of request 7, a write to command 1 of group 258, byte by byte. */
  lemma HeaderBytesOnTheWire()
    ensures var payload := Cbor.Map([Cbor.Pair(Cbor.Text([0x61]), Cbor.Int(1))]);
            EncodeFrame(2, 258, 1, payload, 7) == Some([2, 0, 0, 4, 1, 2, 7, 1, 0xA1, 0x61, 0x61, 0x01])
  {
    hide Cbor.EncodeEntries, BigEndian;
    var entry := Cbor.Pair(Cbor.Text([0x61]), Cbor.Int(1));
    CborRoundTrip.TestVectors();
    assert [0x61, 0x61] + [0x01] == [0x61, 0x61, 0x01];
    CborRoundTrip.LastEntry(entry);
    assert [0xA1] + [0x61, 0x61, 0x01] == [0xA1, 0x61, 0x61, 0x01];
    TwoByteNumbers();
    assert [2, 0] + [0, 4] + [1, 2] + [7, 1] + [0xA1, 0x61, 0x61, 0x01] == [2, 0, 0, 4, 1, 2, 7, 1, 0xA1, 0x61, 0x61, 0x01];
  }

  lemma TwoByteNumbers()
    ensures BigEndian(4, 2) == [0, 4] && BigEndian(258, 2) == [1, 2]
  {
    assert BigEndian(4, 2) == BigEndian(0, 1) + [4] && BigEndian(0, 1) == BigEndian(0, 0) + [0];
    assert BigEndian(258, 2) == BigEndian(1, 1) + [2] && BigEndian(1, 1) == BigEndian(0, 0) + [1];
  }

  function BytesOf(r: Request): seq<byte>
    requires Sendable(r)
  {
    FrameDomain(r.op, r.group, r.id, r.payload, r.number);
    EncodeFrame(r.op, r.group, r.id, r.payload, r.number).value
  }

  /** What the receiver sees of a request: its fields cut to their widths, its payload unchanged. */
  predicate Received(r: Request, f: Frame) {
    && f.header.op == r.op % 256 && f.header.flags == 0 && f.header.group == r.group % 0x10000
    && f.header.number == r.number % 256 && f.header.id == r.id % 256 && f.payload == r.payload
  }

  /** Encoding never answers the empty payload that decoding reads as an empty map. */
  lemma EncodingIsNotEmpty(v: Cbor.Value)
    requires Cbor.CborEncode(v).Some?
    ensures Cbor.CborEncode(v).value != []
  {
  }

  lemma FrameRoundTrip(r: Request, tail: seq<byte>)
    requires Sendable(r)
    ensures Complete(BytesOf(r) + tail)
    ensures ParseFrame(BytesOf(r) + tail).Some? && Received(r, ParseFrame(BytesOf(r) + tail).value)
    ensures |BytesOf(r)| == HEADER_LEN + ParseHeader(BytesOf(r) + tail).length
  {
    hide Cbor.CborEncode, Cbor.Decode, Cbor.Proper, CborRoundTrip.Encodable, HeaderBytes, ParseHeader;
    var body := Cbor.CborEncode(r.payload).value;
    var h := Header(r.op % 256, 0, |body|, r.group % 0x10000, r.number % 256, r.id % 256);
    Associate(HeaderBytes(h), body, tail);
    HeaderRoundTrip(h, body + tail);
    EncodingIsNotEmpty(r.payload);
    CborRoundTrip.RoundTrip(r.payload, []);
    assert body + [] == body;
    assert (BytesOf(r) + tail)[HEADER_LEN..HEADER_LEN + |body|] == body;
  }

  function AllBytes(rs: seq<Request>): seq<byte>
    requires forall i :: 0 <= i < |rs| ==> Sendable(rs[i])
    decreases rs
  {
    if rs == [] then [] else BytesOf(rs[0]) + AllBytes(rs[1..])
  }

  /** Splitting a buffer of encoded frames, and whatever incomplete frame follows, gives back every request in order. */
  lemma {:induction false} FramesRoundTrip(rs: seq<Request>, tail: seq<byte>)
    requires (forall i :: 0 <= i < |rs| ==> Sendable(rs[i])) && !Complete(tail)
    ensures Frames(AllBytes(rs) + tail).Some? && |Frames(AllBytes(rs) + tail).value| == |rs|
    ensures forall i :: 0 <= i < |rs| ==> Received(rs[i], Frames(AllBytes(rs) + tail).value[i])
    decreases rs
  {
    hide Sendable, Received, BytesOf, ParseFrame, Complete;
    if rs == [] {
      assert [] + tail == tail;
    } else {
      assert Sendable(rs[0]);
      var rest := AllBytes(rs[1..]) + tail;
      Associate(BytesOf(rs[0]), AllBytes(rs[1..]), tail);
      FrameRoundTrip(rs[0], rest);
      FramesRoundTrip(rs[1..], tail);
      HeaderOfParsed(BytesOf(rs[0]) + rest);
      assert (BytesOf(rs[0]) + rest)[|BytesOf(rs[0])|..] == rest;
    }
  }

  lemma HeaderOfParsed(b: seq<byte>)
    requires Complete(b) && ParseFrame(b).Some?
    ensures ParseFrame(b).value.header == ParseHeader(b)
  {
  }

  /** End to end: after any junk and a newline, a request sent over the line arrives as itself. */
  lemma RequestOverTheWire(r: Request, s: SmpFraming.State, junk: seq<byte>)
    requires Sendable(r) && |BytesOf(r)| + 2 < 0x10000
    ensures var sent := junk + [SmpFraming.NEWLINE] + SmpFraming.Wire(BytesOf(r)).value;
            SmpFraming.Stream(s, sent).1 == SmpFraming.Stream(s, junk + [SmpFraming.NEWLINE]).1 + [BytesOf(r)]
    ensures Frames(BytesOf(r)).Some? && |Frames(BytesOf(r)).value| == 1 && Received(r, Frames(BytesOf(r)).value[0])
  {
    hide Received, ParseHeader, ParseFrame, SmpFraming.Stream, BytesOf, Sendable;
    FrameRoundTrip(r, []);
    assert BytesOf(r) + [] == BytesOf(r);
    SmpFraming.RecoversAfterJunk(s, junk, BytesOf(r));
    HeaderOfParsed(BytesOf(r));
    assert BytesOf(r)[|BytesOf(r)|..] == [];
  }

  // ---- the frames of an upload ----

  const IMAGE: seq<byte> := [105, 109, 97, 103, 101]
  const DATA: seq<byte> := [100, 97, 116, 97]
  const OFF: seq<byte> := [111, 102, 102]
  const LEN: seq<byte> := [108, 101, 110]
  const SHA: seq<byte> := [115, 104, 97]

  /** The entries of an upload request; the first one, at offset zero, also tells the length and the digest of the image. */
  function UploadEntries(off: int, data: seq<byte>, total: nat, digest: seq<byte>): seq<Cbor.Pair> {
    [Cbor.Pair(Cbor.Text(IMAGE), Cbor.Int(0)), Cbor.Pair(Cbor.Text(DATA), Cbor.Bytes(data)), Cbor.Pair(Cbor.Text(OFF), Cbor.Int(off))]
    + if off == 0 then [Cbor.Pair(Cbor.Text(LEN), Cbor.Int(total)), Cbor.Pair(Cbor.Text(SHA), Cbor.Bytes(digest))] else []
  }

  function UploadRequest(off: int, data: seq<byte>, total: nat, digest: seq<byte>, number: int): Request {
    Request(2, 1, 1, Cbor.Map(UploadEntries(off, data, total, digest)), number)
  }

  lemma HeadSize(major: nat, v: nat)
    requires major < 7 && Cbor.EncodeHead(major, v).Some?
    ensures |Cbor.EncodeHead(major, v).value| <= 9
  {
  }

  /** An entry of a short name and a number or a string. */
  predicate Flat(e: Cbor.Pair, limit: nat) {
    && e.key.Text? && |e.key.t| <= 5
    && (e.value.Int? || (e.value.Bytes? && |e.value.b| <= limit))
  }

  lemma FlatSize(e: Cbor.Pair, limit: nat)
    requires Flat(e, limit) && Cbor.EncodePair(e).Some?
    ensures |Cbor.EncodePair(e).value| <= 23 + limit
  {
    hide Cbor.EncodeHead;
    HeadSize(3, |e.key.t|);
    match e.value
    case Int(i) => HeadSize(if i >= 0 then 0 else 1, if i >= 0 then i else -1 - i);
    case Bytes(b) => HeadSize(2, |b|);
  }

  lemma {:induction false} FlatEntriesSize(es: seq<Cbor.Pair>, limit: nat)
    requires (forall i :: 0 <= i < |es| ==> Flat(es[i], limit)) && Cbor.EncodeEntries(es).Some?
    ensures |Cbor.EncodeEntries(es).value| <= (23 + limit) * |es|
    decreases es
  {
    hide Flat, Cbor.EncodePair;
    if es != [] {
      FlatSize(es[0], limit);
      FlatEntriesSize(es[1..], limit);
    }
  }

  lemma {:induction false} FlatEntriesAreProper(es: seq<Cbor.Pair>, limit: nat)
    requires forall i :: 0 <= i < |es| ==> Flat(es[i], limit)
    ensures Cbor.ProperEntries(es)
    decreases es
  {
    if es != [] {
      assert Flat(es[0], limit);
      FlatEntriesAreProper(es[1..], limit);
    }
  }

  /** Every frame the uploader sends, whatever the offset it was told, can be sent and so arrives as FrameRoundTrip says. */
  lemma UploadIsSendable(off: int, data: seq<byte>, total: nat, digest: seq<byte>, number: int)
    requires -TWO_TO_64 <= off < TWO_TO_64 && total < TWO_TO_64 && |data| <= 512 && |digest| <= 512
    ensures Sendable(UploadRequest(off, data, total, digest, number))
  {
    hide Cbor.EncodeHead, Cbor.EncodeEntries, Cbor.EncodePair;
    var es := UploadEntries(off, data, total, digest);
    assert forall i :: 0 <= i < |es| ==> Flat(es[i], 512);
    FlatEntriesAreProper(es, 512);
    KeysDiffer(off, data, total, digest);
    var payload := Cbor.Map(es);
    assert CborRoundTrip.Encodable(payload);
    CborRoundTrip.EncoderDomain(payload);
    FlatEntriesSize(es, 512);
    HeadSize(5, |es|);
  }

  lemma KeysDiffer(off: int, data: seq<byte>, total: nat, digest: seq<byte>)
    ensures var es := UploadEntries(off, data, total, digest);
            forall i, j :: 0 <= i < j < |es| ==> Cbor.KeyOf(es[i].key) != Cbor.KeyOf(es[j].key)
  {
    assert IMAGE[0] == 105 && DATA[0] == 100 && OFF[0] == 111 && LEN[0] == 108 && SHA[0] == 115;
  }
}
