/**
 The serial line framing of MCUboot's SMP protocol (platform/nrf54l15/fw/smp.py): a packet is the base 64
 of length, frame and CRC, cut into marked lines; the decoder reassembles it from whatever chunks arrive.
 */
module SmpFraming {
  import opened Prelude
  import Base64
  import Crc16

  const NEWLINE: byte := 10
  const PKT_START: seq<byte> := [0x06, 0x09]
  const PKT_CONT: seq<byte> := [0x04, 0x14]
  const FRAME_MTU: nat := 124

  // ---- encoding ----

  /** What the base 64 carries: total length, frame, CRC. */
  function Raw(frame: seq<byte>): (raw: seq<byte>)
    requires |frame| + 2 < 0x10000
    ensures |raw| == |frame| + 4
  {
    BigEndian(|frame| + 2, 2) + (frame + Crc16.CrcBytes(Crc16.Crc(frame, 0)))
  }

  /** The lines of an encoding, without their newlines; `first` says whether the packet starts here. */
  function PacketLines(b64: seq<byte>, first: bool): seq<seq<byte>>
    decreases b64
  {
    if b64 == [] then []
    else
      var n := if |b64| < FRAME_MTU then |b64| else FRAME_MTU;
      [(if first then PKT_START else PKT_CONT) + b64[..n]] + PacketLines(b64[n..], false)
  }

  function Terminated(lines: seq<seq<byte>>): seq<byte> {
    if lines == [] then [] else lines[0] + [NEWLINE] + Terminated(lines[1..])
  }

  function LinesOf(frame: seq<byte>): seq<seq<byte>>
    requires |frame| + 2 < 0x10000
  {
    PacketLines(Base64.Encode(Raw(frame)), true)
  }

  /** None is Python's OverflowError: the length does not fit its two bytes. */
  function Wire(frame: seq<byte>): Option<seq<byte>> {
    if |frame| + 2 < 0x10000 then Some(Terminated(LinesOf(frame))) else None
  }

  method CutLines(b64: seq<byte>) returns (bytes: seq<byte>)
    ensures bytes == Terminated(PacketLines(b64, true))
  {
    bytes := [];
    var off := 0;
    assert b64[0..] == b64;
    while off < |b64|
      invariant off <= |b64|
      invariant bytes + Terminated(PacketLines(b64[off..], off == 0)) == Terminated(PacketLines(b64, true))
    {
      var end := if off + FRAME_MTU < |b64| then off + FRAME_MTU else |b64|;
      var chunk := b64[off..end];
      var marker := if off == 0 then PKT_START else PKT_CONT;
      assert b64[off..][..|chunk|] == chunk && b64[off..][|chunk|..] == b64[end..];
      NextLine(bytes, marker + chunk, PacketLines(b64[end..], false));
      bytes := bytes + (marker + chunk + [NEWLINE]);
      off := off + |chunk|;
    }
  }

  method SerialEncode(frame: seq<byte>) returns (out: Option<seq<byte>>)
    ensures out == Wire(frame)
  {
    hide Terminated, PacketLines, Base64.Encode, Crc16.Crc, Crc16.CrcBytes;
    var crc := Crc16.Crc16Xmodem(frame, 0);
    if |frame| + 2 >= 0x10000 {
      return None;
    }
    var raw := BigEndian(|frame| + 2, 2) + (frame + Crc16.CrcBytes(crc));
    var bytes := CutLines(Base64.Encode(raw));
    return Some(bytes);
  }

  lemma NextLine(done: seq<byte>, line: seq<byte>, rest: seq<seq<byte>>)
    ensures done + Terminated([line] + rest) == done + (line + [NEWLINE]) + Terminated(rest)
  {
    assert ([line] + rest)[1..] == rest;
  }

  // ---- decoding: what one line does ----

  /** acc is None outside a packet, otherwise the bytes decoded so far. */
  type Acc = Option<seq<byte>>

  predicate IsPacketLine(line: seq<byte>) {
    |line| >= 2 && (line[..2] == PKT_START || line[..2] == PKT_CONT)
  }

  /** What a complete accumulation yields: nothing if it is too short or its CRC does not check. */
  function Yield(body: seq<byte>): Option<seq<byte>> {
    if |body| <= 2 || Crc16.Crc(body, 0) != 0 then None else Some(body[..|body| - 2])
  }

  function Accumulate(acc: seq<byte>): (Acc, Option<seq<byte>>) {
    if |acc| <= 2 || |acc| - 2 != FromBigEndian(acc[..2]) then (Some(acc), None) else (None, Yield(acc[2..]))
  }

  function FeedLine(acc: Acc, line: seq<byte>): (Acc, Option<seq<byte>>) {
    if !IsPacketLine(line) || (line[..2] == PKT_CONT && acc.None?) then (acc, None)
    else
      match Base64.Decode(line[2..])
      case None => (None, None)
      case Some(more) => Accumulate((if line[..2] == PKT_START then [] else acc.value) + more)
  }

  function Optional(f: Option<seq<byte>>): seq<seq<byte>> {
    if f.Some? then [f.value] else []
  }

  function FeedLines(acc: Acc, lines: seq<seq<byte>>): (Acc, seq<seq<byte>>)
    decreases lines
  {
    if lines == [] then (acc, [])
    else
      var (acc', f) := FeedLine(acc, lines[0]);
      var (acc'', fs) := FeedLines(acc', lines[1..]);
      (acc'', Optional(f) + fs)
  }

  lemma {:induction false} FeedLinesAppend(acc: Acc, a: seq<seq<byte>>, b: seq<seq<byte>>)
    ensures var (acc', fs) := FeedLines(acc, a); var (acc'', gs) := FeedLines(acc', b);
            FeedLines(acc, a + b) == (acc'', fs + gs)
    decreases a
  {
    hide FeedLine;
    if a == [] {
      assert a + b == b && [] + FeedLines(acc, b).1 == FeedLines(acc, b).1;
    } else {
      assert (a + b)[1..] == a[1..] + b;
      var acc' := FeedLine(acc, a[0]).0;
      FeedLinesAppend(acc', a[1..], b);
      var mid := FeedLines(acc', a[1..]);
      Associate(Optional(FeedLine(acc, a[0]).1), mid.1, FeedLines(mid.0, b).1);
    }
  }

  // ---- decoding: what one byte does ----

  datatype State = State(linebuf: seq<byte>, acc: Acc)

  const FRESH: State := State([], None)

  /** A newline ends the line; any other byte extends it. */
  function FeedByte(s: State, b: byte): (State, seq<seq<byte>>) {
    if b == NEWLINE then
      var (acc, f) := FeedLine(s.acc, s.linebuf);
      (State([], acc), Optional(f))
    else (State(s.linebuf + [b], s.acc), [])
  }

  /** The frames a stream of bytes yields, and the state it leaves. */
  function Stream(s: State, data: seq<byte>): (State, seq<seq<byte>>)
    decreases data
  {
    if data == [] then (s, [])
    else
      var (s', fs) := FeedByte(s, data[0]);
      var (s'', gs) := Stream(s', data[1..]);
      (s'', fs + gs)
  }

  lemma {:induction false} StreamAppend(s: State, a: seq<byte>, b: seq<byte>)
    ensures var (s', fs) := Stream(s, a); var (s'', gs) := Stream(s', b);
            Stream(s, a + b) == (s'', fs + gs)
    decreases a
  {
    hide FeedByte;
    if a == [] {
      assert a + b == b && [] + Stream(s, b).1 == Stream(s, b).1;
    } else {
      assert (a + b)[1..] == a[1..] + b;
      var s' := FeedByte(s, a[0]).0;
      StreamAppend(s', a[1..], b);
      var mid := Stream(s', a[1..]);
      Associate(FeedByte(s, a[0]).1, mid.1, Stream(mid.0, b).1);
    }
  }

  predicate OneLine(line: seq<byte>) {
    NEWLINE !in line
  }

  lemma {:induction false} StreamInLine(s: State, line: seq<byte>)
    requires OneLine(line)
    ensures Stream(s, line) == (State(s.linebuf + line, s.acc), [])
    decreases line
  {
    if line == [] {
      assert s.linebuf + line == s.linebuf;
    } else {
      assert line[0] in line && OneLine(line[1..]);
      assert FeedByte(s, line[0]) == (State(s.linebuf + [line[0]], s.acc), []);
      StreamInLine(State(s.linebuf + [line[0]], s.acc), line[1..]);
      var none: seq<seq<byte>> := [];
      assert none + none == none;
      assert s.linebuf + [line[0]] + line[1..] == s.linebuf + line;
    }
  }

  lemma StreamNewline(s: State)
    ensures Stream(s, [NEWLINE]) == (State([], FeedLine(s.acc, s.linebuf).0), Optional(FeedLine(s.acc, s.linebuf).1))
  {
    hide FeedLine;
    var (s', fs) := FeedByte(s, NEWLINE);
    assert [NEWLINE][1..] == [];
    assert Stream(s', []) == (s', []);
    assert fs + [] == fs;
  }

  lemma StreamLine(acc: Acc, line: seq<byte>, rest: seq<byte>)
    requires OneLine(line)
    ensures var (acc', f) := FeedLine(acc, line); var (s, fs) := Stream(State([], acc'), rest);
            Stream(State([], acc), line + [NEWLINE] + rest) == (s, Optional(f) + fs)
  {
    hide FeedLine, Stream;
    StreamInLine(State([], acc), line);
    assert [] + line == line;
    StreamNewline(State(line, acc));
    StreamAppend(State([], acc), line, [NEWLINE]);
    assert [] + Optional(FeedLine(acc, line).1) == Optional(FeedLine(acc, line).1);
    StreamAppend(State([], acc), line + [NEWLINE], rest);
  }

  /** A stream of whole lines is fed line by line. */
  lemma {:induction false} StreamOfLines(acc: Acc, lines: seq<seq<byte>>)
    requires forall i :: 0 <= i < |lines| ==> OneLine(lines[i])
    ensures var (acc', fs) := FeedLines(acc, lines); Stream(State([], acc), Terminated(lines)) == (State([], acc'), fs)
    decreases lines
  {
    hide FeedLine;
    if lines != [] {
      StreamLine(acc, lines[0], Terminated(lines[1..]));
      StreamOfLines(FeedLine(acc, lines[0]).0, lines[1..]);
    }
  }

  // ---- the decoder object ----

  class SerialDecoder {
    var linebuf: seq<byte>
    var acc: Acc

    function View(): State
      reads this
    {
      State(linebuf, acc)
    }

    /** Between calls the buffer holds the unfinished last line. */
    predicate Valid()
      reads this
    {
      OneLine(linebuf)
    }

    constructor ()
      ensures Valid() && View() == FRESH
    {
      linebuf, acc := [], None;
    }

    /** Feeds bytes as they arrive; how the stream is cut into calls makes no difference. */
    method Feed(data: seq<byte>) returns (frames: seq<seq<byte>>)
      requires Valid()
      modifies this
      ensures Valid()
      ensures (View(), frames) == old(Stream(View(), data))
    {
      hide Stream, FeedLine;
      ghost var whole := Stream(View(), data);
      ghost var start := acc;
      StreamAppend(State([], acc), linebuf, data);
      StreamInLine(State([], acc), linebuf);
      assert [] + linebuf == linebuf;
      assert [] + whole.1 == whole.1;
      frames := [];
      linebuf := linebuf + data;
      var idx := Find(linebuf);
      while idx >= 0
        invariant -1 <= idx < |linebuf|
        invariant if idx < 0 then OneLine(linebuf) else OneLine(linebuf[..idx]) && linebuf[idx] == NEWLINE
        invariant var (s, fs) := Stream(State([], acc), linebuf); whole == (s, frames + fs)
        decreases |linebuf|
      {
        var line := linebuf[..idx];
        ghost var rest := linebuf[idx + 1..];
        assert linebuf == line + [NEWLINE] + rest;
        StreamLine(acc, line, rest);
        linebuf := linebuf[idx + 1..];
        ghost var before, was := frames, acc;
        var frame := FeedOneLine(line);
        if frame.Some? {
          frames := frames + [frame.value];
        }
        assert frames == before + Optional(frame);
        Associate(before, Optional(frame), Stream(State([], acc), rest).1);
        idx := Find(linebuf);
      }
      StreamInLine(State([], acc), linebuf);
      assert [] + linebuf == linebuf && frames + [] == frames;
    }

    method FeedOneLine(line: seq<byte>) returns (frame: Option<seq<byte>>)
      modifies this`acc
      ensures (acc, frame) == FeedLine(old(acc), line)
    {
      if |line| < 2 {
        return None;
      }
      var marker, part := line[..2], line[2..];
      if marker == PKT_START {
        acc := Some([]);
      } else if marker == PKT_CONT {
        if acc.None? {
          return None;
        }
      } else {
        return None;
      }
      var decoded := Base64.Decode(part);
      if decoded.None? {
        acc := None;
        return None;
      }
      acc := Some(acc.value + decoded.value);
      if |acc.value| <= 2 {
        return None;
      }
      var totlen := FromBigEndian(acc.value[..2]);
      if |acc.value| - 2 != totlen {
        return None;
      }
      var body := acc.value[2..];
      acc := None;
      var crc := Crc16.Crc16Xmodem(body, 0);
      if |body| <= 2 || crc != 0 {
        return None;
      }
      return Some(body[..|body| - 2]);
    }
  }

  /** Where the first newline is, or -1. */
  method Find(data: seq<byte>) returns (idx: int)
    ensures -1 <= idx < |data|
    ensures if idx < 0 then OneLine(data) else OneLine(data[..idx]) && data[idx] == NEWLINE
  {
    for i := 0 to |data|
      invariant OneLine(data[..i])
    {
      if data[i] == NEWLINE {
        return i;
      }
      assert data[..i + 1] == data[..i] + [data[i]];
    }
    assert data[..|data|] == data;
    return -1;
  }

  // ---- one packet ----

  predicate Sendable(frame: seq<byte>) {
    0 < |frame| && |frame| + 2 < 0x10000
  }

  lemma RawShape(frame: seq<byte>)
    requires |frame| + 2 < 0x10000
    ensures FromBigEndian(Raw(frame)[..2]) == |Raw(frame)| - 2
    ensures Crc16.Crc(Raw(frame)[2..], 0) == 0 && Raw(frame)[2..][..|frame|] == frame
  {
    hide BigEndian, FromBigEndian, Crc16.CrcBytes, Crc16.Crc, Power256;
    Powers();
    BigEndianRoundTrip(|frame| + 2, 2);
    var body := frame + Crc16.CrcBytes(Crc16.Crc(frame, 0));
    assert Raw(frame)[..2] == BigEndian(|frame| + 2, 2) && Raw(frame)[2..] == body;
    Crc16.AppendedCrcLeavesZero(frame, 0);
    assert body[..|frame|] == frame;
  }

  /** The whole packet is in: it yields its frame, if that is not empty. */
  lemma RawYields(frame: seq<byte>)
    requires |frame| + 2 < 0x10000
    ensures Accumulate(Raw(frame)) == (None, if frame == [] then None else Some(frame))
  {
    hide Raw, FromBigEndian, Crc16.Crc;
    RawShape(frame);
  }

  /** Packet bytes that declare their own length. */
  predicate Declared(raw: seq<byte>) {
    |raw| > 2 && FromBigEndian(raw[..2]) == |raw| - 2
  }

  /** A proper part of a packet is kept and waited on. */
  lemma PartWaits(raw: seq<byte>, n: nat)
    requires Declared(raw) && n < |raw|
    ensures Accumulate(raw[..n]) == (Some(raw[..n]), None)
  {
    hide FromBigEndian;
    if n > 2 {
      assert raw[..n][..2] == raw[..2];
    }
  }

  lemma WholeYields(raw: seq<byte>)
    requires Declared(raw)
    ensures Accumulate(raw) == (None, Yield(raw[2..]))
  {
    hide FromBigEndian;
  }

  /** The bytes of one line: ninety-three, or what is left. */
  function Take(raw: seq<byte>): nat {
    if |raw| < 93 then |raw| else 93
  }

  /** The first line of an encoding carries the first ninety-three bytes, and the rest encodes the rest. */
  lemma FirstLine(raw: seq<byte>)
    requires raw != []
    ensures var b64 := Base64.Encode(raw); var n := if |b64| < FRAME_MTU then |b64| else FRAME_MTU;
            b64[..n] == Base64.Encode(raw[..Take(raw)]) && b64[n..] == Base64.Encode(raw[Take(raw)..])
  {
    hide Base64.Encode;
    if |raw| < 93 {
      ShortLine(raw, Base64.Encode(raw));
      EncodeNothing();
    } else {
      Base64.EncodeSplits(raw, 31);
    }
  }

  lemma ShortLine(raw: seq<byte>, b64: seq<byte>)
    requires |raw| < 93 && |b64| == (|raw| + 2) / 3 * 4
    ensures |b64| <= FRAME_MTU && b64[..|b64|] == b64 && b64[|b64|..] == []
    ensures raw[..|raw|] == raw && raw[|raw|..] == []
  {
  }

  /** A line of the packet adds its bytes: to nothing if it is the first, to acc otherwise. */
  lemma PacketLineDecodes(first: bool, acc: Acc, done: seq<byte>, part: seq<byte>)
    requires if first then done == [] else acc == Some(done)
    ensures FeedLine(acc, (if first then PKT_START else PKT_CONT) + Base64.Encode(part)) == Accumulate(done + part)
  {
    hide Base64.Encode, Base64.Decode, Accumulate;
    var line := (if first then PKT_START else PKT_CONT) + Base64.Encode(part);
    assert line[..2] == (if first then PKT_START else PKT_CONT) && line[2..] == Base64.Encode(part);
    Base64.DecodeEncode(part);
  }

  /** Where the line that starts at byte k of the packet ends. */
  function LineEnd(raw: seq<byte>, k: nat): (next: nat)
    requires k < |raw|
    ensures k < next <= |raw|
  {
    k + Take(raw[k..])
  }

  /** One line in: its bytes are added, and the lines of the rest follow. */
  lemma NextLineDecodes(raw: seq<byte>, k: nat, acc: Acc)
    requires k < |raw| && (k > 0 ==> acc == Some(raw[..k]))
    ensures var next := LineEnd(raw, k);
            var (acc', f) := Accumulate(raw[..next]);
            var (acc'', fs) := FeedLines(acc', PacketLines(Base64.Encode(raw[next..]), false));
            FeedLines(acc, PacketLines(Base64.Encode(raw[k..]), k == 0)) == (acc'', Optional(f) + fs)
  {
    hide Base64.Encode, FeedLine, FeedLines, Accumulate;
    var left := raw[k..];
    var b64 := Base64.Encode(left);
    var n := if |b64| < FRAME_MTU then |b64| else FRAME_MTU;
    FirstLine(left);
    assert left[Take(left)..] == raw[LineEnd(raw, k)..] && raw[..k] + left[..Take(left)] == raw[..LineEnd(raw, k)];
    var line := (if k == 0 then PKT_START else PKT_CONT) + b64[..n];
    PacketLineDecodes(k == 0, acc, raw[..k], left[..Take(left)]);
    OneThenRest(acc, line, PacketLines(b64[n..], false));
  }

  /** The lines of any packet that declares its length, damaged or not, yield what its body yields and leave nothing behind. */
  lemma {:induction false} PacketLinesDecode(raw: seq<byte>, k: nat, acc: Acc)
    requires Declared(raw) && k < |raw| && (k > 0 ==> acc == Some(raw[..k]))
    ensures |raw| > 2
    ensures FeedLines(acc, PacketLines(Base64.Encode(raw[k..]), k == 0)) == (None, Optional(Yield(raw[2..])))
    decreases |raw| - k
  {
    hide Declared, Yield, Base64.Encode, FeedLines, Accumulate, LineEnd, PacketLines;
    DeclaredIsLong(raw);
    var next := LineEnd(raw, k);
    NextLineDecodes(raw, k, acc);
    var result := Optional(Yield(raw[2..]));
    if next < |raw| {
      PartWaits(raw, next);
      PacketLinesDecode(raw, next, Some(raw[..next]));
      assert [] + result == result;
    } else {
      assert raw[..next] == raw && raw[next..] == [];
      WholeYields(raw);
      NothingMore();
      assert result + [] == result;
    }
  }

  lemma NothingMore()
    ensures FeedLines(None, PacketLines(Base64.Encode([]), false)) == (None, [])
  {
    EncodeNothing();
  }

  lemma AnyPacketDecodes(raw: seq<byte>, acc: Acc)
    requires Declared(raw)
    ensures FeedLines(acc, PacketLines(Base64.Encode(raw), true)) == (None, Optional(Yield(raw[2..])))
  {
    hide FeedLines, PacketLines, Declared, Yield;
    DeclaredIsLong(raw);
    assert raw[0..] == raw;
    PacketLinesDecode(raw, 0, acc);
  }

  lemma DeclaredIsLong(raw: seq<byte>)
    requires Declared(raw)
    ensures |raw| > 2
  {
  }

  lemma EncodeNothing()
    ensures Base64.Encode([]) == []
  {
  }

  lemma OneThenRest(acc: Acc, line: seq<byte>, rest: seq<seq<byte>>)
    ensures var (acc', f) := FeedLine(acc, line); var (acc'', fs) := FeedLines(acc', rest);
            FeedLines(acc, [line] + rest) == (acc'', Optional(f) + fs)
  {
    hide FeedLine;
    assert ([line] + rest)[1..] == rest;
  }

  /** Whatever was being accumulated, the lines of a packet yield exactly its frame and leave nothing behind. */
  lemma PacketRecovered(acc: Acc, frame: seq<byte>)
    requires |frame| + 2 < 0x10000
    ensures FeedLines(acc, LinesOf(frame)) == (None, if frame == [] then [] else [frame])
  {
    hide FeedLines, Accumulate, Declared, Yield;
    RawIsDeclared(frame);
    AnyPacketDecodes(Raw(frame), acc);
    WholeYields(Raw(frame));
    RawYields(frame);
  }

  lemma RawIsDeclared(frame: seq<byte>)
    requires |frame| + 2 < 0x10000
    ensures Declared(Raw(frame))
  {
    RawShape(frame);
  }

  // ---- a whole stream ----

  function Flatten(frames: seq<seq<byte>>): (lines: seq<seq<byte>>)
    requires forall i :: 0 <= i < |frames| ==> Sendable(frames[i])
    decreases frames
  {
    if frames == [] then []
    else
      assert Sendable(frames[0]);
      LinesOf(frames[0]) + Flatten(frames[1..])
  }

  /** The lines a decoder does not ignore. */
  function PacketLinesIn(lines: seq<seq<byte>>): seq<seq<byte>>
    decreases lines
  {
    if lines == [] then [] else (if IsPacketLine(lines[0]) then [lines[0]] else []) + PacketLinesIn(lines[1..])
  }

  lemma {:induction false} NoiseIsIgnored(acc: Acc, lines: seq<seq<byte>>)
    ensures FeedLines(acc, lines) == FeedLines(acc, PacketLinesIn(lines))
    decreases lines
  {
    if lines != [] {
      var rest := PacketLinesIn(lines[1..]);
      if IsPacketLine(lines[0]) {
        hide FeedLine;
        NoiseIsIgnored(FeedLine(acc, lines[0]).0, lines[1..]);
        OneThenRest(acc, lines[0], rest);
      } else {
        NoiseIsIgnored(acc, lines[1..]);
        assert [] + rest == rest;
        assert [] + FeedLines(acc, lines[1..]).1 == FeedLines(acc, lines[1..]).1;
      }
    }
  }

  lemma {:induction false} PacketsRecovered(acc: Acc, frames: seq<seq<byte>>)
    requires forall i :: 0 <= i < |frames| ==> Sendable(frames[i])
    ensures FeedLines(acc, Flatten(frames)).1 == frames
    decreases frames
  {
    hide FeedLines, LinesOf;
    if frames == [] {
      FedNothing(acc);
    } else {
      PacketRecovered(acc, frames[0]);
      PacketsRecovered(None, frames[1..]);
      FeedLinesAppend(acc, LinesOf(frames[0]), Flatten(frames[1..]));
      assert [frames[0]] + frames[1..] == frames;
    }
  }

  lemma FedNothing(acc: Acc)
    ensures FeedLines(acc, []) == (acc, [])
  {
  }

  /** What a series of calls to Feed yields. */
  function FeedChunks(s: State, chunks: seq<seq<byte>>): (State, seq<seq<byte>>)
    decreases chunks
  {
    if chunks == [] then (s, [])
    else
      var (s', fs) := Stream(s, chunks[0]);
      var (s'', gs) := FeedChunks(s', chunks[1..]);
      (s'', fs + gs)
  }

  /** How the stream is cut into chunks makes no difference. */
  lemma {:induction false} ChunkingIrrelevant(s: State, chunks: seq<seq<byte>>)
    ensures FeedChunks(s, chunks) == Stream(s, Concat(chunks))
    decreases chunks
  {
    if chunks != [] {
      hide Stream;
      ChunkingIrrelevant(Stream(s, chunks[0]).0, chunks[1..]);
      StreamAppend(s, chunks[0], Concat(chunks[1..]));
    }
  }

  /**
   Reassembly: from any state between lines, any chunking of any newline-terminated lines whose packet lines are
   those of f1..fn, in order and with ignored lines anywhere in between, yields exactly f1..fn.
   */
  lemma StreamReassembled(s: State, frames: seq<seq<byte>>, lines: seq<seq<byte>>, chunks: seq<seq<byte>>)
    requires s.linebuf == [] && forall i :: 0 <= i < |frames| ==> Sendable(frames[i])
    requires PacketLinesIn(lines) == Flatten(frames) && (forall i :: 0 <= i < |lines| ==> OneLine(lines[i]))
    requires Concat(chunks) == Terminated(lines)
    ensures FeedChunks(s, chunks).1 == frames
  {
    hide Stream, FeedLines, Flatten, PacketLinesIn;
    ChunkingIrrelevant(s, chunks);
    StreamOfLines(s.acc, lines);
    NoiseIsIgnored(s.acc, lines);
    PacketsRecovered(s.acc, frames);
  }

  lemma {:induction false} LinesAreLines(b64: seq<byte>, first: bool)
    requires OneLine(b64)
    ensures forall i :: 0 <= i < |PacketLines(b64, first)| ==> OneLine(PacketLines(b64, first)[i]) && IsPacketLine(PacketLines(b64, first)[i])
    decreases b64
  {
    if b64 != [] {
      var n := if |b64| < FRAME_MTU then |b64| else FRAME_MTU;
      var line := (if first then PKT_START else PKT_CONT) + b64[..n];
      assert OneLine(b64[n..]) && OneLine(b64[..n]);
      LinesAreLines(b64[n..], false);
      assert line[..2] == (if first then PKT_START else PKT_CONT);
    }
  }

  lemma EncodingHasNoNewline(raw: seq<byte>)
    ensures OneLine(Base64.Encode(raw))
  {
    if NEWLINE in Base64.Encode(raw) {
      var i :| 0 <= i < |Base64.Encode(raw)| && Base64.Encode(raw)[i] == NEWLINE;
      Base64.EncodeAlphabet(raw, i);
    }
  }

  /** A packet on the wire is the terminated lines of its encoding, all of them packet lines. */
  lemma WireIsPacketLines(frame: seq<byte>)
    requires |frame| + 2 < 0x10000
    ensures Wire(frame) == Some(Terminated(LinesOf(frame)))
    ensures forall i :: 0 <= i < |LinesOf(frame)| ==> OneLine(LinesOf(frame)[i]) && IsPacketLine(LinesOf(frame)[i])
  {
    EncodingHasNoNewline(Raw(frame));
    LinesAreLines(Base64.Encode(Raw(frame)), true);
  }

  /** The next 124 characters, or what is left of them. */
  function Part(b64: seq<byte>, off: nat): seq<byte>
    requires off <= |b64|
  {
    if off + 124 < |b64| then b64[off..off + 124] else b64[off..]
  }

  lemma PartOfRest(b64: seq<byte>, off: nat)
    requires 124 + off <= |b64|
    ensures Part(b64[124..], off) == Part(b64, 124 + off)
  {
  }

  lemma ShortEnd(b64: seq<byte>, first: bool)
    requires 0 < |b64| <= 124
    ensures PacketLines(b64, first) == [(if first then [6, 9] else [4, 20]) + Part(b64, 0)]
  {
    assert b64[..|b64|] == b64 && b64[|b64|..] == [];
    assert PacketLines([], false) == [];
  }

  lemma FullLine(b64: seq<byte>, first: bool)
    requires |b64| > 124
    ensures PacketLines(b64, first) == [(if first then [6, 9] else [4, 20]) + Part(b64, 0)] + PacketLines(b64[124..], false)
  {
  }

  /** Every 124 characters of base 64 are a line, the last may be shorter; the first stands behind 06 09, the others behind 04 14. */
  lemma {:induction false} LinesAreCut(b64: seq<byte>, first: bool, i: nat)
    requires 124 * i < |b64|
    ensures i < |PacketLines(b64, first)| && (|b64| <= 124 * (i + 1) ==> |PacketLines(b64, first)| == i + 1)
    ensures PacketLines(b64, first)[i] == (if first && i == 0 then [6, 9] else [4, 20]) + Part(b64, 124 * i)
    decreases i
  {
    hide PacketLines, Part;
    if |b64| <= 124 {
      ShortEnd(b64, first);
    } else {
      FullLine(b64, first);
      if i > 0 {
        LinesAreCut(b64[124..], false, i - 1);
        PartOfRest(b64, 124 * (i - 1));
      }
    }
  }

  /** What the base 64 carries: how much follows, high byte first, the frame, its CRC. */
  lemma RawBytes(frame: seq<byte>, high: byte, low: byte)
    requires |frame| + 2 == 256 * (high as int) + low
    ensures Raw(frame) == [high, low] + (frame + Crc16.CrcBytes(Crc16.Crc(frame, 0)))
  {
    HighByteFirst(high, low);
    hide Crc16.Crc, Crc16.CrcBytes, BigEndian;
  }

  /**
   Recovery: after any bytes at all, once a newline has ended whatever they were, the next whole packet yields
   its frame, and the decoder is between packets again. An empty frame is the one packet that yields nothing.
   */
  lemma RecoversAfterJunk(s: State, junk: seq<byte>, frame: seq<byte>)
    requires |frame| + 2 < 0x10000
    ensures Stream(s, junk + [NEWLINE] + Wire(frame).value)
         == (FRESH, Stream(s, junk + [NEWLINE]).1 + if frame == [] then [] else [frame])
  {
    hide Stream, FeedLines, LinesOf;
    WireIsPacketLines(frame);
    StreamAppend(s, junk + [NEWLINE], Terminated(LinesOf(frame)));
    AfterNewline(s, junk);
    var s' := Stream(s, junk + [NEWLINE]).0;
    StreamOfLines(s'.acc, LinesOf(frame));
    PacketRecovered(s'.acc, frame);
  }

  lemma AfterNewline(s: State, junk: seq<byte>)
    ensures Stream(s, junk + [NEWLINE]).0.linebuf == []
  {
    StreamAppend(s, junk, [NEWLINE]);
    StreamNewline(Stream(s, junk).0);
  }

  /** Whatever a decoder yields, from any line in any state, is the checked body of a whole accumulation. */
  lemma YieldedIsChecked(acc: Acc, line: seq<byte>)
    requires FeedLine(acc, line).1.Some?
    ensures FeedLine(acc, line).0 == None
    ensures exists body :: Yield(body) == FeedLine(acc, line).1 && |body| > 2 && Crc16.Crc(body, 0) == 0
  {
    hide Base64.Decode, Crc16.Crc;
    var bytes := (if line[..2] == PKT_START then [] else acc.value) + Base64.Decode(line[2..]).value;
    assert Yield(bytes[2..]) == FeedLine(acc, line).1;
  }

  /** The same number of bytes, but not the same, and different only within two adjacent ones behind the length. */
  ghost predicate Damaged(raw: seq<byte>, damaged: seq<byte>) {
    |damaged| == |raw| && damaged != raw && exists at: nat :: OnlyAt(raw, damaged, at)
  }

  predicate OnlyAt(raw: seq<byte>, damaged: seq<byte>, at: nat) {
    |damaged| == |raw| && 2 <= at && at + 2 <= |raw| && forall i :: 0 <= i < |raw| && i != at && i != at + 1 ==> damaged[i] == raw[i]
  }

  lemma DamageIsInTheBody(raw: seq<byte>, damaged: seq<byte>, at: nat)
    requires OnlyAt(raw, damaged, at) && damaged != raw
    ensures at >= 2 && at + 2 <= |raw| && damaged[..2] == raw[..2] && |damaged[2..]| == |raw[2..]| && damaged[2..] != raw[2..]
    ensures forall i :: 0 <= i < |raw[2..]| && i != at - 2 && i != at - 1 ==> damaged[2..][i] == raw[2..][i]
  {
    assert damaged[..2] == raw[..2];
    assert damaged == damaged[..2] + damaged[2..] && raw == raw[..2] + raw[2..];
  }

  lemma DamagedYieldsNothing(frame: seq<byte>, damaged: seq<byte>)
    requires |frame| + 2 < 0x10000 && Damaged(Raw(frame), damaged)
    ensures Declared(damaged) && Yield(damaged[2..]) == None
  {
    hide Raw, FromBigEndian, Crc16.Crc, OnlyAt;
    RawShape(frame);
    var raw := Raw(frame);
    var at: nat :| OnlyAt(raw, damaged, at);
    DamageIsInTheBody(raw, damaged, at);
    Crc16.DamagedBodyNeverChecks(raw[2..], damaged[2..], at - 2);
  }

  /** The lines of a packet damaged within two adjacent bytes, CRC included, yield nothing, and the decoder is between packets again. */
  lemma DamagedPacketDropped(acc: Acc, frame: seq<byte>, damaged: seq<byte>)
    requires |frame| + 2 < 0x10000 && Damaged(Raw(frame), damaged)
    ensures FeedLines(acc, PacketLines(Base64.Encode(damaged), true)) == (None, [])
  {
    hide Raw, FeedLines, Declared, Yield, Damaged;
    DamagedYieldsNothing(frame, damaged);
    AnyPacketDecodes(damaged, acc);
  }

  /** Packets as they arrive: each as it was sent, or damaged. */
  ghost predicate Arrive(frames: seq<seq<byte>>, raws: seq<seq<byte>>) {
    |raws| == |frames| && forall i :: 0 <= i < |frames| ==> Sendable(frames[i]) && (raws[i] == Raw(frames[i]) || Damaged(Raw(frames[i]), raws[i]))
  }

  function LinesOfAll(raws: seq<seq<byte>>): seq<seq<byte>>
    decreases raws
  {
    if raws == [] then [] else PacketLines(Base64.Encode(raws[0]), true) + LinesOfAll(raws[1..])
  }

  /** The frames whose packets arrived as they were sent. */
  function Unharmed(frames: seq<seq<byte>>, raws: seq<seq<byte>>): seq<seq<byte>>
    requires |raws| == |frames| && forall i :: 0 <= i < |frames| ==> Sendable(frames[i])
    decreases frames
  {
    if frames == [] then []
    else
      assert Sendable(frames[0]);
      (if raws[0] == Raw(frames[0]) then [frames[0]] else []) + Unharmed(frames[1..], raws[1..])
  }

  lemma {:induction false} ArrivedDecode(acc: Acc, frames: seq<seq<byte>>, raws: seq<seq<byte>>)
    requires Arrive(frames, raws)
    ensures FeedLines(acc, LinesOfAll(raws)).1 == Unharmed(frames, raws)
    decreases frames
  {
    hide FeedLines, PacketLines, Raw, Damaged;
    if frames == [] {
      FedNothing(acc);
    } else {
      var lines := PacketLines(Base64.Encode(raws[0]), true);
      assert Sendable(frames[0]);
      if raws[0] == Raw(frames[0]) {
        PacketRecovered(acc, frames[0]);
      } else {
        DamagedPacketDropped(acc, frames[0], raws[0]);
      }
      ArrivedDecode(None, frames[1..], raws[1..]);
      FeedLinesAppend(acc, lines, LinesOfAll(raws[1..]));
    }
  }

  /** Reassembly over a line that damages packets: any chunking yields exactly the frames that were not damaged, in order. */
  lemma DamagedStreamReassembled(s: State, frames: seq<seq<byte>>, raws: seq<seq<byte>>, lines: seq<seq<byte>>, chunks: seq<seq<byte>>)
    requires s.linebuf == [] && Arrive(frames, raws)
    requires PacketLinesIn(lines) == LinesOfAll(raws) && (forall i :: 0 <= i < |lines| ==> OneLine(lines[i]))
    requires Concat(chunks) == Terminated(lines)
    ensures FeedChunks(s, chunks).1 == Unharmed(frames, raws)
  {
    hide Stream, FeedLines, LinesOfAll, PacketLinesIn, Damaged, Raw, PacketLines;
    ChunkingIrrelevant(s, chunks);
    StreamOfLines(s.acc, lines);
    NoiseIsIgnored(s.acc, lines);
    ArrivedDecode(s.acc, frames, raws);
  }
}
