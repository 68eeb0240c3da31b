/**
 The AT line assembler (core/at/at_parser.c): bytes arrive in chunks of any size, are edited into a bounded
 buffer, and leave as lines or as an overflow error.
 */
module LineAssembler {
  import opened Prelude

  const CR: byte := 0x0D
  const LF: byte := 0x0A
  const BS: byte := 0x08
  const DEL: byte := 0x7F

  predicate EndsLine(c: byte) {
    c == CR || c == LF
  }

  predicate Erases(c: byte) {
    c == BS || c == DEL
  }

  /** What a line leaves as: a command for the parser, or an error because it was too long. */
  datatype Output = Command(line: seq<byte>) | TooLong

  // ---- the simple editor ----

  /** What the typed bytes of one line look like after editing, without any bound. */
  function Edited(typed: seq<byte>): seq<byte> {
    if typed == [] then []
    else
      var before, c := Edited(typed[..|typed| - 1]), typed[|typed| - 1];
      if Erases(c) then (if before == [] then [] else before[..|before| - 1]) else before + [c]
  }

  /** The longest it ever was. */
  function Peak(typed: seq<byte>): (n: nat)
    ensures |Edited(typed)| <= n
  {
    if typed == [] then 0
    else
      var before := Peak(typed[..|typed| - 1]);
      if |Edited(typed)| > before then |Edited(typed)| else before
  }

  /** The bytes up to the first NUL, which is where the command parser stops reading. */
  function CString(line: seq<byte>): seq<byte> {
    if line == [] || line[0] == 0 then [] else [line[0]] + CString(line[1..])
  }

  /** A line that ever outgrew the buffer is an error; an empty one is nothing. */
  function Outputs(typed: seq<byte>, max: nat): seq<Output>
    requires max > 1
  {
    if Peak(typed) > max - 1 then [TooLong] else if Edited(typed) == [] then [] else [Command(CString(Edited(typed)))]
  }

  /** Cuts a stream into lines: what was typed since the last line end, and the outputs so far. */
  function Assemble(typed: seq<byte>, data: seq<byte>, max: nat): (seq<byte>, seq<Output>)
    requires max > 1
    decreases data
  {
    if data == [] then (typed, [])
    else if EndsLine(data[0]) then
      var (rest, outs) := Assemble([], data[1..], max);
      (rest, Outputs(typed, max) + outs)
    else Assemble(typed + [data[0]], data[1..], max)
  }

  // ---- the bounded buffer ----

  class Parser {
    const max: nat
    const line: array<byte>
    var pos: nat
    var overflow: bool
    /** Everything typed since the last line end. */
    ghost var typed: seq<byte>

    ghost predicate Valid()
      reads this, line
    {
      && max > 1 && line.Length == max && pos <= max - 1
      && overflow == (Peak(typed) > max - 1)
      && (!overflow ==> line[..pos] == Edited(typed))
    }

    constructor (max: nat)
      requires max > 1
      ensures Valid() && typed == [] && this.max == max && fresh(line)
    {
      this.max := max;
      line := new byte[max](_ => 0);
      pos, overflow, typed := 0, false, [];
    }

    /** The line as the command parser reads it. */
    method Terminate() returns (command: seq<byte>)
      requires Valid()
      modifies line
      ensures Valid() && line[..pos] == old(line[..pos])
      ensures command == CString(line[..pos])
    {
      line[pos] := 0;
      var n := 0;
      while line[n] != 0
        invariant 0 <= n <= pos && forall k :: 0 <= k < n ==> line[k] != 0
        decreases pos - n
      {
        n := n + 1;
      }
      CStringIs(line[..pos], n);
      return line[..n];
    }

    /** A CR or LF: the line leaves, and the buffer is fresh again. */
    method EndLine() returns (outs: seq<Output>)
      requires Valid()
      modifies this, line
      ensures Valid() && typed == [] && outs == Outputs(old(typed), max)
    {
      hide Edited, CString;
      outs := [];
      if overflow {
        outs := [TooLong];
      } else if pos > 0 {
        var command := Terminate();
        outs := [Command(command)];
      }
      NothingTyped();
      pos, overflow, typed := 0, false, [];
    }

    /** A backspace or DEL; overflow stays. */
    method Erase(ghost c: byte)
      requires Valid() && Erases(c)
      modifies `pos, `typed
      ensures Valid() && typed == old(typed) + [c]
    {
      TypeByte(typed, c);
      hide Edited, Peak;
      typed := typed + [c];
      if pos > 0 {
        pos := pos - 1;
      }
    }

    /** Any other byte: kept while there is room. */
    method Keep(c: byte)
      requires Valid() && !Erases(c)
      modifies `pos, `overflow, `typed, line
      ensures Valid() && typed == old(typed) + [c]
    {
      TypeByte(typed, c);
      hide Edited, Peak;
      typed := typed + [c];
      if pos < max - 1 {
        line[pos] := c;
        pos := pos + 1;
      } else {
        overflow := true;
      }
    }

    method FeedByte(c: byte) returns (outs: seq<Output>)
      requires Valid()
      modifies this, line
      ensures Valid()
      ensures (typed, outs) == Assemble(old(typed), [c], max)
    {
      hide Assemble, Outputs, Edited, Peak;
      AssembleByte(typed, c, max);
      outs := [];
      if EndsLine(c) {
        outs := EndLine();
      } else if Erases(c) {
        Erase(c);
      } else {
        Keep(c);
      }
    }

    /** One read from the link, of any length. */
    method Feed(chunk: seq<byte>) returns (outs: seq<Output>)
      requires Valid()
      modifies this, line
      ensures Valid()
      ensures (typed, outs) == Assemble(old(typed), chunk, max)
    {
      outs := [];
      for i := 0 to |chunk|
        invariant Valid()
        invariant (typed, outs) == Assemble(old(typed), chunk[..i], max)
      {
        AssembleAppend(old(typed), chunk[..i], [chunk[i]], max);
        assert chunk[..i + 1] == chunk[..i] + [chunk[i]];
        var more := FeedByte(chunk[i]);
        outs := outs + more;
      }
      assert chunk[..|chunk|] == chunk;
    }
  }

  lemma {:induction false} CStringIs(line: seq<byte>, n: nat)
    requires n <= |line| && (forall k :: 0 <= k < n ==> line[k] != 0) && (n < |line| ==> line[n] == 0)
    ensures CString(line) == line[..n]
    decreases n
  {
    if n > 0 {
      CStringIs(line[1..], n - 1);
      assert line[..n] == [line[0]] + line[1..][..n - 1];
    }
  }

  /** What one more typed byte does to the edited line and its peak. */
  lemma NothingTyped()
    ensures Edited([]) == [] && Peak([]) == 0
  {
  }

  lemma TypeByte(typed: seq<byte>, c: byte)
    ensures var before := Edited(typed);
            Edited(typed + [c]) == if Erases(c) then (if before == [] then [] else before[..|before| - 1]) else before + [c]
    ensures Peak(typed + [c]) == if |Edited(typed + [c])| > Peak(typed) then |Edited(typed + [c])| else Peak(typed)
  {
    assert (typed + [c])[..|typed|] == typed;
  }

  lemma AssembleByte(typed: seq<byte>, c: byte, max: nat)
    requires max > 1
    ensures Assemble(typed, [c], max) == if EndsLine(c) then ([], Outputs(typed, max)) else (typed + [c], [])
  {
    assert [c][1..] == [];
    assert Outputs(typed, max) + [] == Outputs(typed, max);
  }

  /** Cutting the stream into chunks makes no difference. */
  lemma {:induction false} AssembleAppend(typed: seq<byte>, a: seq<byte>, b: seq<byte>, max: nat)
    requires max > 1
    ensures var (mid, outs) := Assemble(typed, a, max); var (rest, more) := Assemble(mid, b, max);
            Assemble(typed, a + b, max) == (rest, outs + more)
    decreases a
  {
    hide Outputs;
    if a == [] {
      assert a + b == b && [] + Assemble(typed, b, max).1 == Assemble(typed, b, max).1;
    } else {
      assert (a + b)[1..] == a[1..] + b;
      if EndsLine(a[0]) {
        AssembleAppend([], a[1..], b, max);
        var mid := Assemble([], a[1..], max);
        Associate(Outputs(typed, max), mid.1, Assemble(mid.0, b, max).1);
      } else {
        AssembleAppend(typed + [a[0]], a[1..], b, max);
      }
    }
  }

  // ---- a whole stream ----

  predicate Typed(line: seq<byte>) {
    forall i :: 0 <= i < |line| ==> !EndsLine(line[i])
  }

  /** A line as it was typed, and the byte that ended it. */
  datatype Ended = Ended(line: seq<byte>, end: byte)

  function Stream(lines: seq<Ended>): seq<byte>
    decreases lines
  {
    if lines == [] then [] else lines[0].line + [lines[0].end] + Stream(lines[1..])
  }

  function AllOutputs(lines: seq<Ended>, max: nat): seq<Output>
    requires max > 1
    decreases lines
  {
    if lines == [] then [] else Outputs(lines[0].line, max) + AllOutputs(lines[1..], max)
  }

  lemma {:induction false} AssembleLine(typed: seq<byte>, line: seq<byte>, max: nat)
    requires max > 1 && Typed(line)
    ensures Assemble(typed, line, max) == (typed + line, [])
    decreases line
  {
    if line == [] {
      assert typed + line == typed;
    } else {
      assert !EndsLine(line[0]) && forall i :: 0 <= i < |line[1..]| ==> !EndsLine(line[1..][i]);
      AssembleLine(typed + [line[0]], line[1..], max);
      assert typed + [line[0]] + line[1..] == typed + line;
    }
  }

  /** Every line of the stream leaves as the simple editor says, whatever comes before and after it. */
  lemma {:induction false} StreamIsEditedLineByLine(lines: seq<Ended>, last: seq<byte>, max: nat)
    requires max > 1 && Typed(last)
    requires forall i :: 0 <= i < |lines| ==> Typed(lines[i].line) && EndsLine(lines[i].end)
    ensures Assemble([], Stream(lines) + last, max) == (last, AllOutputs(lines, max))
    decreases lines
  {
    hide Outputs, Edited, Peak;
    if lines == [] {
      AssembleLine([], last, max);
      assert [] + last == last;
    } else {
      var line, end, rest := lines[0].line, lines[0].end, Stream(lines[1..]) + last;
      assert Stream(lines) + last == line + ([end] + rest);
      AssembleLine([], line, max);
      assert [] + line == line;
      AssembleAppend([], line, [end] + rest, max);
      AssembleByte(line, end, max);
      AssembleAppend(line, [end], rest, max);
      StreamIsEditedLineByLine(lines[1..], last, max);
      assert [] + (Outputs(line, max) + AllOutputs(lines[1..], max)) == AllOutputs(lines, max);
    }
  }

  /** Reading in chunks of any sizes. */
  function FeedChunks(typed: seq<byte>, chunks: seq<seq<byte>>, max: nat): (seq<byte>, seq<Output>)
    requires max > 1
    decreases chunks
  {
    if chunks == [] then (typed, [])
    else
      var (mid, outs) := Assemble(typed, chunks[0], max);
      var (rest, more) := FeedChunks(mid, chunks[1..], max);
      (rest, outs + more)
  }

  lemma {:induction false} ChunkingIrrelevant(typed: seq<byte>, chunks: seq<seq<byte>>, max: nat)
    requires max > 1
    ensures FeedChunks(typed, chunks, max) == Assemble(typed, Concat(chunks), max)
    decreases chunks
  {
    hide Assemble;
    if chunks == [] {
      assert Assemble(typed, [], max) == (typed, []) by { AssembleNothing(typed, max); }
    } else {
      var mid := Assemble(typed, chunks[0], max).0;
      ChunkingIrrelevant(mid, chunks[1..], max);
      AssembleAppend(typed, chunks[0], Concat(chunks[1..]), max);
    }
  }

  lemma AssembleNothing(typed: seq<byte>, max: nat)
    requires max > 1
    ensures Assemble(typed, [], max) == (typed, [])
  {
  }

  /** Any bytes, any chunks: the lines and the overflow errors are those of the simple editor. */
  lemma AnyChunksAnyLines(lines: seq<Ended>, last: seq<byte>, chunks: seq<seq<byte>>, max: nat)
    requires max > 1 && Typed(last) && Concat(chunks) == Stream(lines) + last
    requires forall i :: 0 <= i < |lines| ==> Typed(lines[i].line) && EndsLine(lines[i].end)
    ensures FeedChunks([], chunks, max) == (last, AllOutputs(lines, max))
  {
    ChunkingIrrelevant([], chunks, max);
    StreamIsEditedLineByLine(lines, last, max);
  }

  // ---- what the keys do ----

  /** Text without editing keys is kept as it is. */
  lemma {:induction false} PlainText(text: seq<byte>)
    requires forall i :: 0 <= i < |text| ==> text[i] != 0x08 && text[i] != 0x7F
    ensures Edited(text) == text && Peak(text) == |text|
  {
    if text != [] {
      PlainText(text[..|text| - 1]);
    }
  }

  lemma {:induction false} PlainCommand(text: seq<byte>)
    requires 0 !in text
    ensures CString(text) == text
  {
    if text != [] {
      PlainCommand(text[1..]);
      assert text == [text[0]] + text[1..];
    }
  }

  lemma {:induction false} NoEnd(typed: seq<byte>, text: seq<byte>, max: nat)
    requires max > 1 && forall i :: 0 <= i < |text| ==> text[i] != 0x0A && text[i] != 0x0D
    ensures Assemble(typed, text, max) == (typed + text, [])
    decreases text
  {
    if text == [] {
      assert typed + [] == typed;
    } else {
      NoEnd(typed + [text[0]], text[1..], max);
      assert typed + [text[0]] + text[1..] == typed + text;
    }
  }

  /** A line of plain text ended by CR or by LF is that command, if the buffer holds it, and too long otherwise. */
  lemma PlainLine(text: seq<byte>, end: byte, max: nat)
    requires max > 1 && (end == 0x0D || end == 0x0A)
    requires forall i :: 0 <= i < |text| ==> text[i] !in {0x00, 0x08, 0x0A, 0x0D, 0x7F}
    ensures Assemble([], text + [end], max) == ([], if |text| >= max then [TooLong] else if text == [] then [] else [Command(text)])
  {
    hide Edited, Peak, CString, Assemble;
    PlainText(text);
    PlainCommand(text);
    NoEnd([], text, max);
    AssembleAppend([], text, [end], max);
    assert [] + text == text;
    AssembleByte(text, end, max);
    assert [] + Outputs(text, max) == Outputs(text, max);
  }

  /** A backspace or a DEL takes back the character before it, whatever was typed before and is typed after. */
  lemma {:induction false} ErasedIsGone(a: seq<byte>, c: byte, e: byte, b: seq<byte>)
    requires c != 0x08 && c != 0x7F && (e == 0x08 || e == 0x7F)
    ensures Edited(a + [c, e] + b) == Edited(a + b)
  {
    hide *;
    if b == [] {
      ErasedAtEnd(a, c, e);
      assert a + [c, e] + b == a + [c, e] && a + b == a;
    } else {
      var init, last := b[..|b| - 1], b[|b| - 1];
      ErasedIsGone(a, c, e, init);
      assert init + [last] == b;
      TypeLast(a + [c, e], init, last);
      TypeLast(a, init, last);
    }
  }

  lemma ErasedAtEnd(a: seq<byte>, c: byte, e: byte)
    requires c != 0x08 && c != 0x7F && (e == 0x08 || e == 0x7F)
    ensures Edited(a + [c, e]) == Edited(a)
  {
    hide Edited;
    TypeByte(a, c);
    TypeByte(a + [c], e);
    assert a + [c] + [e] == a + [c, e];
  }

  lemma TypeLast(a: seq<byte>, init: seq<byte>, last: byte)
    ensures var before := Edited(a + init);
            Edited(a + (init + [last])) == if Erases(last) then (if before == [] then [] else before[..|before| - 1]) else before + [last]
  {
    hide Edited;
    Associate(a, init, [last]);
    TypeByte(a + init, last);
  }
}
