/** Decoding inverts every way of writing a value (platform/nrf54l15/fw/smp.py). */
module CborReading {
  import opened Prelude
  import opened Cbor

  /** The first byte of a head splits back into its two parts. */
  lemma InitialByte(major: nat, info: nat)
    requires major < 7 && info < 32
    ensures (major * 32 + info) / 32 == major && (major * 32 + info) % 32 == info
  {
  }

  lemma UnsignedOfBytes(v: nat, n: nat, tail: seq<byte>)
    requires v < Power256(n)
    ensures Unsigned(BigEndian(v, n) + tail, n) == Got(Some(v), tail)
  {
    hide BigEndian, FromBigEndian, Power256;
    BigEndianRoundTrip(v, n);
    assert (BigEndian(v, n) + tail)[..n] == BigEndian(v, n) && (BigEndian(v, n) + tail)[n..] == tail;
  }

  lemma NoBytes(v: nat, tail: seq<byte>)
    ensures BigEndian(v, 0) + tail == tail
  {
  }

  lemma ArgumentOfBytes(v: nat, w: Width, tail: seq<byte>)
    requires Fits(v, w)
    ensures Argument(Info(v, w), BigEndian(v, Size(w)) + tail) == Got(Some(v), tail)
  {
    hide BigEndian, Unsigned, Power256;
    if w == Tiny {
      NoBytes(v, tail);
    } else {
      UnsignedOfBytes(v, Size(w), tail);
    }
  }

  lemma ArgumentOfHead(major: nat, v: nat, w: Width, tail: seq<byte>)
    requires major < 7 && Fits(v, w)
    ensures var b := Head(major, v, w) + tail;
            b != [] && b[0] / 32 == major && Argument(b[0] % 32, b[1..]) == Got(Some(v), tail)
  {
    hide BigEndian, Power256, Argument;
    var b := Head(major, v, w) + tail;
    assert b[1..] == BigEndian(v, Size(w)) + tail;
    InitialByte(major, Info(v, w));
    ArgumentOfBytes(v, w, tail);
  }

  /** A definite head hands its argument and what follows to the body. */
  lemma DecodeHead(major: nat, v: nat, w: Width, tail: seq<byte>)
    requires major < 7 && Fits(v, w)
    ensures Decode(Head(major, v, w) + tail) == DecodeBody(major, Some(v), tail, Head(major, v, w) + tail)
  {
    hide Head, Argument, DecodeBody;
    ArgumentOfHead(major, v, w, tail);
  }

  lemma DecodeOpenHead(major: nat, tail: seq<byte>)
    requires 2 <= major <= 6
    ensures Decode([major * 32 + 31] + tail) == DecodeBody(major, None, tail, [major * 32 + 31] + tail)
  {
    hide DecodeBody;
    var b := [major * 32 + 31] + tail;
    assert b[1..] == tail;
  }

  lemma {:induction false} DecodeAll(ds: seq<Doc>, tail: seq<byte>)
    requires WritableAll(ds)
    ensures DecodeItems(RenderAll(ds) + tail, |ds|) == Got(Meanings(ds), tail)
    decreases ds, 0
  {
    hide Decode, Render, Meaning;
    if ds == [] {
      assert [] + tail == tail;
    } else {
      var first, rest := Render(ds[0]), RenderAll(ds[1..]);
      Associate(first, rest, tail);
      DecodeRender(ds[0], rest + tail);
      DecodeAll(ds[1..], tail);
    }
  }

  lemma FirstNoBreak(ds: seq<Doc>)
    requires ds != [] && NoBreaks(ds)
    ensures Meaning(ds[0]) != Break && NoBreaks(ds[1..])
  {
  }

  lemma FirstNoBreakKey(es: seq<DocPair>)
    requires es != [] && NoBreakKeys(es)
    ensures Meaning(es[0].key) != Break && NoBreakKeys(es[1..])
  {
  }

  /** after is whatever follows the items: a stop, and the tail. */
  lemma {:induction false} DecodeAllOpen(ds: seq<Doc>, after: seq<byte>, tail: seq<byte>)
    requires WritableAll(ds) && NoBreaks(ds) && Decode(after) == Got(Break, tail)
    ensures DecodeItemsOpen(RenderAll(ds) + after) == Got(Meanings(ds), tail)
    decreases ds, 0
  {
    hide Decode, Render, Meaning, NoBreaks;
    if ds == [] {
      assert [] + after == after;
    } else {
      var first, rest := Render(ds[0]), RenderAll(ds[1..]);
      FirstNoBreak(ds);
      Associate(first, rest, after);
      DecodeRender(ds[0], rest + after);
      DecodeAllOpen(ds[1..], after, tail);
    }
  }

  lemma {:induction false} DecodeAllParts(parts: seq<Doc>, text: bool, after: seq<byte>, tail: seq<byte>)
    requires WritableParts(parts, text) && Decode(after) == Got(Break, tail)
    ensures DecodeParts(RenderParts(parts, text) + after, text) == Got(Joined(parts, text), tail)
    decreases parts, 0
  {
    hide Decode, Render, Meaning;
    if parts == [] {
      assert [] + after == after;
    } else {
      var first, rest := Render(parts[0]), RenderParts(parts[1..], text);
      Associate(first, rest, after);
      DecodeRender(parts[0], rest + after);
      DecodeAllParts(parts[1..], text, after, tail);
    }
  }

  /** An entry is its key, then its value. */
  lemma DecodePair(p: DocPair, tail: seq<byte>)
    requires WritablePair(p)
    ensures Decode(RenderPair(p) + tail) == Got(PairMeaning(p).key, Render(p.value) + tail)
    ensures Decode(Render(p.value) + tail) == Got(PairMeaning(p).value, tail)
    ensures Hashable(PairMeaning(p).key)
    decreases p, 1
  {
    hide Decode, Render, Meaning;
    Associate(Render(p.key), Render(p.value), tail);
    DecodeRender(p.key, Render(p.value) + tail);
    DecodeRender(p.value, tail);
  }

  lemma {:induction false} DecodeAllEntries(es: seq<DocPair>, d: seq<Pair>, tail: seq<byte>)
    requires WritableEntries(es)
    ensures DecodePairs(RenderEntries(es) + tail, |es|, d) == Got(Entries(es, d), tail)
    decreases es, 0
  {
    hide Decode, Render, Meaning, Put, RenderPair;
    if es == [] {
      assert [] + tail == tail;
    } else {
      var p, rest := es[0], RenderEntries(es[1..]);
      Associate(RenderPair(p), rest, tail);
      DecodePair(p, rest + tail);
      DecodeAllEntries(es[1..], Put(d, PairMeaning(p).key, PairMeaning(p).value), tail);
    }
  }

  lemma {:induction false} DecodeAllEntriesOpen(es: seq<DocPair>, d: seq<Pair>, after: seq<byte>, tail: seq<byte>)
    requires WritableEntries(es) && NoBreakKeys(es) && Decode(after) == Got(Break, tail)
    ensures DecodePairsOpen(RenderEntries(es) + after, d) == Got(Entries(es, d), tail)
    decreases es, 0
  {
    hide Decode, Render, Meaning, Put, RenderPair, NoBreakKeys;
    if es == [] {
      assert [] + after == after;
    } else {
      var p, rest := es[0], RenderEntries(es[1..]);
      FirstNoBreakKey(es);
      Associate(RenderPair(p), rest, after);
      DecodePair(p, rest + after);
      DecodeAllEntriesOpen(es[1..], Put(d, PairMeaning(p).key, PairMeaning(p).value), after, tail);
    }
  }

  lemma SliceOf(s: seq<byte>, tail: seq<byte>)
    ensures Slice(s + tail, |s|) == Got(s, tail)
  {
    assert (s + tail)[..|s|] == s && (s + tail)[|s|..] == tail;
  }

  /** However a value is written, decoding gives it back and consumes exactly the bytes written. */
  lemma {:induction false} DecodeRender(d: Doc, tail: seq<byte>)
    requires Writable(d)
    ensures Decode(Render(d) + tail) == Got(Meaning(d), tail)
    decreases d, 1
  {
    hide Decode, Head, Fits;
    match d
    case DInt(v, w) => DecodeHead(if v >= 0 then 0 else 1, if v >= 0 then v else -1 - v, w, tail);
    case DBytes(b, w) => DecodeString(2, b, w, tail);
    case DText(t, w) => DecodeString(3, t, w, tail);
    case DBool(_) => DecodeSimple(d, tail);
    case DNull(_) => DecodeSimple(d, tail);
    case DBreak => DecodeSimple(d, tail);
    case DList(items, w) =>
      Associate(Head(4, |items|, w), RenderAll(items), tail);
      DecodeHead(4, |items|, w, RenderAll(items) + tail);
      DecodeAll(items, tail);
    case DMap(entries, w) =>
      Associate(Head(5, |entries|, w), RenderEntries(entries), tail);
      DecodeHead(5, |entries|, w, RenderEntries(entries) + tail);
      DecodeAllEntries(entries, [], tail);
    case DTag(tag, w, inner) =>
      Associate(Head(6, tag, w), Render(inner), tail);
      DecodeHead(6, tag, w, Render(inner) + tail);
      DecodeRender(inner, tail);
    case DTagOpen(inner) =>
      assert [0xDF] + Render(inner) + tail == [0xDF] + (Render(inner) + tail);
      DecodeOpenHead(6, Render(inner) + tail);
      DecodeRender(inner, tail);
    case DListOpen(items, stop) =>
      DecodeOpen(4, RenderAll(items), Render(stop), tail);
      DecodeRender(stop, tail);
      DecodeAllOpen(items, Render(stop) + tail, tail);
    case DMapOpen(entries, stop) =>
      DecodeOpen(5, RenderEntries(entries), Render(stop), tail);
      DecodeRender(stop, tail);
      DecodeAllEntriesOpen(entries, [], Render(stop) + tail, tail);
    case DBytesOpen(parts, stop) =>
      DecodeOpen(2, RenderParts(parts, false), Render(stop), tail);
      DecodeRender(stop, tail);
      DecodeAllParts(parts, false, Render(stop) + tail, tail);
    case DTextOpen(parts, stop) =>
      DecodeOpen(3, RenderParts(parts, true), Render(stop), tail);
      DecodeRender(stop, tail);
      DecodeAllParts(parts, true, Render(stop) + tail, tail);
  }

  lemma DecodeSimple(d: Doc, tail: seq<byte>)
    requires Writable(d) && (d.DBool? || d.DNull? || d.DBreak?)
    ensures Decode(Render(d) + tail) == Got(Meaning(d), tail)
  {
    assert (Render(d) + tail)[1..] == tail;
  }

  lemma DecodeString(major: nat, s: seq<byte>, w: Width, tail: seq<byte>)
    requires (major == 2 || major == 3) && Fits(|s|, w)
    ensures Decode(Head(major, |s|, w) + s + tail) == Got(if major == 2 then Bytes(s) else Text(s), tail)
  {
    hide Decode, Head;
    Associate(Head(major, |s|, w), s, tail);
    DecodeHead(major, |s|, w, s + tail);
    SliceOf(s, tail);
  }

  lemma DecodeOpen(major: nat, body: seq<byte>, stop: seq<byte>, tail: seq<byte>)
    requires 2 <= major <= 5
    ensures Decode([major * 32 + 31] + (body + stop) + tail)
         == DecodeBody(major, None, body + (stop + tail), [major * 32 + 31] + (body + (stop + tail)))
  {
    hide Decode, DecodeBody;
    assert [major * 32 + 31] + (body + stop) + tail == [major * 32 + 31] + (body + (stop + tail));
    DecodeOpenHead(major, body + (stop + tail));
  }
}
