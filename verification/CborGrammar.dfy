/**
 The decoder accepts nothing else: whatever it decodes is one of the ways of writing that value, followed by what
 it left. With CborReading this says exactly which bytes it takes and what it makes of them.
 */
module CborGrammar {
  import opened Prelude
  import opened Cbor
  import CborReading

  lemma NoArgumentBytes(v: nat, b: seq<byte>)
    ensures BigEndian(v, 0) + b == b
  {
  }

  lemma UnsignedIsBytes(b: seq<byte>, n: nat)
    requires Unsigned(b, n).Got?
    ensures var v := Unsigned(b, n).value; v.Some? && v.value < Power256(n) && b == BigEndian(v.value, n) + Unsigned(b, n).rest
  {
    hide BigEndian, FromBigEndian, Power256;
    BigEndianRewrite(b[..n]);
    assert b == b[..n] + b[n..];
  }

  /** An argument is its bytes, in the width the head announced. */
  lemma ArgumentIsBytes(info: nat, b: seq<byte>) returns (w: Width)
    requires Argument(info, b).Got? && Argument(info, b).value.Some?
    ensures var v := Argument(info, b).value.value;
            Fits(v, w) && Info(v, w) == info && b == BigEndian(v, Size(w)) + Argument(info, b).rest
  {
    hide BigEndian, Unsigned, Power256;
    if info < 24 {
      w := Tiny;
      NoArgumentBytes(info, b);
    } else {
      w := if info == 24 then One else if info == 25 then Two else if info == 26 then Four else Eight;
      UnsignedIsBytes(b, Size(w));
    }
  }

  lemma HeadIsByte(c: byte)
    ensures c / 32 * 32 + c % 32 == c && c / 32 < 8
  {
  }

  lemma HeadIs(c: byte, v: nat, w: Width)
    requires c / 32 < 7 && Fits(v, w) && Info(v, w) == c % 32
    ensures Head(c / 32, v, w) == [c] + BigEndian(v, Size(w))
  {
    HeadIsByte(c);
    hide BigEndian, Fits, Info, Size;
  }

  lemma HeadOf(b: seq<byte>) returns (w: Width)
    requires b != [] && b[0] / 32 < 7
    requires var a := Argument(b[0] % 32, b[1..]); a.Got? && a.value.Some?
    ensures var a := Argument(b[0] % 32, b[1..]); Fits(a.value.value, w) && b == Head(b[0] / 32, a.value.value, w) + a.rest
  {
    var a := Argument(b[0] % 32, b[1..]);
    w := ArgumentIsBytes(b[0] % 32, b[1..]);
    HeadIs(b[0], a.value.value, w);
    hide *;
    assert b == [b[0]] + b[1..];
    Associate([b[0]], BigEndian(a.value.value, Size(w)), a.rest);
  }

  /** A head of indefinite length is its first byte alone. */
  lemma OpenHeadOf(b: seq<byte>)
    requires b != [] && Argument(b[0] % 32, b[1..]).Got? && Argument(b[0] % 32, b[1..]).value.None?
    ensures b == [b[0] / 32 * 32 + 31] + Argument(b[0] % 32, b[1..]).rest
  {
    HeadIsByte(b[0]);
    assert b == [b[0]] + b[1..];
  }

  lemma SimpleOf(b: seq<byte>) returns (d: Doc)
    requires b != [] && b[0] / 32 == 7 && Decode(b).Got?
    ensures Writable(d) && Meaning(d) == Decode(b).value && b == Render(d) + Decode(b).rest
  {
    HeadIsByte(b[0]);
    var info := b[0] % 32;
    d := if info == 31 then DBreak else if info == 20 then DBool(false) else if info == 21 then DBool(true) else DNull(b[0]);
    assert b == [b[0]] + b[1..];
  }

  lemma SliceIs(b: seq<byte>, n: nat)
    requires Slice(b, n).Got?
    ensures b == Slice(b, n).value + Slice(b, n).rest && |Slice(b, n).value| == n
  {
  }

  /** What is decoded is written there. */
  lemma {:induction false} DocOf(b: seq<byte>) returns (d: Doc)
    requires Decode(b).Got?
    ensures Writable(d) && Meaning(d) == Decode(b).value && b == Render(d) + Decode(b).rest
    decreases |b|, 0
  {
    if b[0] / 32 == 7 {
      d := SimpleOf(b);
    } else {
      var a := Argument(b[0] % 32, b[1..]);
      hide Decode, Writable, Meaning, Render, Argument;
      DecodeIsBody(b);
      if a.value.Some? {
        d := DefiniteOf(b, a.value.value, a.rest);
      } else {
        OpenHeadOf(b);
        d := OpenOf(b, a.rest);
      }
    }
  }

  lemma DecodeIsBody(b: seq<byte>)
    requires b != [] && b[0] / 32 < 7 && Decode(b).Got?
    ensures var a := Argument(b[0] % 32, b[1..]);
            a.Got? && |a.rest| < |b| && Decode(b) == DecodeBody(b[0] / 32, a.value, a.rest, b)
  {
    hide DecodeBody;
  }

  /** The document of a definite head and what its body was read from; one lemma a major type. */
  lemma StringOf(major: nat, v: nat, w: Width, rest: seq<byte>, whole: seq<byte>) returns (d: Doc)
    requires (major == 2 || major == 3) && Fits(v, w) && |rest| < |whole| && DecodeBody(major, Some(v), rest, whole).Got?
    ensures var r := DecodeBody(major, Some(v), rest, whole);
            Writable(d) && Meaning(d) == r.value && Head(major, v, w) + rest == Render(d) + r.rest
  {
    hide Head, Fits;
    SliceIs(rest, v);
    var s := Slice(rest, v).value;
    d := if major == 2 then DBytes(s, w) else DText(s, w);
    Associate(Head(major, v, w), s, Slice(rest, v).rest);
  }

  lemma ListDoc(items: seq<Doc>, w: Width)
    requires Fits(|items|, w) && WritableAll(items)
    ensures var d := DList(items, w);
            Writable(d) && Meaning(d) == List(Meanings(items)) && Render(d) == Head(4, |items|, w) + RenderAll(items)
  {
    hide Head, Fits, RenderAll, Meanings;
  }

  lemma MapDoc(es: seq<DocPair>, w: Width)
    requires Fits(|es|, w) && WritableEntries(es)
    ensures var d := DMap(es, w);
            Writable(d) && Meaning(d) == Map(Entries(es, [])) && Render(d) == Head(5, |es|, w) + RenderEntries(es)
  {
    hide Head, Fits, RenderEntries, Entries;
  }

  lemma ListBody(n: nat, rest: seq<byte>, whole: seq<byte>)
    requires |rest| < |whole| && DecodeItems(rest, n).Got?
    ensures var r := DecodeItems(rest, n); DecodeBody(4, Some(n), rest, whole) == Got(List(r.value), r.rest)
  {
    hide DecodeItems;
  }

  lemma MapBody(n: nat, rest: seq<byte>, whole: seq<byte>)
    requires |rest| < |whole| && DecodePairs(rest, n, []).Got?
    ensures var r := DecodePairs(rest, n, []); DecodeBody(5, Some(n), rest, whole) == Got(Map(r.value), r.rest)
  {
    hide DecodePairs;
  }

  lemma ListOf(w: Width, rest: seq<byte>, whole: seq<byte>, items: seq<Doc>)
    requires Fits(|items|, w) && |rest| < |whole| && DecodeItems(rest, |items|).Got? && WritableAll(items)
    requires Meanings(items) == DecodeItems(rest, |items|).value && rest == RenderAll(items) + DecodeItems(rest, |items|).rest
    ensures var r, d := DecodeBody(4, Some(|items|), rest, whole), DList(items, w);
            r.Got? && Writable(d) && Meaning(d) == r.value && Head(4, |items|, w) + rest == Render(d) + r.rest
  {
    ListDoc(items, w);
    ListBody(|items|, rest, whole);
    hide *;
    Associate(Head(4, |items|, w), RenderAll(items), DecodeItems(rest, |items|).rest);
  }

  lemma MapOf(w: Width, rest: seq<byte>, whole: seq<byte>, es: seq<DocPair>)
    requires Fits(|es|, w) && |rest| < |whole| && DecodePairs(rest, |es|, []).Got? && WritableEntries(es)
    requires Entries(es, []) == DecodePairs(rest, |es|, []).value && rest == RenderEntries(es) + DecodePairs(rest, |es|, []).rest
    ensures var r, d := DecodeBody(5, Some(|es|), rest, whole), DMap(es, w);
            r.Got? && Writable(d) && Meaning(d) == r.value && Head(5, |es|, w) + rest == Render(d) + r.rest
  {
    MapDoc(es, w);
    MapBody(|es|, rest, whole);
    hide *;
    Associate(Head(5, |es|, w), RenderEntries(es), DecodePairs(rest, |es|, []).rest);
  }

  lemma BodyParts(major: nat, arg: Option<nat>, rest: seq<byte>, whole: seq<byte>)
    requires major < 7 && |rest| < |whole| && DecodeBody(major, arg, rest, whole).Got?
    ensures major == 4 && arg.Some? ==> DecodeItems(rest, arg.value).Got?
    ensures major == 4 && arg.None? ==> DecodeItemsOpen(rest).Got?
    ensures major == 5 && arg.Some? ==> DecodePairs(rest, arg.value, []).Got?
    ensures major == 5 && arg.None? ==> DecodePairsOpen(rest, []).Got?
    ensures (major == 2 || major == 3) && arg.None? ==> DecodeParts(rest, major == 3).Got?
    ensures major == 6 ==> DecodeBody(major, arg, rest, whole) == Decode(rest)
    ensures major == 1 ==> arg.Some?
  {
    hide Decode, DecodeItems, DecodeItemsOpen, DecodePairs, DecodePairsOpen, DecodeParts;
  }

  lemma IntOf(major: nat, v: nat, w: Width, rest: seq<byte>, whole: seq<byte>)
    requires major < 2 && Fits(v, w) && |rest| < |whole|
    ensures var r, d := DecodeBody(major, Some(v), rest, whole), DInt(if major == 0 then v else -1 - v, w);
            r.Got? && Writable(d) && Meaning(d) == r.value && Head(major, v, w) + rest == Render(d) + r.rest
  {
    hide Head, Fits;
  }

  lemma TagOf(v: nat, w: Width, inner: Doc, rest: seq<byte>)
    requires Fits(v, w) && Writable(inner) && Decode(rest).Got?
    requires Meaning(inner) == Decode(rest).value && rest == Render(inner) + Decode(rest).rest
    ensures var d := DTag(v, w, inner);
            Writable(d) && Meaning(d) == Decode(rest).value && Head(6, v, w) + rest == Render(d) + Decode(rest).rest
  {
    hide Head, Fits, Decode;
    Associate(Head(6, v, w), Render(inner), Decode(rest).rest);
  }

  lemma DefiniteOf(b: seq<byte>, v: nat, rest: seq<byte>) returns (d: Doc)
    requires b != [] && b[0] / 32 < 7 && |rest| < |b| && Argument(b[0] % 32, b[1..]) == Got(Some(v), rest)
    requires DecodeBody(b[0] / 32, Some(v), rest, b).Got?
    ensures var r := DecodeBody(b[0] / 32, Some(v), rest, b);
            Writable(d) && Meaning(d) == r.value && b == Render(d) + r.rest
    decreases |rest|, 3
  {
    var w := HeadOf(b);
    var major := b[0] / 32;
    hide Decode, DecodeBody, Writable, Meaning, Render, Argument, Head, Fits;
    BodyParts(major, Some(v), rest, b);
    if major < 2 {
      IntOf(major, v, w, rest, b);
      d := DInt(if major == 0 then v else -1 - v, w);
    } else if major < 4 {
      d := StringOf(major, v, w, rest, b);
    } else if major == 4 {
      var items := ItemsOf(rest, v);
      ListOf(w, rest, b, items);
      d := DList(items, w);
    } else if major == 5 {
      var es := PairsOf(rest, v, []);
      MapOf(w, rest, b, es);
      d := DMap(es, w);
    } else {
      var inner := DocOf(rest);
      TagOf(v, w, inner, rest);
      d := DTag(v, w, inner);
    }
  }

  lemma OpenStringOf(major: nat, rest: seq<byte>, whole: seq<byte>, parts: seq<Doc>, stop: Doc) returns (d: Doc)
    requires (major == 2 || major == 3) && |rest| < |whole| && DecodeParts(rest, major == 3).Got?
    requires WritableParts(parts, major == 3) && Writable(stop) && Meaning(stop) == Break
    requires var r := DecodeParts(rest, major == 3);
             Joined(parts, major == 3) == r.value && rest == RenderParts(parts, major == 3) + (Render(stop) + r.rest)
    ensures var r := DecodeBody(major, None, rest, whole);
            r.Got? && Writable(d) && Meaning(d) == r.value && [major * 32 + 31] + rest == Render(d) + r.rest
  {
    hide DecodeParts, WritableParts, RenderParts, Joined;
    d := if major == 2 then DBytesOpen(parts, stop) else DTextOpen(parts, stop);
    Wrapped([major * 32 + 31], RenderParts(parts, major == 3), Render(stop), DecodeParts(rest, major == 3).rest);
  }

  lemma OpenListOf(rest: seq<byte>, whole: seq<byte>, items: seq<Doc>, stop: Doc)
    requires |rest| < |whole| && DecodeItemsOpen(rest).Got?
    requires WritableAll(items) && NoBreaks(items) && Writable(stop) && Meaning(stop) == Break
    requires var r := DecodeItemsOpen(rest); Meanings(items) == r.value && rest == RenderAll(items) + (Render(stop) + r.rest)
    ensures var r, d := DecodeBody(4, None, rest, whole), DListOpen(items, stop);
            r.Got? && Writable(d) && Meaning(d) == r.value && [0x9F] + rest == Render(d) + r.rest
  {
    hide DecodeItemsOpen, WritableAll, NoBreaks, RenderAll, Meanings;
    Wrapped([0x9F], RenderAll(items), Render(stop), DecodeItemsOpen(rest).rest);
  }

  lemma OpenMapOf(rest: seq<byte>, whole: seq<byte>, es: seq<DocPair>, stop: Doc)
    requires |rest| < |whole| && DecodePairsOpen(rest, []).Got?
    requires WritableEntries(es) && NoBreakKeys(es) && Writable(stop) && Meaning(stop) == Break
    requires var r := DecodePairsOpen(rest, []); Entries(es, []) == r.value && rest == RenderEntries(es) + (Render(stop) + r.rest)
    ensures var r, d := DecodeBody(5, None, rest, whole), DMapOpen(es, stop);
            r.Got? && Writable(d) && Meaning(d) == r.value && [0xBF] + rest == Render(d) + r.rest
  {
    hide DecodePairsOpen, WritableEntries, NoBreakKeys, RenderEntries, Entries;
    Wrapped([0xBF], RenderEntries(es), Render(stop), DecodePairsOpen(rest, []).rest);
  }

  lemma OpenTagOf(inner: Doc, rest: seq<byte>)
    requires Writable(inner) && Decode(rest).Got?
    requires Meaning(inner) == Decode(rest).value && rest == Render(inner) + Decode(rest).rest
    ensures var d := DTagOpen(inner);
            Writable(d) && Meaning(d) == Decode(rest).value && [0xDF] + rest == Render(d) + Decode(rest).rest
  {
    hide Decode;
    Associate([0xDF], Render(inner), Decode(rest).rest);
  }

  lemma OpenNullOf(rest: seq<byte>, whole: seq<byte>)
    requires |rest| < |whole|
    ensures var r, d := DecodeBody(0, None, rest, whole), DNull(0x1F);
            r.Got? && Writable(d) && Meaning(d) == r.value && [0x1F] + rest == Render(d) + r.rest
  {
  }

  lemma OpenOf(b: seq<byte>, rest: seq<byte>) returns (d: Doc)
    requires b != [] && b[0] / 32 < 7 && |rest| < |b| && b == [b[0] / 32 * 32 + 31] + rest
    requires DecodeBody(b[0] / 32, None, rest, b).Got?
    ensures var r := DecodeBody(b[0] / 32, None, rest, b);
            Writable(d) && Meaning(d) == r.value && b == Render(d) + r.rest
    decreases |rest|, 3
  {
    var major := b[0] / 32;
    hide Decode, DecodeBody, Writable, Meaning, Render;
    BodyParts(major, None, rest, b);
    if major == 0 {
      OpenNullOf(rest, b);
      d := DNull(0x1F);
    } else if major < 4 {
      var parts, stop := PartsOf(rest, major == 3);
      d := OpenStringOf(major, rest, b, parts, stop);
    } else if major == 4 {
      var items, stop := OpenItemsOf(rest);
      OpenListOf(rest, b, items, stop);
      d := DListOpen(items, stop);
    } else if major == 5 {
      var es, stop := OpenPairsOf(rest, []);
      OpenMapOf(rest, b, es, stop);
      d := DMapOpen(es, stop);
    } else {
      var inner := DocOf(rest);
      OpenTagOf(inner, rest);
      d := DTagOpen(inner);
    }
  }

  lemma Wrapped(head: seq<byte>, body: seq<byte>, stop: seq<byte>, rest: seq<byte>)
    ensures head + (body + stop) + rest == head + (body + (stop + rest))
  {
  }

  lemma {:induction false} ItemsOf(b: seq<byte>, n: nat) returns (ds: seq<Doc>)
    requires DecodeItems(b, n).Got?
    ensures |ds| == n && WritableAll(ds) && Meanings(ds) == DecodeItems(b, n).value && b == RenderAll(ds) + DecodeItems(b, n).rest
    decreases |b|, 1
  {
    hide Decode, Writable, Meaning, Render;
    if n == 0 {
      ds := [];
      assert b == [] + b;
    } else {
      var first := DocOf(b);
      var rest := Decode(b).rest;
      var more := ItemsOf(rest, n - 1);
      ds := [first] + more;
      assert ds[1..] == more;
      Associate(Render(first), RenderAll(more), DecodeItems(b, n).rest);
    }
  }

  lemma {:induction false} OpenItemsOf(b: seq<byte>) returns (ds: seq<Doc>, stop: Doc)
    requires DecodeItemsOpen(b).Got?
    ensures WritableAll(ds) && NoBreaks(ds) && Writable(stop) && Meaning(stop) == Break
    ensures Meanings(ds) == DecodeItemsOpen(b).value && b == RenderAll(ds) + (Render(stop) + DecodeItemsOpen(b).rest)
    decreases |b|, 1
  {
    hide Decode, Writable, Meaning, Render;
    var first := DocOf(b);
    if Decode(b).value == Break {
      ds, stop := [], first;
      assert b == [] + b;
    } else {
      var rest := Decode(b).rest;
      var more;
      more, stop := OpenItemsOf(rest);
      ds := [first] + more;
      assert ds[1..] == more;
      Associate(Render(first), RenderAll(more), Render(stop) + DecodeItemsOpen(b).rest);
    }
  }

  lemma {:induction false} PartsOf(b: seq<byte>, text: bool) returns (parts: seq<Doc>, stop: Doc)
    requires DecodeParts(b, text).Got?
    ensures WritableParts(parts, text) && Writable(stop) && Meaning(stop) == Break
    ensures Joined(parts, text) == DecodeParts(b, text).value
    ensures b == RenderParts(parts, text) + (Render(stop) + DecodeParts(b, text).rest)
    decreases |b|, 1
  {
    hide Decode, Writable, Meaning, Render;
    var first := DocOf(b);
    if Decode(b).value == Break {
      parts, stop := [], first;
      assert b == [] + b;
    } else {
      var rest := Decode(b).rest;
      var more;
      more, stop := PartsOf(rest, text);
      parts := [first] + more;
      assert parts[1..] == more;
      Associate(Render(first), RenderParts(more, text), Render(stop) + DecodeParts(b, text).rest);
    }
  }

  /** A key and its value. */
  lemma PairOf(b: seq<byte>) returns (p: DocPair)
    requires Decode(b).Got? && Decode(Decode(b).rest).Got? && Hashable(Decode(b).value)
    ensures WritablePair(p) && PairMeaning(p) == Pair(Decode(b).value, Decode(Decode(b).rest).value)
    ensures b == RenderPair(p) + Decode(Decode(b).rest).rest
    decreases |b|, 1
  {
    var key := DocOf(b);
    var value := DocOf(Decode(b).rest);
    hide Decode, Writable, Meaning, Render, Hashable;
    p := DocPair(key, value);
    Associate(Render(key), Render(value), Decode(Decode(b).rest).rest);
  }

  lemma {:induction false} PairsOf(b: seq<byte>, n: nat, d: seq<Pair>) returns (es: seq<DocPair>)
    requires DecodePairs(b, n, d).Got?
    ensures |es| == n && WritableEntries(es) && Entries(es, d) == DecodePairs(b, n, d).value
    ensures b == RenderEntries(es) + DecodePairs(b, n, d).rest
    decreases |b|, 2
  {
    hide Decode, WritablePair, PairMeaning, RenderPair, Put, Hashable;
    if n == 0 {
      es := [];
      assert b == [] + b;
    } else {
      var first := PairOf(b);
      var rest := Decode(Decode(b).rest).rest;
      var p := PairMeaning(first);
      var more := PairsOf(rest, n - 1, Put(d, p.key, p.value));
      es := [first] + more;
      assert es[1..] == more;
      Associate(RenderPair(first), RenderEntries(more), DecodePairs(b, n, d).rest);
    }
  }

  lemma KeyOfPair(p: DocPair)
    ensures PairMeaning(p).key == Meaning(p.key)
  {
  }

  lemma {:induction false} OpenPairsOf(b: seq<byte>, d: seq<Pair>) returns (es: seq<DocPair>, stop: Doc)
    requires DecodePairsOpen(b, d).Got?
    ensures WritableEntries(es) && NoBreakKeys(es) && Writable(stop) && Meaning(stop) == Break
    ensures Entries(es, d) == DecodePairsOpen(b, d).value && b == RenderEntries(es) + (Render(stop) + DecodePairsOpen(b, d).rest)
    decreases |b|, 2
  {
    hide Decode, WritablePair, PairMeaning, RenderPair, Put, Hashable, Writable, Meaning, Render;
    if Decode(b).value == Break {
      stop := DocOf(b);
      es := [];
      assert b == [] + b;
    } else {
      var first := PairOf(b);
      KeyOfPair(first);
      var rest := Decode(Decode(b).rest).rest;
      var p := PairMeaning(first);
      var more;
      more, stop := OpenPairsOf(rest, Put(d, p.key, p.value));
      es := [first] + more;
      assert es[1..] == more;
      Associate(RenderPair(first), RenderEntries(more), Render(stop) + DecodePairsOpen(b, d).rest);
    }
  }

  /** Some writable way of writing v stands at the start of b, and rest follows it. */
  ghost predicate Written(v: Value, b: seq<byte>, rest: seq<byte>) {
    exists d :: Writable(d) && Meaning(d) == v && b == Render(d) + rest
  }

  /** The decoder takes exactly the ways of writing a value, and reads from each the value it writes. */
  lemma DecodesExactly(v: Value, b: seq<byte>, rest: seq<byte>)
    ensures Decode(b) == Got(v, rest) <==> Written(v, b, rest)
  {
    hide Decode, Writable, Meaning, Render;
    if Decode(b) == Got(v, rest) {
      var d := DocOf(b);
      assert Writable(d) && Meaning(d) == v && b == Render(d) + rest;
    }
    if Written(v, b, rest) {
      var d :| Writable(d) && Meaning(d) == v && b == Render(d) + rest;
      CborReading.DecodeRender(d, rest);
    }
  }
}
