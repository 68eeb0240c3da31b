/** The encoder's way of writing a value, and the open one, decode to that value (platform/nrf54l15/fw/smp.py). */
module CborRoundTrip {
  import opened Prelude
  import opened Cbor
  import opened CborReading

  function Shortest(v: nat): Width {
    if v < 24 then Tiny else if v < 256 then One else if v < 0x10000 then Two else if v < 0x1_0000_0000 then Four else Eight
  }

  /** Everything of definite length, or every list, map and string of indefinite length. */
  function Plan(v: Value, open: bool): Doc
    decreases v
  {
    match v
    case Int(i) => DInt(i, Shortest(if i >= 0 then i else -1 - i))
    case Bytes(b) => var d := DBytes(b, Shortest(|b|)); if open then DBytesOpen([d], DBreak) else d
    case Text(t) => var d := DText(t, Shortest(|t|)); if open then DTextOpen([d], DBreak) else d
    case Bool(yes) => DBool(yes)
    case Null => DNull(0xF6)
    case List(items) => if open then DListOpen(Plans(items, open), DBreak) else DList(Plans(items, open), Shortest(|items|))
    case Map(entries) => if open then DMapOpen(PlanEntries(entries, open), DBreak) else DMap(PlanEntries(entries, open), Shortest(|entries|))
    case Break => DBreak
  }

  function Plans(items: seq<Value>, open: bool): (ds: seq<Doc>)
    ensures |ds| == |items|
    decreases items
  {
    if items == [] then [] else [Plan(items[0], open)] + Plans(items[1..], open)
  }

  function PlanEntries(es: seq<Pair>, open: bool): (ds: seq<DocPair>)
    ensures |ds| == |es|
    decreases es
  {
    if es == [] then [] else [PlanPair(es[0], open)] + PlanEntries(es[1..], open)
  }

  function PlanPair(p: Pair, open: bool): DocPair
    decreases p
  {
    DocPair(Plan(p.key, open), Plan(p.value, open))
  }

  lemma EncodeHeadIsHead(major: nat, v: nat)
    requires major < 7 && EncodeHead(major, v).Some?
    ensures Fits(v, Shortest(v)) && EncodeHead(major, v).value == Head(major, v, Shortest(v))
  {
    Powers();
    hide Power256;
    if 24 <= v < 256 {
      assert BigEndian(v, 1) == BigEndian(v / 256, 0) + [v % 256];
    }
  }

  /** Putting under a key that is not there appends. */
  lemma {:induction false} PutFresh(d: seq<Pair>, key: Value, value: Value)
    requires forall i :: 0 <= i < |d| ==> KeyOf(d[i].key) != KeyOf(key)
    ensures Put(d, key, value) == d + [Pair(key, value)]
  {
    if d != [] {
      PutFresh(d[1..], key, value);
    }
  }

  /** Putting under a key that is there changes its value alone: it stays where it is, spelled as it was. */
  lemma {:induction false} PutExisting(d: seq<Pair>, key: Value, value: Value, i: nat)
    requires i < |d| && KeyOf(d[i].key) == KeyOf(key) && forall j :: 0 <= j < i ==> KeyOf(d[j].key) != KeyOf(key)
    ensures Put(d, key, value) == d[i := Pair(d[i].key, value)]
  {
    if i > 0 {
      PutExisting(d[1..], key, value, i - 1);
      assert d[1..][i - 1 := Pair(d[i].key, value)] == d[i := Pair(d[i].key, value)][1..];
    }
  }

  predicate Fresh(d: seq<Pair>, es: seq<Pair>) {
    && (forall i, j :: 0 <= i < |d| && 0 <= j < |es| ==> KeyOf(d[i].key) != KeyOf(es[j].key))
    && (forall i, j :: 0 <= i < j < |es| ==> KeyOf(es[i].key) != KeyOf(es[j].key))
  }

  lemma {:induction false} PlanEntriesMean(es: seq<Pair>, d: seq<Pair>, open: bool)
    requires ProperEntries(es) && Fresh(d, es)
    ensures Entries(PlanEntries(es, open), d) == d + es
    decreases es, 0
  {
    hide Proper, Plan, Meaning, Put, KeyOf;
    if es != [] {
      var rest := PlanEntries(es[1..], open);
      assert ([PlanPair(es[0], open)] + rest)[1..] == rest;
      PlanPairMeans(es[0], open);
      PutFresh(d, es[0].key, es[0].value);
      assert Fresh(d + [es[0]], es[1..]);
      PlanEntriesMean(es[1..], d + [es[0]], open);
      assert d + [es[0]] + es[1..] == d + es;
    }
  }

  lemma PlanPairMeans(p: Pair, open: bool)
    requires ProperPair(p)
    ensures PairMeaning(PlanPair(p, open)) == p
    decreases p, 0
  {
    hide Proper, Plan, Meaning;
    PlanMeans(p.key, open);
    PlanMeans(p.value, open);
  }

  lemma {:induction false} PlansMean(items: seq<Value>, open: bool)
    requires ProperAll(items)
    ensures Meanings(Plans(items, open)) == items
    decreases items, 0
  {
    hide Proper, Plan, Meaning;
    if items != [] {
      PlanMeans(items[0], open);
      PlansMean(items[1..], open);
      assert ([Plan(items[0], open)] + Plans(items[1..], open))[1..] == Plans(items[1..], open);
    }
  }

  lemma OnePart(part: Doc, s: seq<byte>, text: bool)
    requires Meaning(part) == if text then Text(s) else Bytes(s)
    ensures Joined([part], text) == s
  {
    assert [part][1..] == [] && Joined([], text) == [];
    assert s + [] == s;
  }

  /** Both ways of writing mean the value. */
  lemma {:induction false} PlanMeans(v: Value, open: bool)
    requires Proper(v)
    ensures Meaning(Plan(v, open)) == v
    decreases v, 1
  {
    hide Joined, Plans, PlanEntries, Meanings, Entries, Shortest, ProperAll, ProperEntries;
    match v
    case Bytes(b) => OnePart(DBytes(b, Shortest(|b|)), b, false);
    case Text(t) => OnePart(DText(t, Shortest(|t|)), t, true);
    case List(items) => PlansMean(items, open);
    case Map(entries) =>
      PlanEntriesMean(entries, [], open);
      assert [] + entries == entries;
    case _ =>
  }

  lemma {:induction false} EncodeItemsIsRender(items: seq<Value>)
    requires ProperAll(items) && EncodeItems(items).Some?
    ensures WritableAll(Plans(items, false)) && WritableAll(Plans(items, true))
    ensures EncodeItems(items).value == RenderAll(Plans(items, false))
    decreases items, 0
  {
    hide Proper, CborEncode, Writable, Render, Plan;
    if items != [] {
      EncodeIsRender(items[0]);
      EncodeItemsIsRender(items[1..]);
      forall open: bool ensures Plans(items, open)[0] == Plan(items[0], open) && Plans(items, open)[1..] == Plans(items[1..], open) {
      }
    }
  }

  lemma EncodePairIsRender(p: Pair)
    requires ProperPair(p) && EncodePair(p).Some?
    ensures WritablePair(PlanPair(p, false)) && WritablePair(PlanPair(p, true))
    ensures EncodePair(p).value == RenderPair(PlanPair(p, false))
    decreases p, 0
  {
    hide Proper, CborEncode, Writable, Render, Plan, Meaning;
    EncodeIsRender(p.key);
    EncodeIsRender(p.value);
    PlanMeans(p.key, false);
    PlanMeans(p.key, true);
  }

  lemma {:induction false} EncodeEntriesIsRender(es: seq<Pair>)
    requires ProperEntries(es) && EncodeEntries(es).Some?
    ensures WritableEntries(PlanEntries(es, false)) && WritableEntries(PlanEntries(es, true))
    ensures EncodeEntries(es).value == RenderEntries(PlanEntries(es, false))
    decreases es, 0
  {
    hide ProperPair, EncodePair, WritablePair, RenderPair, PlanPair;
    if es != [] {
      EncodePairIsRender(es[0]);
      EncodeEntriesIsRender(es[1..]);
      forall open: bool ensures PlanEntries(es, open)[0] == PlanPair(es[0], open) && PlanEntries(es, open)[1..] == PlanEntries(es[1..], open) {
      }
    }
  }

  lemma OnePartWritable(part: Doc, text: bool)
    requires Writable(part) && if text then Meaning(part).Text? else Meaning(part).Bytes?
    ensures WritableParts([part], text)
  {
    assert [part][1..] == [] && WritableParts([], text);
  }

  lemma EncodeStringIsRender(s: seq<byte>, text: bool)
    requires EncodeHead(if text then 3 else 2, |s|).Some?
    ensures var v := if text then Text(s) else Bytes(s);
            Writable(Plan(v, false)) && Writable(Plan(v, true)) && CborEncode(v) == Some(Render(Plan(v, false)))
  {
    hide EncodeHead, Head, Fits, Shortest;
    EncodeHeadIsHead(if text then 3 else 2, |s|);
    OnePartWritable(if text then DText(s, Shortest(|s|)) else DBytes(s, Shortest(|s|)), text);
  }

  /** What the encoder emits is its plan, written down. */
  lemma {:induction false} EncodeIsRender(v: Value)
    requires Proper(v) && CborEncode(v).Some?
    ensures Writable(Plan(v, false)) && Writable(Plan(v, true)) && CborEncode(v).value == Render(Plan(v, false))
    decreases v, 1
  {
    match v
    case Int(i) => EncodeHeadIsHead(if i >= 0 then 0 else 1, if i >= 0 then i else -1 - i);
    case Bytes(b) => EncodeStringIsRender(b, false);
    case Text(t) => EncodeStringIsRender(t, true);
    case List(items) => EncodeListIsRender(items);
    case Map(entries) => EncodeMapIsRender(entries);
    case _ =>
  }

  lemma PlanIsNoBreak(v: Value, open: bool)
    requires Proper(v)
    ensures Meaning(Plan(v, open)) != Break
  {
  }

  lemma {:induction false} PlansAreNoBreaks(items: seq<Value>, open: bool)
    requires ProperAll(items)
    ensures NoBreaks(Plans(items, open))
    decreases items
  {
    hide Proper, Plan, Meaning;
    if items != [] {
      PlanIsNoBreak(items[0], open);
      PlansAreNoBreaks(items[1..], open);
    }
  }

  lemma {:induction false} PlanKeysAreNoBreaks(es: seq<Pair>, open: bool)
    requires ProperEntries(es)
    ensures NoBreakKeys(PlanEntries(es, open))
    decreases es
  {
    hide Proper, Plan, Meaning;
    if es != [] {
      PlanIsNoBreak(es[0].key, open);
      PlanKeysAreNoBreaks(es[1..], open);
    }
  }

  lemma EncodeListIsRender(items: seq<Value>)
    requires ProperAll(items) && CborEncode(List(items)).Some?
    ensures var v := List(items);
            Writable(Plan(v, false)) && Writable(Plan(v, true)) && CborEncode(v).value == Render(Plan(v, false))
    decreases items, 1
  {
    hide EncodeHead, Head, Fits, Shortest, Plans, EncodeItems;
    EncodeHeadIsHead(4, |items|);
    EncodeItemsIsRender(items);
    PlansAreNoBreaks(items, true);
    hide NoBreaks;
  }

  lemma EncodeMapIsRender(entries: seq<Pair>)
    requires ProperEntries(entries) && CborEncode(Map(entries)).Some?
    ensures var v := Map(entries);
            Writable(Plan(v, false)) && Writable(Plan(v, true)) && CborEncode(v).value == Render(Plan(v, false))
    decreases entries, 1
  {
    hide EncodeHead, Head, Fits, Shortest, PlanEntries, EncodeEntries;
    EncodeHeadIsHead(5, |entries|);
    EncodeEntriesIsRender(entries);
    PlanKeysAreNoBreaks(entries, true);
    hide NoBreakKeys;
  }

  /** Decoding inverts encoding and consumes exactly the encoded bytes. */
  lemma RoundTrip(v: Value, tail: seq<byte>)
    requires Proper(v) && Encodable(v)
    ensures CborEncode(v).Some? && Decode(CborEncode(v).value + tail) == Got(v, tail)
  {
    hide CborEncode, Decode, Render, Plan, Encodable;
    EncoderDomain(v);
    EncodeIsRender(v);
    PlanMeans(v, false);
    DecodeRender(Plan(v, false), tail);
  }

  /** With every list, map and string in its indefinite-length form, the same value decodes just as well. */
  lemma IndefiniteRoundTrip(v: Value, tail: seq<byte>)
    requires Proper(v) && Encodable(v)
    ensures Writable(Plan(v, true)) && Decode(Render(Plan(v, true)) + tail) == Got(v, tail)
  {
    hide CborEncode, Decode, Render, Plan, Encodable;
    EncoderDomain(v);
    EncodeIsRender(v);
    PlanMeans(v, true);
    DecodeRender(Plan(v, true), tail);
  }

  /** A bootloader's reply, {"rc": 0} as an indefinite-length map of definite-length items, byte by byte. */
  lemma BootloaderReply()
    ensures Decode([0xBF, 0x62, 0x72, 0x63, 0x00, 0xFF]) == Got(Map([Pair(Text([0x72, 0x63]), Int(0))]), [])
  {
    var key, value := DText([0x72, 0x63], Tiny), DInt(0, Tiny);
    var d := DMapOpen([DocPair(key, value)], DBreak);
    OnlyEntry(DocPair(key, value));
    OnlyStop(DocPair(key, value), DBreak);
    assert Render(key) == [0x62, 0x72, 0x63] && Render(value) == [0x00];
    assert Render(d) == [0xBF, 0x62, 0x72, 0x63, 0x00, 0xFF];
    DecodeRender(d, []);
    assert Render(d) + [] == Render(d);
  }

  lemma OnlyStop(p: DocPair, stop: Doc)
    requires WritableEntries([p]) && Meaning(p.key) != Break && Writable(stop) && Meaning(stop) == Break
    ensures Writable(DMapOpen([p], stop))
  {
    hide WritableEntries;
    assert NoBreakKeys([p]);
  }

  lemma OnlyEntry(p: DocPair)
    requires WritablePair(p)
    ensures WritableEntries([p]) && RenderEntries([p]) == RenderPair(p) && Entries([p], []) == [PairMeaning(p)]
  {
    hide RenderPair, WritablePair, PairMeaning;
    assert [p][1..] == [];
    assert WritableEntries([]) && RenderEntries([]) == [];
    assert RenderPair(p) + [] == RenderPair(p);
    assert Entries([], [PairMeaning(p)]) == [PairMeaning(p)];
  }

  // ---- what can be encoded at all ----

  /** Every integer in it, keys and nested items included, fits sixty-four bits and its sign, and every length sixty-four bits. */
  predicate Encodable(v: Value)
    decreases v
  {
    match v
    case Int(i) => -TWO_TO_64 <= i < TWO_TO_64
    case Bytes(b) => |b| < TWO_TO_64
    case Text(t) => |t| < TWO_TO_64
    case List(items) => |items| < TWO_TO_64 && forall i :: 0 <= i < |items| ==> Encodable(items[i])
    case Map(entries) => |entries| < TWO_TO_64 && forall i :: 0 <= i < |entries| ==> Encodable(entries[i].key) && Encodable(entries[i].value)
    case Break => false
    case _ => true
  }

  lemma HeadDomain(major: nat, v: nat)
    requires major < 7
    ensures EncodeHead(major, v).Some? <==> v < TWO_TO_64
  {
  }

  lemma {:induction false} ItemsDomain(items: seq<Value>)
    ensures EncodeItems(items).Some? <==> forall i :: 0 <= i < |items| ==> Encodable(items[i])
    decreases items, 0
  {
    hide CborEncode, Encodable;
    if items != [] {
      EncoderDomain(items[0]);
      ItemsDomain(items[1..]);
      assert items == [items[0]] + items[1..];
    }
  }

  lemma {:induction false} EntriesDomain(es: seq<Pair>)
    ensures EncodeEntries(es).Some? <==> forall i :: 0 <= i < |es| ==> Encodable(es[i].key) && Encodable(es[i].value)
    decreases es, 0
  {
    hide CborEncode, Encodable;
    if es != [] {
      PairDomain(es[0]);
      EntriesDomain(es[1..]);
      assert es == [es[0]] + es[1..];
    }
  }

  lemma PairDomain(p: Pair)
    ensures EncodePair(p).Some? <==> Encodable(p.key) && Encodable(p.value)
    decreases p, 0
  {
    hide CborEncode, Encodable;
    EncoderDomain(p.key);
    EncoderDomain(p.value);
  }

  /** The encoder answers exactly for what can be encoded, of whatever shape and size. */
  lemma {:induction false} EncoderDomain(v: Value)
    ensures CborEncode(v).Some? <==> Encodable(v)
    decreases v, 1
  {
    hide EncodeHead, EncodeItems, EncodeEntries;
    match v
    case Int(i) => HeadDomain(if i >= 0 then 0 else 1, if i >= 0 then i else -1 - i);
    case Bytes(b) => HeadDomain(2, |b|);
    case Text(t) => HeadDomain(3, |t|);
    case List(items) =>
      HeadDomain(4, |items|);
      ItemsDomain(items);
    case Map(entries) =>
      HeadDomain(5, |entries|);
      EntriesDomain(entries);
    case _ =>
  }

  /** Values of appendix A of RFC 8949 in their bytes. */
  lemma TestVectors()
    ensures CborEncode(Int(0)) == Some([0x00]) && CborEncode(Int(-1)) == Some([0x20])
    ensures CborEncode(Int(1000000)) == Some([0x1A, 0x00, 0x0F, 0x42, 0x40])
    ensures CborEncode(Bytes([1, 2, 3, 4])) == Some([0x44, 1, 2, 3, 4])
    ensures CborEncode(Text([0x61])) == Some([0x61, 0x61])
    ensures CborEncode(Bool(false)) == Some([0xF4]) && CborEncode(Bool(true)) == Some([0xF5]) && CborEncode(Null) == Some([0xF6])
  {
    MillionInFourBytes();
    assert [0x44] + [1, 2, 3, 4] == [0x44, 1, 2, 3, 4];
    assert [0x61] + [0x61] == [0x61, 0x61];
    assert [0x1A] + [0x00, 0x0F, 0x42, 0x40] == [0x1A, 0x00, 0x0F, 0x42, 0x40];
  }

  lemma MillionInFourBytes()
    ensures BigEndian(1000000, 4) == [0x00, 0x0F, 0x42, 0x40]
  {
    assert BigEndian(0, 1) == BigEndian(0, 0) + [0];
    assert BigEndian(15, 2) == BigEndian(0, 1) + [15];
    assert BigEndian(3906, 3) == BigEndian(15, 2) + [66];
    assert BigEndian(1000000, 4) == BigEndian(3906, 3) + [64];
  }

  /** And of a list and a map, [1, 2] and {1: 2, 3: 4}. */
  lemma NestedVectors()
    ensures CborEncode(List([Int(1), Int(2)])) == Some([0x82, 0x01, 0x02])
    ensures CborEncode(Map([Pair(Int(1), Int(2)), Pair(Int(3), Int(4))])) == Some([0xA2, 0x01, 0x02, 0x03, 0x04])
  {
    hide EncodeItems, EncodeEntries;
    TwoItems(Int(1), Int(2));
    assert [0x82] + ([0x01] + [0x02]) == [0x82, 0x01, 0x02];
    var a, b := Pair(Int(1), Int(2)), Pair(Int(3), Int(4));
    TwoEntries(a, b);
    assert EncodePair(a) == Some([0x01] + [0x02]) && EncodePair(b) == Some([0x03] + [0x04]);
    assert [0xA2] + (([0x01] + [0x02]) + ([0x03] + [0x04])) == [0xA2, 0x01, 0x02, 0x03, 0x04];
  }

  lemma LastItem(b: Value)
    requires CborEncode(b).Some?
    ensures EncodeItems([b]) == CborEncode(b)
  {
    hide CborEncode;
    assert [b][1..] == [] && EncodeItems([]) == Some([]);
    assert CborEncode(b).value + [] == CborEncode(b).value;
  }

  lemma TwoItems(a: Value, b: Value)
    requires CborEncode(a).Some? && CborEncode(b).Some?
    ensures EncodeItems([a, b]) == Some(CborEncode(a).value + CborEncode(b).value)
  {
    hide CborEncode;
    LastItem(b);
    assert [a, b][1..] == [b];
  }

  lemma LastEntry(b: Pair)
    requires EncodePair(b).Some?
    ensures EncodeEntries([b]) == EncodePair(b)
  {
    hide EncodePair;
    assert [b][1..] == [] && EncodeEntries([]) == Some([]);
    assert EncodePair(b).value + [] == EncodePair(b).value;
  }

  lemma TwoEntries(a: Pair, b: Pair)
    requires EncodePair(a).Some? && EncodePair(b).Some?
    ensures EncodeEntries([a, b]) == Some(EncodePair(a).value + EncodePair(b).value)
  {
    hide EncodePair;
    LastEntry(b);
    assert [a, b][1..] == [b];
  }
}
