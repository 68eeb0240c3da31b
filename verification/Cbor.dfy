/**
 The CBOR subset of the SMP tools (platform/nrf54l15/fw/smp.py; RFC 8949 section 3): an encoder that emits
 definite lengths, and a tolerant decoder that takes definite and indefinite ones. A Doc says how a value is
 written down, form and head width chosen item by item; decoding inverts every way of writing.
 */
module Cbor {
  import opened Prelude

  /** A Python value. Text is its UTF-8 bytes; Break is the decoder's sentinel object. */
  datatype Value =
    | Int(v: int) | Bytes(b: seq<byte>) | Text(t: seq<byte>) | Bool(yes: bool) | Null
    | List(items: seq<Value>) | Map(entries: seq<Pair>) | Break
  datatype Pair = Pair(key: Value, value: Value)

  // ---- dictionaries ----

  /** Python's key equality: False and True are the keys 0 and 1. */
  function KeyOf(k: Value): Value {
    if k.Bool? then Int(if k.yes then 1 else 0) else k
  }

  predicate Hashable(k: Value) {
    !k.List? && !k.Map?
  }

  /** d[key] = value: an equal key keeps its place and its spelling. */
  function Put(d: seq<Pair>, key: Value, value: Value): seq<Pair> {
    if d == [] then [Pair(key, value)]
    else if KeyOf(d[0].key) == KeyOf(key) then [Pair(d[0].key, value)] + d[1..]
    else [d[0]] + Put(d[1..], key, value)
  }

  // ---- decoding ----

  /** Fail is a Python exception. */
  datatype Parsed<T> = Fail | Got(value: T, rest: seq<byte>)

  function Unsigned(b: seq<byte>, n: nat): Parsed<Option<nat>> {
    if |b| < n then Fail else Got(Some(FromBigEndian(b[..n])), b[n..])
  }

  /** The argument after a head byte; None marks an indefinite length. */
  function Argument(info: nat, b: seq<byte>): (r: Parsed<Option<nat>>)
    ensures r.Got? ==> |r.rest| <= |b|
  {
    if info < 24 then Got(Some(info), b)
    else if info == 24 then Unsigned(b, 1)
    else if info == 25 then Unsigned(b, 2)
    else if info == 26 then Unsigned(b, 4)
    else if info == 27 then Unsigned(b, 8)
    else if info == 31 then Got(None, b)
    else Fail
  }

  function Simple(info: nat, b: seq<byte>): (r: Parsed<Value>)
    ensures r.Got? ==> |r.rest| <= |b|
  {
    if info == 31 then Got(Break, b)
    else if info == 20 then Got(Bool(false), b)
    else if info == 21 then Got(Bool(true), b)
    else if info == 22 || info == 23 then Got(Null, b)
    else Fail
  }

  function Slice(b: seq<byte>, n: nat): (r: Parsed<seq<byte>>)
    ensures r.Got? ==> |r.rest| <= |b|
  {
    if |b| < n then Fail else Got(b[..n], b[n..])
  }

  function Decode(b: seq<byte>): (r: Parsed<Value>)
    ensures r.Got? ==> |r.rest| < |b|
    decreases |b|, 0
  {
    if b == [] then Fail
    else if b[0] / 32 == 7 then Simple(b[0] % 32, b[1..])
    else
      match Argument(b[0] % 32, b[1..])
      case Fail => Fail
      case Got(arg, rest) => DecodeBody(b[0] / 32, arg, rest, b)
  }

  /** What follows a head; whole is the input the head was read from. */
  function DecodeBody(major: nat, arg: Option<nat>, b: seq<byte>, ghost whole: seq<byte>): (r: Parsed<Value>)
    requires major < 7 && |b| < |whole|
    ensures r.Got? ==> |r.rest| < |whole|
    decreases |b|, 2
  {
    if major == 0 then Got(if arg.Some? then Int(arg.value) else Null, b)
    else if major == 1 then (if arg.Some? then Got(Int(-1 - arg.value), b) else Fail)
    else if major == 2 then
      match (if arg.Some? then Slice(b, arg.value) else DecodeParts(b, false))
      case Fail => Fail
      case Got(s, rest) => Got(Bytes(s), rest)
    else if major == 3 then
      match (if arg.Some? then Slice(b, arg.value) else DecodeParts(b, true))
      case Fail => Fail
      case Got(s, rest) => Got(Text(s), rest)
    else if major == 4 then
      match (if arg.Some? then DecodeItems(b, arg.value) else DecodeItemsOpen(b))
      case Fail => Fail
      case Got(items, rest) => Got(List(items), rest)
    else if major == 5 then
      match (if arg.Some? then DecodePairs(b, arg.value, []) else DecodePairsOpen(b, []))
      case Fail => Fail
      case Got(entries, rest) => Got(Map(entries), rest)
    else Decode(b)
  }

  /** The chunks of an indefinite string, joined; a chunk of another type is a TypeError. */
  function DecodeParts(b: seq<byte>, text: bool): (r: Parsed<seq<byte>>)
    ensures r.Got? ==> |r.rest| <= |b|
    decreases |b|, 1
  {
    match Decode(b)
    case Fail => Fail
    case Got(item, rest) =>
      if item == Break then Got([], rest)
      else if !(if text then item.Text? else item.Bytes?) then Fail
      else
        match DecodeParts(rest, text)
        case Fail => Fail
        case Got(more, rest') => Got((if text then item.t else item.b) + more, rest')
  }

  function DecodeItems(b: seq<byte>, n: nat): (r: Parsed<seq<Value>>)
    ensures r.Got? ==> |r.rest| <= |b|
    decreases |b|, 1
  {
    if n == 0 then Got([], b)
    else
      match Decode(b)
      case Fail => Fail
      case Got(item, rest) =>
        match DecodeItems(rest, n - 1)
        case Fail => Fail
        case Got(more, rest') => Got([item] + more, rest')
  }

  function DecodeItemsOpen(b: seq<byte>): (r: Parsed<seq<Value>>)
    ensures r.Got? ==> |r.rest| <= |b|
    decreases |b|, 1
  {
    match Decode(b)
    case Fail => Fail
    case Got(item, rest) =>
      if item == Break then Got([], rest)
      else
        match DecodeItemsOpen(rest)
        case Fail => Fail
        case Got(more, rest') => Got([item] + more, rest')
  }

  function DecodePairs(b: seq<byte>, n: nat, d: seq<Pair>): (r: Parsed<seq<Pair>>)
    ensures r.Got? ==> |r.rest| <= |b|
    decreases |b|, 1
  {
    if n == 0 then Got(d, b)
    else
      match Decode(b)
      case Fail => Fail
      case Got(key, rest) =>
        match Decode(rest)
        case Fail => Fail
        case Got(value, rest') => if Hashable(key) then DecodePairs(rest', n - 1, Put(d, key, value)) else Fail
  }

  function DecodePairsOpen(b: seq<byte>, d: seq<Pair>): (r: Parsed<seq<Pair>>)
    ensures r.Got? ==> |r.rest| <= |b|
    decreases |b|, 1
  {
    match Decode(b)
    case Fail => Fail
    case Got(key, rest) =>
      if key == Break then Got(d, rest)
      else
        match Decode(rest)
        case Fail => Fail
        case Got(value, rest') => if Hashable(key) then DecodePairsOpen(rest', Put(d, key, value)) else Fail
  }

  // ---- ways of writing a value ----

  /** How many bytes the argument of a head takes. */
  datatype Width = Tiny | One | Two | Four | Eight

  function Size(w: Width): nat {
    match w case Tiny => 0 case One => 1 case Two => 2 case Four => 4 case Eight => 8
  }

  predicate Fits(v: nat, w: Width) {
    if w == Tiny then v < 24 else v < Power256(Size(w))
  }

  function Info(v: nat, w: Width): nat
    requires Fits(v, w)
  {
    match w case Tiny => v case One => 24 case Two => 25 case Four => 26 case Eight => 27
  }

  function Head(major: nat, v: nat, w: Width): seq<byte>
    requires major < 7 && Fits(v, w)
  {
    [major * 32 + Info(v, w)] + BigEndian(v, Size(w))
  }

  /**
   The last item of an open form is its stop: 0xFF, or, since tags are unwrapped, 0xFF under tags. Elsewhere the
   sentinel is an item like any other. A null is null, undefined, or an unsigned integer of indefinite length.
   */
  datatype Doc =
    | DInt(v: int, w: Width) | DBytes(b: seq<byte>, w: Width) | DText(t: seq<byte>, w: Width)
    | DBool(yes: bool) | DNull(head: byte) | DBreak
    | DList(items: seq<Doc>, w: Width) | DMap(entries: seq<DocPair>, w: Width) | DTag(tag: nat, w: Width, inner: Doc)
    | DBytesOpen(parts: seq<Doc>, stop: Doc) | DTextOpen(parts: seq<Doc>, stop: Doc)
    | DListOpen(items: seq<Doc>, stop: Doc) | DMapOpen(entries: seq<DocPair>, stop: Doc) | DTagOpen(inner: Doc)
  datatype DocPair = DocPair(key: Doc, value: Doc)

  /** The value a doc writes down. */
  function Meaning(d: Doc): Value
    decreases d
  {
    match d
    case DInt(v, _) => Int(v)
    case DBytes(b, _) => Bytes(b)
    case DText(t, _) => Text(t)
    case DBool(yes) => Bool(yes)
    case DNull(_) => Null
    case DBreak => Break
    case DList(items, _) => List(Meanings(items))
    case DListOpen(items, _) => List(Meanings(items))
    case DMap(entries, _) => Map(Entries(entries, []))
    case DMapOpen(entries, _) => Map(Entries(entries, []))
    case DTag(_, _, inner) => Meaning(inner)
    case DTagOpen(inner) => Meaning(inner)
    case DBytesOpen(parts, _) => Bytes(Joined(parts, false))
    case DTextOpen(parts, _) => Text(Joined(parts, true))
  }

  function Meanings(ds: seq<Doc>): seq<Value>
    decreases ds
  {
    if ds == [] then [] else [Meaning(ds[0])] + Meanings(ds[1..])
  }

  function Entries(es: seq<DocPair>, d: seq<Pair>): seq<Pair>
    decreases es
  {
    if es == [] then d
    else
      var p := PairMeaning(es[0]);
      Entries(es[1..], Put(d, p.key, p.value))
  }

  function PairMeaning(p: DocPair): Pair
    decreases p
  {
    Pair(Meaning(p.key), Meaning(p.value))
  }

  function Joined(parts: seq<Doc>, text: bool): seq<byte>
    decreases parts
  {
    if parts == [] then []
    else
      var v := Meaning(parts[0]);
      (if text && v.Text? then v.t else if !text && v.Bytes? then v.b else []) + Joined(parts[1..], text)
  }

  /** Nothing before the stop of an open list or map is taken for it. */
  predicate NoBreaks(ds: seq<Doc>) {
    forall i :: 0 <= i < |ds| ==> Meaning(ds[i]) != Break
  }

  predicate NoBreakKeys(es: seq<DocPair>) {
    forall i :: 0 <= i < |es| ==> Meaning(es[i].key) != Break
  }

  /** Every argument fits the width chosen for it, keys can be hashed, chunks are of their string's type, stops are stops. */
  predicate Writable(d: Doc)
    decreases d
  {
    match d
    case DInt(v, w) => Fits(if v >= 0 then v else -1 - v, w)
    case DBytes(b, w) => Fits(|b|, w)
    case DText(t, w) => Fits(|t|, w)
    case DBool(_) => true
    case DNull(head) => head == 0xF6 || head == 0xF7 || head == 0x1F
    case DBreak => true
    case DList(items, w) => Fits(|items|, w) && WritableAll(items)
    case DListOpen(items, stop) => WritableAll(items) && NoBreaks(items) && Writable(stop) && Meaning(stop) == Break
    case DMap(entries, w) => Fits(|entries|, w) && WritableEntries(entries)
    case DMapOpen(entries, stop) => WritableEntries(entries) && NoBreakKeys(entries) && Writable(stop) && Meaning(stop) == Break
    case DTag(tag, w, inner) => Fits(tag, w) && Writable(inner)
    case DTagOpen(inner) => Writable(inner)
    case DBytesOpen(parts, stop) => WritableParts(parts, false) && Writable(stop) && Meaning(stop) == Break
    case DTextOpen(parts, stop) => WritableParts(parts, true) && Writable(stop) && Meaning(stop) == Break
  }

  predicate WritableAll(ds: seq<Doc>)
    decreases ds
  {
    ds == [] || (Writable(ds[0]) && WritableAll(ds[1..]))
  }

  predicate WritableEntries(es: seq<DocPair>)
    decreases es
  {
    es == [] || (WritablePair(es[0]) && WritableEntries(es[1..]))
  }

  predicate WritablePair(p: DocPair)
    decreases p
  {
    Writable(p.key) && Writable(p.value) && Hashable(Meaning(p.key))
  }

  predicate WritableParts(parts: seq<Doc>, text: bool)
    decreases parts
  {
    parts == []
    || (Writable(parts[0]) && (if text then Meaning(parts[0]).Text? else Meaning(parts[0]).Bytes?) && WritableParts(parts[1..], text))
  }

  function Render(d: Doc): seq<byte>
    requires Writable(d)
    decreases d
  {
    match d
    case DInt(v, w) => if v >= 0 then Head(0, v, w) else Head(1, -1 - v, w)
    case DBytes(b, w) => Head(2, |b|, w) + b
    case DText(t, w) => Head(3, |t|, w) + t
    case DBool(yes) => [0xE0 + if yes then 21 else 20]
    case DNull(head) => [head]
    case DBreak => [0xFF]
    case DList(items, w) => Head(4, |items|, w) + RenderAll(items)
    case DListOpen(items, stop) => [0x9F] + (RenderAll(items) + Render(stop))
    case DMap(entries, w) => Head(5, |entries|, w) + RenderEntries(entries)
    case DMapOpen(entries, stop) => [0xBF] + (RenderEntries(entries) + Render(stop))
    case DTag(tag, w, inner) => Head(6, tag, w) + Render(inner)
    case DTagOpen(inner) => [0xDF] + Render(inner)
    case DBytesOpen(parts, stop) => [0x5F] + (RenderParts(parts, false) + Render(stop))
    case DTextOpen(parts, stop) => [0x7F] + (RenderParts(parts, true) + Render(stop))
  }

  function RenderAll(ds: seq<Doc>): seq<byte>
    requires WritableAll(ds)
    decreases ds
  {
    if ds == [] then [] else Render(ds[0]) + RenderAll(ds[1..])
  }

  function RenderEntries(es: seq<DocPair>): seq<byte>
    requires WritableEntries(es)
    decreases es
  {
    if es == [] then [] else RenderPair(es[0]) + RenderEntries(es[1..])
  }

  function RenderPair(p: DocPair): seq<byte>
    requires WritablePair(p)
    decreases p
  {
    Render(p.key) + Render(p.value)
  }

  function RenderParts(parts: seq<Doc>, text: bool): seq<byte>
    requires WritableParts(parts, text)
    decreases parts
  {
    if parts == [] then [] else Render(parts[0]) + RenderParts(parts[1..], text)
  }

  // ---- encoding ----

  /** The shortest head; None is Python's OverflowError. */
  function EncodeHead(major: nat, v: nat): Option<seq<byte>>
    requires major < 7
  {
    if v < 24 then Some([major * 32 + v])
    else if v < 256 then Some([major * 32 + 24, v])
    else if v < 0x10000 then Some([major * 32 + 25] + BigEndian(v, 2))
    else if v < 0x1_0000_0000 then Some([major * 32 + 26] + BigEndian(v, 4))
    else if v < TWO_TO_64 then Some([major * 32 + 27] + BigEndian(v, 8))
    else None
  }

  function Then(a: Option<seq<byte>>, b: Option<seq<byte>>): Option<seq<byte>> {
    if a.Some? && b.Some? then Some(a.value + b.value) else None
  }

  /** cbor_encode; None is an exception. */
  function CborEncode(v: Value): Option<seq<byte>>
    decreases v
  {
    match v
    case Bool(yes) => Some([0xE0 + if yes then 21 else 20])
    case Int(i) => if i >= 0 then EncodeHead(0, i) else EncodeHead(1, -1 - i)
    case Bytes(b) => Then(EncodeHead(2, |b|), Some(b))
    case Text(t) => Then(EncodeHead(3, |t|), Some(t))
    case Null => Some([0xF6])
    case Map(entries) => Then(EncodeHead(5, |entries|), EncodeEntries(entries))
    case List(items) => Then(EncodeHead(4, |items|), EncodeItems(items))
    case Break => None
  }

  function EncodeItems(items: seq<Value>): Option<seq<byte>>
    decreases items
  {
    if items == [] then Some([]) else Then(CborEncode(items[0]), EncodeItems(items[1..]))
  }

  function EncodeEntries(es: seq<Pair>): Option<seq<byte>>
    decreases es
  {
    if es == [] then Some([]) else Then(EncodePair(es[0]), EncodeEntries(es[1..]))
  }

  function EncodePair(p: Pair): Option<seq<byte>>
    decreases p
  {
    Then(CborEncode(p.key), CborEncode(p.value))
  }

  // ---- what a Python value is ----

  /** Dictionaries have hashable, pairwise different keys. */
  predicate Proper(v: Value)
    decreases v
  {
    match v
    case List(items) => ProperAll(items)
    case Map(entries) => ProperEntries(entries) && forall i, j :: 0 <= i < j < |entries| ==> KeyOf(entries[i].key) != KeyOf(entries[j].key)
    case Break => false
    case _ => true
  }

  predicate ProperAll(items: seq<Value>)
    decreases items
  {
    items == [] || (Proper(items[0]) && ProperAll(items[1..]))
  }

  predicate ProperEntries(es: seq<Pair>)
    decreases es
  {
    es == [] || (ProperPair(es[0]) && ProperEntries(es[1..]))
  }

  predicate ProperPair(p: Pair)
    decreases p
  {
    Proper(p.key) && Proper(p.value) && Hashable(p.key)
  }
}
