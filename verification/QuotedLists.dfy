/**
 The list commands that carry quoted labels: AT+MTTEMPLEVELS, AT+MTCHIMESOUNDS and the two forms of AT+MTMODES
 (core/mt/mt_at.c). A comma inside a text is content, so the lines are scanned rather than split.
 */
module QuotedLists {
  import opened Prelude

  const COMMA: byte := 44
  const QUOTE: byte := 34

  // ---- numerals ----

  function DigitOf(c: byte): Option<nat> {
    if 48 <= c <= 57 then Some(c - 48) else if 97 <= c <= 102 then Some(c - 87) else if 65 <= c <= 70 then Some(c - 55) else None
  }

  /** The value of digits in a base; None if one of them is no digit of it. */
  function ParseDigits(s: seq<byte>, base: nat): Option<nat> {
    if s == [] then Some(0)
    else
      match ParseDigits(s[..|s| - 1], base)
      case None => None
      case Some(v) =>
        match DigitOf(s[|s| - 1])
        case None => None
        case Some(d) => if d < base then Some(v * base + d) else None
  }

  function Saturated(v: nat): nat {
    if v < TWO_TO_32 then v else TWO_TO_32 - 1
  }

  /** strtoul in base 0 over a whole token: decimal, 0x hexadecimal or 0 octal, saturating. */
  function ParseUnsigned(s: seq<byte>): Option<nat> {
    if s == [] then None
    else
      var hex := |s| > 2 && s[0] == 48 && (s[1] == 120 || s[1] == 88);
      match (if hex then ParseDigits(s[2..], 16) else if s[0] == 48 then ParseDigits(s, 8) else ParseDigits(s, 10))
      case None => None
      case Some(v) => Some(Saturated(v))
  }

  function Print(v: nat): (s: seq<byte>)
    ensures s != []
  {
    if v < 10 then [48 + v] else Print(v / 10) + [48 + v % 10]
  }

  predicate Digits(s: seq<byte>) {
    forall i :: 0 <= i < |s| ==> 48 <= s[i] <= 57
  }

  lemma DivTen(v: nat)
    requires v >= 10
    ensures v / 10 > 0 && v == 10 * (v / 10) + v % 10 && v % 10 < 10
  {
  }

  lemma {:induction false} PrintIsDigits(v: nat)
    ensures Digits(Print(v)) && (v > 0 ==> Print(v)[0] != 48) && (v == 0 ==> Print(v) == [48])
  {
    if v >= 10 {
      DivTen(v);
      PrintIsDigits(v / 10);
    }
  }

  lemma OneDigit(v: nat)
    requires v < 10
    ensures ParseDigits([48 + v], 10) == Some(v) && ParseDigits([48], 8) == Some(0)
  {
    var s: seq<byte> := [48 + v];
    var zero: seq<byte> := [48];
    assert s[..0] == [] && zero[..0] == [];
    assert ParseDigits([], 10) == Some(0) && ParseDigits([], 8) == Some(0);
  }

  lemma MoreDigits(s: seq<byte>, d: nat, v: nat)
    requires d < 10 && ParseDigits(s, 10) == Some(v)
    ensures ParseDigits(s + [48 + d], 10) == Some(v * 10 + d)
  {
    var more := s + [48 + d];
    assert more[..|s|] == s && more[|s|] == 48 + d;
    DecimalDigit(d);
    hide DigitOf;
  }

  lemma DecimalDigit(d: nat)
    requires d < 10
    ensures DigitOf(48 + d) == Some(d)
  {
  }

  lemma {:induction false} DigitsRoundTrip(v: nat)
    ensures ParseDigits(Print(v), 10) == Some(v)
  {
    hide ParseDigits;
    if v < 10 {
      OneDigit(v);
    } else {
      DivTen(v);
      DigitsRoundTrip(v / 10);
      MoreDigits(Print(v / 10), v % 10, v / 10);
    }
  }

  /** A printed 32-bit value parses as itself. */
  lemma NumeralRoundTrip(v: nat)
    requires v < TWO_TO_32
    ensures ParseUnsigned(Print(v)) == Some(v)
  {
    hide ParseDigits, Print;
    PrintIsDigits(v);
    DigitsRoundTrip(v);
    OneDigit(0);
    var s := Print(v);
    assert |s| > 2 ==> 48 <= s[1] <= 57;
  }

  lemma DigitsStep(s: seq<byte>, c: byte, base: nat)
    ensures ParseDigits(s + [c], base) ==
      match ParseDigits(s, base)
      case None => None
      case Some(v) => (if DigitOf(c).Some? && DigitOf(c).value < base then Some(v * base + DigitOf(c).value) else None)
  {
    hide DigitOf;
    assert (s + [c])[..|s|] == s;
  }

  /** A hexadecimal, an octal and two malformed numerals: "0x1F", "017", "08" and "0x". */
  lemma NumeralVectors()
    ensures ParseUnsigned([48, 120, 49, 70]) == Some(31) && ParseUnsigned([48, 49, 55]) == Some(15)
    ensures ParseUnsigned([48, 56]).None? && ParseUnsigned([48, 120]).None? && ParseUnsigned([]).None?
  {
    hide ParseDigits, DigitOf;
    DigitVectors();
    NoDigits(16);
    NoDigits(8);
    assert [] + [49] == [49] && [49] + [70] == [49, 70] && [] + [48] == [48];
    assert [48] + [49] == [48, 49] && [48, 49] + [55] == [48, 49, 55] && [48] + [56] == [48, 56] && [48] + [120] == [48, 120];
    DigitsStep([], 49, 16);
    DigitsStep([49], 70, 16);
    DigitsStep([], 48, 8);
    DigitsStep([48], 49, 8);
    DigitsStep([48, 49], 55, 8);
    DigitsStep([48], 56, 8);
    DigitsStep([48], 120, 8);
    assert [48, 120, 49, 70][2..] == [49, 70];
  }

  lemma NoDigits(base: nat)
    ensures ParseDigits([], base) == Some(0)
  {
  }

  lemma DigitVectors()
    ensures DigitOf(48) == Some(0) && DigitOf(49) == Some(1) && DigitOf(55) == Some(7) && DigitOf(56) == Some(8)
    ensures DigitOf(70) == Some(15) && DigitOf(102) == Some(15) && DigitOf(120).None?
  {
  }

  // ---- scanning ----

  /** strchr. */
  function Find(s: seq<byte>, c: byte): (i: Option<nat>)
    ensures i.Some? ==> i.value < |s| && s[i.value] == c && forall k :: 0 <= k < i.value ==> s[k] != c
    ensures i.None? ==> forall k :: 0 <= k < |s| ==> s[k] != c
  {
    if s == [] then None
    else if s[0] == c then Some(0)
    else match Find(s[1..], c) case None => None case Some(k) => Some(k + 1)
  }

  lemma FindAt(s: seq<byte>, c: byte, n: nat)
    requires n < |s| && s[n] == c && forall k :: 0 <= k < n ==> s[k] != c
    ensures Find(s, c) == Some(n)
  {
  }

  /** The limits of one of the lists: those of the numbers before a label, of the labels, of the list. */
  datatype Form = Form(maxes: seq<nat>, labelMax: nat, countMax: nat)

  const TEMP_LEVELS: Form := Form([], 16, 16)
  const CHIME_SOUNDS: Form := Form([0xFF], 32, 8)
  const MODE_SELECT: Form := Form([0xFF], 32, 8)
  const MODE_BASE: Form := Form([0xFF, 0xFFFF], 32, 8)

  datatype Item = Item(nums: seq<nat>, text: seq<byte>)

  predicate LegalLabel(text: seq<byte>, max: nat) {
    1 <= |text| <= max && forall i :: 0 <= i < |text| ==> 0x20 <= text[i] <= 0x7E && text[i] != QUOTE
  }

  predicate Within(nums: seq<nat>, maxes: seq<nat>) {
    |nums| == |maxes| && forall i :: 0 <= i < |nums| ==> nums[i] <= maxes[i]
  }

  predicate LegalItem(item: Item, form: Form) {
    Within(item.nums, form.maxes) && LegalLabel(item.text, form.labelMax)
  }

  /** No earlier item carries the same first number, where items carry one. */
  predicate New(done: seq<Item>, item: Item) {
    item.nums != [] ==> forall i :: 0 <= i < |done| ==> done[i].nums != [] ==> done[i].nums[0] != item.nums[0]
  }

  predicate LegalList(items: seq<Item>, form: Form) {
    && 1 <= |items| <= form.countMax && (forall i :: 0 <= i < |items| ==> LegalItem(items[i], form))
    && (forall i :: 0 <= i < |items| ==> New(items[..i], items[i]))
  }

  /** Printable text without a quote. */
  predicate Plain(text: seq<byte>) {
    forall i :: 0 <= i < |text| ==> 32 <= text[i] <= 126 && text[i] != 34
  }

  predicate DistinctFirst(items: seq<Item>)
    requires forall i :: 0 <= i < |items| ==> items[i].nums != []
  {
    forall i, j :: 0 <= i < j < |items| ==> items[i].nums[0] != items[j].nums[0]
  }

  /** The limits in numbers: sixteen labels of up to sixteen; eight sounds or modes, each of up to thirty-two, under distinct bytes. */
  lemma Limits(items: seq<Item>)
    ensures LegalList(items, TEMP_LEVELS) <==>
      1 <= |items| <= 16 && forall i :: 0 <= i < |items| ==> items[i].nums == [] && 1 <= |items[i].text| <= 16 && Plain(items[i].text)
    ensures LegalList(items, CHIME_SOUNDS) <==>
      && 1 <= |items| <= 8
      && (forall i :: 0 <= i < |items| ==>
            |items[i].nums| == 1 && items[i].nums[0] <= 255 && 1 <= |items[i].text| <= 32 && Plain(items[i].text))
      && DistinctFirst(items)
    ensures LegalList(items, MODE_BASE) <==>
      && 1 <= |items| <= 8
      && (forall i :: 0 <= i < |items| ==>
            |items[i].nums| == 2 && items[i].nums[0] <= 255 && items[i].nums[1] <= 65535 && 1 <= |items[i].text| <= 32 && Plain(items[i].text))
      && DistinctFirst(items)
    ensures LegalList(items, MODE_SELECT) <==> LegalList(items, CHIME_SOUNDS)
  {
    AllNew(items);
    hide New;
  }

  lemma AllNew(items: seq<Item>)
    ensures (forall i :: 0 <= i < |items| ==> items[i].nums == []) ==> forall i :: 0 <= i < |items| ==> New(items[..i], items[i])
    ensures (forall i :: 0 <= i < |items| ==> items[i].nums != []) ==>
      (DistinctFirst(items) <==> forall i :: 0 <= i < |items| ==> New(items[..i], items[i]))
  {
    if (forall i :: 0 <= i < |items| ==> items[i].nums != []) && forall i :: 0 <= i < |items| ==> New(items[..i], items[i]) {
      forall i, j | 0 <= i < j < |items| ensures items[i].nums[0] != items[j].nums[0] {
        assert New(items[..j], items[j]) && items[..j][i] == items[i];
      }
    }
  }

  /** The bare numbers before a label, each up to a comma. */
  function ParseNumbers(p: seq<byte>, maxes: seq<nat>): (r: Option<(seq<nat>, seq<byte>)>)
    ensures r.Some? ==> |r.value.1| <= |p| && Within(r.value.0, maxes)
    decreases maxes
  {
    if maxes == [] then Some(([], p))
    else
      match Find(p, COMMA)
      case None => None
      case Some(k) =>
        match ParseUnsigned(p[..k])
        case None => None
        case Some(v) =>
          if v > maxes[0] then None
          else
            match ParseNumbers(p[k + 1..], maxes[1..])
            case None => None
            case Some((more, rest)) => Some(([v] + more, rest))
  }

  /** A quoted label, up to the next raw quote. */
  function ParseLabel(p: seq<byte>, max: nat): (r: Option<(seq<byte>, seq<byte>)>)
    ensures r.Some? ==> |r.value.1| < |p| && LegalLabel(r.value.0, max)
  {
    if p == [] || p[0] != QUOTE then None
    else
      match Find(p[1..], QUOTE)
      case None => None
      case Some(k) =>
        var text := p[1..][..k];
        if LegalLabel(text, max) then Some((text, p[1..][k + 1..])) else None
  }

  function ParseItem(p: seq<byte>, form: Form): (r: Option<(Item, seq<byte>)>)
    ensures r.Some? ==> |r.value.1| < |p| && LegalItem(r.value.0, form)
  {
    match ParseNumbers(p, form.maxes)
    case None => None
    case Some((nums, q)) =>
      match ParseLabel(q, form.labelMax)
      case None => None
      case Some((text, rest)) => Some((Item(nums, text), rest))
  }

  /** The rest of a list, after the items done. */
  function ParseItems(p: seq<byte>, form: Form, done: seq<Item>): Option<seq<Item>>
    decreases |p|
  {
    if p == [] then (if done == [] then None else Some(done))
    else
      match ParseItem(p, form)
      case None => None
      case Some((item, rest)) =>
        if |done| >= form.countMax || !New(done, item) then None
        else if rest == [] then Some(done + [item])
        else if rest[0] != COMMA || |rest| == 1 then None
        else ParseItems(rest[1..], form, done + [item])
  }

  /** <ep>, and what follows its comma. */
  function ParseEndpoint(args: seq<byte>): Option<(nat, seq<byte>)> {
    match Find(args, COMMA)
    case None => None
    case Some(k) =>
      match ParseUnsigned(args[..k])
      case None => None
      case Some(ep) => if ep > 0xFFFF then None else Some((ep, args[k + 1..]))
  }

  datatype Request = Request(ep: nat, items: seq<Item>)

  /** AT+MTTEMPLEVELS and AT+MTCHIMESOUNDS; None is a bad parameter. */
  function ParseList(args: seq<byte>, form: Form): Option<Request> {
    match ParseEndpoint(args)
    case None => None
    case Some((ep, p)) =>
      match ParseItems(p, form, [])
      case None => None
      case Some(items) => Some(Request(ep, items))
  }

  datatype Modes = Select(ep: nat, items: seq<Item>) | Base(ep: nat, cluster: nat, items: seq<Item>)

  /** AT+MTMODES: the character after the comma that ends the first value tells the two forms apart. */
  function ParseModes(args: seq<byte>): Option<Modes> {
    match ParseEndpoint(args)
    case None => None
    case Some((ep, p)) =>
      match Find(p, COMMA)
      case None => None
      case Some(k) =>
        if k + 1 == |p| then None
        else if p[k + 1] == QUOTE then
          match ParseItems(p, MODE_SELECT, [])
          case None => None
          case Some(items) => Some(Select(ep, items))
        else if 48 <= p[k + 1] <= 57 then
          match ParseUnsigned(p[..k])
          case None => None
          case Some(cluster) =>
            match ParseItems(p[k + 1..], MODE_BASE, [])
            case None => None
            case Some(items) => Some(Base(ep, cluster, items))
        else None
  }

  // ---- printing ----

  function PrintNumbers(nums: seq<nat>): seq<byte> {
    if nums == [] then [] else Print(nums[0]) + [COMMA] + PrintNumbers(nums[1..])
  }

  function PrintItem(item: Item): seq<byte> {
    PrintNumbers(item.nums) + ([QUOTE] + item.text + [QUOTE])
  }

  function PrintItems(items: seq<Item>): seq<byte> {
    if items == [] then [] else if |items| == 1 then PrintItem(items[0]) else PrintItem(items[0]) + [COMMA] + PrintItems(items[1..])
  }

  function PrintList(r: Request): seq<byte> {
    Print(r.ep) + [COMMA] + PrintItems(r.items)
  }

  function PrintModes(m: Modes): seq<byte> {
    match m
    case Select(ep, items) => Print(ep) + [COMMA] + PrintItems(items)
    case Base(ep, cluster, items) => Print(ep) + [COMMA] + (Print(cluster) + [COMMA] + PrintItems(items))
  }

  /** A list as it is typed: 12,1,"ab",7,"c". */
  lemma PrintedVector()
    ensures PrintList(Request(12, [Item([1], [97, 98]), Item([7], [99])])) ==
      [49, 50, 44] + ([49, 44, 34, 97, 98, 34] + [44] + [55, 44, 34, 99, 34])
  {
    hide PrintItem;
    PrintedItem(1, [97, 98]);
    PrintedItem(7, [99]);
    var a, b := Item([1], [97, 98]), Item([7], [99]);
    assert [a, b][1..] == [b];
    assert PrintItems([b]) == PrintItem(b);
    assert Print(12) == Print(1) + [50];
  }

  lemma PrintedItem(n: nat, text: seq<byte>)
    requires n < 10
    ensures PrintItem(Item([n], text)) == [48 + n, 44, 34] + text + [34]
  {
    assert [n][1..] == [] && PrintNumbers([]) == [];
    assert PrintNumbers([n]) == [48 + n, 44];
  }

  // ---- parsing inverts printing ----

  lemma PrintedBeforeComma(v: nat, rest: seq<byte>)
    ensures Find(Print(v) + [COMMA] + rest, COMMA) == Some(|Print(v)|)
    ensures (Print(v) + [COMMA] + rest)[..|Print(v)|] == Print(v) && (Print(v) + [COMMA] + rest)[|Print(v)| + 1..] == rest
  {
    PrintIsDigits(v);
    FindAt(Print(v) + [COMMA] + rest, COMMA, |Print(v)|);
  }

  lemma {:induction false} NumbersRoundTrip(nums: seq<nat>, maxes: seq<nat>, rest: seq<byte>)
    requires Within(nums, maxes) && forall i :: 0 <= i < |maxes| ==> maxes[i] < TWO_TO_32
    ensures ParseNumbers(PrintNumbers(nums) + rest, maxes) == Some((nums, rest))
    decreases maxes
  {
    hide Print, ParseUnsigned, Find;
    if maxes == [] {
      assert [] + rest == rest;
    } else {
      var more := PrintNumbers(nums[1..]) + rest;
      assert PrintNumbers(nums) + rest == Print(nums[0]) + [COMMA] + more;
      PrintedBeforeComma(nums[0], more);
      NumeralRoundTrip(nums[0]);
      NumbersRoundTrip(nums[1..], maxes[1..], rest);
      assert [nums[0]] + nums[1..] == nums;
    }
  }

  lemma LabelRoundTrip(text: seq<byte>, max: nat, rest: seq<byte>)
    requires LegalLabel(text, max)
    ensures ParseLabel([QUOTE] + text + [QUOTE] + rest, max) == Some((text, rest))
  {
    var p := [QUOTE] + text + [QUOTE] + rest;
    assert p[1..] == text + [QUOTE] + rest;
    FindAt(p[1..], QUOTE, |text|);
    assert p[1..][..|text|] == text && p[1..][|text| + 1..] == rest;
  }

  predicate SmallMaxes(form: Form) {
    forall i :: 0 <= i < |form.maxes| ==> form.maxes[i] < TWO_TO_32
  }

  lemma ItemRoundTrip(item: Item, form: Form, rest: seq<byte>)
    requires LegalItem(item, form) && SmallMaxes(form)
    ensures ParseItem(PrintItem(item) + rest, form) == Some((item, rest))
    ensures PrintItem(item) != []
  {
    hide ParseNumbers, ParseLabel, LegalLabel;
    var quoted := [QUOTE] + item.text + [QUOTE];
    Associate(PrintNumbers(item.nums), quoted, rest);
    NumbersRoundTrip(item.nums, form.maxes, quoted + rest);
    LabelRoundTrip(item.text, form.labelMax, rest);
  }

  lemma {:induction false} ItemsRoundTrip(done: seq<Item>, items: seq<Item>, form: Form)
    requires LegalList(done + items, form) && SmallMaxes(form) && items != []
    ensures ParseItems(PrintItems(items), form, done) == Some(done + items)
    decreases items
  {
    hide ParseItem, PrintItem, LegalItem;
    var item, all := items[0], done + items;
    assert all[|done|] == item && all[..|done|] == done;
    assert LegalItem(all[|done|], form) && New(all[..|done|], all[|done|]);
    if |items| == 1 {
      ItemRoundTrip(item, form, []);
      assert PrintItem(item) + [] == PrintItem(item);
      assert items == [item];
    } else {
      var rest := PrintItems(items[1..]);
      Associate(PrintItem(item), [COMMA], rest);
      ItemRoundTrip(item, form, [COMMA] + rest);
      ItemsAreNotEmpty(items[1..]);
      assert ([COMMA] + rest)[1..] == rest;
      assert done + [item] + items[1..] == all;
      ItemsRoundTrip(done + [item], items[1..], form);
    }
  }

  lemma ItemsAreNotEmpty(items: seq<Item>)
    requires items != []
    ensures PrintItems(items) != []
  {
  }

  lemma EndpointRoundTrip(ep: nat, rest: seq<byte>)
    requires ep <= 0xFFFF
    ensures ParseEndpoint(Print(ep) + [COMMA] + rest) == Some((ep, rest))
  {
    hide Print, ParseUnsigned, Find;
    PrintedBeforeComma(ep, rest);
    NumeralRoundTrip(ep);
  }

  /** Every legal list of labels, commas inside them included, parses as itself. */
  lemma ListRoundTrip(r: Request, form: Form)
    requires r.ep <= 0xFFFF && LegalList(r.items, form) && SmallMaxes(form)
    ensures ParseList(PrintList(r), form) == Some(r)
  {
    hide Print, PrintItems, ParseItems, ParseEndpoint;
    EndpointRoundTrip(r.ep, PrintItems(r.items));
    assert [] + r.items == r.items;
    ItemsRoundTrip([], r.items, form);
  }

  predicate LegalModes(m: Modes) {
    match m
    case Select(ep, items) => ep <= 0xFFFF && LegalList(items, MODE_SELECT)
    case Base(ep, cluster, items) => ep <= 0xFFFF && cluster < TWO_TO_32 && LegalList(items, MODE_BASE)
  }

  /** The text of a list starts with its first number, a comma, and then a quote or a digit. */
  lemma FirstOfItems(items: seq<Item>, form: Form)
    requires LegalList(items, form) && (form == MODE_SELECT || form == MODE_BASE)
    ensures var p := PrintItems(items); var k := |Print(items[0].nums[0])|;
            && Find(p, COMMA) == Some(k) && k + 1 < |p| && 48 <= p[0] <= 57
            && (if form == MODE_SELECT then p[k + 1] == QUOTE else 48 <= p[k + 1] <= 57)
  {
    hide Print, PrintNumbers, Find, New, LegalItem;
    var item := items[0];
    assert LegalItem(items[0], form);
    var tail := if |items| == 1 then [] else [COMMA] + PrintItems(items[1..]);
    assert PrintItems(items) == PrintItem(item) + tail;
    FirstOfItem(item, form, tail);
  }

  lemma FirstOfItem(item: Item, form: Form, tail: seq<byte>)
    requires LegalItem(item, form) && (form == MODE_SELECT || form == MODE_BASE)
    ensures var p := PrintItem(item) + tail; var k := |Print(item.nums[0])|;
            && Find(p, COMMA) == Some(k) && k + 1 < |p| && 48 <= p[0] <= 57
            && (if form == MODE_SELECT then p[k + 1] == QUOTE else 48 <= p[k + 1] <= 57)
  {
    hide Print, Find;
    var quoted := [QUOTE] + item.text + [QUOTE];
    var rest := PrintNumbers(item.nums[1..]) + quoted + tail;
    assert PrintItem(item) + tail == Print(item.nums[0]) + [COMMA] + rest;
    PrintedBeforeComma(item.nums[0], rest);
    PrintIsDigits(item.nums[0]);
    assert (PrintItem(item) + tail)[|Print(item.nums[0])| + 1] == rest[0];
    if form == MODE_SELECT {
      assert item.nums[1..] == [] && rest[0] == QUOTE;
    } else {
      PrintIsDigits(item.nums[1]);
      assert item.nums[1..][0] == item.nums[1] && rest[0] == Print(item.nums[1])[0];
    }
  }

  /** Both forms of AT+MTMODES parse as themselves, form and list. */
  lemma ModesRoundTrip(m: Modes)
    requires LegalModes(m)
    ensures ParseModes(PrintModes(m)) == Some(m)
  {
    hide Print, PrintItems, ParseItems, ParseEndpoint, Find, ParseUnsigned;
    match m
    case Select(ep, items) =>
      EndpointRoundTrip(ep, PrintItems(items));
      FirstOfItems(items, MODE_SELECT);
      assert [] + items == items;
      ItemsRoundTrip([], items, MODE_SELECT);
    case Base(ep, cluster, items) =>
      EndpointRoundTrip(ep, Print(cluster) + [COMMA] + PrintItems(items));
      FirstOfItems(items, MODE_BASE);
      PrintedBeforeComma(cluster, PrintItems(items));
      NumeralRoundTrip(cluster);
      assert [] + items == items;
      ItemsRoundTrip([], items, MODE_BASE);
  }

  // ---- nothing else is accepted ----

  lemma {:induction false} ParsedItemsLegal(p: seq<byte>, form: Form, done: seq<Item>)
    requires ParseItems(p, form, done).Some? && (done == [] || LegalList(done, form)) && form.countMax > 0
    ensures LegalList(ParseItems(p, form, done).value, form)
    decreases |p|
  {
    hide ParseItem, LegalItem, New;
    if p != [] {
      var (item, rest) := ParseItem(p, form).value;
      var more := done + [item];
      assert LegalItem(item, form) by { ParsedItemLegal(p, form); }
      forall i | 0 <= i < |more| ensures New(more[..i], more[i]) {
        if i < |done| {
          assert more[..i] == done[..i];
        } else {
          assert more[..i] == done;
        }
      }
      if rest != [] {
        ParsedItemsLegal(rest[1..], form, more);
      }
    }
  }

  lemma ParsedItemLegal(p: seq<byte>, form: Form)
    requires ParseItem(p, form).Some?
    ensures LegalItem(ParseItem(p, form).value.0, form)
  {
  }

  /** Whatever is accepted obeys the documented rules. */
  lemma AcceptedIsLegal(args: seq<byte>)
    ensures ParseModes(args).Some? ==> LegalModes(ParseModes(args).value)
    ensures ParseList(args, TEMP_LEVELS).Some? ==>
      ParseList(args, TEMP_LEVELS).value.ep <= 0xFFFF && LegalList(ParseList(args, TEMP_LEVELS).value.items, TEMP_LEVELS)
    ensures ParseList(args, CHIME_SOUNDS).Some? ==>
      ParseList(args, CHIME_SOUNDS).value.ep <= 0xFFFF && LegalList(ParseList(args, CHIME_SOUNDS).value.items, CHIME_SOUNDS)
  {
    hide ParseItems, LegalList, ParseUnsigned;
    UnsignedFits();
    if ParseEndpoint(args).Some? {
      var (ep, p) := ParseEndpoint(args).value;
      if ParseItems(p, TEMP_LEVELS, []).Some? { ParsedItemsLegal(p, TEMP_LEVELS, []); }
      if ParseItems(p, CHIME_SOUNDS, []).Some? { ParsedItemsLegal(p, CHIME_SOUNDS, []); }
      if ParseModes(args).Some? {
        var k := Find(p, COMMA).value;
        if p[k + 1] == QUOTE { ParsedItemsLegal(p, MODE_SELECT, []); } else { ParsedItemsLegal(p[k + 1..], MODE_BASE, []); }
      }
    }
  }

  lemma UnsignedFits()
    ensures forall s :: ParseUnsigned(s).Some? ==> ParseUnsigned(s).value < TWO_TO_32
  {
  }

  // ---- the handlers ----

  /** Where c is at or after `from`, or the length if it is nowhere. */
  method Strchr(s: seq<byte>, from: nat, c: byte) returns (i: nat)
    requires from <= |s|
    ensures from <= i <= |s|
    ensures Find(s[from..], c) == if i < |s| then Some(i - from) else None
  {
    i := from;
    while i < |s| && s[i] != c
      invariant from <= i <= |s| && forall k :: from <= k < i ==> s[k] != c
    {
      i := i + 1;
    }
    ghost var tail := s[from..];
    if i < |s| {
      FindAt(tail, c, i - from);
    } else {
      assert forall k :: 0 <= k < |tail| ==> tail[k] == s[from + k];
    }
  }

  /** The whole is what is read so far followed by the numbers still to come. */
  ghost predicate NumbersContinue(all: Option<(seq<nat>, seq<byte>)>, nums: seq<nat>, p: seq<byte>, maxes: seq<nat>) {
    all == match ParseNumbers(p, maxes) case None => None case Some((more, rest)) => Some((nums + more, rest))
  }

  lemma NumbersStart(p: seq<byte>, maxes: seq<nat>)
    ensures NumbersContinue(ParseNumbers(p, maxes), [], p, maxes)
  {
    if ParseNumbers(p, maxes).Some? {
      assert [] + ParseNumbers(p, maxes).value.0 == ParseNumbers(p, maxes).value.0;
    }
  }

  lemma NumbersStep(all: Option<(seq<nat>, seq<byte>)>, nums: seq<nat>, p: seq<byte>, maxes: seq<nat>)
    requires NumbersContinue(all, nums, p, maxes)
    ensures maxes == [] ==> all == Some((nums, p))
    ensures maxes != [] ==>
      match Find(p, COMMA)
      case None => all == None
      case Some(k) =>
        match ParseUnsigned(p[..k])
        case None => all == None
        case Some(v) => if v > maxes[0] then all == None else NumbersContinue(all, nums + [v], p[k + 1..], maxes[1..])
  {
    hide ParseUnsigned, Find;
    assert nums + [] == nums;
    if maxes != [] && Find(p, COMMA).Some? {
      var k := Find(p, COMMA).value;
      if ParseUnsigned(p[..k]).Some? && ParseNumbers(p[k + 1..], maxes[1..]).Some? {
        Associate(nums, [ParseUnsigned(p[..k]).value], ParseNumbers(p[k + 1..], maxes[1..]).value.0);
      }
    }
  }

  method ReadNumbers(args: seq<byte>, start: nat, maxes: seq<nat>) returns (nums: Option<seq<nat>>, next: nat)
    requires start <= |args|
    ensures next <= |args|
    ensures match ParseNumbers(args[start..], maxes)
            case None => nums.None?
            case Some((all, rest)) => nums == Some(all) && rest == args[next..]
  {
    hide ParseNumbers, ParseUnsigned, Find, NumbersContinue;
    ghost var all := ParseNumbers(args[start..], maxes);
    NumbersStart(args[start..], maxes);
    next := start;
    var read: seq<nat> := [];
    assert maxes[0..] == maxes;
    for i := 0 to |maxes|
      invariant next <= |args| && NumbersContinue(all, read, args[next..], maxes[i..])
    {
      ghost var p := args[next..];
      NumbersStep(all, read, p, maxes[i..]);
      assert maxes[i..][0] == maxes[i] && maxes[i..][1..] == maxes[i + 1..];
      var comma := Strchr(args, next, COMMA);
      if comma == |args| {
        return None, next;
      }
      assert p[..comma - next] == args[next..comma] && p[comma - next + 1..] == args[comma + 1..];
      var v := ParseUnsigned(args[next..comma]);
      if v.None? || v.value > maxes[i] {
        return None, next;
      }
      read := read + [v.value];
      next := comma + 1;
    }
    NumbersStep(all, read, args[next..], maxes[|maxes|..]);
    return Some(read), next;
  }

  method ReadLabel(args: seq<byte>, start: nat, max: nat) returns (text: Option<seq<byte>>, next: nat)
    requires start <= |args|
    ensures next <= |args|
    ensures match ParseLabel(args[start..], max)
            case None => text.None?
            case Some((all, rest)) => text == Some(all) && rest == args[next..]
  {
    hide Find;
    next := start;
    if start == |args| || args[start] != QUOTE {
      return None, next;
    }
    ghost var p := args[start..];
    assert p[1..] == args[start + 1..];
    var close := Strchr(args, start + 1, QUOTE);
    if close == |args| {
      return None, next;
    }
    var content := args[start + 1..close];
    assert p[1..][..close - start - 1] == content && p[1..][close - start..] == args[close + 1..];
    next := close + 1;
    if |content| < 1 || |content| > max {
      return None, next;
    }
    for i := 0 to |content|
      invariant forall k :: 0 <= k < i ==> 0x20 <= content[k] <= 0x7E
    {
      if content[i] < 0x20 || content[i] > 0x7E {
        return None, next;
      }
    }
    return Some(content), next;
  }

  method ReadItem(args: seq<byte>, start: nat, form: Form) returns (item: Option<Item>, next: nat)
    requires start <= |args|
    ensures next <= |args|
    ensures match ParseItem(args[start..], form)
            case None => item.None?
            case Some((all, rest)) => item == Some(all) && rest == args[next..] && next > start
  {
    hide ParseNumbers, ParseLabel;
    var nums, text;
    nums, next := ReadNumbers(args, start, form.maxes);
    if nums.None? {
      return None, next;
    }
    text, next := ReadLabel(args, next, form.labelMax);
    if text.None? {
      return None, next;
    }
    return Some(Item(nums.value, text.value)), next;
  }

  /** The scanning loop the commands share. */
  method ReadItems(args: seq<byte>, start: nat, form: Form) returns (items: Option<seq<Item>>)
    requires start <= |args|
    ensures items == ParseItems(args[start..], form, [])
  {
    hide ParseItem;
    var p := start;
    var done: seq<Item> := [];
    while p < |args|
      invariant p <= |args|
      invariant ParseItems(args[start..], form, []) == ParseItems(args[p..], form, done)
      decreases |args| - p
    {
      var item, next := ReadItem(args, p, form);
      if item.None? || |done| >= form.countMax {
        return None;
      }
      for i := 0 to |done|
        invariant item.value.nums != [] ==> forall k :: 0 <= k < i ==> done[k].nums != [] ==> done[k].nums[0] != item.value.nums[0]
      {
        if item.value.nums != [] && done[i].nums != [] && done[i].nums[0] == item.value.nums[0] {
          return None;
        }
      }
      ghost var rest := args[next..];
      done := done + [item.value];
      if next == |args| {
        return Some(done);
      }
      if args[next] != COMMA || next + 1 == |args| {
        return None;
      }
      assert rest[1..] == args[next + 1..];
      p := next + 1;
    }
    return if done == [] then None else Some(done);
  }

  method ReadEndpoint(args: seq<byte>) returns (ep: Option<nat>, next: nat)
    ensures next <= |args|
    ensures match ParseEndpoint(args)
            case None => ep.None?
            case Some((v, rest)) => ep == Some(v) && rest == args[next..]
  {
    hide Find, ParseUnsigned;
    assert args[0..] == args;
    var comma := Strchr(args, 0, COMMA);
    if comma == |args| {
      return None, 0;
    }
    var v := ParseUnsigned(args[..comma]);
    if v.None? || v.value > 0xFFFF {
      return None, 0;
    }
    return v, comma + 1;
  }

  /** AT+MTTEMPLEVELS and AT+MTCHIMESOUNDS, up to the call into the platform. */
  method MtList(args: seq<byte>, form: Form) returns (r: Option<Request>)
    ensures r == ParseList(args, form)
  {
    hide ParseItems, ParseEndpoint;
    var ep, p := ReadEndpoint(args);
    if ep.None? {
      return None;
    }
    var items := ReadItems(args, p, form);
    return if items.None? then None else Some(Request(ep.value, items.value));
  }

  method MtModes(args: seq<byte>) returns (m: Option<Modes>)
    ensures m == ParseModes(args)
  {
    hide ParseItems, ParseEndpoint, Find, ParseUnsigned;
    var ep, p := ReadEndpoint(args);
    if ep.None? {
      return None;
    }
    ghost var tail := args[p..];
    var comma := Strchr(args, p, COMMA);
    if comma == |args| || comma + 1 == |args| {
      return None;
    }
    assert tail[comma - p + 1] == args[comma + 1];
    assert tail[..comma - p] == args[p..comma] && tail[comma - p + 1..] == args[comma + 1..];
    if args[comma + 1] == QUOTE {
      var items := ReadItems(args, p, MODE_SELECT);
      return if items.None? then None else Some(Select(ep.value, items.value));
    }
    if !(48 <= args[comma + 1] <= 57) {
      return None;
    }
    var cluster := ParseUnsigned(args[p..comma]);
    if cluster.None? {
      return None;
    }
    var items := ReadItems(args, comma + 1, MODE_BASE);
    return if items.None? then None else Some(Base(ep.value, cluster.value, items.value));
  }
}
