/**
 The endpoint composition: its staging by AT+MTEPCLEAR and AT+MTEP, and its three wire forms, of which the
 newest is written and all are read (core/mt/mt_composition.c, core/mt/mt_at.c).
 */
module Composition {
  import opened Prelude
  import opened AtCommand

  const MAX_ENDPOINTS: nat := 28
  const BLOB_MAX: nat := 4 + 6 * MAX_ENDPOINTS
  const NO_PARENT: byte := 0xFF
  const SENTINEL: byte := 0xFF
  const VERSION_2: byte := 0x02
  const VERSION_3: byte := 0x03

  datatype Endpoint = Endpoint(devtype: nat, variant: byte, parent: byte)

  /** What the fields of an entry can hold. */
  predicate Fits(e: Endpoint) {
    e.devtype < TWO_TO_32
  }

  /** A composition that fits its arrays. */
  predicate Holdable(c: seq<Endpoint>) {
    |c| <= MAX_ENDPOINTS && forall i :: 0 <= i < |c| ==> Fits(c[i])
  }

  /** Every parent is an earlier entry. */
  predicate Forest(c: seq<Endpoint>) {
    forall i :: 0 <= i < |c| ==> c[i].parent == NO_PARENT || c[i].parent < i
  }

  /** An entry, its parent, the parent of that, and so on. */
  function Chain(c: seq<Endpoint>, i: nat): (chain: seq<nat>)
    requires Forest(c) && i < |c|
    decreases i
  {
    if c[i].parent == NO_PARENT then [i] else [i] + Chain(c, c[i].parent)
  }

  /** Each step of the chain goes to the parent of the entry, which is an earlier one. */
  predicate Climbs(c: seq<Endpoint>, chain: seq<nat>) {
    && (forall k :: 0 <= k < |chain| ==> chain[k] < |c|)
    && (forall k :: 0 <= k < |chain| - 1 ==> chain[k + 1] < chain[k] && c[chain[k]].parent == chain[k + 1])
  }

  lemma ClimbsFrom(c: seq<Endpoint>, i: nat, chain: seq<nat>)
    requires i < |c| && Climbs(c, chain) && (chain != [] ==> c[i].parent == chain[0] < i)
    ensures Climbs(c, [i] + chain)
  {
    var more := [i] + chain;
    forall k | 0 <= k < |more| - 1 ensures more[k + 1] < more[k] && c[more[k]].parent == more[k + 1] {
      if k > 0 {
        assert more[k] == chain[k - 1] && more[k + 1] == chain[k];
      }
    }
  }

  lemma ParentIsEarlier(c: seq<Endpoint>, i: nat)
    requires Forest(c) && i < |c| && c[i].parent != NO_PARENT
    ensures c[i].parent < i
  {
  }

  /** Every parent chain ends at a root, each step going to the entry's parent, without repeating itself. */
  lemma {:induction false} ChainsEndAtRoots(c: seq<Endpoint>, i: nat)
    requires Forest(c) && i < |c|
    ensures var chain := Chain(c, i);
            && 0 < |chain| <= i + 1 && chain[0] == i && Climbs(c, chain)
            && chain[|chain| - 1] < |c| && c[chain[|chain| - 1]].parent == NO_PARENT
    decreases i
  {
    hide Climbs, Forest;
    if c[i].parent == NO_PARENT {
      assert [i] + [] == [i];
      ClimbsNowhere(c);
      ClimbsFrom(c, i, []);
    } else {
      var parent := c[i].parent;
      ParentIsEarlier(c, i);
      ChainsEndAtRoots(c, parent);
      ClimbsFrom(c, i, Chain(c, parent));
    }
  }

  lemma ClimbsNowhere(c: seq<Endpoint>)
    ensures Climbs(c, [])
  {
  }

  // ---- the wire forms ----

  /** An unsigned 32-bit value, least significant byte first. */
  function Word(v: nat): (b: seq<byte>)
    ensures |b| == 4
  {
    LittleEndian(v, 4)
  }

  function Count(n: nat): (b: seq<byte>)
    ensures |b| == 2
  {
    LittleEndian(n, 2)
  }

  /** The bytes of one entry: the older forms leave out the parent, and the variant. */
  function EntryBytes(e: Endpoint, version: nat): (b: seq<byte>)
    requires 1 <= version <= 3
    ensures |b| == 3 + version
  {
    if version == 1 then Word(e.devtype) else if version == 2 then Word(e.devtype) + [e.variant] else Word(e.devtype) + [e.variant, e.parent]
  }

  /** The size of n entries. */
  function Bytes(n: nat, version: nat): (size: nat)
    requires 1 <= version <= 3
  {
    if version == 1 then 4 * n else if version == 2 then 5 * n else 6 * n
  }

  function EntriesBytes(c: seq<Endpoint>, version: nat): (b: seq<byte>)
    requires 1 <= version <= 3
    ensures |b| == Bytes(|c|, version)
  {
    if c == [] then [] else EntriesBytes(c[..|c| - 1], version) + EntryBytes(c[|c| - 1], version)
  }

  /** What a composition looks like to a build of this version. */
  function Seen(e: Endpoint, version: nat): Endpoint {
    if version == 1 then e.(variant := 0, parent := NO_PARENT) else if version == 2 then e.(parent := NO_PARENT) else e
  }

  function SeenAll(c: seq<Endpoint>, version: nat): (s: seq<Endpoint>)
    ensures |s| == |c| && forall i :: 0 <= i < |c| ==> s[i] == Seen(c[i], version)
  {
    if c == [] then [] else SeenAll(c[..|c| - 1], version) + [Seen(c[|c| - 1], version)]
  }

  function Header(n: nat, version: nat): (b: seq<byte>)
    requires 1 <= version <= 3
    ensures |b| == if version == 1 then 2 else 4
  {
    if version == 1 then Count(n) else [SENTINEL, if version == 2 then VERSION_2 else VERSION_3] + Count(n)
  }

  /** A blob as a build of this version writes it. */
  function Blob(c: seq<Endpoint>, version: nat): seq<byte>
    requires 1 <= version <= 3
  {
    Header(|c|, version) + EntriesBytes(c, version)
  }

  function ParseEntry(b: seq<byte>, version: nat): Endpoint
    requires 1 <= version <= 3 && |b| == 3 + version
  {
    Endpoint(FromLittleEndian(b[..4]), if version >= 2 then b[4] else 0, if version == 3 then b[5] else NO_PARENT)
  }

  function ParseEntries(b: seq<byte>, n: nat, version: nat): (c: seq<Endpoint>)
    requires 1 <= version <= 3 && |b| == Bytes(n, version)
    ensures |c| == n
  {
    if n == 0 then []
    else ParseEntries(b[..Bytes(n - 1, version)], n - 1, version) + [ParseEntry(b[Bytes(n - 1, version)..], version)]
  }

  /** Which form the first bytes announce; 0 is none. */
  function VersionOf(b: seq<byte>): nat {
    if |b| < 2 then 0
    else if b[0] == SENTINEL then (if b[1] == VERSION_2 then 2 else if b[1] == VERSION_3 then 3 else 0)
    else if b[0] <= MAX_ENDPOINTS then 1
    else 0
  }

  function ParseBody(b: seq<byte>, version: nat): Option<seq<Endpoint>>
    requires 1 <= version <= 3
  {
    var head := if version == 1 then 2 else 4;
    if |b| < head then None
    else
      var n := FromLittleEndian(b[head - 2..head]);
      if n > MAX_ENDPOINTS || |b| != head + Bytes(n, version) then None
      else
        var c := ParseEntries(b[head..], n, version);
        if Forest(c) then Some(c) else None
  }

  /** None is -1. */
  function Parse(b: seq<byte>): Option<seq<Endpoint>> {
    if VersionOf(b) == 0 then None else ParseBody(b, VersionOf(b))
  }

  // ---- reading inverts writing ----

  lemma EntryRoundTrip(e: Endpoint, version: nat)
    requires 1 <= version <= 3 && Fits(e)
    ensures ParseEntry(EntryBytes(e, version), version) == Seen(e, version)
  {
    hide LittleEndian, FromLittleEndian, Power256;
    Powers();
    LittleEndianRoundTrip(e.devtype, 4);
    assert EntryBytes(e, version)[..4] == Word(e.devtype);
  }

  lemma EntryRewrite(b: seq<byte>)
    requires |b| == 6
    ensures EntryBytes(ParseEntry(b, 3), 3) == b && Fits(ParseEntry(b, 3))
  {
    hide LittleEndian, FromLittleEndian, Power256;
    Powers();
    LittleEndianRewrite(b[..4]);
    assert b == b[..4] + [b[4], b[5]];
  }

  lemma EntryFits(b: seq<byte>, version: nat)
    requires 1 <= version <= 3 && |b| == 3 + version
    ensures Fits(ParseEntry(b, version))
  {
    hide LittleEndian, FromLittleEndian, Power256;
    Powers();
    LittleEndianRewrite(b[..4]);
  }

  lemma {:induction false} EntriesRoundTrip(c: seq<Endpoint>, version: nat)
    requires 1 <= version <= 3 && forall i :: 0 <= i < |c| ==> Fits(c[i])
    ensures ParseEntries(EntriesBytes(c, version), |c|, version) == SeenAll(c, version)
  {
    hide EntryBytes, ParseEntry, Seen;
    if c != [] {
      var init, last := c[..|c| - 1], c[|c| - 1];
      EntriesRoundTrip(init, version);
      EntryRoundTrip(last, version);
      var b := EntriesBytes(c, version);
      assert b[..Bytes(|init|, version)] == EntriesBytes(init, version);
      assert b[Bytes(|init|, version)..] == EntryBytes(last, version);
    }
  }

  lemma {:induction false} EntriesRewrite(b: seq<byte>, n: nat)
    requires |b| == 6 * n
    ensures EntriesBytes(ParseEntries(b, n, 3), 3) == b
  {
    hide EntryBytes, ParseEntry;
    if n > 0 {
      EntriesRewrite(b[..6 * (n - 1)], n - 1);
      EntryRewrite(b[6 * (n - 1)..]);
      assert b == b[..6 * (n - 1)] + b[6 * (n - 1)..];
    }
  }

  lemma {:induction false} EntriesFit(b: seq<byte>, n: nat, version: nat)
    requires 1 <= version <= 3 && |b| == Bytes(n, version)
    ensures forall i :: 0 <= i < n ==> Fits(ParseEntries(b, n, version)[i])
    ensures version < 3 ==> forall i :: 0 <= i < n ==> ParseEntries(b, n, version)[i].parent == NO_PARENT
  {
    hide Fits;
    if n > 0 {
      EntriesFit(b[..Bytes(n - 1, version)], n - 1, version);
      EntryFits(b[Bytes(n - 1, version)..], version);
    }
  }

  /** The form is recognised by its first bytes. */
  lemma HeaderRecognised(c: seq<Endpoint>, version: nat)
    requires 1 <= version <= 3 && |c| <= MAX_ENDPOINTS
    ensures VersionOf(Blob(c, version)) == version
    ensures var head := if version == 1 then 2 else 4;
            FromLittleEndian(Blob(c, version)[head - 2..head]) == |c| && Blob(c, version)[head..] == EntriesBytes(c, version)
  {
    Powers();
    LittleEndianRoundTrip(|c|, 2);
    var head := if version == 1 then 2 else 4;
    assert Blob(c, version)[head - 2..head] == Count(|c|);
    if version == 1 {
      assert Count(|c|)[0] == |c| % 256;
    }
  }

  /** The three forms, byte for byte: a root of device type 0x0302, and a child of it of another type and variant. */
  lemma BlobVectors()
    ensures var c := [Endpoint(0x0302, 7, 0xFF), Endpoint(0x04030201, 2, 0)];
            && Blob(c, 3) == [0xFF, 3, 2, 0] + ([0x02, 0x03, 0, 0, 7, 0xFF] + [1, 2, 3, 4, 2, 0])
            && Blob(c, 2) == [0xFF, 2, 2, 0] + ([0x02, 0x03, 0, 0, 7] + [1, 2, 3, 4, 2])
            && Blob(c, 1) == [2, 0] + ([0x02, 0x03, 0, 0] + [1, 2, 3, 4])
  {
    EntryVectors();
    hide EntryBytes, EntriesBytes, LittleEndian;
    var root, child := Endpoint(0x0302, 7, 0xFF), Endpoint(0x04030201, 2, 0);
    TwoBytes(2, 0);
    TwoEntries(root, child, 1);
    TwoEntries(root, child, 2);
    TwoEntries(root, child, 3);
  }

  lemma EntryVectors()
    ensures var root := Endpoint(0x0302, 7, 0xFF);
            && EntryBytes(root, 1) == [0x02, 0x03, 0, 0] && EntryBytes(root, 2) == [0x02, 0x03, 0, 0, 7]
            && EntryBytes(root, 3) == [0x02, 0x03, 0, 0, 7, 0xFF]
    ensures var child := Endpoint(0x04030201, 2, 0);
            && EntryBytes(child, 1) == [1, 2, 3, 4] && EntryBytes(child, 2) == [1, 2, 3, 4, 2]
            && EntryBytes(child, 3) == [1, 2, 3, 4, 2, 0]
  {
    hide LittleEndian;
    FourBytes(0x02, 0x03, 0, 0);
    FourBytes(1, 2, 3, 4);
  }

  lemma TwoEntries(a: Endpoint, b: Endpoint, version: nat)
    requires 1 <= version <= 3
    ensures EntriesBytes([a, b], version) == EntryBytes(a, version) + EntryBytes(b, version)
  {
    hide EntryBytes;
    assert [a, b][..1] == [a] && [a][..0] == [];
    assert EntriesBytes([a], version) == [] + EntryBytes(a, version);
  }

  /** A blob of any version reads back as that version saw it, if its parents are earlier entries; otherwise it is refused. */
  lemma BlobReadsBack(c: seq<Endpoint>, version: nat)
    requires 1 <= version <= 3 && Holdable(c)
    ensures Parse(Blob(c, version)) == if version < 3 || Forest(c) then Some(SeenAll(c, version)) else None
  {
    hide EntriesBytes, ParseEntries, FromLittleEndian;
    HeaderRecognised(c, version);
    EntriesRoundTrip(c, version);
    if version == 3 {
      assert SeenAll(c, 3) == c;
    }
  }

  /** What is written decodes back equal, exactly for compositions whose parents are earlier entries. */
  lemma WriteThenRead(c: seq<Endpoint>)
    requires Holdable(c)
    ensures Parse(Blob(c, 3)) == Some(c) <==> Forest(c)
  {
    BlobReadsBack(c, 3);
    assert SeenAll(c, 3) == c;
  }

  lemma ParsedIsHoldable(b: seq<byte>)
    requires Parse(b).Some?
    ensures Holdable(Parse(b).value) && Forest(Parse(b).value)
  {
    hide ParseEntries, FromLittleEndian, Forest, Fits;
    var version := VersionOf(b);
    var head := if version == 1 then 2 else 4;
    EntriesFit(b[head..], FromLittleEndian(b[head - 2..head]), version);
  }

  /** Every blob that is accepted, of any version, survives being written again as version 3. */
  lemma AcceptedSurvives(b: seq<byte>)
    requires Parse(b).Some?
    ensures Parse(Blob(Parse(b).value, 3)) == Parse(b)
  {
    ParsedIsHoldable(b);
    WriteThenRead(Parse(b).value);
  }

  /** An accepted version 3 blob is written again byte for byte. */
  lemma RewriteIsExact(b: seq<byte>)
    requires Parse(b).Some? && VersionOf(b) == 3
    ensures Blob(Parse(b).value, 3) == b
  {
    hide EntriesBytes, ParseEntries, LittleEndian, FromLittleEndian;
    var n := FromLittleEndian(b[2..4]);
    EntriesRewrite(b[4..], n);
    LittleEndianRewrite(b[2..4]);
    assert b == [b[0], b[1]] + b[2..4] + b[4..];
  }

  // ---- the arrays ----

  lemma WordBytes(v: nat)
    requires v < TWO_TO_32
    ensures Word(v) == [v % 256, v / 256 % 256, v / 65536 % 256, v / 16777216]
  {
    assert LittleEndian(v, 4) == [v % 256] + LittleEndian(v / 256, 3);
    assert LittleEndian(v / 256, 3) == [v / 256 % 256] + LittleEndian(v / 256 / 256, 2);
    assert LittleEndian(v / 256 / 256, 2) == [v / 256 / 256 % 256] + LittleEndian(v / 256 / 256 / 256, 1);
    assert LittleEndian(v / 256 / 256 / 256, 1) == [v / 256 / 256 / 256 % 256] + LittleEndian(v / 256 / 256 / 256 / 256, 0);
    assert v / 256 / 256 == v / 65536 && v / 256 / 256 / 256 == v / 16777216 < 256;
  }

  lemma WordOf(b: seq<byte>)
    requires |b| == 4
    ensures FromLittleEndian(b) == b[0] as int + b[1] as int * 256 + b[2] as int * 65536 + b[3] as int * 16777216
  {
    assert FromLittleEndian(b) == b[0] + 256 * FromLittleEndian(b[1..]);
    assert FromLittleEndian(b[1..]) == b[1] + 256 * FromLittleEndian(b[1..][1..]);
    assert FromLittleEndian(b[1..][1..]) == b[2] + 256 * FromLittleEndian(b[1..][1..][1..]);
    assert FromLittleEndian(b[1..][1..][1..]) == b[3] + 256 * FromLittleEndian(b[1..][1..][1..][1..]);
  }

  lemma NextEntryBytes(c: seq<Endpoint>, i: nat)
    requires i < |c|
    ensures EntriesBytes(c[..i + 1], 3) == EntriesBytes(c[..i], 3) + EntryBytes(c[i], 3)
  {
    assert c[..i + 1][..i] == c[..i];
  }

  lemma NextParsed(b: seq<byte>, i: nat, version: nat)
    requires 1 <= version <= 3 && Bytes(i + 1, version) <= |b|
    ensures ParseEntries(b[..Bytes(i + 1, version)], i + 1, version)
         == ParseEntries(b[..Bytes(i, version)], i, version) + [ParseEntry(b[Bytes(i, version)..Bytes(i + 1, version)], version)]
  {
    hide ParseEntry;
    var more := b[..Bytes(i + 1, version)];
    assert more[..Bytes(i, version)] == b[..Bytes(i, version)];
    assert more[Bytes(i, version)..] == b[Bytes(i, version)..Bytes(i + 1, version)];
  }

  class Endpoints {
    var count: nat
    const devtype: array<nat>
    const variant: array<byte>
    const parent: array<byte>

    /** The arrays have the program's size and are not shared. */
    ghost predicate Arrays() {
      devtype.Length == variant.Length == parent.Length == MAX_ENDPOINTS && variant != parent
      && devtype as object !in {variant as object, parent}
    }

    ghost predicate Valid()
      reads this, devtype
    {
      Arrays() && count <= MAX_ENDPOINTS && forall i :: 0 <= i < count ==> devtype[i] < TWO_TO_32
    }

    ghost function Prefix(n: nat): (c: seq<Endpoint>)
      requires Arrays() && n <= MAX_ENDPOINTS
      reads devtype, variant, parent
      ensures |c| == n && forall i :: 0 <= i < n ==> c[i] == Endpoint(devtype[i], variant[i], parent[i])
    {
      if n == 0 then [] else Prefix(n - 1) + [Endpoint(devtype[n - 1], variant[n - 1], parent[n - 1])]
    }

    ghost function View(): seq<Endpoint>
      requires Arrays() && count <= MAX_ENDPOINTS
      reads this, devtype, variant, parent
    {
      Prefix(count)
    }

    constructor ()
      ensures Valid() && View() == []
      ensures fresh(devtype) && fresh(variant) && fresh(parent)
    {
      count := 0;
      devtype := new nat[MAX_ENDPOINTS](_ => 0);
      variant := new byte[MAX_ENDPOINTS](_ => 0);
      parent := new byte[MAX_ENDPOINTS](_ => 0);
    }

    method PutEntry(buf: array<byte>, off: nat, i: nat)
      requires Valid() && i < count && off + 6 <= buf.Length && buf as object !in {devtype as object, variant, parent}
      modifies buf
      ensures buf[..off + 6] == old(buf[..off]) + EntryBytes(View()[i], 3)
    {
      hide LittleEndian;
      var v := devtype[i];
      WordBytes(v);
      buf[off] := v % 256;
      buf[off + 1] := v / 256 % 256;
      buf[off + 2] := v / 65536 % 256;
      buf[off + 3] := v / 16777216;
      buf[off + 4] := variant[i];
      buf[off + 5] := parent[i];
      assert buf[..off + 6] == buf[..off] + [buf[off], buf[off + 1], buf[off + 2], buf[off + 3]] + [buf[off + 4], buf[off + 5]];
    }

    method PutHeader(buf: array<byte>)
      requires Valid() && 4 <= buf.Length
      modifies buf
      ensures buf[..4] == Header(count, 3)
    {
      buf[0] := SENTINEL;
      buf[1] := VERSION_3;
      buf[2] := count % 256;
      buf[3] := count / 256 % 256;
      CountBytes(count);
      assert buf[..4] == [buf[0], buf[1]] + [buf[2], buf[3]];
    }

    /** Writes the newest form; -1 if the buffer is too small. */
    method Encode(buf: array<byte>, len: nat) returns (n: int)
      requires Valid() && len <= buf.Length && buf as object !in {devtype as object, variant, parent}
      modifies buf
      ensures n == if len < |Blob(View(), 3)| then -1 else |Blob(View(), 3)|
      ensures n >= 0 ==> buf[..n] == Blob(View(), 3)
      ensures n < 0 ==> buf[..] == old(buf[..])
    {
      hide EntryBytes, EntriesBytes, Header;
      ghost var c := View();
      var need := 4 + 6 * count;
      if len < need {
        return -1;
      }
      PutHeader(buf);
      NoEntries(c);
      for i := 0 to count
        invariant Valid() && View() == c
        invariant buf[..4 + 6 * i] == Header(|c|, 3) + EntriesBytes(c[..i], 3)
      {
        NextEntryBytes(c, i);
        Associate(Header(|c|, 3), EntriesBytes(c[..i], 3), EntryBytes(c[i], 3));
        PutEntry(buf, 4 + 6 * i, i);
      }
      assert c[..count] == c;
      return need;
    }

    method Append(e: Endpoint)
      requires Valid() && count < MAX_ENDPOINTS && Fits(e)
      modifies this`count, devtype, variant, parent
      ensures Valid() && View() == old(View()) + [e]
    {
      ghost var before := View();
      parent[count] := e.parent;
      variant[count] := e.variant;
      devtype[count] := e.devtype;
      count := count + 1;
      assert View() == before + [e];
    }

    /** Reads the entries of one form. The object is left half filled when a parent is refused. */
    method DecodeEntries(b: seq<byte>, head: nat, n: nat, version: nat) returns (ok: bool)
      requires Valid() && n <= MAX_ENDPOINTS && 1 <= version <= 3 && |b| == head + Bytes(n, version)
      modifies this`count, devtype, variant, parent
      ensures Valid()
      ensures ok <==> Forest(ParseEntries(b[head..], n, version))
      ensures ok ==> View() == ParseEntries(b[head..], n, version)
    {
      hide ParseEntries, ParseEntry, FromLittleEndian;
      ghost var body := b[head..];
      count := 0;
      WholeBody(body, n, version);
      NothingParsed(version);
      for i := 0 to n
        invariant Valid() && count == i
        invariant View() == ParseEntries(body[..Bytes(i, version)], i, version)
        invariant Forest(View())
      {
        var off := head + Bytes(i, version);
        EntrySlice(b, head, i, n, version);
        NextParsed(body, i, version);
        var e := ReadEntry(b[off..off + 3 + version], version);
        if e.parent != NO_PARENT && e.parent >= i {
          RefusedParent(body, i, n, version);
          return false;
        }
        Append(e);
      }
      return true;
    }

    method Decode(b: seq<byte>) returns (code: int)
      requires Valid()
      modifies this`count, devtype, variant, parent
      ensures Valid()
      ensures code == if Parse(b).Some? then 0 else -1
      ensures code == 0 ==> View() == Parse(b).value
    {
      hide ParseEntries, Forest, FromLittleEndian;
      if |b| < 2 {
        return -1;
      }
      var version := 1;
      if b[0] == SENTINEL {
        if b[1] == VERSION_2 {
          version := 2;
        } else if b[1] == VERSION_3 {
          version := 3;
        } else {
          return -1;
        }
      } else if b[0] > MAX_ENDPOINTS {
        return -1;
      }
      var head := if version == 1 then 2 else 4;
      if |b| < head {
        return -1;
      }
      var n := FromLittleEndian(b[head - 2..head]);
      if n > MAX_ENDPOINTS || |b| != head + Bytes(n, version) {
        return -1;
      }
      var ok := DecodeEntries(b, head, n, version);
      return if ok then 0 else -1;
    }

    /** mt_comp_equal. */
    method Equal(other: Endpoints) returns (same: bool)
      requires Valid() && other.Valid()
      ensures same <==> View() == other.View()
    {
      if count != other.count {
        return false;
      }
      for i := 0 to count
        invariant forall k :: 0 <= k < i ==> View()[k] == other.View()[k]
      {
        if devtype[i] != other.devtype[i] || variant[i] != other.variant[i] || parent[i] != other.parent[i] {
          assert View()[i] != other.View()[i];
          return false;
        }
      }
      return true;
    }
  }

  lemma EntrySlice(b: seq<byte>, head: nat, i: nat, n: nat, version: nat)
    requires 1 <= version <= 3 && i < n && |b| == head + Bytes(n, version)
    ensures Bytes(i, version) + 3 + version == Bytes(i + 1, version) <= Bytes(n, version)
    ensures var off := head + Bytes(i, version);
            b[head..][Bytes(i, version)..Bytes(i + 1, version)] == b[off..off + 3 + version]
  {
  }

  lemma WholeBody(body: seq<byte>, n: nat, version: nat)
    requires 1 <= version <= 3 && |body| == Bytes(n, version)
    ensures body[..Bytes(0, version)] == [] && body[..Bytes(n, version)] == body
  {
  }

  lemma CountBytes(n: nat)
    requires n <= MAX_ENDPOINTS
    ensures Count(n) == [n % 256, n / 256 % 256]
  {
    assert LittleEndian(n, 2) == [n % 256] + LittleEndian(n / 256, 1);
    assert LittleEndian(n / 256, 1) == [n / 256 % 256] + LittleEndian(n / 256 / 256, 0);
  }

  lemma NoEntries(c: seq<Endpoint>)
    ensures EntriesBytes(c[..0], 3) == []
  {
  }

  lemma NothingParsed(version: nat)
    requires 1 <= version <= 3
    ensures forall b: seq<byte> | |b| == 0 :: ParseEntries(b, 0, version) == []
  {
  }

  method ReadEntry(b: seq<byte>, version: nat) returns (e: Endpoint)
    requires 1 <= version <= 3 && |b| == 3 + version
    ensures e == ParseEntry(b, version) && Fits(e)
  {
    WordOf(b[..4]);
    EntryFits(b, version);
    var devtype := b[0] as int + b[1] as int * 256 + b[2] as int * 65536 + b[3] as int * 16777216;
    return Endpoint(devtype, if version >= 2 then b[4] else 0, if version == 3 then b[5] else NO_PARENT);
  }

  lemma {:induction false} ParsedPrefix(b: seq<byte>, i: nat, n: nat, version: nat)
    requires 1 <= version <= 3 && i <= n && |b| == Bytes(n, version)
    ensures ParseEntries(b, n, version)[..i] == ParseEntries(b[..Bytes(i, version)], i, version)
    decreases n
  {
    hide ParseEntry;
    if i == n {
      assert b[..Bytes(n, version)] == b;
    } else {
      var init := b[..Bytes(n - 1, version)];
      ParsedPrefix(init, i, n - 1, version);
      assert init[..Bytes(i, version)] == b[..Bytes(i, version)];
    }
  }

  /** One parent that is no earlier entry refuses the whole blob. */
  lemma RefusedParent(b: seq<byte>, i: nat, n: nat, version: nat)
    requires 1 <= version <= 3 && i < n && |b| == Bytes(n, version)
    requires var e := ParseEntry(b[Bytes(i, version)..Bytes(i + 1, version)], version); e.parent != NO_PARENT && e.parent >= i
    ensures !Forest(ParseEntries(b, n, version))
  {
    hide ParseEntry;
    ParsedPrefix(b, i + 1, n, version);
    NextParsed(b, i, version);
    assert ParseEntries(b, n, version)[i] == ParseEntries(b, n, version)[..i + 1][i];
  }

  // ---- staging ----

  /** What the device-type tables say, whatever they say. */
  datatype Tables = Tables(known: set<nat>, variants: set<(nat, nat)>, parents: set<(nat, nat, nat)>)

  /** None until AT+MTEPCLEAR opens a session. */
  type Session = Option<seq<Endpoint>>

  /** How a write of the stored composition ended; a failed one may have landed all the same. */
  datatype Write = Written | Failed(landed: bool)

  datatype Command = Clear | Add(f: seq<Token>) | Apply(write: Write)

  datatype State = State(session: Session, stored: Option<seq<byte>>)

  /** The field as an unsigned long: a numeral too large saturates. */
  function UnsignedLong(t: Token): Option<nat> {
    if !t.Num? || t.v < 0 then None else Some(if t.v < TWO_TO_32 then t.v else TWO_TO_32 - 1)
  }

  function Added(c: seq<Endpoint>, f: seq<Token>, tables: Tables): (seq<Endpoint>, Reply) {
    if |c| >= MAX_ENDPOINTS then (c, COMP_REJECT)
    else if |f| < 1 || |f| > 3 || UnsignedLong(f[0]).None? then (c, BAD_PARAM)
    else
      var devtype := UnsignedLong(f[0]).value;
      if devtype !in tables.known then (c, UNKNOWN_TYPE)
      else if |f| >= 2 && UnsignedLong(f[1]).None? then (c, BAD_PARAM)
      else
        var variant := if |f| >= 2 then UnsignedLong(f[1]).value else 0;
        if variant > 0xFF || (devtype, variant) !in tables.variants then (c, BAD_PARAM)
        else if |f| == 3 then
          if UnsignedLong(f[2]).None? || UnsignedLong(f[2]).value >= |c| then (c, BAD_PARAM)
          else
            var parent := UnsignedLong(f[2]).value;
            if (devtype, variant, c[parent].devtype) !in tables.parents then (c, BAD_PARAM)
            else (c + [Endpoint(devtype, variant, parent)], Done)
        else if (devtype, variant, 0) !in tables.parents then (c, BAD_PARAM)
        else (c + [Endpoint(devtype, variant, NO_PARENT)], Done)
  }

  /** A field that is a numeral, and the value the parser gives it. */
  predicate Numeral(t: Token) {
    t.Num? && t.v >= 0
  }

  predicate Numerals(f: seq<Token>) {
    1 <= |f| <= 3 && Numeral(f[0]) && (|f| >= 2 ==> Numeral(f[1])) && (|f| == 3 ==> Numeral(f[2]))
  }

  function Saturated(v: int): int {
    if v >= 0x1_0000_0000 then 0xFFFF_FFFF else v
  }

  /** The entry a line asks for: variant 0 unless it names one, no parent unless it names one. */
  predicate AsksFor(f: seq<Token>, e: Endpoint)
    requires Numerals(f)
  {
    && e.devtype == Saturated(f[0].v)
    && (if |f| == 1 then e.variant == 0 else e.variant == Saturated(f[1].v))
    && (if |f| < 3 then e.parent == 0xFF else e.parent == Saturated(f[2].v))
  }

  /** The tables allow the entry behind those already there: a known type, a variant of it, and under its parent, or under none. */
  predicate Allowed(c: seq<Endpoint>, e: Endpoint, tables: Tables) {
    && e.devtype in tables.known && (e.devtype, e.variant as nat) in tables.variants
    && (if e.parent == 0xFF then (e.devtype, e.variant as nat, 0) in tables.parents
        else e.parent < |c| && (e.devtype, e.variant as nat, c[e.parent].devtype) in tables.parents)
  }

  /**
   What AT+MTEP answers. OK exactly if there is room and the line asks for an entry the tables allow, which is then the
   last one; +MTERR:10 when 28 are staged; +MTERR:6 for an unknown type; +MTERR:1 for anything else.
   */
  lemma AddReply(c: seq<Endpoint>, f: seq<Token>, tables: Tables)
    requires |c| <= 28
    ensures var (after, reply) := Added(c, f, tables);
            && (reply == MtErr(10) <==> |c| == 28)
            && (reply == MtErr(6) <==> |c| < 28 && 1 <= |f| <= 3 && Numeral(f[0]) && Saturated(f[0].v) !in tables.known)
            && (reply == Done ==> Numerals(f) && |after| == |c| + 1 && after[..|c|] == c && AsksFor(f, after[|c|]) && Allowed(c, after[|c|], tables))
            && (|c| < 28 && Numerals(f) && (|f| == 3 ==> Saturated(f[2].v) < |c|) && (exists e :: AsksFor(f, e) && Allowed(c, e, tables)) ==> reply == Done)
            && (reply != Done ==> after == c && reply in {MtErr(1), MtErr(6), MtErr(10)})
  {
  }

  function After(s: State, command: Command, tables: Tables): (State, Reply) {
    match command
    case Clear => (s.(session := Some([])), Done)
    case Add(f) =>
      if s.session.None? then (s, COMP_REJECT)
      else (s.(session := Some(Added(s.session.value, f, tables).0)), Added(s.session.value, f, tables).1)
    case Apply(write) =>
      if s.session.None? then (s, COMP_REJECT)
      else if write.Written? then (State(None, Some(Blob(s.session.value, 3))), Done)
      else (s.(stored := if write.landed then Some(Blob(s.session.value, 3)) else s.stored), NOT_PERSISTED)
  }

  /**
   Every answer of the three commands: AT+MTEPCLEAR is always OK; without a session the other two answer +MTERR:10 and
   change nothing; AT+MTEPAPPLY answers OK exactly if the blob is saved, which ends the session, and +MTERR:7 otherwise.
   */
  lemma CommandReplies(s: State, f: seq<Token>, write: Write, tables: Tables)
    ensures After(s, Clear, tables) == (State(Some([]), s.stored), Done)
    ensures s.session.None? ==> After(s, Add(f), tables) == (s, MtErr(10)) && After(s, Apply(write), tables) == (s, MtErr(10))
    ensures s.session.Some? && write == Written ==> After(s, Apply(write), tables) == (State(None, Some(Blob(s.session.value, 3))), Done)
    ensures s.session.Some? && write.Failed? ==>
      var (after, reply) := After(s, Apply(write), tables);
      reply == MtErr(7) && after.session == s.session && after.stored == if write.landed then Some(Blob(s.session.value, 3)) else s.stored
    ensures s.session.Some? ==>
      var (after, reply) := After(s, Add(f), tables);
      after.stored == s.stored && after.session == Some(Added(s.session.value, f, tables).0) && reply == Added(s.session.value, f, tables).1
  {
  }

  /** The staging statics and the three commands. */
  class Staging {
    const staged: Endpoints
    var open: bool

    ghost predicate Valid()
      reads this, staged, staged.devtype
    {
      staged.Valid()
    }

    ghost function View(): Session
      requires Valid()
      reads this, staged, staged.devtype, staged.variant, staged.parent
    {
      if open then Some(staged.View()) else None
    }

    constructor (staged: Endpoints)
      requires staged.Valid()
      ensures Valid() && View() == None && this.staged == staged
    {
      this.staged, open := staged, false;
    }

    /** AT+MTEPCLEAR. */
    method Mtepclear(ghost stored: Option<seq<byte>>, ghost tables: Tables) returns (reply: Reply)
      requires Valid()
      modifies this`open, staged`count
      ensures Valid()
      ensures old(After(State(View(), stored), Clear, tables)) == (State(View(), stored), reply)
    {
      staged.count := 0;
      open := true;
      return Done;
    }

    /** AT+MTEP=: the checks in their order, and one entry written behind the last. */
    method Mtep(f: seq<Token>, tables: Tables, ghost stored: Option<seq<byte>>) returns (reply: Reply)
      requires Valid()
      modifies staged, staged.devtype, staged.variant, staged.parent
      ensures Valid()
      ensures old(After(State(View(), stored), Add(f), tables)) == (State(View(), stored), reply)
    {
      if !open {
        return COMP_REJECT;
      }
      if staged.count >= MAX_ENDPOINTS {
        return COMP_REJECT;
      }
      if |f| < 1 || |f| > 3 {
        return BAD_PARAM;
      }
      var devtype := UnsignedLong(f[0]);
      if devtype.None? {
        return BAD_PARAM;
      }
      if devtype.value !in tables.known {
        return UNKNOWN_TYPE;
      }
      var variant := 0;
      if |f| >= 2 {
        var v := UnsignedLong(f[1]);
        if v.None? {
          return BAD_PARAM;
        }
        variant := v.value;
      }
      if variant > 0xFF || (devtype.value, variant) !in tables.variants {
        return BAD_PARAM;
      }
      var parent: nat := NO_PARENT;
      if |f| == 3 {
        var p := UnsignedLong(f[2]);
        if p.None? || p.value >= staged.count {
          return BAD_PARAM;
        }
        parent := p.value;
        if (devtype.value, variant, staged.devtype[parent]) !in tables.parents {
          return BAD_PARAM;
        }
      } else if (devtype.value, variant, 0) !in tables.parents {
        return BAD_PARAM;
      }
      staged.Append(Endpoint(devtype.value, variant, parent));
      return Done;
    }

    /** AT+MTEPAPPLY: save is what is handed to the key-value store, write how that ends. */
    method Mtepapply(write: Write, ghost stored: Option<seq<byte>>, ghost tables: Tables) returns (reply: Reply, save: Option<seq<byte>>)
      requires Valid()
      modifies this`open
      ensures Valid()
      ensures save.Some? <==> old(open)
      ensures old(After(State(View(), stored), Apply(write), tables))
           == (State(View(), if save.Some? && (write.Written? || write.landed) then save else stored), reply)
    {
      hide EntryBytes, EntriesBytes, Header, LittleEndian;
      if !open {
        return COMP_REJECT, None;
      }
      var buf := new byte[BLOB_MAX];
      var n := staged.Encode(buf, buf.Length);
      assert n >= 0;
      save := Some(buf[..n]);
      if write.Failed? {
        return NOT_PERSISTED, save;
      }
      open := false;
      return Done, save;
    }
  }

  ghost function StateAfter(run: seq<Command>, tables: Tables): State {
    if run == [] then State(None, None) else After(StateAfter(run[..|run| - 1], tables), run[|run| - 1], tables).0
  }

  /** A stored composition that the boot can read: some forest, written in the newest form. */
  ghost predicate Bootable(blob: seq<byte>) {
    Parse(blob).Some? && Forest(Parse(blob).value) && blob == Blob(Parse(blob).value, 3)
  }

  lemma {:induction false} StagedIsForest(run: seq<Command>, tables: Tables)
    ensures var s := StateAfter(run, tables);
            s.session.Some? ==> Holdable(s.session.value) && Forest(s.session.value)
  {
    hide Blob;
    if run != [] {
      StagedIsForest(run[..|run| - 1], tables);
    }
  }

  /** Whatever the host stages, and whatever the tables allow, is written and read back equal. */
  lemma StagedSurvives(run: seq<Command>, tables: Tables)
    requires StateAfter(run, tables).session.Some?
    ensures Parse(Blob(StateAfter(run, tables).session.value, 3)) == StateAfter(run, tables).session
  {
    hide Blob, Parse;
    StagedIsForest(run, tables);
    WriteThenRead(StateAfter(run, tables).session.value);
  }

  /** After every run, failed writes included, what is stored boots as a forest; and an apply answered OK stored what was staged. */
  lemma {:induction false} StoredBoots(run: seq<Command>, tables: Tables)
    ensures StateAfter(run, tables).stored.Some? ==> Bootable(StateAfter(run, tables).stored.value)
    ensures run != [] && run[|run| - 1].Apply? && After(StateAfter(run[..|run| - 1], tables), run[|run| - 1], tables).1 == Done ==>
              StateAfter(run, tables).stored.Some?
              && Parse(StateAfter(run, tables).stored.value) == StateAfter(run[..|run| - 1], tables).session
  {
    hide Blob, Parse, Added;
    if run != [] {
      var before := run[..|run| - 1];
      StoredBoots(before, tables);
      StagedIsForest(before, tables);
      if StateAfter(before, tables).session.Some? {
        StagedSurvives(before, tables);
      }
    }
  }
}
