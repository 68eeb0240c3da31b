/** at_split_args: cuts a comma-separated argument string in place, by writing NULs over its commas (core/at/at_parser.c). */
module ArgSplit {
  import opened Prelude

  const COMMA: byte := 44

  /** The fields between the commas; a string without a comma is one field. */
  function Split(s: seq<byte>): (fields: seq<seq<byte>>)
    ensures fields != []
  {
    if s == [] then [[]]
    else
      var before := Split(s[..|s| - 1]);
      if s[|s| - 1] == COMMA then before + [[]]
      else before[..|before| - 1] + [before[|before| - 1] + [s[|s| - 1]]]
  }

  function Join(fields: seq<seq<byte>>): seq<byte> {
    if fields == [] then []
    else if |fields| == 1 then fields[0]
    else Join(fields[..|fields| - 1]) + [COMMA] + fields[|fields| - 1]
  }

  lemma ExtendLast(fields: seq<seq<byte>>, last: seq<byte>, c: byte)
    ensures Join(fields + [last + [c]]) == Join(fields + [last]) + [c]
  {
    assert (fields + [last + [c]])[..|fields|] == fields && (fields + [last])[..|fields|] == fields;
  }

  lemma NewLast(fields: seq<seq<byte>>)
    requires fields != []
    ensures Join(fields + [[]]) == Join(fields) + [COMMA]
  {
    assert (fields + [[]])[..|fields|] == fields;
  }

  /** Joined by commas the fields are the string again, and none holds a comma. */
  lemma {:induction false} JoinSplit(s: seq<byte>)
    ensures Join(Split(s)) == s
    ensures forall i :: 0 <= i < |Split(s)| ==> 44 !in Split(s)[i]
  {
    hide Join;
    if s == [] {
      assert Join([[]]) == [] by { JoinNothing(); }
    } else {
      var init, c := s[..|s| - 1], s[|s| - 1];
      JoinSplit(init);
      var before := Split(init);
      assert before == before[..|before| - 1] + [before[|before| - 1]];
      if c == COMMA {
        NewLast(before);
      } else {
        ExtendLast(before[..|before| - 1], before[|before| - 1], c);
      }
      assert init + [c] == s;
    }
  }

  lemma JoinNothing()
    ensures Join([[]]) == []
  {
  }

  lemma SplitStep(s: seq<byte>, i: nat)
    requires i < |s|
    ensures var before := Split(s[..i]);
            Split(s[..i + 1]) == if s[i] == COMMA then before + [[]] else before[..|before| - 1] + [before[|before| - 1] + [s[i]]]
  {
    assert s[..i + 1][..i] == s[..i];
  }

  lemma {:induction false} SplitGrows(s: seq<byte>, i: nat)
    requires i <= |s|
    ensures |Split(s[..i])| <= |Split(s)|
    decreases |s| - i
  {
    if i == |s| {
      assert s[..i] == s;
    } else {
      SplitStep(s, i);
      SplitGrows(s, i + 1);
    }
  }

  /** The fields lie in the text one after the other, a separator apart. */
  ghost predicate Laid(fields: seq<seq<byte>>, starts: seq<nat>, a: seq<byte>, end: nat) {
    && |fields| == |starts| && fields != [] && end <= |a|
    && (forall k :: 0 <= k < |starts| ==> starts[k] + |fields[k]| <= end && a[starts[k]..starts[k] + |fields[k]|] == fields[k])
    && (forall k :: 0 <= k < |starts| - 1 ==> starts[k] + |fields[k]| < end && a[starts[k] + |fields[k]|] == 0)
    && starts[|starts| - 1] + |fields[|fields| - 1]| == end
  }

  /** One more plain byte extends the last field. */
  lemma LaidByte(fields: seq<seq<byte>>, starts: seq<nat>, a: seq<byte>, end: nat)
    requires Laid(fields, starts, a, end) && end < |a|
    ensures Laid(fields[..|fields| - 1] + [fields[|fields| - 1] + [a[end]]], starts, a, end + 1)
  {
    var last := |fields| - 1;
    assert a[starts[last]..end + 1] == a[starts[last]..end] + [a[end]];
  }

  /** A comma overwritten with a NUL opens a new field behind it. */
  lemma LaidComma(fields: seq<seq<byte>>, starts: seq<nat>, a: seq<byte>, a': seq<byte>, end: nat)
    requires Laid(fields, starts, a, end) && end < |a| && a' == a[end := 0]
    ensures Laid(fields + [[]], starts + [end + 1], a', end + 1)
  {
    forall k | 0 <= k < |starts| ensures a'[starts[k]..starts[k] + |fields[k]|] == fields[k] {
      assert a'[starts[k]..starts[k] + |fields[k]|] == a[starts[k]..starts[k] + |fields[k]|];
    }
  }

  /**
   The fields of the first len bytes, which hold no NUL: -1 if there are more than max, 0 for an empty string,
   otherwise their number and where each one starts; each then ends at a NUL or at the end of the string.
   */
  method SplitArgs(args: array<byte>, len: nat, max: nat) returns (n: int, starts: seq<nat>)
    requires len <= args.Length && forall k :: 0 <= k < len ==> args[k] != 0
    modifies args
    ensures n == if len == 0 then 0 else if |old(Split(args[..len]))| > max then -1 else |old(Split(args[..len]))|
    ensures n > 0 ==> |starts| == n && Laid(old(Split(args[..len])), starts, args[..len], len)
    ensures n > 0 ==> forall k :: 0 <= k < n ==> 0 !in old(Split(args[..len]))[k]
  {
    hide Split, Laid;
    ghost var s := args[..len];
    starts := [];
    if len == 0 {
      return 0, starts;
    }
    if max == 0 {
      return -1, starts;
    }
    starts := [0];
    NothingLaid(s);
    for i := 0 to len
      invariant forall k :: i <= k < len ==> args[k] == s[k]
      invariant |starts| <= max && Laid(Split(s[..i]), starts, args[..len], i)
    {
      SplitStep(s, i);
      ghost var before := args[..len];
      if args[i] != COMMA {
        LaidByte(Split(s[..i]), starts, before, i);
        continue;
      }
      LaidComma(Split(s[..i]), starts, before, before[i := 0], i);
      LaidLength(Split(s[..i]), starts, before, i);
      args[i] := 0;
      assert args[..len] == before[i := 0];
      if |starts| == max {
        SplitGrows(s, i + 1);
        return -1, starts;
      }
      starts := starts + [i + 1];
    }
    assert s[..len] == s;
    LaidLength(Split(s), starts, args[..len], len);
    FieldsKeepBytes(s);
    return |starts|, starts;
  }

  lemma NothingLaid(s: seq<byte>)
    ensures Laid(Split(s[..0]), [0], s, 0)
  {
  }

  lemma LaidLength(fields: seq<seq<byte>>, starts: seq<nat>, a: seq<byte>, end: nat)
    requires Laid(fields, starts, a, end)
    ensures |fields| == |starts|
  {
  }

  lemma {:induction false} FieldsKeepBytes(s: seq<byte>)
    requires 0 !in s
    ensures forall k :: 0 <= k < |Split(s)| ==> 0 !in Split(s)[k]
  {
    if s != [] {
      FieldsKeepBytes(s[..|s| - 1]);
    }
  }
}
