/**
 The verdict mailbox: one slot for the command a controller is waiting on, and the sequence
 numbers that name it to the host (core/mt/mt_cmdbox.c).
 */
module Cmdbox {
  import opened Prelude

  datatype State = Idle | Pending | Answered

  /** How many numbers are issued before one repeats: zero is never issued. */
  const CYCLE: nat := TWO_TO_32 - 1
  const NO_VERDICT: int := -1

  /** ep, cluster and command only identify the slot; nothing below depends on them. */
  datatype Target = Target(ep: nat, cluster: nat, command: nat)
  datatype Box = Box(state: State, number: nat, verdict: int, target: Target, nextSeq: nat)

  const FRESH: Box := Box(Idle, 0, NO_VERDICT, Target(0, 0, 0), 1)

  function Opened(b: Box, t: Target): Box {
    Box(Pending, b.nextSeq, NO_VERDICT, t, if (b.nextSeq + 1) % TWO_TO_32 == 0 then 1 else (b.nextSeq + 1) % TWO_TO_32)
  }

  predicate Accepts(b: Box, number: nat, verdict: int) {
    (verdict == 0 || verdict == 1) && number != 0 && b.state == Pending && b.number == number
  }

  function AnsweredBox(b: Box, number: nat, verdict: int): Box {
    if Accepts(b, number, verdict) then b.(verdict := verdict, state := Answered) else b
  }

  function TakenVerdict(b: Box, number: nat): int {
    if b.state == Answered && b.number == number then b.verdict else NO_VERDICT
  }

  function Taken(b: Box, number: nat): Box {
    if b.state == Answered && b.number == number then b.(state := Idle, number := 0, verdict := NO_VERDICT) else b
  }

  function ExpiredBox(b: Box, number: nat): Box {
    if b.state == Pending && b.number == number then b.(state := Idle, number := 0) else b
  }

  /** The number the n-th open issues, counting from one. */
  function SeqOf(n: nat): (number: nat)
    requires n > 0
    ensures 1 <= number < TWO_TO_32
  {
    (n - 1) % CYCLE + 1
  }

  /** A box after n opens. */
  predicate Numbered(b: Box, n: nat) {
    && b.nextSeq == SeqOf(n + 1)
    && (b.state != Idle ==> n > 0 && b.number == SeqOf(n))
    && (b.state == Answered <==> b.verdict == 0 || b.verdict == 1)
  }

  lemma NextSeqOf(n: nat)
    requires n > 0
    ensures SeqOf(n + 1) == if (SeqOf(n) + 1) % TWO_TO_32 == 0 then 1 else (SeqOf(n) + 1) % TWO_TO_32
  {
    var r := (n - 1) % CYCLE;
    assert n == (n - 1) / CYCLE * CYCLE + r + 1;
    if r + 1 == CYCLE {
      assert n == ((n - 1) / CYCLE + 1) * CYCLE;
      assert n % CYCLE == 0;
    } else {
      RemainderIs(n, (n - 1) / CYCLE, r + 1);
    }
  }

  lemma RemainderIs(n: nat, q: nat, r: nat)
    requires n == q * CYCLE + r && r < CYCLE
    ensures n % CYCLE == r
  {
  }

  /** Two opens fewer than a whole cycle apart never share a number. */
  lemma NoNumberRepeats(m: nat, n: nat)
    requires 0 < m < n < m + CYCLE
    ensures SeqOf(m) != SeqOf(n)
  {
    var a, b := (m - 1) / CYCLE, (n - 1) / CYCLE;
    assert n - m == (b - a) * CYCLE + (n - 1) % CYCLE - (m - 1) % CYCLE;
    if a < b {
      assert (b - a) * CYCLE >= CYCLE;
    }
  }

  /** Every operation keeps the numbering; only an open advances it. */
  lemma OperationsKeepNumbering(b: Box, n: nat, t: Target, number: nat, verdict: int)
    requires Numbered(b, n)
    ensures Numbered(Opened(b, t), n + 1)
    ensures Numbered(AnsweredBox(b, number, verdict), n) && Numbered(Taken(b, number), n) && Numbered(ExpiredBox(b, number), n)
  {
    NextSeqOf(n + 1);
  }

  class Mailbox {
    var state: State
    var number: nat
    var verdict: int
    var target: Target
    var nextSeq: nat

    function View(): Box
      reads this
    {
      Box(state, number, verdict, target, nextSeq)
    }

    constructor ()
      ensures View() == FRESH
    {
      state, number, verdict, target, nextSeq := Idle, 0, NO_VERDICT, Target(0, 0, 0), 1;
    }

    method Open(t: Target) returns (issued: nat)
      requires nextSeq < TWO_TO_32
      modifies this
      ensures View() == old(Opened(View(), t)) && issued == old(nextSeq) && nextSeq < TWO_TO_32
    {
      target := t;
      number := nextSeq;
      state := Pending;
      verdict := NO_VERDICT;
      nextSeq := (nextSeq + 1) % TWO_TO_32;
      if nextSeq == 0 {
        nextSeq := 1;
      }
      return number;
    }

    method Answer(number: nat, verdict: int) returns (ok: bool)
      modifies this
      ensures ok <==> old(state) == Pending && number == old(this.number) && number != 0 && (verdict == 0 || verdict == 1)
      ensures View() == if ok then old(View()).(state := Answered, verdict := verdict) else old(View())
      ensures View() == old(AnsweredBox(View(), number, verdict))
    {
      if verdict != 0 && verdict != 1 {
        return false;
      }
      if number == 0 {
        return false;
      }
      if state != Pending || this.number != number {
        return false;
      }
      this.verdict := verdict;
      state := Answered;
      return true;
    }

    method Take(number: nat) returns (taken: int)
      modifies this
      ensures taken == old(TakenVerdict(View(), number)) && View() == old(Taken(View(), number))
    {
      if state != Answered || this.number != number {
        return NO_VERDICT;
      }
      taken := verdict;
      state, this.number, verdict := Idle, 0, NO_VERDICT;
    }

    method Expire(number: nat)
      modifies this
      ensures View() == old(ExpiredBox(View(), number))
    {
      if state == Pending && this.number == number {
        state, this.number := Idle, 0;
      }
    }
  }
}
