/**
 The inbound row stage of core/mt/mt_at.c as the code that runs: its statics, and the critical sections and
 buffer accesses of the two tasks as methods. Each method takes one step of the machine in Adjudication.
 */
module InboundStage {
  import opened Prelude
  import opened Rows
  import opened Adjudication

  class InboundStage {
    var committed: bool
    var state: Inbound
    var reading: bool
    var number: nat
    var active: bool
    var ep: nat
    var kind: nat
    var count: nat
    const row: array<Row>

    predicate Valid()
      reads this
    {
      row.Length == MAX_ROWS && count <= MAX_ROWS
    }

    function Buffer(): Staged
      reads this, row
    {
      Staged(active, ep, kind, count, row[..])
    }

    /** The statics are those of w. */
    ghost predicate Shows(w: World)
      reads this, row
    {
      && Valid() && committed == w.committed && state == w.inbound && reading == w.reading && number == w.inboundNumber
      && (committed ==> Buffer() == w.buffer)
    }

    constructor ()
      ensures Shows(Start())
    {
      committed, state, reading, number := false, Unclaimed, false, 0;
      active, ep, kind, count := false, 0, 0, 0;
      row := new Row[MAX_ROWS](_ => NO_ROW);
    }

    method Wipe()
      requires Valid()
      modifies this`active, this`ep, this`kind, this`count, row
      ensures Valid() && Buffer() == Empty()
    {
      for i := 0 to row.Length
        invariant forall j :: 0 <= j < i ==> row[j] == NO_ROW
      {
        row[i] := NO_ROW;
      }
      active, ep, kind, count := false, 0, 0, 0;
      assert row[..] == NoRows();
    }

    /** mt_rows_inbound_commit: once committed it only says so, and without memory it commits nothing. */
    method CommitStorage(memory: bool, ghost w: World) returns (ok: bool)
      requires Shows(w) && w.chip == Resting
      modifies this, row
      ensures ok <==> w.committed || memory
      ensures Shows(if ChipCan(w, Commit) && memory then ChipDo(w, Commit) else w)
    {
      if committed {
        return true;
      }
      if !memory {
        return false;
      }
      Wipe();
      committed := true;
      return true;
    }

    /** The claim: refused while another forward owns the stage, or a read is streaming it. */
    method ClaimStage(ghost w: World) returns (got: bool)
      requires Shows(w) && w.chip == Resting
      modifies this
      ensures got <==> ChipCan(w, Claim)
      ensures got <==> old(state) == Unclaimed && !old(reading) && old(committed)
      ensures Shows(if got then ChipDo(w, Claim) else w)
    {
      got := state == Unclaimed && !reading && committed;
      if got {
        state := Staging;
      }
    }

    /** What the claim does to the buffer once it owns it: wipe it and stamp its identity. */
    method Stamp(ep: nat, kind: nat, ghost w: World)
      requires Shows(w) && w.chip == Filling && committed
      modifies this, row
      ensures Shows(ChipDo(w, Write(Staged(true, ep, kind, 0, NoRows()))))
    {
      Wipe();
      active, this.ep, this.kind := true, ep, kind;
    }

    /** The first critical section of a forward. */
    method ProposeSet(ghost w: World) returns (rows: nat)
      requires Shows(w) && ChipCan(w, Propose) && StageInv(w) && committed
      modifies this`state
      ensures Shows(ChipDo(w, Propose)) && rows == w.buffer.count
    {
      rows := count;
      if state == Staging {
        state := Readable;
      }
    }

    method PublishNumber(mine: nat, ghost w: World)
      requires Shows(w) && ChipCan(w, Publish) && w.rows && mine == w.mine
      modifies this`number
      ensures Shows(ChipDo(w, Publish))
    {
      number := mine;
    }

    /** The last critical section of a forward: no new reader from here on. */
    method CloseSet(ghost w: World)
      requires Shows(w) && ChipCan(w, Close) && StageInv(w)
      modifies this`state
      ensures Shows(ChipDo(w, Close))
    {
      if state == Readable {
        state := Closed;
      }
    }

    /** Clears active and count, never the rows. */
    method ReleaseStage(ghost w: World)
      requires Shows(w) && ChipCan(w, Release) && committed
      modifies this
      ensures Shows(ChipDo(w, Release)) && row[..] == old(row[..])
    {
      active, count := false, 0;
      state, number := Unclaimed, 0;
    }

    /** The critical section of AT+MTROWGET with a number: what it snapshots, if it may read. */
    method TryRead(number: nat, ep: nat, kind: nat, idx: Option<nat>, ghost w: World) returns (total: Option<nat>)
      requires Shows(w) && AtCan(w, BeginRead(number, ep, kind, idx)) && number != 0
      modifies this`reading
      ensures total.Some? <==>
        old(state) == Readable && committed && number == this.number && active && ep == this.ep && kind == this.kind
      ensures total.Some? ==> total.value == count
      ensures Shows(AtDo(w, BeginRead(number, ep, kind, idx)))
    {
      var inbound := state == Readable && this.number == number && committed && active && this.ep == ep && this.kind == kind;
      if !inbound {
        return None;
      }
      reading := true;
      return Some(count);
    }

    /** Reads one row outside any critical section; the step it takes emits the same line. */
    method ReadLine(i: nat, total: nat, ghost w: World) returns (line: Line)
      requires Shows(w) && committed && AtCan(w, EmitLine) && i == NextLine(w.at) && total == w.at.total
      ensures AtDo(w, EmitLine).at.out == w.at.out + [line] && Shows(AtDo(w, EmitLine))
    {
      return Line(i, total, row[i]);
    }

    method FinishRead(ghost w: World)
      requires Shows(w) && AtCan(w, EndRead)
      modifies this`reading
      ensures Shows(AtDo(w, EndRead))
    {
      reading := false;
    }
  }
}
