# Hearth firmware: a verified model

Hearth is a Matter firmware driven by a host over AT commands, with Python tools that flash it. This project
models the parts whose correctness is least obvious from reading them, and proves what they promise.

* `Rows`, `Schedules`, `ScheduleBlob`, `EvseStore`, `EvseFabric`, `EvseRuns`: EVSE charging schedules. Rows are
  staged and validated as a set, merged by day bitmap into a bounded store that is rewritten in place, flattened
  for reading, and persisted as a fixed-width blob. `Schedules` is the meaning on values; `EvseStore.Store` is the
  object with its arrays; `EvseRuns` says what whole runs guarantee.
* `AtCommand`, `RowCommands`, `RowHistory`: AT+MTROW, AT+MTROWCLEAR and AT+MTROWAPPLY over one session that exists
  exactly while a set is staged; `RowHistory` says what runs of them do in terms of the command lines alone.
* `Cmdbox`, `Adjudication`, `Verdicts`, `Healing`, `Service`, `InboundStage`: a controller's command waits for the host's
  verdict. The two tasks are a machine of atomic steps that interleave freely (`Adjudication`); `Verdicts` and
  `Healing` say what every run of it guarantees, `Service` that what is asked rightly is done; `Cmdbox.Mailbox` and `InboundStage.InboundStage` are the running
  code, each method one of those steps.
* `Crc16`, `Base64`, `SmpFraming`, `Cbor`, `CborReading`, `CborGrammar`, `CborRoundTrip`, `SmpFrames`: the serial protocol of the
  bootloader tools.
* `Upload`, `Xmodem`: the two upload loops over an unreliable link.
* `OtaLines`, `OtaMachine`, `OtaAttempt`, `OtaRelay`, `OtaDelivery`, `OtaCode`: the firmware block relay between the
  Matter thread and the AT task, again a machine of interleaved steps, what one download attempt keeps, what the relay
  promises, that a whole file arrives, and the code that takes the steps.
* `Composition`: the endpoint composition, its staging and its three wire forms.
* `QuotedLists`, `LineAssembler`, `ArgSplit`: the command grammars with quoted labels, and how lines are assembled
  and cut into arguments.

What the outside world does is a parameter or is not determined: whether memory, storage and writes succeed, what
the platform's apply answers, which step comes next, what the line loses. A clock appears only as the choice
between a token and a timeout. The semaphore is one bit. Persisted storage is an optional byte string.

Some statements of the design hold only under a condition, which is stated and proved exact:

* The semaphore heals itself exactly when no accepted answer's give is still in flight at the moment the next
  forward opens (`Healing.HealsIffNoGiveInFlight`). With one in flight, the drain runs before the give, the
  stale token is taken, and the forward is denied while its slot is still pending. From the start the code gets
  there when an answer crosses a timeout (`Healing.DeniedFromTheStart`).
* A block download keeps its promises exactly when its preparation was clean (`OtaAttempt.Clean`): the AT task was
  not between the two steps of acknowledging a block of an earlier attempt whose number is the one the new attempt
  will give its first block. That number is zero, or one more for every acknowledgement still queued that counts up
  before the transfer starts (`OtaAttempt.Arriving`). Otherwise the late acknowledgement is counted for the first
  block while it is still pending: DOWNLOADED can be raised for a block nobody acknowledged, the next block is
  copied over a pending one, and a pull can end OK with lines of both. This is exact for each of the three
  (`OtaRelay.AccountsBalance`, `OtaRelay.PendingBlockStays`, `OtaRelay.PullIsExact`), and the code gets there from
  the boot on (`OtaRelay.BothFailFromBoot`).
* AT+MTOTA=0 silences the relay exactly when no block was between its mode check and its critical section
  (`OtaRelay.SwitchedOffIsSilent`).
* An upload that returns has put exactly the image on the device exactly when no reply left over from before it
  reports an offset at or past the end of the image (`Upload.ReturnMeansHeld`).
* A composition survives encoding exactly when every parent is an earlier entry (`Composition.WriteThenRead`);
  everything AT+MTEP can stage is of that kind.

Also from the code rather than its comments: an empty frame is the one frame the serial decoder drops
(`SmpFraming.PacketRecovered`).

## Model

| member | source | states |
|---|---|---|
| Rows.RowStage.Stage | core/mt/mt_rows.c:84-142 | A row is stored exactly when its kind is known, its index is below 70 and every field passes the table; a set for another endpoint or kind is discarded first; a refusal changes nothing. |
| Rows.RowStage.Clear | core/mt/mt_rows.c:144-158 | Discards the pending set only for the endpoint and kind it was staged for; otherwise a value error and no change. |
| Rows.RowStage.Validate | core/mt/mt_rows.c:160-216 | OK exactly for the clear request, or for an active set of that count that is dense with day bitmaps pairwise equal or disjoint. |
| Rows.RowStage.DaysClash | core/mt/mt_rows.c:193-213 | The one-pass owner table finds a clash exactly when two staged bitmaps share a day without being equal. |
| Rows.ClaimDays | core/mt/mt_rows.c:198-212 | One row of that pass: either every day it names is now owned by its bitmap, or the rows so far are not compatible. |
| Rows.Clashing | core/mt/mt_rows.c:207-209 | A day owned by a different bitmap means two staged bitmaps overlap without being equal. |
| Rows.NoClash | core/mt/mt_rows.c:193-213 | If every day has at most one owning bitmap, all bitmaps are pairwise equal or disjoint. |
| Rows.StageRowWellFormed | core/mt/mt_rows.c:84-142 | Staging keeps the set well formed: nothing staged at or past the count, every staged row obeys the field table. |
| Schedules.StoreFits | platform/esp32c6/main/mt_evse.cpp:1788-1810 | Pigeonhole: schedules with non-empty, pairwise disjoint day sets number at most seven. |
| Schedules.MergeLegal | platform/esp32c6/main/mt_evse.cpp:1788-1851 | An acceptable set merged into a legal store gives a legal store; survivors plus new groups never exceed seven. |
| Schedules.MergeByDay | platform/esp32c6/main/mt_evse.cpp:1606-1864 | The merge is a per-day map update: named days get their rows' targets in row order, cleared days are empty, all others keep theirs. |
| Schedules.SubtractDay | platform/esp32c6/main/mt_evse.cpp:345-370 | Dropping days empties exactly those days and keeps every other day's targets. |
| Schedules.SubtractLegal | platform/esp32c6/main/mt_evse.cpp:345-370 | Dropping days keeps the store legal and leaves no schedule touching a dropped day. |
| Schedules.NoEighthGroup | platform/esp32c6/main/mt_evse.cpp:1736-1739 | With seven groups no further day set is disjoint from them, so the seven-group check never refuses an otherwise acceptable set. |
| Schedules.AddEntry | platform/esp32c6/main/mt_evse.cpp:1711-1762 | One more row is acceptable exactly when the SOC rule holds, its days are those of a group or new, and that group has room. |
| Schedules.ValidatedSetMayMissTwoRules | platform/esp32c6/main/mt_evse.cpp:1711-1762 | A set the row codec validated can be rejected by the store only for the SOC rule or for more than ten targets to a bitmap. |
| Schedules.GroupsDisjoint | platform/esp32c6/main/mt_evse.cpp:1725-1758 | The groups formed in order of first appearance are pairwise disjoint, legal day sets. |
| Schedules.FlattenOnDay | platform/esp32c6/main/mt_evse.cpp:1905-1930 | The flattened read-back carries, for each day, exactly that day's targets in order. |
| Schedules.FlattenAcceptable | platform/esp32c6/main/mt_evse.cpp:1882-1932 | What is read back is itself an acceptable set. |
| Schedules.ReadBackFixedPoint | platform/esp32c6/main/mt_evse.cpp:1882-1932 | Merging what was read back changes no day. |
| Schedules.ReadRowIsItsEntry | platform/esp32c6/main/mt_evse.cpp:1911-1928 | The row read back for a target stages as that target on those days. |
| Schedules.ListMergeByDay | platform/esp32c6/main/mt_evse.cpp:760-912 | Merging a controller's flattened list with the days its entries name gives every named day its entry's targets, none included, and keeps the rest. |
| ScheduleBlob.BlobRoundTrip | platform/esp32c6/main/mt_evse.cpp:375-471 | Decoding an encoded store restores it, whatever bytes follow in the buffer. |
| ScheduleBlob.ParsedStorable | platform/esp32c6/main/mt_evse.cpp:409-471 | Arbitrary bytes that decode at all give at most seven schedules obeying the whole invariant. |
| ScheduleBlob.TargetRoundTrip | platform/esp32c6/main/mt_evse.cpp:388-401 | The twelve bytes of a target read back as that target. |
| ScheduleBlob.TargetParses | platform/esp32c6/main/mt_evse.cpp:440-462 | Exactly which twelve bytes are a target, byte by byte, and what they say. |
| ScheduleBlob.BlobVector | platform/esp32c6/main/mt_evse.cpp:375-404 | A store of two schedules and three targets in its bytes. |
| ScheduleBlob.Blob | platform/esp32c6/main/mt_evse.cpp:375-404 | The encoding of every storable schedule fits 856 bytes. |
| Prelude.LittleEndianRoundTrip | platform/esp32c6/main/mt_evse.cpp:194-220 | Reading what the little-endian helpers wrote gives the value back. |
| Prelude.LittleEndianRewrite | platform/esp32c6/main/mt_evse.cpp:194-220 | Writing a value read from bytes gives those bytes. |
| EvseStore.Store.Apply | platform/esp32c6/main/mt_evse.cpp:1606-1864 | The whole call against the store's snapshot: clear, unreadable, refused or merged, with its code, contents, loaded flag and persisted bytes. |
| EvseStore.Store.Commit | platform/esp32c6/main/mt_evse.cpp:1711-1864 | Groups, checks, merges and persists; a refusal leaves the loaded store and its blob as they were. |
| EvseStore.Store.MergeStaged | platform/esp32c6/main/mt_evse.cpp:1711-1851 | Accepts exactly the acceptable sets and then holds the specified merge; the fit check cannot fail. |
| EvseStore.Store.MergeGroups | platform/esp32c6/main/mt_evse.cpp:1812-1851 | The second pass, all writes in bounds, produces survivors followed by the filled groups. |
| EvseStore.GroupRows | platform/esp32c6/main/mt_evse.cpp:1711-1762 | The read-only first pass accepts exactly the acceptable row sets and describes their groups. |
| EvseStore.JoinGroup | platform/esp32c6/main/mt_evse.cpp:1727-1761 | A row joins the group of its bitmap or opens one, exactly when its days are a group's or disjoint from all and ten targets are not exceeded. |
| EvseStore.Store.SubtractDays | platform/esp32c6/main/mt_evse.cpp:345-370 | The in-place compaction computes the specified subtraction and refreshes the views. |
| EvseStore.Store.Encode | platform/esp32c6/main/mt_evse.cpp:375-404 | Writes exactly the specified blob into the fixed buffer. |
| EvseStore.Store.Decode | platform/esp32c6/main/mt_evse.cpp:409-471 | Reads exactly what parsing specifies; on anything else the store is empty. |
| EvseStore.Store.DropIfVariantMismatch | platform/esp32c6/main/mt_evse.cpp:514-538 | Empties a store in which some target breaks the SOC rule and keeps any other. |
| EvseStore.Store.LoadTargets | platform/esp32c6/main/mt_evse.cpp:920-978 | Serves the persisted schedule, or nothing if it is absent, corrupt or of the other variant; an unreadable one leaves the loaded flag alone. |
| EvseStore.Store.Save | platform/esp32c6/main/mt_evse.cpp:541-564 | Persists the encoding of the store; a failed write may or may not have landed. |
| EvseStore.Store.GetRow | platform/esp32c6/main/mt_evse.cpp:1882-1932 | Row idx of the flattened sequence, or a value error past its end. |
| EvseStore.Store.RowTotal | platform/esp32c6/main/mt_evse.cpp:329-336 | The number of flattened rows. |
| EvseStore.Store.GetTargets | platform/esp32c6/main/mt_evse.cpp:1006-1027 | Views over every schedule after a retried load; fails exactly while the store is unreadable. |
| EvseStore.FitNeverRejects | platform/esp32c6/main/mt_evse.cpp:1788-1810 | Survivors plus groups never exceed seven. |
| EvseFabric.SetTargets | platform/esp32c6/main/mt_evse.cpp:733-912 | A controller's write: Busy if the stage cannot be claimed, the staging error or InvalidCommand of a list that has no row form or does not decode, nothing without the host's verdict, a list naming no day is a no-op, anything else merges through the same apply. |
| EvseFabric.StageList | platform/esp32c6/main/mt_evse.cpp:760-835 | Flattens a list into the inbound stage and collects the days its entries name; a target without a row form among the first seventy is a ConstraintError, more than seventy otherwise ResourceExhausted. |
| EvseFabric.ListRefusal | platform/esp32c6/main/mt_evse.cpp:760-835 | The staging error of a list in numbers: a row without a day or with a target out of its ranges among the first seventy; or else more than seventy rows. |
| EvseStore.Store.ClearTargets | platform/esp32c6/main/mt_evse.cpp:1035-1042 | A controller's ClearTargets against the snapshot: empty in memory, the loaded flag as it was, the entry replaced unless the write failed. |
| EvseStore.Store.EraseAll | platform/esp32c6/main/mt_evse.cpp:1934-1966 | The factory reset's part: empty in memory first, then the entry gone unless the erase failed. |
| EvseRuns.ApplyByDay | platform/esp32c6/main/mt_evse.cpp:1606-1864 | Every answered apply, day by day; a value error leaves the loaded contents unchanged, and is given exactly for unacceptable sets. |
| EvseRuns.ValidatedApplyByDay | platform/esp32c6/main/mt_evse.cpp:1606-1864 | After an OK apply of a validated set, every day of a row holds the targets of that row's bitmap in row order. |
| EvseRuns.ApplyKeepsStoreLegal | platform/esp32c6/main/mt_evse.cpp:1788-1851 | Every apply leaves a legal store of at most seven schedules. |
| EvseRuns.EveryRunKeepsStoreLegal | platform/esp32c6/main/mt_evse.cpp:1606-1864 | From any persisted bytes, every state of every run of applies, controller writes and clears, factory resets, reads and reboots is a legal store. |
| EvseRuns.ClearTargetsEmpties | platform/esp32c6/main/mt_evse.cpp:1035-1042 | A successful ClearTargets empties the store for this boot and the next; after a failed one it reads as empty exactly if it had been loaded or its entry serves nothing. |
| EvseRuns.ApplyThenReboot | platform/esp32c6/main/mt_evse.cpp:541-564 | An OK is durable: a reboot serves exactly what the apply left. |
| EvseRuns.FailedWriteIsOldOrNew | platform/esp32c6/main/mt_evse.cpp:1852-1864 | After a persistence error a reboot serves the old schedule or the new one, nothing else. |
| EvseRuns.FabricWriteByDay | platform/esp32c6/main/mt_evse.cpp:733-912 | A controller's write of a validated list: which of Busy, InvalidCommand, Success and Failure it answers, exactly; once allowed and readable every named day holds its entry's targets and the others are kept; otherwise nothing changes. |
| EvseRuns.ReadBackApplies | platform/esp32c6/main/mt_evse.cpp:1882-1932 | Staging every row read back at its own index passes validation exactly if no further row of that endpoint was staged before, and applying it changes no day. |
| EvseRuns.HostApplyRefusal | platform/esp32c6/main/mt_evse.cpp:1711-1762 | A validated non-zero set that reached a readable store is refused exactly if some row gives no charge level where levels are supported, or one other than 100 where they are not, or if more than ten rows carry one bitmap. |
| EvseRuns.HostApplyByDay | core/mt/mt_at.c:2997-3122 | From command lines to days: an OK apply stores on each day the targets, minute, charge level and energy, of the lines last accepted at each index that name that day, in index order. |
| EvseRuns.HostClearEmpties | core/mt/mt_at.c:3042-3097 | A count of zero empties the store whatever is staged. |
| RowCommands.Session.MtRow | core/mt/mt_at.c:2813-2908 | AT+MTROW: the checks in order, the session opened last, the row staged, an empty session freed again. |
| RowCommands.Session.MtRowClear | core/mt/mt_at.c:2924-2970 | AT+MTROWCLEAR: discards the matching set and frees the session, or a value error and no change. |
| RowCommands.Session.MtRowApply | core/mt/mt_at.c:2997-3122 | AT+MTROWAPPLY: what reaches the bridge, what is answered, and what is left of the session. |
| RowCommands.Session.Open | core/mt/mt_at.c:2422-2437 | An open session is returned as it stands; a fresh one needs memory. |
| RowCommands.Session.Retire | core/mt/mt_at.c:2450-2462 | Frees the session exactly when nothing is staged in it. |
| RowCommands.CommandKeepsSession | core/mt/mt_at.c:2339-2350 | After every command the session is allocated exactly when a set is staged. |
| RowCommands.OnlyApplyReportsTheModel | core/mt/mt_at.c:2708-2730 | Staging and clearing answer only OK, ERROR, +MTERR:1 or +MTERR:3 and call no bridge; what the bridge answers an apply is reported code by code, and +MTERR:7 only when it failed to persist. |
| RowHistory.RowReply | core/mt/mt_at.c:2813-2908 | The reply of AT+MTROW, for every line: OK exactly for seven fields with an endpoint up to 65535, kind 1, an index below 70, days 1 to 127, a minute below 1440, a charge level blank or up to 100 and an energy blank or up to 2^63 - 1, one of the two given, and a session or memory for one; every other answer with its condition. |
| RowHistory.LineIsStaged | core/mt/mt_at.c:2857-2891 | Over every run: such a line is answered OK, and its row then holds the fields of the line, days, minute, charge level and energy each in its place, a blank as absent. |
| RowHistory.SessionIsItsHistory | core/mt/mt_at.c:2813-3122 | Over every run, told by the command lines alone: row i of the session holds the fields of the line last accepted for index i since the set was opened or retargeted. |
| RowHistory.ClearReply | core/mt/mt_at.c:2924-2970 | AT+MTROWCLEAR answers OK exactly for the endpoint and kind of the lines staged. |
| RowHistory.ApplyReachesBridge | core/mt/mt_at.c:3033-3108 | After any run of commands a non-zero apply reaches the bridge iff the lines accepted since the set was opened are of its endpoint and kind, reach up to its count with no gap and name days pairwise equal or disjoint; row i handed over is then the line last accepted for i. Count zero always reaches it, without rows; a refused one changes nothing. |
| RowHistory.ApplyCanBeRetried | core/mt/mt_at.c:3094-3122 | After any run: an apply the bridge failed reaches it again with exactly the same rows; one it carried out, or a count of zero, ends the set, so that no later apply carries a row and every clear is refused. |
| Cmdbox.Mailbox.Open | core/mt/mt_cmdbox.c:37-54 | Opens the slot under the next number, which wraps past zero. |
| Cmdbox.Mailbox.Answer | core/mt/mt_cmdbox.c:56-82 | Accepts exactly a verdict of 0 or 1 for the pending number, and then holds it; anything else changes nothing. |
| Cmdbox.Mailbox.Take | core/mt/mt_cmdbox.c:84-95 | Hands out the answered verdict of that number once. |
| Cmdbox.Mailbox.Expire | core/mt/mt_cmdbox.c:97-103 | Drops the slot only while that number is pending. |
| Cmdbox.NoNumberRepeats | core/mt/mt_cmdbox.c:46-51 | No number is issued twice within 2^32 - 1 opens. |
| Cmdbox.OperationsKeepNumbering | core/mt/mt_cmdbox.c:37-103 | Only an open advances the numbering; the slot always carries the latest number. |
| Verdicts.EveryRunKeepsInv | core/mt/mt_at.c:2121-2317 | The invariants of slot, stage, offers, reads and log hold in every interleaving. |
| Verdicts.AllowedOnlyByTheHost | core/mt/mt_at.c:2121-2317 | A forward returns true only if verdict 1 was accepted for its own number after its slot was opened, and was collected. |
| Verdicts.AnsweredAndCollectedOnce | core/mt/mt_at.c:2173-2208 | Each forward accepts at most one verdict, and each accepted verdict is collected at most once. |
| Verdicts.NoAnswerAfterTimeout | core/mt/mt_at.c:2181-2208 | After a timeout return no answer for that number is accepted before the counter has gone all the way round. |
| Service.AnswerIsTaken | core/mt/mt_cmdbox.c:56-82 | In every reachable world with the AT task free, an answer is accepted exactly if the slot is pending and it names its number with verdict 0 or 1; any other changes nothing. |
| Service.AnswerIsReturned | core/mt/mt_at.c:2173-2208 | While a forward waits, either verdict of the host, given and collected, is what the forward returns. |
| Service.ForwardGoesThrough | core/mt/mt_at.c:2598-2698 | From any reachable world at rest with the storage committed, a forward of any set can be made to reach its merge: offered under the next number, answered with either verdict, given, collected, returned, and what stands to be merged is that set. |
| Service.ClaimIsGranted | core/mt/mt_at.c:2598-2617 | In every reachable world with no forward under way the stage can be claimed exactly if its storage is there and nobody still reads. |
| Healing.SelfHealing | core/mt/mt_at.c:2146-2208 | With no give in flight at the open and a host that answers only numbers it has seen, a taken token means an answered slot and the result is its verdict. |
| Healing.HealsIffNoGiveInFlight | core/mt/mt_at.c:2153-2173 | That holds for every continuation exactly when no accepted answer's give was in flight at the open. |
| Healing.StaleGiveDecides | core/mt/mt_at.c:2300-2316 | With a give in flight at the open there is a run that denies the forward with its slot still pending. |
| Healing.StaleGiveIsReachable | core/mt/mt_at.c:2187-2201 | From the start there is a run, an answer crossing a timeout, after which a forward can open with a give in flight. |
| Healing.DeniedFromTheStart | core/mt/mt_at.c:2121-2317 | So from the start a second forward can be denied by a token that is not its own. |
| Verdicts.MergedSetWasAllowed | core/mt/mt_at.c:2643-2698 | In every interleaving, what is merged after a verdict is the very set offered under the number of that forward, and the host answered that number with 1. |
| Healing.EarlyAnswerIsLost | core/mt/mt_at.c:2300-2316 | A verdict answered before the number is on the wire can be accepted, given, drained and never taken. |
| Healing.TimeoutLeavesNothing | core/mt/mt_at.c:2187-2201 | A timed-out forward that finds no give in flight at its second drain leaves no token and no give until the next open. |
| Verdicts.OfferIsTheFilledSet | core/mt/mt_at.c:2643-2680 | The set served under a number is the set as the CHIP task had filled it when it proposed it. |
| Verdicts.ReadAnswersTheStagedSet | core/mt/mt_at.c:3212-3343 | Every AT+MTROWGET with a number that finishes answered exactly the set staged when that number was opened, however the forward ended. |
| Service.PublishedIsServed | core/mt/mt_at.c:3296-3319 | In every reachable world with the AT task free, a read is started exactly if a rows forward has published its number and is not closed and the read names that number, endpoint and kind of an active set; any other number, endpoint or kind leaves the world unchanged. |
| Service.ReadIsAnswered | core/mt/mt_at.c:3296-3343 | And such a read, by AT steps alone, ends having answered all that was asked of that offer. |
| Verdicts.ReadHoldsTheBuffer | core/mt/mt_at.c:2598-2698 | While a read is in flight no claim is granted, no step changes the rows, and the read itself is never stuck. |
| InboundStage.InboundStage.ClaimStage | core/mt/mt_at.c:2598-2617 | The claim is granted exactly when nobody owns the stage, no read is in flight and the storage is committed. |
| InboundStage.InboundStage.Stamp | core/mt/mt_at.c:2623-2641 | The owner wipes the buffer and stamps the set with its endpoint and kind. |
| InboundStage.InboundStage.CommitStorage | core/mt/mt_at.c:2577-2596 | True exactly if the storage was committed already or there is memory for it; only the first commit wipes it and takes the commit step. |
| InboundStage.InboundStage.ProposeSet | core/mt/mt_at.c:2643-2654 | The first critical section of a rows forward makes the set readable and reports its own count. |
| InboundStage.InboundStage.PublishNumber | core/mt/mt_at.c:2141-2144 | The number is published before the line is written. |
| InboundStage.InboundStage.CloseSet | core/mt/mt_at.c:2672-2678 | After the verdict no new reader is admitted. |
| InboundStage.InboundStage.FinishRead | core/mt/mt_at.c:3338-3342 | The end of a read gives the buffer up. |
| InboundStage.InboundStage.TryRead | core/mt/mt_at.c:3296-3319 | A read starts exactly for the published number, endpoint and kind of a readable, active set, and snapshots its count. |
| InboundStage.InboundStage.ReleaseStage | core/mt/mt_at.c:2682-2698 | A release clears the ownership and never the rows. |
| InboundStage.InboundStage.ReadLine | core/mt/mt_at.c:3326-3337 | A line is read from the buffer outside the critical section, as the machine's step emits it. |
| Crc16.Crc16Xmodem | platform/nrf54l15/fw/smp.py:248-262 | The shift loop computes the register the message laws are about. |
| Crc16.CheckValue | platform/nrf54l15/fw/smp.py:248-262 | The digits 1 to 9 give 0x31C3. |
| Crc16.AppendedCrcLeavesZero | platform/nrf54l15/fw/smp.py:554-564 | Appending the CRC most significant byte first always gives residue zero. |
| Crc16.AdjacentChangeChangesCrc | platform/silabs/fw/xmodem.py:37-43 | A change within two adjacent bytes changes the CRC, for messages of every length. |
| Crc16.DamagedBodyNeverChecks | platform/nrf54l15/fw/smp.py:554-564 | A body differing from a valid one only within two adjacent bytes never has residue zero. |
| Base64.DecodeEncode | platform/nrf54l15/fw/smp.py:481-499 | Base 64 decoding inverts encoding. |
| Base64.QuantumIsA24BitGroup | platform/nrf54l15/fw/smp.py:485 | Three bytes are one 24-bit group of four 6-bit digits, as section 4 of RFC 4648 has it. |
| Base64.TestVectors | platform/nrf54l15/fw/smp.py:485 | The test vectors of section 10 of RFC 4648. |
| Base64.AlphabetInOrder | platform/nrf54l15/fw/smp.py:485 | The alphabet of table 1 of RFC 4648. |
| Base64.DigitsDecode | platform/nrf54l15/fw/smp.py:543-547 | Text of the alphabet alone decodes exactly if it is whole quanta; the padding it lacks completes it whatever follows, and less padding does not. |
| Base64.JunkIsSkipped | platform/nrf54l15/fw/smp.py:543-547 | A character outside the alphabet is as good as absent, wherever it stands. |
| Base64.EncodeSplits | platform/nrf54l15/fw/smp.py:487-498 | Cutting the text after whole quanta cuts the bytes after as many triples, so lines decode one by one. |
| SmpFraming.SerialEncode | platform/nrf54l15/fw/smp.py:481-499 | Produces the specified wire lines, or the overflow error for a frame whose length does not fit. |
| SmpFraming.SerialDecoder.Feed | platform/nrf54l15/fw/smp.py:515-527 | Any call leaves the state and yields the frames that the stream semantics specifies, whatever was fed before. |
| SmpFraming.SerialDecoder.FeedOneLine | platform/nrf54l15/fw/smp.py:529-564 | The line step: markers, reset on start, base 64, length and CRC. |
| SmpFraming.ChunkingIrrelevant | platform/nrf54l15/fw/smp.py:515-527 | How the stream is cut into calls makes no difference. |
| SmpFraming.StreamReassembled | platform/nrf54l15/fw/smp.py:481-564 | The packets of f1..fn, with ignored lines anywhere in between and in any chunking, yield exactly f1..fn. |
| SmpFraming.PacketRecovered | platform/nrf54l15/fw/smp.py:529-564 | From any accumulation, the lines of a packet yield exactly its frame; only the empty frame yields nothing. |
| SmpFraming.RecoversAfterJunk | platform/nrf54l15/fw/smp.py:515-564 | After any junk ended by a newline the next whole packet is recovered. |
| SmpFraming.YieldedIsChecked | platform/nrf54l15/fw/smp.py:546-564 | Whatever is yielded is the checked body of a whole accumulation. |
| SmpFraming.DamagedPacketDropped | platform/nrf54l15/fw/smp.py:529-564 | The lines of a packet damaged within two adjacent bytes of body or CRC yield nothing, from any accumulation, and leave nothing behind. |
| SmpFraming.DamagedStreamReassembled | platform/nrf54l15/fw/smp.py:481-564 | Where some packets of a stream are so damaged, any chunking yields exactly the frames of the others, in order. |
| SmpFraming.WireIsPacketLines | platform/nrf54l15/fw/smp.py:487-499 | A packet on the wire is newline-free packet lines, each terminated. |
| SmpFraming.LinesAreCut | platform/nrf54l15/fw/smp.py:487-498 | Line i of a packet carries characters 124 i to 124 i + 123 of the base 64, the first line behind 06 09 and the others behind 04 14, and there are no more lines than that takes. |
| SmpFraming.RawBytes | platform/nrf54l15/fw/smp.py:483-486 | What the base 64 carries: the length of frame and CRC, high byte first, the frame, its CRC. |
| CborReading.DecodeRender | platform/nrf54l15/fw/smp.py:345-438 | However a value is written, definite or indefinite, with any head width, decoding gives it back and consumes exactly its bytes. |
| CborGrammar.DecodesExactly | platform/nrf54l15/fw/smp.py:345-444 | The decoder takes exactly the ways of writing a value, tags, stops under tags and the sentinel as an item included, and reads from each the value it writes; on anything else it raises. |
| CborGrammar.DocOf | platform/nrf54l15/fw/smp.py:345-438 | Whatever is decoded was written there: the document is found, and the bytes are its rendering followed by what was left. |
| CborRoundTrip.RoundTrip | platform/nrf54l15/fw/smp.py:269-444 | Every value whose integers fit sixty-four bits and whose lengths do, of whatever shape, is encoded, and decodes from exactly its bytes. |
| CborRoundTrip.IndefiniteRoundTrip | platform/nrf54l15/fw/smp.py:380-434 | The indefinite-length form of the same value decodes to it as well. |
| CborRoundTrip.EncodeIsRender | platform/nrf54l15/fw/smp.py:269-308 | The encoder writes the definite form with the shortest heads (RFC 8949 section 3). |
| CborRoundTrip.EncoderDomain | platform/nrf54l15/fw/smp.py:269-308 | The encoder answers exactly for the values in which every integer, keys and nested items included, and every length fits sixty-four bits, with no limit on shape or number of entries. |
| CborRoundTrip.TestVectors | platform/nrf54l15/fw/smp.py:269-308 | Examples of appendix A of RFC 8949, byte for byte. |
| CborRoundTrip.NestedVectors | platform/nrf54l15/fw/smp.py:297-308 | And of a list and a map. |
| CborRoundTrip.PutFresh | platform/nrf54l15/fw/smp.py:420-434 | A dictionary filled under new keys keeps their order. |
| CborRoundTrip.PutExisting | platform/nrf54l15/fw/smp.py:420-434 | A key that comes again changes its value alone: it keeps its place and its spelling. |
| CborRoundTrip.BootloaderReply | platform/nrf54l15/fw/smp.py:345-438 | The bytes of an indefinite-length reply map decode to it. |
| SmpFrames.DecodeFrames | platform/nrf54l15/fw/smp.py:458-478 | The splitting loop yields the specified frames, or the exception of a payload. |
| SmpFrames.FrameRoundTrip | platform/nrf54l15/fw/smp.py:451-478 | A request that can be sent reads back with its fields cut to their widths. |
| SmpFrames.FrameDomain | platform/nrf54l15/fw/smp.py:451-455 | A frame is built exactly for a payload that can be encoded in at most 65535 bytes. |
| SmpFrames.HeaderBytesOnTheWire | platform/nrf54l15/fw/smp.py:451-455 | One request byte by byte: operation, flags, length, group, sequence number, command, then the payload. |
| SmpFrames.UploadIsSendable | platform/nrf54l15/fw/flash.py:280-286 | Every upload frame of the tool can be sent: data and digest of up to 512 bytes, an offset and a size of sixty-four bits. |
| SmpFrames.FramesRoundTrip | platform/nrf54l15/fw/smp.py:451-478 | Concatenated frames, and an incomplete one behind them, split into the requests in order. |
| SmpFrames.RequestOverTheWire | platform/nrf54l15/fw/smp.py:451-564 | End to end: after any junk a request sent over the line arrives as itself. |
| Upload.Upload | platform/nrf54l15/fw/flash.py:271-327 | The loop with its counters computes the specified run, whatever replies are left over. |
| Upload.ReturnMeansHeld | platform/nrf54l15/fw/flash.py:271-327 | A normal return means the device holds exactly the image, over all first numbers and any lost, late, stale or repeated replies, exactly if no reply left over from before reports an offset at or past the end of the image. |
| Upload.CarriedUpload | platform/nrf54l15/fw/flash.py:279-325 | Over a link that takes every frame and reads its own reply, whatever replies are left over: after k frames the device holds the first 512 k bytes of the image or all of it, and the upload returns after exactly (size + 511) / 512 of them. |
| Upload.HealedLinkFinishes | platform/nrf54l15/fw/flash.py:279-325 | From any moment of any run, without harmful leftovers, at which the uploader goes on, does not lead the device and has not seen five replies in a row without progress, a link that carries everything from then on brings it to its normal return with the whole image held. |
| Upload.RunIsWhatWasHeard | platform/nrf54l15/fw/flash.py:289-324 | Over every run, from the replies heard alone: it dies exactly at an error code, a missing offset, the sixth silence in a row or the sixth reply in a row without progress, returns exactly when the last offset reaches the end, and otherwise goes on. |
| Upload.RepliesInTurn | platform/nrf54l15/fw/flash.py:276-288 | Each reply read carries the number of its frame: the first, then the next one, modulo 256, after each reply. |
| Upload.LeftoverEndsIt | platform/nrf54l15/fw/flash.py:279-321 | With such a leftover reply an upload can return with nothing sent. |
| Upload.RunsEnd | platform/nrf54l15/fw/flash.py:285-324 | Whatever is left over, a run is bounded by how often reported offsets fall; if they never fall it ends. |
| Upload.StepUsesFuel | platform/nrf54l15/fw/flash.py:285-324 | An iteration that goes on uses up bytes, no-progress replies or silences, unless the offset fell. |
| Upload.StepKeepsSafe | platform/nrf54l15/fw/flash.py:281-324 | The device holds a prefix of the image, and the end is reported only once it holds all of it. |
| Xmodem.Send | platform/silabs/fw/xmodem.py:62-82 | It fails exactly if the receiver never asks, the block size is not 128 or 1024 and there is something to send, or is zero, a block ends in a cancel, a silence or one NAK more than it may be sent again, or the end is not acknowledged; a normal return means the receiver got exactly the padded image, in the reported number of blocks, whatever was NAKed or received twice, and was told the end. |
| Xmodem.SendBlock | platform/silabs/fw/xmodem.py:66-79 | A block is sent until an answer settles it: acknowledged, and then stored exactly once, in turn; or cancelled, unanswered, or refused once more than it may be sent again. |
| Xmodem.BuiltBlockIsIntact | platform/silabs/fw/xmodem.py:46-51 | A built block passes the receiver's checks and carries its filled payload. |
| Xmodem.BlockBytes | platform/silabs/fw/xmodem.py:46-51 | The header, fill and trailer of a block byte by byte: 1 or 2 for its size, the number, its complement; 1A; the CRC behind it. |
| Xmodem.OnlyTheSentFrameIsIntact | platform/silabs/fw/xmodem.py:37-51 | A block damaged within two adjacent bytes is never taken for the one sent. |
| Xmodem.PaddedIsImageAndFill | platform/silabs/fw/xmodem.py:46-51 | The padded image is the image followed by fill up to a whole number of blocks. |
| OtaMachine.PendingIsLive | core/mt/mt_ota.c:66-73 | In every interleaving a pending block points into the live buffer. |
| OtaRelay.PullIsExact | core/mt/mt_ota.c:354-406 | From any state a download is prepared in and for as long as it lasts: every pull that ends OK emitted chunks at 0, 96, 192, ... whose hex decodes to exactly the pending block, unless a block of the same number was relayed after its first line; this holds exactly if the preparation was clean, that is, the AT task is not between the two steps of acknowledging the number the first block will get. |
| OtaRelay.PendingBlockStays | platform/common/hearth_ota_requestor.cpp:123-169 | Likewise: while a block is pending the buffer holds it as delivered and no other can be copied over it, exactly if the preparation was clean. |
| OtaRelay.AccountsBalance | platform/common/hearth_ota_requestor.cpp:183-297 | Likewise: the downloaded bytes are those of the blocks delivered and acknowledged, and DOWNLOADED is raised once, when the file is over and every block of it was acknowledged, and never else, exactly if the preparation was clean. |
| OtaRelay.CompleteUnacknowledged | platform/common/hearth_ota_requestor.cpp:256-281 | Otherwise: a run that raises DOWNLOADED for a block nobody acknowledged. |
| OtaRelay.PullMixed | core/mt/mt_ota.c:379-405 | Otherwise: a run in which a pull ends OK with lines of two blocks. |
| OtaRelay.UncleanIsReachable | core/mt/mt_ota.c:409-431 | From the boot on there is a run that ends where a preparation is not clean. |
| OtaRelay.BothFailFromBoot | platform/common/hearth_ota_requestor.cpp:71-297 | So both failures happen in runs from the boot on. |
| OtaDelivery.FileArrives | platform/common/hearth_ota_requestor.cpp:71-297 | What the relay is for: from any state in which the next block can come, a file of any number of blocks of 1 to 1024 bytes, each handed over, pulled and acknowledged, arrives: the pulls put together are exactly the file, every byte is counted, and DOWNLOADED is raised once. |
| OtaDelivery.FileArrivesFromBoot | platform/common/hearth_ota_requestor.cpp:71-297 | And the boot gets there. |
| OtaDelivery.BlockIsPulled | core/mt/mt_ota.c:354-406 | The pull of the block that is out ends OK with all (size + 95) / 96 of its lines, and changes nothing else. |
| OtaDelivery.BlockGoesThrough | platform/common/hearth_ota_requestor.cpp:123-169 | One block delivered, pulled and acknowledged adds exactly itself to what was delivered, counted and pulled, and the next can come. |
| OtaRelay.ReleasedAttemptIsClosed | platform/common/hearth_ota_requestor.cpp:256-272 | Until another download is prepared, no late acknowledgement, scheduled half or command changes what a released attempt came to, raises DOWNLOADED or relays a block. |
| OtaRelay.SwitchedOffIsSilent | core/mt/mt_ota.c:220-238 | After AT+MTOTA=0 no block is handed over until the relay is switched on again, exactly if none was between the mode check and the critical section. |
| OtaLines.RenderHex | core/mt/mt_ota.c:398-403 | The hex loop renders exactly the chunk. |
| OtaLines.LinesDecode | core/mt/mt_ota.c:379-405 | The lines of a block decode back to it, at offsets that are multiples of 96. |
| OtaLines.HexVectors | core/mt/mt_ota.c:398-403 | Upper-case hex, the high half first. |
| OtaCode.Core.SetMode | core/mt/mt_ota.c:328-346 | AT+MTOTA=1 and AT+MTOTA=0 take their steps of the machine. |
| OtaCode.Core.TakeBlock | core/mt/mt_ota.c:225-234 | The critical section takes a block exactly while none is pending, as the machine's step does. |
| OtaCode.Core.Acknowledge | core/mt/mt_ota.c:418-427 | Exactly the pending number is acknowledged, and then nothing is pending. |
| OtaCode.Core.CopyChunk | core/mt/mt_ota.c:382-396 | One chunk under the critical section: the block lost, at its end, or the next bytes of it, as the machine's step emits them. |
| OtaCode.Core.PullBlock | core/mt/mt_ota.c:354-406 | Undisturbed, a pull emits every chunk of the pending block, and they decode to it. |
| OtaCode.ImageProcessor.PrepareDownload | platform/common/hearth_ota_requestor.cpp:71-121 | The buffer and the counters at once, the transfer as scheduled work; refused without ownership or memory. |
| OtaCode.ImageProcessor.CopyBlock | platform/common/hearth_ota_requestor.cpp:125-156 | Refused exactly if the block is longer than 1024 bytes or not empty with a malformed header; otherwise copied into the buffer. |
| OtaCode.ImageProcessor.HandOver | platform/common/hearth_ota_requestor.cpp:157-168 | Handing the block over and arming the timer; fails exactly with the mode off, another block pending or no timer, each leaving what the steps of the machine leave. |
| OtaCode.ImageProcessor.Finalize | platform/common/hearth_ota_requestor.cpp:183-190 | DOWNLOADED is announced here only if nothing is outstanding. |
| OtaCode.ImageProcessor.RunScheduled | platform/common/hearth_ota_requestor.cpp:102-120 | The next scheduled work, in order: an acknowledgement counted, or the second half of a preparation. |
| OtaCode.ImageProcessor.Release | platform/common/hearth_ota_requestor.cpp:350-359 | The core forgets the block before the buffer is freed. |
| Composition.Endpoints.Encode | core/mt/mt_composition.c:12-42 | Writes exactly the version 3 blob, or nothing if the buffer is too small. |
| Composition.Endpoints.Decode | core/mt/mt_composition.c:47-182 | Accepts exactly the blobs the specification parses, and then holds what it parses. |
| Composition.EntriesRewrite | core/mt/mt_composition.c:12-42 | Entries parsed from version 3 bytes are written as those bytes. |
| Composition.Endpoints.Equal | core/mt/mt_composition.c:184-201 | True exactly for equal compositions. |
| Composition.BlobReadsBack | core/mt/mt_composition.c:47-182 | A blob of each version reads back as that version saw the composition; the three are told apart by their first bytes. |
| Composition.BlobVectors | core/mt/mt_composition.c:12-182 | A root and its child in each of the three forms, byte by byte. |
| Composition.WriteThenRead | core/mt/mt_composition.c:12-182 | A composition decodes back equal after encoding exactly when every parent is an earlier entry. |
| Composition.AcceptedSurvives | core/mt/mt_composition.c:157-182 | Every accepted blob, of any version, survives being written again as version 3. |
| Composition.RewriteIsExact | core/mt/mt_composition.c:115-155 | An accepted version 3 blob is written again byte for byte. |
| Composition.ParsedIsHoldable | core/mt/mt_composition.c:47-182 | Whatever is accepted fits the arrays and has only earlier entries as parents. |
| Composition.ChainsEndAtRoots | core/mt/mt_composition.c:143-151 | Every parent chain descends to an entry without a parent. |
| Composition.Staging.Mtepclear | core/mt/mt_at.c:1773-1782 | AT+MTEPCLEAR opens an empty staging session. |
| Composition.Staging.Mtep | core/mt/mt_at.c:1842-1902 | AT+MTEP: rejected without a session, else the checks in order and one entry appended or nothing changed. |
| Composition.AddReply | core/mt/mt_at.c:1842-1902 | AT+MTEP answers OK exactly if there is room and the line asks for an entry the tables allow, variant 0 and no parent unless it names them, and that entry is then the last; +MTERR:10 when 28 are staged, +MTERR:6 for an unknown type, +MTERR:1 for anything else, with nothing changed. |
| Composition.Staging.Mtepapply | core/mt/mt_at.c:1905-1926 | AT+MTEPAPPLY: rejected without a session; a failed save keeps it, a good one ends it; what is handed to the store is the encoding of what was staged. |
| Composition.StagedIsForest | core/mt/mt_at.c:1842-1902 | After every run, what is staged has earlier entries as parents and at most 28 entries. |
| Composition.StagedSurvives | core/mt/mt_at.c:1842-1926 | Whatever can be staged decodes back equal after encoding. |
| Composition.StoredBoots | core/mt/mt_at.c:1905-1926 | After every run, failed writes included, what is stored boots as a forest, and an apply answered OK stored what was staged. |
| QuotedLists.MtList | core/mt/mt_at.c:558-637 | The scanner of AT+MTTEMPLEVELS and AT+MTCHIMESOUNDS computes the specified parse. |
| QuotedLists.MtModes | core/mt/mt_at.c:808-1023 | The scanner of AT+MTMODES, with its disambiguation, computes the specified parse. |
| QuotedLists.ReadItems | core/mt/mt_at.c:1447-1510 | The shared scanning loop: numbers, label, duplicate check, separator. |
| QuotedLists.ListRoundTrip | core/mt/mt_at.c:1422-1520 | Every legal printed list parses as itself, commas inside labels included. |
| QuotedLists.ModesRoundTrip | core/mt/mt_at.c:808-1023 | Both printed forms of AT+MTMODES parse as the same form and list. |
| QuotedLists.FirstOfItems | core/mt/mt_at.c:829-842 | The character after the first comma is a quote in the one form and a digit in the other. |
| QuotedLists.AcceptedIsLegal | core/mt/mt_at.c:558-637 | Nothing is accepted that breaks the documented limits. |
| QuotedLists.Limits | core/mt/mt_at.c:558-637 | Those limits in numbers: sixteen labels of up to sixteen characters; eight sounds or modes of up to thirty-two under distinct bytes; printable text without a quote. |
| QuotedLists.PrintedVector | core/mt/mt_at.c:1422-1520 | A chime list as it is typed. |
| QuotedLists.NumeralRoundTrip | core/mt/mt_at.c:264-276 | A printed 32-bit value parses as itself. |
| QuotedLists.NumeralVectors | core/mt/mt_at.c:264-276 | A hexadecimal and an octal numeral, and malformed ones. |
| LineAssembler.Parser.Feed | core/at/at_parser.c:220-277 | Any read leaves the state and yields the lines that the simple editor specifies. |
| LineAssembler.Parser.FeedByte | core/at/at_parser.c:240-275 | The bounded buffer holds the edited line until it overflows, which sticks until the line ends. |
| LineAssembler.StreamIsEditedLineByLine | core/at/at_parser.c:220-277 | Each line leaves as the per-line editor says: an error exactly if it ever outgrew the buffer, nothing if empty. |
| LineAssembler.AnyChunksAnyLines | core/at/at_parser.c:220-277 | For any stream and any read sizes the lines and overflow errors equal the simple per-line editor's. |
| LineAssembler.PlainLine | core/at/at_parser.c:240-275 | A line of plain text ended by CR or LF leaves as exactly that command if the buffer holds it, as an error if not, and as nothing if empty. |
| LineAssembler.ErasedIsGone | core/at/at_parser.c:254-262 | A character followed by backspace or delete leaves as if neither had been typed. |
| ArgSplit.SplitArgs | core/at/at_parser.c:111-130 | The in-place split reports the comma-separated fields and where each one lies, -1 if there are too many. |
| ArgSplit.JoinSplit | core/at/at_parser.c:111-130 | Joined by commas the fields are the string again, and none holds a comma. |

## Left out

- EvseStore.Store.Apply: locating the endpoint and its two data-model error codes is not modelled; the call starts at a known store.
- EvseFabric.SetTargets: of the checks the SDK makes before the call only their result is assumed where a lemma needs it; claiming the stage and the verdict are parameters here and the subject of `Adjudication`.
- EvseStore.Store.EraseAll: the one endpoint's part of a factory reset; the other endpoints and settings are not modelled.
- RowCommands.Session.MtRow: a numeral is a value; signs and wrapping of unsigned fields are not modelled.
- QuotedLists.MtModes: strtoul also skips blanks and takes a sign, which the numerals here do not; texts hold no NUL.
- Verdicts.ReadAnswersTheStagedSet: says nothing of AT+MTROWGET without a number, which reads the live store through the platform (`EvseStore.Store.GetRow` is that read).
- Upload.ReturnMeansHeld: the device stores only at the offset it expects, and never starts over at offset zero on its own; replies reach the uploader already decoded, so a malformed payload is an error reply; an offset that is no integer, which raises, is not modelled.
- Xmodem.Send: an ACK is never made up by the line, replies are not left over from an earlier frame, and the marker of a block is never turned into an EOT; a reply that is lost or garbled into a NAK or CAN is modelled.
- OtaRelay.AccountsBalance: a download is prepared only when the last one was released and its scheduled half has run, work for the Matter thread runs in order, and queueing it never fails; percent lines, header parsing and the once-only error line are left out.
- OtaCode.ImageProcessor.HandOver: states the three steps with none of the AT task's in between; the machine interleaves them.
- CborRoundTrip.RoundTrip: text is its bytes, so the UTF-8 check of the decoder and Python's recursion limit are not modelled.
- Base64.DecodeEncode: the decoder's strict mode is not used by the tools and not modelled.
- LineAssembler.Parser.Feed: echo of typed characters is output only and left out.
- Composition.Staging.Mtep: the device-type tables are parameters, and the query form is left out.
- Counters and lengths are unbounded integers except where the code's width matters: sequence numbers, bytes, and the 16-, 32- and 64-bit fields.
- AT+MTEVSE measurements, meters, events, networking and commissioning commands: long tables of range checks or SDK calls.
- UART, NVS and task creation: input and output.
- The ESP32-C6 flashing tool: progress output and device detection.
