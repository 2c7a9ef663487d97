# ASRS crane controller: a Dafny model

This project models the decision logic and in-memory state of a controller
for an Automated Storage and Retrieval System (ASRS) crane. The crane is
driven through register handshakes with a PLC. A PostgreSQL database holds
shelf occupancy and two job queues (pick and put). The original is a Python
package (`asrs_lib`). The Dafny modules follow its files:

| module | file | what it holds |
|---|---|---|
| `Text` | (Python built-ins) | `str.strip()`, decimal digits, `str(int)`, zero padding, `str.lower()` on ASCII |
| `BasketId` | `asrs_lib/utils.py` | `normalize_basket_id`: any int or string to the canonical `B#########` id, or one of its three `ValueError`s |
| `Store` | `asrs_lib/db.py` | class `Pg`: `shelf_data` as a map from shelf id to a `Shelf` row, `basket_data` (the static home shelf of each basket) as a map, `queue_pick`/`queue_put` as sequences kept in `created_at` order, `operation_history` as an append-only sequence. A transaction is an all-or-nothing update of these fields. |
| `Command` | `asrs_lib/asrs_mover.py` | `_id4`, `_d2` and the 20-character command string `iiii M XX YY Z bbbbbbbbbb`, with a decoder by the fixed layout as its inverse |
| `Scheduler` | `asrs_lib/asrs_mover.py` | `_select_next` and its inner `first_usable`, as a method over the store proved against a function |
| `Mover` | `asrs_lib/asrs_mover.py` | class `AsrsMover`: `send_job_blocking` with the device abstracted, one tick of `_monitor_clear_request`, one iteration of `loop` |
| `Qr` | `asrs_lib/qr_listener.py` | class `QrListener`: the flag/duplicate state machine of `loop`, the guard chain of `_process_qr_code`, `reset_state` |
| `Api` | `asrs_lib/api.py` | `_resolve_basket_id`, `wms_pick`/`wms_pick_number`, `basket_status`, `reset_system` |
| `App` | `asrs_lib/app.py` | class `ServiceApp`: the `last_times` bookkeeping of `_on_cycle_done` |
| `ImportKey` | `asrs_lib/putdata2db.py` | `_numeric_key_for_basket` and Python's `<` on its key tuples |

Device I/O is turned into inputs. A `Mover.Device` value gives everything one
job sees: the readiness check, whether each clear attempt found ACK and
completion low, whether the command write, the strobe write and a strobe
reset after a failed write went through, whether the ACK came, whether the row
delete raised, whether the strobe reset after ACK went through, whether the
occupancy update raised, the successive reads of the
completion line and the measured duration. Writes to the PLC and the
database are recorded, in order, as a trace of `Mover.Event`s. The state
these operations change is held in class fields, and each method states the
new state as a function of the old one. Lemmas then state the properties
promised about those functions: round trips, idempotence, the effect order
of a job, the invariants placements keep, and FIFO selection.

Behaviours of the code worth knowing, each stated by a member:
- Sequence 7, PUT, column 3, row 12, depth 0, basket `B000000005` encodes
  as `0007003120B000000005`: four id digits, one method digit, two column
  digits, two row digits, one depth digit and the ten-character basket
  (`Command.EncodeExample`).
- `move_put` and `mark_pick` append no operation history; only
  `mark_shelf_occupied` and `mark_shelf_empty` do.
- `clear_all_queues` runs on an autocommit connection. A failure of the
  second `DELETE` leaves the first in effect (`Store.Pg.ClearAllQueues`).
- `mark_shelf_occupied` with an empty basket leaves an active shelf without
  a basket, which breaks the "active exactly when occupied" rule
  (`Store.OccupyWithoutBasket`). Unlike `move_put`, it also leaves the
  basket on any other shelf it occupies (`Store.OccupyDuplicates`).
- The strobe reset right after the row delete (asrs_lib/asrs_mover.py:339)
  is not guarded. When it raises, the row is already gone from its queue,
  and the occupancy update, the completion wait, the duration and the
  callback never happen; `loop` catches the exception and does not advance
  `current_id`. `send_job_blocking` then returns false in the model, which
  `loop` treats the same way (`Mover.LostAfterAck`,
  `Mover.AsrsMover.SendJobBlocking`).
- `mark_shelf_occupied` on a shelf id missing from `shelf_data` updates
  nothing, and its history insert breaks the foreign key of
  `operation_history` (`Store.Pg.MarkShelfOccupied`).
- `reset_state` does not clear the loop-local `current_qr`. After a reset,
  the code being scanned is still ignored until the flag has risen and
  fallen once more (`Qr.ResetKeepsCurrent`).

## Model

| member | source | states |
|---|---|---|
| `Text.Strip` | asrs_lib/utils.py:13 | the stripped text neither starts nor ends with whitespace |
| `Text.StripIdempotent` | asrs_lib/utils.py:13 | stripping twice is stripping once |
| `Text.NatToString` | asrs_lib/asrs_mover.py:516 | `str(n)` is a digit string denoting n with no leading zero |
| `Text.FixedDigitsValue` | asrs_lib/utils.py:18 | the w-digit field of n denotes n mod 10^w |
| `Text.DigitsRoundTrip` | asrs_lib/utils.py:15 | reading a digit string and writing it back at the same width gives it back, leading zeros included |
| `Text.PaddedSuffix` | asrs_lib/asrs_mover.py:516 | the last w characters of zeros followed by `str(n)` are the w lowest digits of n |
| `Text.NatToStringLength` | asrs_lib/asrs_mover.py:520 | `str(n)` has at most k characters exactly when n < 10^k |
| `Text.Lower` | asrs_lib/app.py:52 | lower-casing keeps the length and leaves no capital; each capital becomes the small letter at the same place in the alphabet, and every other character is kept |
| `Text.LowerUnique` | asrs_lib/app.py:52 | the lower-cased text agrees with the original ignoring case and has no capitals, and it is the only such text |
| `Text.LowerSameIff` | asrs_lib/app.py:52 | two texts have the same lower-cased form exactly when they agree letter by letter ignoring case |
| `BasketId.Normalize` | asrs_lib/utils.py:8-27 | None raises "required" and nothing else does; every success is canonical (`B` and nine digits) |
| `BasketId.Match` | asrs_lib/utils.py:14-27 | matching a stripped text never raises "required"; every success is canonical; an all-digit text of more than 4300 digits is refused as `int()` refuses it, and nothing else is |
| `BasketId.Canonical` | asrs_lib/utils.py:18 | `f"B{n:09d}"` is canonical for 0..999999999 |
| `BasketId.CanonicalNumberRoundTrip` | asrs_lib/utils.py:18 | the number carried by the canonical id of n is n |
| `BasketId.NumberCanonicalRoundTrip` | asrs_lib/utils.py:18 | every canonical id is the canonical form of its own number, which is in range |
| `BasketId.CanonicalUnpadded` | asrs_lib/utils.py:13 | a canonical id has no surrounding whitespace, so stripping keeps it |
| `BasketId.CanonicalIsFixedPoint` | asrs_lib/utils.py:20-25 | a canonical id normalises to itself |
| `BasketId.NormalizeIdempotent` | asrs_lib/utils.py:8-27 | normalising a normalised id gives the same id |
| `BasketId.NormalizeInt` | asrs_lib/utils.py:13-18 | ints 0..999999999 give their canonical id; larger ints give the range error and negative ints the format error, unless `str()` of the int has more than 4300 digits, which `str()` refuses |
| `BasketId.NormalizeDigitString` | asrs_lib/utils.py:13-18 | a digit string with surrounding whitespace is read as its number (leading zeros allowed), with the range check; more than 4300 digits is refused by `int()` |
| `BasketId.StripPadding` | asrs_lib/utils.py:13 | whitespace around a text is exactly what stripping removes |
| `BasketId.NormalizePrefixed` | asrs_lib/utils.py:20-25 | `B` or `b` with 1 to 9 digits gives the canonical id of that number with an upper-case `B`, the same id as the bare digits give |
| `BasketId.IntTextUnpadded` | asrs_lib/utils.py:13 | `str()` of an integer of at most 4300 digits has no surrounding whitespace, so the normaliser matches it unchanged |
| `BasketId.MatchPrefixedForm` | asrs_lib/utils.py:20-25 | a text of the prefixed form is read as the number after its prefix, with the range check |
| `BasketId.MatchTooLong` | asrs_lib/utils.py:6 | a text of more than ten characters not starting with a digit matches neither pattern |
| `BasketId.NormalizeTooManyDigits` | asrs_lib/utils.py:6 | a prefix followed by 10 or more digits is a format error |
| `BasketId.NormalizeRejects` | asrs_lib/utils.py:27 | empty and all-whitespace texts are format errors |
| `BasketId.NormalizeRejectsLead` | asrs_lib/utils.py:27 | a text starting with a sign or a letter other than `B`/`b` is a format error |
| `BasketId.LeadingZerosRefused` | asrs_lib/utils.py:14-15 | 4300 zeros followed by `5` match the digit pattern but are refused by `int()`, though the number is 5 |
| `BasketId.ExampleInt` | asrs_lib/utils.py:9 | the integer `5` gives `B000000005` |
| `BasketId.ExampleDigits` | asrs_lib/utils.py:9 | the text `"5"` gives `B000000005` |
| `BasketId.ExamplePrefixed` | asrs_lib/utils.py:9 | the text `"b5"` gives `B000000005` |
| `Command.Id4` | asrs_lib/asrs_mover.py:515-516 | `_id4` always has four characters |
| `Command.Id4Digits` | asrs_lib/asrs_mover.py:515-516 | for n >= 0, `_id4(n)` is the four lowest digits of n, which denote n mod 10000 (the zero-padded n when n < 10000) |
| `Command.D2` | asrs_lib/asrs_mover.py:519-520 | `_d2` has at least two characters |
| `Command.D2Digits` | asrs_lib/asrs_mover.py:519-520 | `_d2(n)` keeps n's value; it has exactly two characters when n < 100 and more otherwise |
| `Command.Encode` | asrs_lib/asrs_mover.py:541-545 | the command is at least ten characters longer than its basket and ends with the basket |
| `Command.Decode` | asrs_lib/asrs_mover.py:540 | a decodable command has 20 characters, ends with its basket, and carries an id below 10000, column and row below 100 and a single-digit depth |
| `Command.EncodeLength` | asrs_lib/asrs_mover.py:541-545 | the command's length is 5 plus the printed column, row, depth and basket |
| `Command.EncodeLengthTwenty` | asrs_lib/asrs_mover.py:541-546 | with a 10-character basket, the command has 20 characters exactly when column and row are below 100 and depth below 10 |
| `Command.DecodeEncode` | asrs_lib/asrs_mover.py:540-545 | a command that passes the guard decodes back to id mod 10000, method, column, row, depth and basket |
| `Command.EncodeDecode` | asrs_lib/asrs_mover.py:540-545 | every decodable command is the encoding of the fields it decodes to, so a command has one spelling |
| `Command.D2Fixed` | asrs_lib/asrs_mover.py:519-520 | `_d2` prints the value of a two-digit field back as that field, leading zero included |
| `Command.DecodeLayout` | asrs_lib/asrs_mover.py:540 | the fixed layout reads each field back from its position |
| `Command.EncodeExample` | asrs_lib/asrs_mover.py:540-545 | sequence 7, PUT, column 3, row 12, depth 0, basket B000000005 encodes to `0007003120B000000005` |
| `Store.InsertByTime` | asrs_lib/db.py:118-135 | an inserted row lands in a created_at-sorted queue that holds the old rows plus the new one |
| `Store.WithoutId` | asrs_lib/db.py:146-149 | deleting by id keeps exactly the rows with other ids, in order |
| `Store.RemoveIds` | asrs_lib/asrs_mover.py:482 | successive deletes keep exactly the rows whose id was not deleted, in order |
| `Store.Window` | asrs_lib/db.py:138-144 | the window is a prefix of the queue of at most limit rows, the whole queue when it is shorter, and keeps created_at order |
| `Store.MappingFor` | asrs_lib/db.py:93-105 | a mapping found is the stripped id's assigned shelf, which exists, with that shelf's x, y, z; an unassigned id has none |
| `Store.MappingForFound` | asrs_lib/db.py:93-105 | an assigned id whose shelf row exists is found |
| `Store.CanUse` | asrs_lib/db.py:243-247 | a missing shelf and a NULL flag are not usable; a usable shelf has its flag set |
| `Store.CanUseFlag` | asrs_lib/db.py:243-247 | a shelf whose flag is set is usable exactly when the flag is TRUE |
| `Store.Vacate` | asrs_lib/db.py:332-347 | the shelf ends empty and inactive; the layout and every other shelf are unchanged |
| `Store.Occupy` | asrs_lib/db.py:152-164 | the shelf ends active holding the stripped basket (NULL when empty); the layout and every other shelf are unchanged |
| `Store.MovePutResult` | asrs_lib/db.py:349-419 | a successful move_put had a normalisable basket and an existing destination; it keeps the shelf ids, places the normalised id on the destination, active, and reports the destination as `placed_to` |
| `Store.EnqueuedBasket` | asrs_lib/db.py:119 | a missing or empty basket is stored as NULL; any other basket is stored as its canonical id, or the normalisation error propagates |
| `Store.Pg.MovePut` | asrs_lib/db.py:349-419 | the shelf table becomes the transaction's result on success and is restored unchanged on any error |
| `Store.Pg.MarkPick` | asrs_lib/db.py:332-347 | only the given shelf is vacated |
| `Store.Pg.MarkShelfOccupied` | asrs_lib/db.py:152-173 | sets the stripped basket (NULL when empty) and active on an existing shelf and appends a PUT history row; for a missing shelf the history insert fails the foreign key declared at db.py:302 and nothing changes |
| `Store.Pg.MarkShelfEmpty` | asrs_lib/db.py:175-203 | vacates the shelf and appends a PICK history row only when the shelf held a basket |
| `Store.Pg.GetShelfOfBasket` | asrs_lib/db.py:111-115 | returns a shelf holding the stripped id, and None exactly when no shelf holds it |
| `Store.Pg.NextCommandWindow` | asrs_lib/db.py:138-144 | each queue's result is its oldest min(limit, size) rows in ascending created_at order |
| `Store.Pg.DeleteQueueRow` | asrs_lib/db.py:146-149 | `"PICK"` deletes from the pick queue and anything else from the put queue; the other queue is unchanged |
| `Store.Pg.ClearAllQueues` | asrs_lib/db.py:206-218 | both queues are emptied; a failure of the second delete leaves the first in effect |
| `Store.Pg.EnqueuePut` | asrs_lib/db.py:118-125 | a row with the stored basket and x, y, z is added, or nothing on a normalisation error |
| `Store.Pg.InsertPut` | asrs_lib/qr_listener.py:189-192 | the listener's own insert adds the row with the next id |
| `Store.Pg.EnqueuePick` | asrs_lib/db.py:127-135 | as enqueue_put, and the new row's id is returned |
| `Store.MovePutOutcome` | asrs_lib/db.py:358-393 | move_put fails exactly for an empty basket, a basket that does not normalise, a missing destination, or a destination holding another basket without overwrite; the conflict names that basket |
| `Store.PlaceOutcome` | asrs_lib/db.py:380-393 | for a normalised id, the failures are exactly a missing destination or a conflict without overwrite |
| `Store.ClearBasketAt` | asrs_lib/db.py:364-378 | step 1 vacates a shelf exactly when it holds the basket, and never changes whether it holds another basket |
| `Store.PlacePlaces` | asrs_lib/db.py:362-419 | on success the destination holds the basket and is active; the shelves that held the basket are reported and vacated; every other shelf is unchanged |
| `Store.PlaceUnique` | asrs_lib/db.py:362-417 | after a successful placement the destination is the only shelf holding the basket |
| `Store.MovePutPlaces` | asrs_lib/db.py:362-419 | after a successful move_put the destination holds the normalised basket and is active, and no other shelf holds it; `cleared_from` holds the shelves that had the basket |
| `Store.PlaceRepeat` | asrs_lib/db.py:363-389 | placing the basket again where it is succeeds, leaves the table unchanged and reports the destination as cleared |
| `Store.MovePutRepeat` | asrs_lib/db.py:363-419 | repeating a successful move_put without overwrite succeeds with `{cleared_from: [dest], placed_to: dest}` and the same table |
| `Store.MovePutConflict` | asrs_lib/db.py:385-393 | putting basket B, without overwrite, on the shelf holding basket A fails with a conflict naming A |
| `Store.MovePutOverwrite` | asrs_lib/db.py:389-417 | with overwrite the same put succeeds, leaves B on the shelf and reports B's previous shelves |
| `Store.PlaceKeepsInvariants` | asrs_lib/db.py:362-417 | a placement keeps the shelf layout, "active exactly when occupied" and "one shelf per basket" |
| `Store.MovePutKeepsInvariants` | asrs_lib/db.py:349-419 | move_put keeps the layout and both occupancy invariants |
| `Store.VacateKeepsInvariants` | asrs_lib/db.py:332-347 | mark_pick empties the one shelf, leaves all others unchanged and keeps both invariants |
| `Store.OccupyWithoutBasket` | asrs_lib/db.py:155-163 | mark_shelf_occupied with an empty basket leaves an active shelf with a NULL basket |
| `Store.OccupyDuplicates` | asrs_lib/db.py:152-164 | mark_shelf_occupied does not vacate the basket's other shelf |
| `Store.LayoutDecidesLookups` | asrs_lib/db.py:93-105 | the mapping lookup and `shelf_can_use` read only the layout, so occupancy updates never change them |
| `Store.MappingForStripped` | asrs_lib/db.py:102 | the mapping lookup strips its key |
| `Store.InsertNewest` | asrs_lib/db.py:122-125 | with a clock that does not go back, a new row goes at the end of the queue |
| `Store.InsertThenPending` | asrs_lib/db.py:271-287 | after a basket's row is inserted, has_pending_put holds for it |
| `Store.DeleteThenPending` | asrs_lib/db.py:271-287 | after a delete by id, has_pending_put holds exactly when a row with another id carries the stripped basket; deleting its only row leaves nothing pending |
| `Store.ClearedNotPending` | asrs_lib/db.py:271-287 | after the queues are cleared nothing is pending |
| `Scheduler.FirstIndex` | asrs_lib/asrs_mover.py:473-493 | the position of the first usable row: every row before it is not usable |
| `Scheduler.Classify` | asrs_lib/asrs_mover.py:475-492 | a usable row has a basket whose mapping is returned and whose shelf can be used; a row counts as unmapped exactly when its lookup ran and found nothing |
| `Scheduler.FirstUsable` | asrs_lib/asrs_mover.py:473-493 | the candidate is a usable row of the window with its mapping; no candidate means no row of the window is usable |
| `Scheduler.UnmappedsExactly` | asrs_lib/asrs_mover.py:480-484 | an id is pruned exactly when a row of the window carries it, has no mapping, and its delete went through |
| `Scheduler.FirstUsableIsFirst` | asrs_lib/asrs_mover.py:473-493 | first_usable returns the first usable row of the window with its mapping, or nothing; it deletes exactly the unmapped rows before that row; skipped rows are left in place |
| `Scheduler.UnmappedNeverChosen` | asrs_lib/asrs_mover.py:480-484 | a row with no mapping is never the candidate |
| `Scheduler.FirstUsableScan` | asrs_lib/asrs_mover.py:473-493 | the scan loop returns first_usable's candidate and deletes its pruned ids from the queue the method names |
| `Scheduler.ScanRow` | asrs_lib/asrs_mover.py:475-492 | one row of the loop: its verdict is the row's classification, and only a row with no mapping whose delete goes through is deleted, from the queue the method names |
| `Scheduler.RemoveIdsSnoc` | asrs_lib/asrs_mover.py:482 | deleting one more id continues the earlier deletes |
| `Scheduler.DeletedThen` | asrs_lib/asrs_mover.py:482 | two rounds of deletes from the same queue are one round over the joined ids |
| `Scheduler.ThenStep` | asrs_lib/asrs_mover.py:474-492 | a usable row ends the scan with the deletes made so far; any other row adds only its own delete |
| `Scheduler.ScanStep` | asrs_lib/asrs_mover.py:474 | one loop step of first_usable |
| `Scheduler.ChooseFifo` | asrs_lib/asrs_mover.py:499-511 | a job is chosen exactly when some queue has a candidate, and it is that queue's candidate; with both present, the earlier is chosen and a tie goes to PICK; a failing comparison picks PICK |
| `Scheduler.Choose` | asrs_lib/asrs_mover.py:499-511 | a job is chosen exactly when some queue has a candidate, and it is the candidate of the queue its method names |
| `Scheduler.Selection` | asrs_lib/asrs_mover.py:470-511 | the selected job is a row of the queue its method names, usable, with its mapping |
| `Scheduler.SelectNext` | asrs_lib/asrs_mover.py:470-511 | `_select_next` returns the selection over the windows of the old queues and prunes each queue's unmapped rows |
| `Scheduler.PickFirstExample` | asrs_lib/asrs_mover.py:505-506 | a pick row created no later than the put row is chosen |
| `Mover.FailedClears` | asrs_lib/asrs_mover.py:298-305 | the number of failed clear attempts is at most 3, and the attempt after them succeeds when fewer than 3 failed |
| `Mover.Retries` | asrs_lib/asrs_mover.py:306-311 | each failed attempt writes two events |
| `Mover.JobTrace` | asrs_lib/asrs_mover.py:292-467 | the command is written exactly when the system is ready, the prior state clears and the command write works; the row delete appears exactly after an ACK whose delete did not raise; the commit appears exactly after an ACK whose following strobe reset did not raise |
| `Mover.ClearTick` | asrs_lib/asrs_mover.py:230-271 | without both nodes nothing happens; a request is answered with the reply; the registers are cleared exactly when the lock is acquired and a clear is requested or pending; a clear becomes pending only on a request; a tick with the lock leaves nothing pending |
| `Mover.RunTicks` | asrs_lib/asrs_mover.py:227-275 | a clear is pending at the end only if it was pending at the start or some tick saw a request; a last tick with the nodes and the lock leaves nothing pending; without nodes nothing happens |
| `Mover.AsrsMover.SendJobBlocking` | asrs_lib/asrs_mover.py:278-467 | the result is ACK, a strobe reset after the delete that did not raise (a raise there is the result false) and a successful DB commit; the trace is the job trace; the queues change only after ACK; the shelves, durations and callback change only when the strobe reset after ACK did not raise |
| `Mover.AsrsMover.Handshake` | asrs_lib/asrs_mover.py:292-330 | ACK is reached exactly when the system is ready, the prior state clears within 3 attempts, both writes work and ACK is seen; a command written before the strobe write failed is recorded; a failure writes only the retries, that command and the strobe resets |
| `Mover.AsrsMover.FinishJob` | asrs_lib/asrs_mover.py:341-467 | after the strobe reset that follows the delete: commit, wait, clean up, record the duration and call back; the result is the commit's success |
| `Mover.AsrsMover.ClearPrevious` | asrs_lib/asrs_mover.py:298-315 | up to three attempts; each failed one clears the registers and pulses the complete reply |
| `Mover.AsrsMover.DeleteRow` | asrs_lib/asrs_mover.py:332-339 | the row is deleted from the method's own queue unless the delete raises, and then the strobe is reset unless that raises |
| `Mover.AsrsMover.Commit` | asrs_lib/asrs_mover.py:343-357 | PUT runs move_put without overwrite and anything else runs mark_pick; ok is whether it did not raise |
| `Mover.AsrsMover.AwaitCompletion` | asrs_lib/asrs_mover.py:363-449 | reply and clear when completion is seen; the cleanup runs whether the job completed or timed out |
| `Mover.AsrsMover.RecordJob` | asrs_lib/asrs_mover.py:451-465 | the duration goes under the job's kind, and the callback gets the report |
| `Mover.AsrsMover.MonitorTick` | asrs_lib/asrs_mover.py:230-271 | the new `_pending_clear` and the writes are those of one reactor tick |
| `Mover.AsrsMover.Dispatch` | asrs_lib/asrs_mover.py:537-563 | a selected job is sent exactly when its command has 20 characters; its result is whether it got an ACK, the strobe reset after it did not raise and its commit went through; the trace, the queues, the shelves, the durations and the callback table are those of the job, or unchanged when nothing was sent; `_last_cmd_info` and `current_id` change only on success |
| `Mover.AsrsMover.Iterate` | asrs_lib/asrs_mover.py:528-565 | the job is `_select_next`'s selection and the queues first lose the pruned rows; a job is sent exactly when one is selected and its command has 20 characters; the rest of the new state is that of the sent job, or unchanged; `current_id` advances by one exactly when the job succeeds |
| `Mover.AsrsMover.NoteResult` | asrs_lib/asrs_mover.py:551-561 | a successful job becomes `_last_cmd_info` and advances `current_id` by one; a failed one changes neither |
| `Mover.AsrsMover.DispatchSelection` | asrs_lib/asrs_mover.py:532-563 | no selected job sends and changes nothing; a selected job is dispatched |
| `Mover.RetriesOnly` | asrs_lib/asrs_mover.py:306-311 | failed clear attempts only clear registers and pulse the reply |
| `Mover.NoAckNoEffect` | asrs_lib/asrs_mover.py:293-330 | a job without ACK deletes no row and commits nothing |
| `Mover.AckedOrder` | asrs_lib/asrs_mover.py:317-449 | after ACK the order is: command, strobe, row delete, strobe reset, commit; the job ends with the cleanup; a strobe reset that raises ends the job at the delete; nothing is deleted or committed before ACK |
| `Mover.AfterAckShape` | asrs_lib/asrs_mover.py:332-449 | after an ACK whose delete went through the delete comes first, then either the strobe reset, the commit and a trace ending in the cleanup, or nothing more when the reset raised |
| `Mover.LostAfterAck` | asrs_lib/asrs_mover.py:332-341 | when the strobe reset after ACK raises, nothing is committed and the trace ends with the row delete (or the strobe, when the delete raised too) |
| `Mover.StrobeAfterCommand` | asrs_lib/asrs_mover.py:318-328 | the strobe is only ever raised right after the command was written |
| `Mover.ResultIgnoresCompletion` | asrs_lib/asrs_mover.py:351-467 | the result does not depend on whether completion was seen in time |
| `Mover.PutJobPlaces` | asrs_lib/asrs_mover.py:344-351 | a successful acknowledged PUT leaves the basket on the shelf, active, and on no other shelf |
| `Mover.ReportRecorded` | asrs_lib/asrs_mover.py:453-463 | the app files each acknowledged job's duration under `put` or `pick` and changes no other entry |
| `Mover.PutWithoutBasketFails` | asrs_lib/asrs_mover.py:290 | a PUT row without a basket always fails its commit |
| `Mover.RequestTick` | asrs_lib/asrs_mover.py:239-259 | a request is always answered with a reply pulse first; the registers are cleared exactly when the lock was acquired; otherwise the clear is left pending |
| `Mover.PendingServed` | asrs_lib/asrs_mover.py:260-271 | once a clear is pending, the first later tick with the nodes present and the lock free clears the registers |
| `Mover.RequestServed` | asrs_lib/asrs_mover.py:239-271 | a clear request is honoured by the first tick, at or after it, that finds the nodes and a free lock |
| `Mover.NoNodesNoEffect` | asrs_lib/asrs_mover.py:230-232 | without both nodes the reactor writes nothing and keeps its state |
| `Mover.CommandForWellFormed` | asrs_lib/asrs_mover.py:537-546 | a job in columns and rows below 100 and depth below 10 with a 10-character basket passes the guard and decodes to the job |
| `Mover.WideColumnNotSent` | asrs_lib/asrs_mover.py:542-549 | a column of 100 or more makes the command too long, so nothing is sent |
| `Qr.EnqueueGuard` | asrs_lib/qr_listener.py:86-195 | a PUT is queued exactly when the code has a home shelf; no shelf holds it (or that lookup failed); the shelf exists, is inactive, empty and usable; no PUT is pending; ASRS is not known busy; and no DB step fails. The job goes to the home shelf |
| `Qr.Decide` | asrs_lib/qr_listener.py:86-195 | an enqueued PUT goes to an existing shelf that is inactive, empty and usable, and no PUT for the code is queued |
| `Qr.UnmappedRejected` | asrs_lib/qr_listener.py:92-103 | the error acknowledgement path is taken exactly for a missing mapping or a failing lookup |
| `Qr.QueuedNotEnqueued` | asrs_lib/qr_listener.py:164-171 | a code with a PUT already queued is never queued again, whatever the other lookups see |
| `Qr.EnqueueOnce` | asrs_lib/qr_listener.py:164-171 | once a PUT for a code is queued, scanning it again queues nothing |
| `Qr.FailedReadsKeepState` | asrs_lib/qr_listener.py:202-223 | a failed flag read (or code read) changes nothing, `_last_flag` included |
| `Qr.FlagRecorded` | asrs_lib/qr_listener.py:251 | every other iteration records the flag it read |
| `Qr.FallingEdgeResets` | asrs_lib/qr_listener.py:209-213 | a falling edge forgets the current and last code |
| `Qr.ProcessedAccepted` | asrs_lib/qr_listener.py:219-232 | a processed code is the stripped read and passes the format check, and becomes the current code |
| `Qr.HighPoll` | asrs_lib/qr_listener.py:229-235 | while the flag is high, a poll keeps `current_qr` or sets it to a new code it processes |
| `Qr.ProcessedOnceWhileHigh` | asrs_lib/qr_listener.py:216-251 | while the flag stays high on one code, the code is processed at most once, and not at all if it is already current |
| `Qr.ReprocessAfterDrop` | asrs_lib/qr_listener.py:209-235 | after the flag drops, the same code is processed again |
| `Qr.ResetKeepsCurrent` | asrs_lib/qr_listener.py:66-72 | reset_state leaves the loop's current code, so the next low reading is no falling edge and the code stays ignored |
| `Qr.ValidationRejects` | asrs_lib/qr_listener.py:226-229 | with validation on, a code that is not 10 characters starting with `B` is never processed |
| `Qr.Listen` | asrs_lib/qr_listener.py:197-255 | a failed flag read changes nothing; a flag read with its code is recorded as `_last_flag`; a processed code is the stripped read taken while the flag is high, passes the format check, was not current and becomes current |
| `Qr.Run` | asrs_lib/qr_listener.py:197-255 | at most one code is processed per poll, and every processed code passes the format check |
| `Qr.Reset` | asrs_lib/qr_listener.py:66-72 | the last code and the last flag are forgotten; the loop's current code is kept |
| `Qr.QrListener.ResetState` | asrs_lib/qr_listener.py:66-72 | clears `_last_qr` and `_last_flag` |
| `Qr.QrListener.ProcessQrCode` | asrs_lib/qr_listener.py:86-195 | inserts the row with the code and the mapped x, y, z exactly when the guard chain says so; error-acks an unmapped code |
| `Qr.QrListener.Serve` | asrs_lib/qr_listener.py:235-249 | processes the code and, unless that raised, acknowledges it; the PUT queue and its next id change exactly as the guard chain says, and the acknowledgements are the error pulse for an unregistered code and the code pulse unless processing raised |
| `Qr.QrListener.Poll` | asrs_lib/qr_listener.py:197-255 | one loop iteration moves the listener's memory as the state machine says, processes and acks exactly the codes it picks, and leaves the queue and its next id alone otherwise |
| `Api.ResolveBasketId` | asrs_lib/api.py:30-43 | every resolved id is canonical |
| `Api.ResolvePrecedence` | asrs_lib/api.py:30-43 | the path number wins over the body and the body's number over its basket_id; neither gives a 400 |
| `Api.ResolveErrors` | asrs_lib/api.py:32-42 | a body field's ValueError becomes a 400; the path number's ValueError escapes unconverted |
| `Api.PathNumberResolves` | asrs_lib/api.py:32-33 | an in-range path number gives its canonical id; out-of-range and negative numbers escape as range and format errors; a number of more than 4300 digits escapes as `str()`'s error |
| `Api.PlanPick` | asrs_lib/api.py:51-63 | an enqueued pick is of the resolved id at its mapped shelf |
| `Api.PlanPickCases` | asrs_lib/api.py:51-63 | a pick is enqueued exactly when the id resolves, is mapped and its shelf is usable; unmapped gives 404 and unusable gives 500 |
| `Api.CanonicalEnqueued` | asrs_lib/api.py:65 | enqueue_pick stores the resolved canonical id unchanged |
| `Api.EnqueuePlanned` | asrs_lib/api.py:65-66 | a planned pick is enqueued under the next pick id and answered with the basket, shelf, coordinates and new queue id; a refused plan changes nothing |
| `Api.WmsPick` | asrs_lib/api.py:45-86 | a missing DB gives 500; otherwise the plan is `PlanPick` of the state, a refused plan enqueues nothing and an accepted one enqueues exactly one pick row under the next id; no other table changes |
| `Api.BasketStatus` | asrs_lib/api.py:88-104 | an invalid id gives 400; the mapped fields are None exactly when there is no mapping; the occupied shelf holds the id, and is None exactly when none does |
| `Api.ResetStatus` | asrs_lib/api.py:188-201 | the status is `partial` exactly when some error was recorded |
| `Api.ResetParts` | asrs_lib/api.py:165-186 | each attempted reset is reported as a success or an error from its own outcome alone |
| `Api.ResetAttempted` | asrs_lib/api.py:165-186 | each attempted reset is reported exactly once |
| `Api.ResetOutcome` | asrs_lib/api.py:155-201 | the status is `success` exactly when no error was recorded, and each attempted part is reported once |
| `Api.TallyReset` | asrs_lib/api.py:163-201 | the lists built step by step are `ResetOutcome` |
| `Api.ResetSystem` | asrs_lib/api.py:143-201 | a missing DB gives 500 before any reset; otherwise the queues are cleared, the QR state is reset and the report is the aggregation; shelves, assignment, history, queue ids and the QR acknowledgements are unchanged |
| `App.KindOf` | asrs_lib/app.py:52 | a missing kind becomes `""`; a present kind is kept up to case and has no capital left |
| `App.RecordCycle` | asrs_lib/app.py:52-57 | the entry of a tracked kind takes the seconds when they are present; all other entries are unchanged |
| `App.RecordCommutes` | asrs_lib/app.py:56-57 | reports of different kinds commute |
| `App.RecordKeepsKeys` | asrs_lib/app.py:25 | starting from the initial table, the keys stay `put` and `pick` |
| `App.UpperCaseKind` | asrs_lib/app.py:52-57 | a kind spelled in capitals is filed under the lower-case name |
| `App.ServiceApp.OnCycleDone` | asrs_lib/app.py:41-62 | `last_times` becomes `RecordCycle` of the old table |
| `ImportKey.TrailingRun` | asrs_lib/putdata2db.py:39 | the captured run is all digits, and the character before it is not a digit |
| `ImportKey.NumericKey` | asrs_lib/putdata2db.py:32-45 | a missing id, and only it, gets the key `(1, "")`; a present id keys on its stripped text, and a numbered key's text ends in a digit |
| `ImportKey.LexLess` | asrs_lib/putdata2db.py:42-45 | a proper prefix sorts first, and nothing sorts below the empty string |
| `ImportKey.KeyLess` | asrs_lib/putdata2db.py:32-45 | the comparison raises exactly for a numbered key against a plain one, and no key is below itself |
| `ImportKey.LexLessIrreflexive` | asrs_lib/putdata2db.py:42 | no string is below itself |
| `ImportKey.MissingLast` | asrs_lib/putdata2db.py:36-37 | a None id sorts after every present id |
| `ImportKey.KeyIgnoresPadding` | asrs_lib/putdata2db.py:38 | surrounding whitespace does not change the key |
| `ImportKey.TrailingRunOf` | asrs_lib/putdata2db.py:39 | the run ends at the first non-digit from the right |
| `ImportKey.KeyOfDigitTail` | asrs_lib/putdata2db.py:39-42 | an id ending in a digit run keys on the run's value and the string |
| `ImportKey.KeyWithoutDigitTail` | asrs_lib/putdata2db.py:45 | an id without trailing digits keys on the stripped string |
| `ImportKey.CanonicalKey` | asrs_lib/putdata2db.py:39-42 | a canonical id keys on its number |
| `ImportKey.CanonicalOrder` | asrs_lib/putdata2db.py:32-45 | canonical ids sort by their numbers |
| `ImportKey.MixedIncomparable` | asrs_lib/putdata2db.py:42-45 | an id ending in digits and one that does not cannot be compared |
| `ImportKey.NumericNotTextual` | asrs_lib/putdata2db.py:32-45 | `B10` sorts after `B9`, unlike the plain strings |

## Left out

- OPC UA transport and timing: connecting, `_pulse`, `_wait`, the data-value helpers, `_serve_qr_if_requested` and every sleep and timeout. Each wait is an input boolean, and a timeout is the end of a finite list of completion reads. The mid-cycle QR reply and the periodic status prints write nothing the model tracks.
- `_system_ready` is one input boolean (ready, auto mode and no alarm). The re-check during the completion wait only chooses a log message, so it is not modelled.
- The command lock and the threads: the clear reactor is one tick, with "lock acquired" as an input. Interleavings with a running job are not modelled.
- `reset_current_command`: in `reset_system`, whether a mover is present and whether its reset raises are inputs.
- `_read_crane_position`, `encoder_to_position`, `position_to_encoder` and `home_offset` use floating point and are not part of this model. Durations are `real`s supplied by the caller.
- SQL connections, `cursor()`/`transaction()` and the `operation_history` DDL (only its foreign key to `shelf_data` is modelled, and a table created earlier without it is not): a transaction is an all-or-nothing update of the fields. `NOW()` becomes a `created_at` input, and the time stamps on shelf rows are not kept.
- Database exceptions are inputs (sets of row ids or booleans) wherever the code catches them. Exceptions it does not catch (a mapping lookup or `enqueue_pick` failing inside `wms_pick`, a failing strobe reset after an ACK timeout) are not modelled.
- The WebSocket status stream, `reset_queue`, `normalize` and `import_excel_to_db` (pandas and float parsing) are not part of this model. `config.load` and `OpcUaNodes` hold only configuration. The shared node ids of the clear request and the completion line are not modelled.
- The order of `array_agg` in `cleared_from` is unspecified in SQL, so `cleared_from` is a set.
- The callback argument of the QR `loop` and the text of log lines and exception messages: errors are kept as variants without their messages.
- `Text.IsDigit`: only ASCII digits are modelled. Python's `\d` and `int()` also accept other Unicode decimal digits.
- `Text.Lower`, `App.KindOf`: only ASCII capitals are lower-cased. Python's `str.lower()` also maps other letters, some of them to more than one character (`'İ'` becomes two code points), so the model's length-keeping does not hold for those.
- `BasketId.Match`, `BasketId.NormalizeInt`: the 4300-digit limit is the interpreter's default; a changed `sys.set_int_max_str_digits` is not modelled.
- `ImportKey.KeyLess` is stated only between keys; no total order over mixed keys is claimed, because Python cannot compare `(0, int, s)` with `(0, s)`.
