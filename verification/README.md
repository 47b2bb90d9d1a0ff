# virtuals: a verified model

This project models the hard core of *virtuals*, a library that presents Python containers (dicts, lists,
sets, ordered dicts) as views over an ordered key-value storage, and of the notification machinery beside
it. Storage is a finite map from keys to rows with sorted scans; what the code changes in place is a class
whose methods are checked against specification functions, and the promises of the code are lemmas about
those functions, stated for every input, every run or every interleaving.

| part | modules |
|---|---|
| fractional order keys | `Base62`, `OrderIntegers`, `Fractions`, `OrderKeys`, `KeyGeneration`, `PlainRuns` |
| the ordered collection on top of them | `SortedRows`, `OrderScans`, `OrderedCollection`, `OrderedLaws` (what may be counted on, operation by operation and over runs), `RowMaps`, `RespaceWindow`, `IndexSteps`, `IndexRepair`, `FractionalView` |
| the log-indexed dict | `LogView` |
| the writer slot | `SlotCore` (what each guarded section does), `WriterLock` (the same as a class), `SlotSystem` (all interleavings), `SlotTheorems`, `BoundedBypass`, `SlotTurns` |
| filters, hints, byte encoding, server routing | `Filters`, `FilterJson`, `Canonical`, `RoutingHints`, `Decimals`, `KeyEncoding`, `HintEntries`, `ServerIndex` |
| the publisher | `PublisherSteps` (all interleavings), `PublisherLedger` (the account over every run), `PublisherFlags` (what its flags mean over every run), `PublisherRuns`, `PublisherMoves`, `Publisher` (its methods as a class, other threads moving in between) |
| the Redis observer | `Readiness` (all interleavings), `Observer` (its guarded sections as a class), `Registration` (who is held, over every run), `EarlyMark` |
| the container tree and the views' bookkeeping | `ContainerTree`, `ViewChain`, `ViewStore`, `SetView`, `ListSlots`, `ListView`, `ByteView` |
| shared | `Wrappers`, `Segments`, `Sequences`, `StringOrder` |

Environment choices are arguments or arbitrary values, so a theorem holds for each of them: random tails,
drawn log keys, which coroutine's event loop closes under a handoff, whether a send raises, when a
connection is lost. Exceptions are values of `Result` or `Outcome`.

## Where the code and what it says of itself differ

* `generate_n_keys_between` promises n keys between its bounds. Below a bound it raises, or returns the bare
  smallest integer, which `validate_order_key` rejects, once n reaches the number of integer parts left
  (`PlainRuns.NKeysExact` says exactly when). The suffixed generator the view uses has no such end.
* A publisher promises to count every dropped key. When publishing a batch ends in an exception that is no
  `Exception`, the whole batch is counted as dropped, also the chunks already sent or counted
  (`src/virtuals/_backends/publishers/_base.py:133-136`; `PublisherRuns.CrashCountsSent`). When encoding a chunk
  raises after a key of it was skipped and counted, the whole chunk is counted on top
  (`src/virtuals/_backends/publishers/_base.py:425-428`; `PublisherRuns.RaiseCountsSkipped`). These are the only
  ways a key is counted twice, and none is ever missed (`PublisherLedger.Conservation`).
* A commit around a disconnect is promised never to be lost silently. A `notify` that saw the publisher
  connected can queue its key behind the disconnect, which nothing sends or counts any more
  (`PublisherRuns.LateKeyStays`).
* A registration in the Redis observer promises to return only once routing is guaranteed. A re-registration
  queued after a reconnect for a subscriber that then leaves marks a later registration of the same filter
  ready before its SUBSCRIBE is sent (`EarlyMark.MarkedForAnother`); later registrants of it return on that mark.
* `_rebuild_bookkeeping` of the fractional view realigns position rows but never adds one for an id whose
  order row it keeps (`src/virtuals/_views/fractional_indexed_dict_view.py:443-448`); the log view does
  (`src/virtuals/_views/log_indexed_dict_view.py:237-239`). `IndexRepair.KeptIff` gives the condition.
* `move_child_subtree` asks for an empty destination. A list insert moves a container onto the stale row of
  the primitive it shifted just before; the subtree's first row is written over it, so nothing is lost.
* A list shift moves no metadata, so a nested view's stored length stays with the slot it left
  (`ListView.NestedLengthStays`).
* A keyed view stores its length beside its children's metadata, so deleting a child container named `__len__`
  deletes the view's own length (`ViewChain.LengthLost`; `ViewChain.DeleteCounts` says exactly when it matters).
* `bytearray` views check the range of a byte everywhere but in `store` (`ByteView.View.Store`).
* A root view that has to be created is counted by nobody, even under a counting container
  (`ViewChain.RootUncounted`).

## Model

| member | source | states |
|---|---|---|
| OrderIntegers.RankOrder | src/virtuals/_views/fractional_index.py:89-106 | string order on well-formed integer parts is exactly the order of one numbering of them, across every head letter and length |
| OrderIntegers.IntegersPrefixFree | src/virtuals/_views/fractional_index.py:89-101 | no integer part is a proper prefix of another, so a key splits in one way only |
| OrderIntegers.SuccStepsRank | src/virtuals/_views/fractional_index.py:124-149 | increment is the next integer part, crossing `Zz`/`a0` and every change of length; none only above the greatest |
| OrderIntegers.PredStepsRank | src/virtuals/_views/fractional_index.py:152-177 | decrement is the previous integer part; none only at the least |
| OrderIntegers.SuccPredInverse | src/virtuals/_views/fractional_index.py:124-177 | increment and decrement undo each other |
| OrderIntegers.SuccIsNext | src/virtuals/_views/fractional_index.py:124-149 | no integer part lies between one and its increment |
| OrderIntegers.IncrementInteger | src/virtuals/_views/fractional_index.py:124-149 | the carry loop computes the increment; an ill-shaped integer, or a bad digit the carry meets, is an error |
| OrderIntegers.DecrementInteger | src/virtuals/_views/fractional_index.py:152-177 | the borrow loop computes the decrement, with the same errors |
| Fractions.MidpointBetween | src/virtuals/_views/fractional_index.py:61-86 | the midpoint is a fraction without trailing zero strictly inside the gap, at most one digit longer than the longer bound |
| Fractions.MidpointHalves | src/virtuals/_views/fractional_index.py:77-82 | where the first digits leave room the midpoint is the one digit halfway between them, rounded up |
| OrderKeys.KeyBetweenCorrect | src/virtuals/_views/fractional_index.py:180-221 | the plain key exists exactly on valid bounds in order, lies strictly between them, grows by at most one digit, and is the rejected smallest integer only at the open low end |
| OrderKeys.StepDownStops | src/virtuals/_views/fractional_index.py:286-289 | the suffix loop ends, since each new prefix of the upper bound is shorter, and ends above the lower bound |
| OrderKeys.SuffixedKeyBetween | src/virtuals/_views/fractional_index.py:259-289 | for all valid bounds and every tail the suffixed key exists, is a valid bound itself, and lies strictly between, smallest integer included |
| KeyGeneration.RandomSuffix | src/virtuals/_views/fractional_index.py:251-256 | every draw: digits, the last not zero; an error for lengths below one |
| KeyGeneration.GenerateSuffixedKeyBetween | src/virtuals/_views/fractional_index.py:259-289 | raises exactly on invalid bounds or suffix length; else a valid key strictly between: a plain key of the gap, no prefix of the upper bound, and a drawn tail of exactly that length |
| KeyGeneration.GenerateNSuffixedKeysBetween | src/virtuals/_views/fractional_index.py:292-327 | exactly n strictly ascending valid keys inside the bounds for every draw, each a plain key and a whole tail; an append or prepend run steps through the integer parts; in a bounded gap keys are no longer than the longer bound plus (1 + suffix length) * bits of n |
| KeyGeneration.SplitRun | src/virtuals/_views/fractional_index.py:321-327 | two half runs around a middle key are a whole run, within the length bound |
| PlainRuns.GenerateNKeysBetween | src/virtuals/_views/fractional_index.py:224-243 | the plain generator, chains and split, computes the plain run |
| PlainRuns.DownExact | src/virtuals/_views/fractional_index.py:235-240 | below a bound the run reaches exactly as far as there are integer parts left, and ends in the bare smallest integer when it uses them all |
| PlainRuns.NKeysExact | src/virtuals/_views/fractional_index.py:224-243 | a plain run exists exactly on valid bounds with room for it, is then n ascending keys inside them, and all of them are valid exactly if there is room for one more |
| PlainRuns.PlainPrependRunRaises | src/virtuals/_views/fractional_index.py:235-240 | a bound below which the third plain key cannot be made |
| OrderScans.FetchSuffices | src/virtuals/_views/fractional_indexed_dict_view.py:258-291 | asking the storage for one more row per skipped key never loses a row the caller asked for |
| OrderScans.ScanOrder | src/virtuals/_views/fractional_indexed_dict_view.py:234-291 | a scan yields the rows from its start in either direction, without the skipped keys, up to its limit |
| OrderScans.ScanFinds | src/virtuals/_views/fractional_indexed_dict_view.py:234-291 | a scan finds exactly the rows from its start on, start included, that are not skipped, in its direction |
| OrderScans.Edge | src/virtuals/_views/fractional_indexed_dict_view.py:293-297 | the first or last row of the collection |
| OrderScans.Neighbour | src/virtuals/_views/fractional_indexed_dict_view.py:299-309 | the row directly before or after a row |
| OrderedCollection.ApplyKeepsWellFormed | src/virtuals/_views/fractional_indexed_dict_view.py:590-751 | on the plain list and map every operation keeps ids distinct and equal to the keys that hold values |
| OrderedCollection.MoveIsLocal | src/virtuals/_views/fractional_indexed_dict_view.py:683-703 | a move puts the id directly beside its reference and leaves every other id in place |
| OrderedCollection.FailedInsertChangesNothing | src/virtuals/_views/fractional_indexed_dict_view.py:623-651 | an insert fails exactly for a listed id, a missing reference or a failing value write, and then ids and values are as before |
| OrderedLaws.SetLaw | src/virtuals/_views/fractional_indexed_dict_view.py:590-597 | setting stores the value and touches no other; a new id goes to the end, a known one stays where it is |
| OrderedLaws.InsertRefusals | src/virtuals/_views/fractional_indexed_dict_view.py:623-681 | ValueError exactly for a listed id, KeyError exactly for a missing reference, a write failure exactly for a failing value write; a refused insert leaves ids and values alone |
| OrderedLaws.InsertPlace | src/virtuals/_views/fractional_indexed_dict_view.py:653-681 | the new id stands at the end, at the front, or directly before or after its reference, and nothing else moves |
| OrderedLaws.MoveRefusals | src/virtuals/_views/fractional_indexed_dict_view.py:683-719 | KeyError exactly for a missing id or reference, with nothing changed; a move beside itself does nothing |
| OrderedLaws.MovePlace | src/virtuals/_views/fractional_indexed_dict_view.py:683-719 | the id is taken out and put back at an end or directly beside its reference, the others in their order |
| OrderedLaws.RemovalLaw | src/virtuals/_views/fractional_indexed_dict_view.py:721-751 | a delete takes out one id and its value, a clear all of them, a respace nothing |
| OrderedLaws.LastWriteCounts | src/virtuals/_views/fractional_indexed_dict_view.py:590-751 | over every run the value of an id is that of the last write that reached it, none if it was erased since |
| RowMaps.RewriteKeepsIds | src/virtuals/_views/fractional_indexed_dict_view.py:334-383 | rewriting a window of rows at fresh keys moves no id |
| RowMaps.RewriteSameIndex | src/virtuals/_views/fractional_indexed_dict_view.py:334-383 | the index stays linked through a rewrite, lists the same ids and records every other id as it did |
| RespaceWindow.PlanWindow | src/virtuals/_views/fractional_indexed_dict_view.py:352-373 | the keys drawn for a window are ascending, strictly inside the rows just outside it, one per row and one for the gap |
| RespaceWindow.WindowRespaced | src/virtuals/_views/fractional_indexed_dict_view.py:334-383 | after a respace the rows outside the window are untouched and the gap key is free and strictly between the new keys of its two sides |
| IndexSteps.IndexedAt | src/virtuals/_views/fractional_indexed_dict_view.py:385-398 | indexing an id at a free key lists it exactly where the key falls |
| IndexSteps.Unindexed | src/virtuals/_views/fractional_indexed_dict_view.py:721-733 | dropping the order row of an id takes that id out of the list and nothing else |
| IndexSteps.MovedBeside | src/virtuals/_views/fractional_indexed_dict_view.py:400-403 | moving an id into a gap is the move on the plain list |
| FractionalView.View.RespaceAround | src/virtuals/_views/fractional_indexed_dict_view.py:334-383 | 16 rows a side, else 64, else all: the id sequence is unchanged, the index intact, the returned key free in the gap; unless all rows were rewritten, no key of the window or the gap is longer than 64 |
| FractionalView.View.Allot | src/virtuals/_views/fractional_indexed_dict_view.py:313-332 | a free key for the gap, ids in their order: the drawn key if it has at most 128 characters, with nothing rewritten, else the key of a respaced window |
| FractionalView.View.Place | src/virtuals/_views/fractional_indexed_dict_view.py:394-398 | an id without position lands in the gap it was placed in |
| FractionalView.View.Relocate | src/virtuals/_views/fractional_indexed_dict_view.py:400-403 | an id leaves its row for the gap; every other id keeps its place |
| FractionalView.View.InsertNew | src/virtuals/_views/fractional_indexed_dict_view.py:639-651 | position, value, order row; a value write failing at any point leaves the id absent and all other ids and values unchanged, even after a respace |
| FractionalView.View.InsertInGap | src/virtuals/_views/fractional_indexed_dict_view.py:623-651 | refuses a listed id; a stale position without order row does not count |
| FractionalView.View.SetItem | src/virtuals/_views/fractional_indexed_dict_view.py:590-597 | the value is stored and no other touched; a new id is appended, a known one keeps its place |
| FractionalView.View.Append | src/virtuals/_views/fractional_indexed_dict_view.py:653-658 | append on the plain list and map, outcome included |
| FractionalView.View.Prepend | src/virtuals/_views/fractional_indexed_dict_view.py:660-665 | prepend on the plain list and map, outcome included |
| FractionalView.View.InsertBefore | src/virtuals/_views/fractional_indexed_dict_view.py:667-673 | insert directly before the reference; KeyError without it |
| FractionalView.View.InsertAfter | src/virtuals/_views/fractional_indexed_dict_view.py:675-681 | insert directly after the reference; KeyError without it |
| FractionalView.View.MoveBefore | src/virtuals/_views/fractional_indexed_dict_view.py:683-692 | the id stands directly before the reference, all others in order; KeyError for a missing id or reference |
| FractionalView.View.MoveAfter | src/virtuals/_views/fractional_indexed_dict_view.py:694-703 | the id stands directly after the reference, all others in order |
| FractionalView.View.MoveFirst | src/virtuals/_views/fractional_indexed_dict_view.py:705-711 | the id is first, all others in order |
| FractionalView.View.MoveLast | src/virtuals/_views/fractional_indexed_dict_view.py:713-719 | the id is last, all others in order |
| FractionalView.View.Delete | src/virtuals/_views/fractional_indexed_dict_view.py:721-733 | the id leaves all three row families; KeyError when absent |
| FractionalView.View.Clear | src/virtuals/_views/fractional_indexed_dict_view.py:745-751 | no id is left; an absent view stays absent |
| FractionalView.View.Respace | src/virtuals/_views/fractional_indexed_dict_view.py:454-468 | every order key is rewritten and the order kept |
| FractionalView.View.Perform | src/virtuals/_views/fractional_indexed_dict_view.py:590-751 | any operation acts as on the plain list and map and keeps the three row families agreeing |
| FractionalView.View.Run | src/virtuals/_views/fractional_indexed_dict_view.py:590-751 | over every run of operations the view is the list and the map, outcome for outcome, the row families stay mutually inverse, and an id has the value of the last write that reached it |
| FractionalView.View.ValidIsWellFormed | src/virtuals/_views/fractional_indexed_dict_view.py:313-403 | row families that agree show a list of distinct ids that are exactly the data keys |
| IndexRepair.RowsPart | src/virtuals/_views/fractional_indexed_dict_view.py:437-442 | every order row stays or goes, never both, and the rows that stay are in order |
| IndexRepair.FirstPass | src/virtuals/_views/fractional_indexed_dict_view.py:437-442 | the first pass keeps the first entry of every id that holds data, in order |
| IndexRepair.KeptIff | src/virtuals/_views/fractional_indexed_dict_view.py:443-448 | after realignment the rows agree exactly if every kept id had some position row |
| IndexRepair.PositionStaysLost | src/virtuals/_views/fractional_indexed_dict_view.py:443-448 | a concrete index whose kept row stays without a position |
| IndexRepair.RebuildIdempotent | src/virtuals/_views/fractional_indexed_dict_view.py:425-452 | rebuilding an index that agrees with its data changes nothing |
| IndexRepair.RebuildLists | src/virtuals/_views/fractional_indexed_dict_view.py:425-452 | the ids kept are those with data, once each as they first come up in the order; the ids added are the others of the listing, once each in its order |
| FractionalView.View.RebuildBookkeeping | src/virtuals/_views/fractional_indexed_dict_view.py:425-452 | from arbitrary order and position rows: the ids with data once each, as they first came up, then the unrecorded ones in listing order; the rows agree afterwards exactly if every kept id had a position row; idempotent |
| LogView.View.AppendLogKey | src/virtuals/_views/log_indexed_dict_view.py:185-198 | one log row and one reverse row, behind all others |
| LogView.View.SetItem | src/virtuals/_views/log_indexed_dict_view.py:476-478 | the value is stored and no other touched; a new id is logged once, behind all others, a known one keeps its row |
| LogView.View.Delete | src/virtuals/_views/log_indexed_dict_view.py:491-518 | KeyError without data, else the data row and one log row go: the one the reverse row names if it still names the id, else the first that does; on an intact index it is removal from the ordered dict |
| LogView.DeleteForgets | src/virtuals/_views/log_indexed_dict_view.py:504-518 | with the reverse row missing or stale too, a log that names the id once no longer names it and every other id keeps its place |
| LogView.UnloggedDrops | src/virtuals/_views/log_indexed_dict_view.py:500-518 | the reverse row is trusted exactly if the log row it names still names the id; otherwise the first row that names it goes, and without one nothing |
| LogView.View.FirstRowNaming | src/virtuals/_views/log_indexed_dict_view.py:511-515 | the fallback scan finds the first row naming the id, if there is one |
| LogView.View.Clear | src/virtuals/_views/log_indexed_dict_view.py:520-526 | all rows go; an absent view stays absent |
| LogView.View.Run | src/virtuals/_views/log_indexed_dict_view.py:476-526 | over every run of set, delete and clear the view is an insertion-ordered dict, outcome for outcome, and an id has the value of the last write that reached it |
| LogView.SkipsCursor | src/virtuals/_views/log_indexed_dict_view.py:343-369 | a scan that starts at the cursor row and skips it reads on strictly past the cursor, whether or not that row still exists |
| LogView.Page | src/virtuals/_views/log_indexed_dict_view.py:296-369 | a page is the first rows strictly past the cursor, up to the limit |
| LogView.PagesCover | src/virtuals/_views/log_indexed_dict_view.py:436-465 | paging with the last key as the next cursor reads every row once, in order, for every page size |
| LogView.View.Realign | src/virtuals/_views/log_indexed_dict_view.py:229-239 | the reverse index becomes the record of kept rows, missing rows included |
| LogView.View.RebuildBookkeeping | src/virtuals/_views/log_indexed_dict_view.py:210-242 | from arbitrary log and reverse rows: a bijection of log rows with data keys and an exact reverse index, first-entry order kept, kept rows at their keys; idempotent |
| WriterLock.Writer.HandOff | src/virtuals/_backends/storages/_write_slot.py:369-392 | the loop over the queue, with coroutines whose loop closes under it: the first live one is granted, those before it are abandoned, an emptied queue frees the lock |
| WriterLock.Writer.ReleaseLocked | src/virtuals/_backends/storages/_write_slot.py:394-405 | the slot goes to the queue, or is unlocked if nobody is queued or threads are blocked and the last release went to the queue |
| WriterLock.Writer.Reclaim | src/virtuals/_backends/storages/_write_slot.py:407-419 | a grant whose loop has closed is given up for it, and nothing else is |
| WriterLock.Writer.Rescue | src/virtuals/_backends/storages/_write_slot.py:421-428 | a queue nobody is left to serve takes a free slot |
| WriterLock.Writer.PassOn | src/virtuals/_backends/storages/_write_slot.py:430-439 | a grant is given up once, and the slot with it if it is of the current lock; without a grant nothing happens |
| WriterLock.Writer.TakeGrant | src/virtuals/_backends/storages/_write_slot.py:441-453 | a granted coroutine becomes the owner if its grant is of the current lock; otherwise StorageClosedError and nothing changes |
| WriterLock.Writer.HeldBy | src/virtuals/_backends/storages/_write_slot.py:305-326 | recorded exactly if the taken lock is the slot; a counted thread of another lock is uncounted and rescues the queue as it leaves |
| WriterLock.Writer.Release | src/virtuals/_backends/storages/_write_slot.py:632-647 | on another lock than the slot it does nothing; on a free slot it is a RuntimeError; else the slot is passed on without owner |
| WriterLock.Writer.Close | src/virtuals/_backends/storages/_write_slot.py:261-288 | a fresh lock, free and without owner, queue, grant or debt; the old one is unlocked exactly if it had an owner or a grant; every queued or granted coroutine is closed, no other touched |
| WriterLock.Writer.CountThread | src/virtuals/_backends/storages/_write_slot.py:499-502 | a thread is counted before it blocks, on the current lock |
| WriterLock.Writer.UncountThread | src/virtuals/_backends/storages/_write_slot.py:520-525 | a timed-out thread is uncounted and leaves no queue on a free lock |
| WriterLock.Writer.ReserveOrQueue | src/virtuals/_backends/storages/_write_slot.py:548-566 | a coroutine hands on a grant whose loop closed, then takes a free slot nobody is queued or counted for, or joins the queue at its end |
| WriterLock.Writer.PassOnOrLeave | src/virtuals/_backends/storages/_write_slot.py:599-606 | a leaving coroutine is taken out of the queue, or its grant is handed on |
| WriterLock.Writer.TakeSlot | src/virtuals/_backends/storages/_write_slot.py:649-694 | a transaction takes over the reserved slot; refused when the lock was replaced |
| WriterLock.Writer.GiveBack | src/virtuals/_backends/storages/_write_slot.py:684-694 | the undo restores slot and owner, unless the lock was replaced |
| WriterLock.Writer.ReleaseSlot | src/virtuals/_backends/storages/_write_slot.py:743-748 | a reserved slot is given back once |
| WriterLock.WriteSlot.Take | src/virtuals/_backends/storages/_write_slot.py:765-779 | refused on another storage, when not held, and after a close |
| SlotCore.HandOffShape | src/virtuals/_backends/storages/_write_slot.py:369-392 | a handoff grants the first live queued coroutine, abandons exactly those before it, and unlocks only an emptied queue |
| SlotSystem.StepKeepsInv | src/virtuals/_backends/storages/_write_slot.py:241-784 | in every interleaving of threads and coroutines each step keeps the protocol invariant |
| SlotTheorems.RunKeepsInv | src/virtuals/_backends/storages/_write_slot.py:241-784 | so does every run |
| SlotTheorems.LockedByExactlyOne | src/virtuals/_backends/storages/_write_slot.py:455-597 | the slot is locked exactly if one party has it: the recorded owner, the one grant in flight, or one thread between its take and its record |
| SlotTheorems.NeverUnlocksFree | src/virtuals/_backends/storages/_write_slot.py:394-405 | no step unlocks a free lock |
| SlotTheorems.GrantEnds | src/virtuals/_backends/storages/_write_slot.py:430-453 | a grant ends only as the ownership of its coroutine, its own passing on, a loop found closed, or a close |
| SlotTheorems.NoSecondGrant | src/virtuals/_backends/storages/_write_slot.py:369-392 | out of the queue and without a grant, a coroutine is never granted again |
| SlotTheorems.ReferenceEndsOnce | src/virtuals/_backends/storages/_write_slot.py:703-784 | a reference to the slot ends once, and gives up the slot it holds or touches nothing |
| SlotTheorems.OwnerHasOneReference | src/virtuals/_backends/storages/_write_slot.py:649-784 | there is an owner exactly while one live reference exists |
| SlotTheorems.StaleReferenceTouchesNothing | src/virtuals/_backends/storages/_write_slot.py:632-784 | a reference from before a close touches nothing of the fresh slot |
| SlotTheorems.CloseEndsWaiters | src/virtuals/_backends/storages/_write_slot.py:261-288 | a close ends every queued and granted coroutine |
| SlotTheorems.ClosedWaiterTouchesNothing | src/virtuals/_backends/storages/_write_slot.py:430-453 | a coroutine ended by a close neither takes nor frees the fresh slot |
| SlotTheorems.StaleThreadTouchesNothing | src/virtuals/_backends/storages/_write_slot.py:305-326 | a thread that blocked on a replaced lock never owns, frees or takes the fresh one; leaving, it may only hand a free slot to a queued coroutine |
| SlotTheorems.QueueNeverStranded | src/virtuals/_backends/storages/_write_slot.py:394-428 | whenever a queue waits on a free lock a counted thread, or one about to rescue, is there, threads of replaced locks included |
| SlotTheorems.LeavingThreadRescues | src/virtuals/_backends/storages/_write_slot.py:305-326 | a thread stops being counted only into a taken slot, an empty queue, or its own rescue |
| SlotTheorems.RescueSettles | src/virtuals/_backends/storages/_write_slot.py:421-428 | after a rescue no queue is left on a free slot |
| SlotTheorems.StrandedQueueMoves | src/virtuals/_backends/storages/_write_slot.py:421-428 | while a queue waits on a free slot a step towards serving it is enabled |
| SlotTurns.StepTakesTurns | src/virtuals/_backends/storages/_write_slot.py:369-405 | in every interleaving a grant is made only when no blocked thread is owed a turn, owes them the next one, and the debt stands until the slot is free |
| SlotTurns.ThreadsGetTurns | src/virtuals/_backends/storages/_write_slot.py:394-405 | threads and coroutines take turns: between two grants of a run the slot is free for the threads at least once, if some are blocked all the while |
| SlotTurns.ArrivalDoesNotBarge | src/virtuals/_backends/storages/_write_slot.py:550-566 | an arriving coroutine takes the slot exactly if it is free and nobody is queued or blocked for it; else it is queued last |
| SlotTurns.NoDeadGrantStays | src/virtuals/_backends/storages/_write_slot.py:407-419 | after a thread was counted or uncounted, or a coroutine arrived, no grant is left to a closed loop |
| SlotTurns.LateGrant | src/virtuals/_backends/storages/_write_slot.py:574-594 | a coroutine granted while it timed out takes the slot, one that was cancelled hands it on |
| SlotTurns.TakeOverUndone | src/virtuals/_backends/storages/_write_slot.py:649-694 | a transaction that takes over a reserved slot and gives it back leaves everything as it was |
| SlotTurns.LoopStaysOpen | src/virtuals/_backends/storages/_write_slot.py:369-392 | a coroutine counts as one of a closed loop only if its loop closed, by itself or under the handoff that woke it |
| BoundedBypass.StepSpends | src/virtuals/_backends/storages/_write_slot.py:369-405 | no step moves a queued coroutine back, and each release brings it nearer |
| BoundedBypass.ArrivalOrder | src/virtuals/_backends/storages/_write_slot.py:369-392 | a grant never overtakes a live coroutine queued earlier |
| BoundedBypass.GrantedWithin | src/virtuals/_backends/storages/_write_slot.py:369-405 | a coroutine at place p that keeps waiting is granted within 2(p+1) releases, whatever interleaves |
| Filters.DictRoundTrip | src/virtuals/tkv/filter/filter.py:463-477 | a filter survives `to_dict` and `filter_from_dict` |
| Filters.ReadIffSaid | src/virtuals/tkv/filter/filter.py:453-477 | a dictionary is read as a filter exactly if its type and the entries that type needs say that filter; other entries do not matter |
| Filters.ReadFails | src/virtuals/tkv/filter/filter.py:453-477 | ValueError for an unknown type, KeyError for a missing entry, else the error of the first constituent that cannot be read |
| FilterJson.SortKeySplits | src/virtuals/tkv/filter/filter.py:480-482 | the JSON sort key is read off any text in one way only |
| FilterJson.SortKeyInjective | src/virtuals/tkv/filter/filter.py:480-482 | different filters have different sort keys |
| Canonical.CanonAgrees | src/virtuals/tkv/filter/filter.py:485-571 | the canonical form matches exactly the keys the filter matches |
| Canonical.CanonIsCanonical | src/virtuals/tkv/filter/filter.py:485-571 | the canonical form is flat, sorted by key and free of repeats, identities and absorbed parts at every level |
| Canonical.CanonicalFixed | src/virtuals/tkv/filter/filter.py:485-571 | a canonical filter is its own canonical form |
| Canonical.CanonIdempotent | src/virtuals/tkv/filter/filter.py:485-571 | canonicalizing twice is canonicalizing once |
| Canonical.SameChildren | src/virtuals/tkv/filter/filter.py:513-571 | constituents with the same canonical forms give the same filter |
| Canonical.SameConstituents | src/virtuals/tkv/filter/filter.py:513-571 | reordering and repeating constituents change nothing |
| Canonical.NestingFlattens | src/virtuals/tkv/filter/filter.py:514-526 | an And inside an And, or an Or inside an Or, can be spliced in anywhere |
| Canonical.Canonicalize | src/virtuals/tkv/filter/filter.py:485-571 | the recursive procedure with its flatten, dedup and sort loops computes the canonical form |
| RoutingHints.AndHints | src/virtuals/tkv/filter/hints.py:90-96 | all keys without children, none if a child has none; else the hints of a child no other is preferred to, preferred to every earlier one: its widest hint is narrower, or as narrow with fewer hints |
| RoutingHints.OrHints | src/virtuals/tkv/filter/hints.py:99-108 | one that covers all if a child has it; else exactly the hints of the children, once each, in the order in which they are read |
| RoutingHints.Best | src/virtuals/tkv/filter/hints.py:86-96 | no child scores below the chosen one and none before it equals it |
| RoutingHints.RankIsNarrowness | src/virtuals/tkv/filter/hints.py:69-80 | ranks put prefix, wildcard, suffix, length and all in this order, and of two prefixes, wildcards or suffixes the longer first |
| RoutingHints.ScoreIsPreference | src/virtuals/tkv/filter/hints.py:86-87 | a hint set scores lower exactly if its widest hint is narrower, or as narrow with fewer hints |
| RoutingHints.HintsOfCombined | src/virtuals/tkv/filter/hints.py:90-108 | an And is looked up by its preferred child, an Or by all its children; what matches nothing has no hint |
| RoutingHints.NeverUnderCover | src/virtuals/tkv/filter/hints.py:51-108 | every key a filter matches is covered by one of its hints |
| RoutingHints.LeafHintExact | src/virtuals/tkv/filter/filter.py:164-288 | the hint of a single leaf covers exactly the keys the leaf matches |
| KeyEncoding.Utf8Injective | src/virtuals/_backends/notify/keyenc.py:38-45 | different strings have different UTF-8 bytes |
| KeyEncoding.EncSegSplits | src/virtuals/_backends/notify/keyenc.py:38-45 | an encoded segment is read off any byte string in one way only |
| KeyEncoding.KeysPrefixFree | src/virtuals/_backends/notify/keyenc.py:48-50 | an encoded key that starts with another encoded key starts with its segments |
| KeyEncoding.KeysInjective | src/virtuals/_backends/notify/keyenc.py:48-50 | an encoded key decodes uniquely |
| HintEntries.EntriesOf | src/virtuals/_backends/notify/keyenc.py:68-85 | the entries of a hint set, once each in order, one entry for all keys replacing the set |
| HintEntries.EntryExact | src/virtuals/_backends/notify/keyenc.py:53-65 | byte comparison at the server accepts exactly the keys the hint covers |
| ServerIndex.ParseWildField | src/virtuals/_backends/notify/nu_notify.lua:89-96 | the length and positions of a wildcard field are parsed back as they were written |
| ServerIndex.ProbeExact | src/virtuals/_backends/notify/nu_notify.lua:114-130 | an entry is looked up for exactly the keys it matches |
| ServerIndex.Index.Reg | src/virtuals/_backends/notify/nu_notify.lua:51-67 | a hash is indexed under its entries, once; sets and counts keep agreeing with the records |
| ServerIndex.Index.Unreg | src/virtuals/_backends/notify/nu_notify.lua:33-48 | a hash leaves every set it is in, and a count that falls to zero is dropped |
| ServerIndex.Index.CountsAreUses | src/virtuals/_backends/notify/nu_notify.lua:33-67 | a field is counted exactly if some entry of a registered hash uses it, and its count is how many do |
| ServerIndex.Index.Candidates | src/virtuals/_backends/notify/nu_notify.lua:109-133 | the lookups of one key find exactly the hashes some entry of which matches it |
| ServerIndex.Index.Route | src/virtuals/_backends/notify/nu_notify.lua:85-145 | each hash is sent exactly the keys of the batch it wants, in batch order; hashes nobody listens for are dropped |
| ServerIndex.NoUnderDelivery | src/virtuals/_backends/notify/nu_notify.lua:85-145 | a filter registered under the entries of its canonical form is a candidate for every key it matches |
| ServerIndex.LeavesRoutedExactly | src/virtuals/_backends/notify/nu_notify.lua:85-145 | for a filter whose canonical form is one leaf routing is exact |
| ServerIndex.RegisterAndRoute | src/virtuals/_backends/notify/nu_notify.lua:51-145 | registered, a filter is sent every key of a batch that it matches |
| PublisherLedger.StepKeepsAccount | src/virtuals/_backends/publishers/_base.py:84-456 | in every interleaving each step of writers, flushes, worker and disconnect keeps keys in queue order and sentinels in place, and moves the balance of the counters by exactly the keys it counts again |
| PublisherLedger.AgainIff | src/virtuals/_backends/publishers/_base.py:125-137 | a step counts keys again exactly if encoding raises after a key of its chunk was skipped, or a hook raises what is no `Exception` after a key of its batch was settled or skipped |
| PublisherLedger.Conservation | src/virtuals/_backends/publishers/_base.py:140-152 | at every step of every run: keys notified are those sent, dropped, queued, in hand and still with their writers, up to the keys counted again, and exactly so unless some step counted keys again |
| PublisherLedger.ConservedIfHooksBehave | src/virtuals/_backends/publishers/_base.py:416-428 | with hooks that raise only `Exception`, and none while a chunk is encoded, every key is accounted for exactly once at every step |
| PublisherLedger.FatesStand | src/virtuals/_backends/publishers/_base.py:84-122 | what is queued, settled, sent or set in a run stands in every later state of it |
| PublisherLedger.SentInOrder | src/virtuals/_backends/publishers/_base.py:84-122 | keys settled, then those in hand, then those queued are the keys queued so far, in queue order; what went out is what was settled as sent |
| PublisherLedger.SettledIsCounted | src/virtuals/_backends/publishers/_base.py:395-399 | every key settled as dropped is counted, or about to be by a disconnect |
| PublisherLedger.SentinelMeans | src/virtuals/_backends/publishers/_base.py:105-111 | a sentinel that is set: every key queued before it is settled, in order |
| PublisherLedger.AfterDisconnect | src/virtuals/_backends/publishers/_base.py:250-310 | once a disconnect found the worker gone and emptied the queue, every key notified was sent or counted but those of calls still under way, exactly unless keys were counted again; every sentinel is set |
| PublisherLedger.WritersKeepOrder | src/virtuals/_backends/publishers/_base.py:338-363 | however calls of `notify` interleave, each queues a prefix of its keys in their order |
| PublisherLedger.CallsWithinLimit | src/virtuals/_backends/publishers/_base.py:407-414 | in every run no call is given more keys than the limit, none is empty, and every chunk of a batch but the last has exactly as many keys as the limit |
| PublisherFlags.ErrorMeans | src/virtuals/_backends/publishers/_base.py:395-405 | in every run the last error is set exactly if a key was counted since a flush last cleared it |
| PublisherFlags.StallMeans | src/virtuals/_backends/publishers/_base.py:338-363 | in every run writers drop at once exactly while one has given up and nothing has gone out since |
| PublisherFlags.DrainMeans | src/virtuals/_backends/publishers/_base.py:430-456 | in every run the drain has failed exactly if a send failed for good after stop was set |
| PublisherFlags.NothingAfterFailedDrain | src/virtuals/_backends/publishers/_base.py:430-434 | after one failed send with stop set nothing more is sent or tried |
| PublisherFlags.TriedUntilThen | src/virtuals/_backends/publishers/_base.py:416-456 | until then whatever could be encoded is tried, and no key is counted without one of the causes named |
| PublisherFlags.QueueBounded | src/virtuals/_backends/publishers/_base.py:188-193 | in every run a bounded queue stays within its bound |
| PublisherFlags.GivesUpOnFull | src/virtuals/_backends/publishers/_base.py:338-363 | a writer gives up only if it found the queue full since it last queued a key |
| PublisherRuns.CrashCountsSent | src/virtuals/_backends/publishers/_base.py:125-137 | a concrete run: two keys notified, one sent, then a crash, and both counted as dropped |
| PublisherRuns.RaiseCountsSkipped | src/virtuals/_backends/publishers/redis_pubsub.py:169-194 | a concrete run: a key that cannot be encoded, then an exception while encoding: two keys notified, three counted |
| PublisherRuns.LateKeyStays | src/virtuals/_backends/publishers/_base.py:295-338 | a concrete run: a key queued behind a disconnect is neither sent nor counted |
| Publisher.Base.Conserved | src/virtuals/_backends/publishers/_base.py:140-152 | the account of the publisher object, whatever its methods and other threads did; none is counted again with well-behaved hooks |
| Publisher.Base.FlagsMeant | src/virtuals/_backends/publishers/_base.py:188-205 | last error, stall, failed drain and queue bound of the publisher object, told from what was done to it since it was made |
| Publisher.Base.PrepareChunk | src/virtuals/_backends/publishers/redis_pubsub.py:169-194 | keys are encoded one by one, one that cannot be is counted at once; an exception drops the whole chunk and counts the skipped ones again |
| Publisher.Base.SendLoop | src/virtuals/_backends/publishers/_base.py:435-455 | the send is retried until it succeeds, time is up or stop is set; what can be encoded goes out as a whole or not at all |
| Publisher.Base.PublishWithRetry | src/virtuals/_backends/publishers/_base.py:416-456 | a chunk is sent or dropped as a whole but for keys that cannot be encoded; after a failed drain nothing more is sent; a crash leaves it in hand |
| Publisher.Base.SafePublish | src/virtuals/_backends/publishers/_base.py:407-414 | chunks of exactly the limit of keys per call, the last one shorter at most, are settled in queue order; what a crash leaves in hand is the untouched rest |
| Publisher.Base.Publish | src/virtuals/_backends/publishers/_base.py:125-137 | a batch is settled as a whole; a crash counts again exactly the keys settled before it and those it could not encode, and sends none of the rest |
| Publisher.Base.PublishAndSignal | src/virtuals/_backends/publishers/_base.py:105-113 | the batch is settled before the sentinel behind it is set, and before the worker exits at the stop marker |
| Publisher.Base.Drain | src/virtuals/_backends/publishers/_base.py:104-119 | items are taken while there are any, writers putting more meanwhile; when none is left every key queued so far is settled or in hand; the stop marker ends the worker |
| Publisher.Base.Wake | src/virtuals/_backends/publishers/_base.py:84-122 | a wake that returns settled every key queued before it; one with the stop marker in the queue ends the worker with nothing in hand |
| Publisher.Base.QueueNext | src/virtuals/_backends/publishers/_base.py:341-363 | the next key is queued, after a wait if the queue was full; without room in time the rest is dropped and counted, never by a patient publisher |
| Publisher.Base.Notify | src/virtuals/_backends/publishers/_base.py:312-363 | the call queues a prefix of its keys in order, all of them unless there was no room in time, and then the rest is counted; all are counted when not connected |
| Publisher.Base.FlushMeans | src/virtuals/_backends/publishers/_base.py:365-378 | a sentinel that is set: the keys queued before it are the first keys settled |
| Publisher.Base.FlushQueue | src/virtuals/_backends/publishers/_base.py:380-392 | a flush that saw its sentinel set: every key queued before the call is settled |
| Publisher.Base.Flush | src/virtuals/_backends/publishers/_base.py:365-405 | a drop seen since the last flush is raised, once, by this flush or one that ran beside it |
| Publisher.Base.PutStop | src/virtuals/_backends/publishers/_base.py:263-269 | the stop event is set, then the marker queued if there is room |
| Publisher.Base.DropLeftovers | src/virtuals/_backends/publishers/_base.py:295-310 | once the worker is gone the queue is emptied and what it held counted, late writers or not |
| Publisher.Base.Disconnect | src/virtuals/_backends/publishers/_base.py:250-293 | a disconnect that finds the worker gone leaves every key notified sent or counted but those of calls still under way, and every sentinel set; the worker is gone if nothing keeps it from its marker |
| Readiness.StepKeepsInv | src/virtuals/_backends/observers/redis_pubsub.py:503-924 | registration, loss, reconnect, confirmation and re-registration steps all keep: whatever is ready was indexed after a confirmation of the current generation |
| Readiness.ReadyInEveryRun | src/virtuals/_backends/observers/redis_pubsub.py:503-924 | so in every run, with losses and reconnects: a ready registered hash was indexed after a SUBSCRIBE confirmation read in the current generation |
| Readiness.RoutedAnewUnlessMarked | src/virtuals/_backends/observers/redis_pubsub.py:900-924 | a step keeps every ready hash indexed for its present registration, exactly unless it is the mark of a re-registration queued for an earlier one while no index call of the present one has landed in this generation |
| Readiness.AnewInEveryRun | src/virtuals/_backends/observers/redis_pubsub.py:503-924 | over every run: readiness is always that of the present registration, exactly if no such mark is made |
| EarlyMark.SubscribedReachable | src/virtuals/_backends/observers/redis_pubsub.py:503-591 | the first state of the counterexample is reached from an empty observer |
| EarlyMark.MarkedForAnother | src/virtuals/_backends/observers/redis_pubsub.py:900-924 | a run in which a re-registration queued for a registration that left marks a later one ready before its SUBSCRIBE is sent |
| Observer.Sections.Enter | src/virtuals/_backends/observers/redis_pubsub.py:517-523 | the first registrant brings a fresh readiness, later ones share it |
| Observer.Sections.InvalidateReady | src/virtuals/_backends/observers/redis_pubsub.py:691-713 | every registered hash that was ready gets a fresh unset readiness and the generation moves on |
| Observer.Sections.OnSubscribed | src/virtuals/_backends/observers/redis_pubsub.py:739-771 | a confirmation releases the oldest waiting group, or queues a re-registration for the generation it was read in; the channel of a hash that left is an orphan once nobody waits |
| Observer.Sections.OnReconnect | src/virtuals/_backends/observers/redis_pubsub.py:676-689 | nothing stays ready, and the waiting groups of a channel become one |
| Observer.Sections.MarkReady | src/virtuals/_backends/observers/redis_pubsub.py:915-924 | a landed re-registration counts only if nothing was lost since its confirmation |
| Observer.Sections.Unregister | src/virtuals/_backends/observers/redis_pubsub.py:609-621 | an earlier subscriber takes only its count, the last one the hash with its readiness and its local index |
| Observer.Sections.RollBack | src/virtuals/_backends/observers/redis_pubsub.py:574-585 | a failed first registrant takes its hash with it if the hash is still its own |
| Observer.Sections.CheckGeneration | src/virtuals/_backends/observers/redis_pubsub.py:559-573 | ready at once only if the generation is still that of the confirmation |
| Registration.HeldWhileSubscribed | src/virtuals/_backends/observers/redis_pubsub.py:503-621 | however registrations, losses and reconnects interleave, a hash is held exactly while it has a subscriber that came and neither left nor failed with it, and its count is theirs |
| Registration.GoesOnlyWithTheLast | src/virtuals/_backends/observers/redis_pubsub.py:574-621 | a hash goes only with its last subscriber, or with its own failed first registrant |
| Registration.LocalWhileSubscribed | src/virtuals/_backends/observers/redis_pubsub.py:503-621 | once made local a hash stays local and registered as long as it has a subscriber |
| ContainerTree.AncestorsExist | src/virtuals/container/container_ops.py:109-203 | an existing row proves that every container above it exists |
| ContainerTree.CreateKeeps | src/virtuals/container/container_ops.py:109-203 | a checked create leaves no orphan, keeps every kind, and writes nothing when it fails |
| ContainerTree.UncheckedCreateKeeps | src/virtuals/container/container_ops.py:190-198 | without the parent check a create keeps the tree whole exactly if the parent is a container |
| ContainerTree.PutKeeps | src/virtuals/container/container_ops.py:793-847 | a checked put leaves no orphan, never overwrites a container, and writes nothing when it fails |
| ContainerTree.WithoutTreeKeeps | src/virtuals/container/container_ops.py:234-269 | deleting a subtree takes exactly the rows under it in both trees and leaves no orphan |
| ContainerTree.DeleteKeeps | src/virtuals/container/container_ops.py:934-978 | a deleted child leaves nothing under it and no orphan |
| ContainerTree.MoveKeeps | src/virtuals/container/container_ops.py:272-320 | a moved subtree leaves no orphan |
| ContainerTree.ClearEmpties | src/virtuals/container/container_ops.py:1022-1048 | a cleared container has nothing under it, everything outside stays |
| ContainerTree.Tree.CreateContainer | src/virtuals/container/container_ops.py:109-203 | over an existing site Done exactly for a container of the same structure that shares a protocol flag, with nothing written and each refusal named; a new row is the requested marker and needs a container above it |
| ContainerTree.Tree.PutChildPrimitive | src/virtuals/container/container_ops.py:793-847 | Done with exactly that row written, or NotFoundError, or ContainerTypeError for a primitive parent or a container child, with nothing written |
| ContainerTree.Tree.DeleteSubtree | src/virtuals/container/container_ops.py:260-269 | the scan loop deletes exactly the rows under a site |
| ContainerTree.Tree.DeleteDescendants | src/virtuals/container/container_ops.py:234-257 | a site goes with its mirrored metadata |
| ContainerTree.Tree.DeleteContainer | src/virtuals/container/container_ops.py:206-231 | silent when absent, refused on a primitive, else the whole subtree |
| ContainerTree.Tree.DeleteChild | src/virtuals/container/container_ops.py:934-978 | Done with exactly the child, what lies under it and its mirrored metadata gone, or NotFoundError or ContainerTypeError with nothing written |
| ContainerTree.Tree.ClearChildren | src/virtuals/container/container_ops.py:1022-1048 | the loop over direct children deletes each with what goes with it |
| ContainerTree.Tree.MoveChildSubtree | src/virtuals/container/container_ops.py:272-320 | every row of the subtree stands at the new key, all others as they were, also over a stale row in the slot |
| ViewChain.ChainMade | src/virtuals/view/base.py:114-142 | creating a view ends as the check of its nearest existing ancestor does; nothing is written if that fails; else exactly the missing views are new and the hook fired once for each, topmost first |
| ViewChain.CreatedTwice | src/virtuals/view/base.py:183-213 | creating a view that exists changes nothing and fires nothing |
| ViewChain.StillMissing | src/virtuals/view/base.py:198-208 | the node info read before the parents were created still holds when the child is stamped |
| ViewChain.EnsuredCounts | src/virtuals/view/bases.py:138-140 | however many views a creation makes, every keyed view counts its children right afterwards |
| ViewChain.PutCounts | src/virtuals/view/base.py:265-291 | a primitive write fires the hook exactly if the key is new, is refused exactly over a container, and keeps every count right |
| ViewChain.ChildGone | src/virtuals/container/container_ops.py:934-978 | a deleted child is one child less; the lengths of views below it are gone with it, and the length of its parent exactly if it is a container named `__len__` |
| ViewChain.DeleteCounts | src/virtuals/view/bases.py:81-140 | after the delete and the hook that counts it out the length is right, exactly unless that child took it along and others remain |
| ViewChain.LengthLost | src/virtuals/view/bases.py:124-140 | a concrete view that says it is empty with a child left |
| ViewChain.ClearCounts | src/virtuals/container/container_ops.py:1022-1048 | a cleared view has no child, and every other count stays right |
| ViewChain.RootUncounted | src/virtuals/view/base.py:134-142 | a missing root view is created without its storage parent counting it |
| ViewStore.Views.StoredLength | src/virtuals/view/bases.py:81-88 | the stored length, 0 when missing |
| ViewStore.Views.SetLength | src/virtuals/view/bases.py:101-107 | the length row and no other is written |
| ViewStore.Views.IncrementLength | src/virtuals/view/bases.py:90-93 | one more than was stored |
| ViewStore.Views.DecrementLength | src/virtuals/view/bases.py:95-99 | one less than was stored, never below 0 |
| ViewStore.Views.EnsureCreated | src/virtuals/view/base.py:114-142 | the recursion up the parent chain is the specified creation, hooks included |
| ViewStore.Views.EnsureChildView | src/virtuals/view/base.py:183-213 | the single door for child containers is the specified creation |
| ViewStore.Views.PutChildPrimitive | src/virtuals/view/base.py:265-291 | ContainerTypeError over a container with nothing written; else the item is stored, and a new key is announced and counted once |
| SetView.LengthIsSize | src/virtuals/_views/set_view.py:107-193 | the stored length is the number of members |
| SetView.MemberHasRow | src/virtuals/_views/set_view.py:163-173 | a value is a member exactly if there is a row under its key |
| SetView.WrittenKeeps | src/virtuals/_views/set_view.py:107-122 | writing a member makes it one; a container left under its key by an older release is replaced and counted once |
| SetView.View.Add | src/virtuals/_views/set_view.py:124-133 | an inadmissible value is refused before any write, else the set gains it; a failing creation writes nothing |
| SetView.View.Remove | src/virtuals/_views/set_view.py:135-149 | an error for a value no key can be made of, KeyError for an absent member, else the set loses it |
| SetView.View.Discard | src/virtuals/_views/set_view.py:151-161 | an error for a value no key can be made of, else the set without it |
| SetView.View.Contains | src/virtuals/_views/set_view.py:163-173 | membership, or an error for a value no key can be made of; an absent set is told from an absent member |
| SetView.View.Len | src/virtuals/view/bases.py:65-79 | the size of the set, an error only for an absent view |
| SetView.View.Clear | src/virtuals/_views/set_view.py:186-193 | the set is empty; an absent one stays absent |
| SetView.View.Store | src/virtuals/_views/set_view.py:264-277 | all values are checked before the first write; then the set, or its union with the old one |
| SetView.View.Run | src/virtuals/_views/set_view.py:107-277 | over every run of add, remove, discard, clear and store the view is a mathematical set, outcome for outcome, and its stored length the size of it |
| SetView.LastOneCounts | src/virtuals/_views/set_view.py:107-277 | over every run a value is in the set exactly if the last operation that put it in or took it out put it in |
| SetView.MeantRefusals | src/virtuals/_views/set_view.py:124-277 | which operations are refused, and with which error: the first inadmissible value, no key, an absent member |
| ListSlots.SlotMoved | src/virtuals/container/container_ops.py:272-320 | a moved element arrives whole and every other element stays as it was |
| ListSlots.SlotDeleted | src/virtuals/container/container_ops.py:934-978 | a deleted element leaves every other element as it was |
| ListView.View.NormalizeAddress | src/virtuals/_views/list_view.py:104-118 | an address counts from the front if it is not negative and from the end if it is; IndexError exactly outside the list |
| ListView.View.MoveSlot | src/virtuals/_views/list_view.py:184-192 | one step of a shift: a row rewritten, or a subtree moved |
| ListView.View.Delete | src/virtuals/_views/list_view.py:172-194 | IndexError before any write, else exactly removal at that place, primitives and containers alike |
| ListView.View.Insert | src/virtuals/_views/list_view.py:202-227 | exactly insertion at the clamped index, primitives and containers alike |
| ListView.View.Append | src/virtuals/_views/list_view.py:196-200 | exactly one element more, at the end |
| ListView.View.SetPrimitive | src/virtuals/_views/list_view.py:148-151 | exactly that element is overwritten; refused over a container, with nothing written |
| ListView.View.Clear | src/virtuals/_views/list_view.py:229-235 | no element is left; an absent list stays absent |
| ListView.View.Store | src/virtuals/_views/list_view.py:253-271 | the values, in place of the elements or behind them |
| ListView.NestedLengthStays | src/virtuals/container/container_ops.py:303-320 | the length stored for a nested view does not move with it, so it is right after a shift exactly if both slots stored the same one |
| ListView.NestedLengthLost | src/virtuals/container/container_ops.py:303-320 | a concrete shift that leaves a nested view of one child without a stored length |
| ByteView.View.SetItem | src/virtuals/_views/bytearray_view.py:104-121 | the value is checked before the index, both before any write |
| ByteView.View.Delete | src/virtuals/_views/bytearray_view.py:143-159 | exactly removal at that place |
| ByteView.View.Append | src/virtuals/_views/bytearray_view.py:161-176 | ValueError outside 0..255, else one byte more |
| ByteView.View.Insert | src/virtuals/_views/bytearray_view.py:178-199 | exactly insertion at the clamped index, though the shift deletes no row |
| ByteView.View.Clear | src/virtuals/_views/bytearray_view.py:240-246 | no byte is left; an absent view stays absent |
| ByteView.View.Store | src/virtuals/_views/bytearray_view.py:256-272 | the values as they are given, in place of the bytes or behind them; bytes exactly if everything given is, and everything kept |

## Left out

- FractionalView.View.RebuildBookkeeping: the order rows are taken to have valid keys, and the repair is stated for ids whose kept order rows all have some position row, or with nothing to append; otherwise whether an append respaces, and so repairs, neighbouring rows depends on the drawn keys.
- OrderScans.ScanOrder: a limit of 0 together with a skipped key, where the loop yields a row before it looks at the limit, is not described.
- ListView.View.SetPrimitive: overwriting an element with a container, which runs the store of the child's own view, is not modelled; new containers are written where nothing stands.
- LogView.View.Run: deletes by writers that keep no reverse index are covered by `LogView.DeleteForgets`, not by the run; a value write that fails between data row and log row is not modelled.
- PublisherLedger.AfterDisconnect: one connection; a reconnect starts a fresh queue, and what a late `notify` left in the old one stays there. Retry deadlines, backoff and timeouts are arbitrary waits.
- SlotTheorems.ReferenceEndsOnce: one release of a reference at a time; `WriteSlot.release` tests and sets its state outside the guard, so two threads releasing the same reference at once are not covered.
- ContainerTree.Tree.ClearChildren: sites in the data tree, with validation; the metadata tree, which views do not clear, and the call that skips the check of the site are not modelled.
- LogView.Page: positive limits and the forward direction; pages read backwards with a reverse cursor, and a limit of 0, are not modelled.
- LogView.View.SetItem: a value write that fails between data row and log row is not modelled.
- FractionalView.View.SetItem: a value write that fails is modelled for new ids only, in `FractionalView.View.InsertNew`.
- FractionalView.View.InsertNew: the cleanup after a failed value write is taken to succeed; the code suppresses its own errors, which would leave a part behind.
- PlainRuns.GenerateNKeysBetween: negative counts, for which the code does not promise anything, are not modelled.
- HintEntries.EntriesOf: keys and hints hold strings and integers only, so the code's handling of segments of other types does not occur.
- The worker of a publisher whose owner object is gone; it has nobody left to count for.
- Views with an internal layout create their inner containers as part of their own creation; `ViewChain` models views whose children lie directly under them.
- EMPTY values, which every write path refuses before its first write, do not occur in the model.
- The writer slot: signal handlers raising between bytecodes, `reset` after a fork, detection of nested transactions through context variables, and the cap on waits of event-loop threads.
- Which key a set member gets: member keys are any injective function into strings other than `__len__`. Booleans in storage keys, and lone surrogates in strings, are not part of the key model.
- Log keys are drawn fresh and increasing; clocks, counters and uuids behind them are not modelled. Random tails are arbitrary.
- Concurrent transactions on backends without conflict detection; each view operation runs alone on its storage.
- The Redis observer: two calls of `_release` at the same time, sockets, threads, dispatch of notifications and the overflow buffer. The server index is one server, with each call atomic.
- Storage backends, key and value codecs, the subscription registry, view registry and facets, eager and lazy reads, set algebra operators, list readers and slices, `Kh57View`, and compound values inside the fractional and log views beyond one row per value.
