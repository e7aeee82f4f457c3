# Block layer and CBC: a verified model

This project models the block layer of a Linux 3.x kernel and two small parts of its crypto
layer, and proves what they promise over whole runs. The theorems are for all inputs, all runs
or all reachable states; four lemmas are instances at which a property fails
(`Completion.EmptyTail`, `ThrottleWaits.OneRoundTooFew`, `DeadlineOrder.NewcomerPassed`,
`Cfq.ClassesMatter`). `dafny verify dfyconfig.toml` checks the project.

* **FLUSH/FUA sequencer** (`FlushSpec`, `FlushLists`, `FlushInvariants`, `FlushSteps`,
  `FlushRuns`, `FlushOrder`, `FlushTimeout`, `FlushHead`, `FlushQueue`). A request goes through
  PREFLUSH, DATA and POSTFLUSH; flushes are double buffered on two toggled queues. The state
  also records what the device has completed and what is on non-volatile media. A run is any
  sequence of submissions, driver progress and completions, with or without errors.
* **Merging, segments, completion** (`BlockTypes`, `Segments`, `SegmentParts`, `Merging`,
  `Completion`, `CompletionEnds`, `RequestHistory`, `MergeGrants`, `BlkRequest`). A request's
  history is a tree of bio merges, request merges, granted or refused, and partial completions.
* **I/O throttle** (`ThrottleSlice`, `ThrottleFields`, `ThrottleGroup`, `ThrottleTree`,
  `ThrottleQueue`, `ThrottleBios`, `ThrottleSelect`, `ThrottleRuns`, `ThrottleWaits`,
  `ThrottleExact`, `ThrottleDue`, `BlkThrottle`). A run is any sequence of submissions and
  dispatch work at times that never go back.
* **Deadline scheduler** (`DeadlineSpec`, `DeadlineInvariants`, `DeadlineRuns`, `DeadlineReads`,
  `DeadlineNext`, `DeadlineOrder`, `DeadlineExpiry`, `DeadlineRecords`, `Deadline`). A run is
  any sequence of insertions, merges and dispatches at times that never go back.
* **Elevator core** (`ElevatorHash`, `ElevatorExtents`, `ElevatorLatest`, `Elevator`,
  `ElevatorSwitch`): the merge hash and `last_merge`, and the protocol of switching schedulers
  while requests are allocated.
* **Tags** (`TagSpec`, `BlkTag`) and **CFQ's next request** (`Cfq`).
* **CBC** (`Cbc`, `CbcWalk`, `CbcBytes`), as section 6.2 of NIST SP 800-38A defines it, over an
  arbitrary block permutation, and **`crypto_inc`** (`CryptoInc`).

Code that updates state in place is modelled by classes and arrays (`FlushQueue`,
`BlkRequest`, `BlkThrottle`, `ThrottleFields`, `Deadline`, `Elevator`, `BlkTag`, `CbcWalk`,
`CbcBytes`, `CryptoInc`). Each method is proved to do what a function on values says, and the
theorems are about these functions. Methods that do no more than update the fields as their
function says have no row below.

**Integers.** All counts, sizes and times are unbounded. In the throttle this means that
neither jiffies nor the products `bps * ticks`, `iops * ticks`, `bytes * HZ` and `ios * HZ`
wrap around: the rate guarantee is for limits and times for which the kernel's 64-bit products
(32-bit for `unsigned long` on 32-bit machines) do not overflow. `UINT_MAX`, the one place
where the code itself saturates, is kept. Sectors, sizes and tags do not wrap either. Bytes in
`Cbc` and `CbcWalk` are `bv8` and words `bv32`; in `CryptoInc` a byte is a number below 256 and
the sum is taken modulo 256 to the size.

**Parameters.** The clock is an argument of each event. `BIOVEC_SEG_BOUNDARY`,
`elv_rq_merge_ok`, the hash function and the block cipher are arbitrary functions or flags.

**Where code and documentation differ.** `blk_update_request` is documented to return false
when all bytes of a request are completed. `Completion.FullCompletion` says exactly when the code
does not: when a further bio with no bytes is linked behind the data, as in `Completion.EmptyTail`.
`RequestHistory.EveryRequestCompletes` shows that no request built from data bios by merging is
like that. Only a request of several bios could be; a bio without data is a flush request of its
own and is never merged. `cfq_find_next_rq` looks at two or three requests only;
`Cfq.FindNextBest` says exactly for which classes of requests that finds a best one.
`blk_queue_resize_tags` caps a greater depth and then copies all old entries;
`TagSpec.GrowExact` says exactly when every tag in flight stays in the new arrays. The deadline
scheduler prefers reads, but with `writes_starved` at zero it is the reads that starve;
`DeadlineReads.ReadsBoundedExactly` says that this is the only such setting. A batch of the
deadline scheduler goes on with `next_rq`, which is not the next request in sort order if one has
come or moved in between; `DeadlineOrder.FirstUnlessNewer` says that this is the only exception.

## Model

| member | source | states |
|---|---|---|
| FlushRuns.EveryEndDurable | kernel/block/blk-flush.c:144-229 | In every run from an empty queue, with submissions, completions and errors in any order: when a bio has been ended without error, all writes complete before a REQ_FLUSH request was submitted, and the data of a REQ_FUA request, are on non-volatile media, and the whole sequence is behind it. |
| FlushOrder.NoEarlyRide | kernel/block/blk-flush.c:144-273 | Whenever a completing flush moves a request on, an earlier step of the run issued that very flush, no flush completed in between, and at that step the request was on the pending queue (or was put there by that step before it kicked) with the same stages complete as now: waiting for PREFLUSH, or for POSTFLUSH with DATA complete. |
| FlushTimeout.IssueExactly | kernel/block/blk-flush.c:244-273 | In every run, exactly when a step issues a flush: it moves a request of a sequence, none is in flight, somebody waits, and no data of a sequence is in flight or the oldest waiter has waited FLUSH_PENDING_TIMEOUT; when a flush completes, data counts as of the first request it moves on. |
| FlushTimeout.SinceFirst | kernel/block/blk-flush.c:144-166 | In every run, flush_pending_since is the time of the event that put the first of the pending queue there. |
| FlushTimeout.OldestFirst | kernel/block/blk-flush.c:144-166 | If time does not go back, nobody on the pending queue has waited longer than the first. |
| FlushTimeout.NoStarvation | kernel/block/blk-flush.c:40-50 | A stream of data cannot starve a waiter: once it has waited for the timeout, the next step that moves any request leaves a flush in flight. |
| FlushHead.HeadExactly | kernel/block/blk-flush.c:144-347 | In every run, what each step does to the dispatch queue: data of a sequence goes ahead of everything queued, a flush behind everything, a request without flushes last, and the driver takes the first. |
| FlushHead.StagesNeeded | kernel/block/blk-flush.c:94-113 | In every run, a request waits for a flush before its data only if it carries REQ_FLUSH and the device has a cache, for one after it only if it carries REQ_FUA and the device has a cache but no FUA; what needs neither stays out of the sequence. |
| FlushRuns.FlushServes | kernel/block/blk-flush.c:194-229 | A completed flush moves on exactly the requests on its queue, and what each waits to see durable was complete when the flush was issued; every other request keeps its record. |
| FlushRuns.DataAfterPreflush | kernel/block/blk-flush.c:144-192 | In every run, a request whose data is queued for the driver has everything completed before its submission durable, if it carries REQ_FLUSH. |
| FlushRuns.EndedOnce | kernel/block/blk-flush.c:115-192 | In every run, the bio of a finished request has been ended exactly once, and that of a live request not at all, although a sequenced request with data passes the completion path twice. |
| FlushRuns.EveryRequestFinishes | kernel/block/blk-flush.c:144-347 | A run that goes on until the driver has nothing left to do has finished every request ever submitted, with its bio ended exactly once. |
| FlushRuns.RunBounded | kernel/block/blk-flush.c:144-347 | Steps by which the driver goes on cannot continue for ever: their number is bounded by a measure of the stages still owed and the entries queued. |
| FlushRuns.NeverStuck | kernel/block/blk-flush.c:244-273 | No wake-up is lost: in every valid state with a live request the driver or the device has something to do. |
| FlushRuns.StepValid | kernel/block/blk-flush.c:94-347 | Every step keeps the invariant: each sequenced request is on exactly one of the two flush queues and the in-flight list, as its lowest incomplete stage says; at most one flush is in flight, exactly when the indices differ; waiting requests without a flush in flight mean data in flight; and the dispatch queue, durability and ended bios are in order. |
| FlushSpec.EndAllOnce | kernel/block/blk-flush.c:115-127 | The completion path, run on the restored request, finishes it and ends its bio once, whether its data has been completed before or not. |
| FlushQueue.RequestQueue.FlushEndIo | kernel/block/blk-flush.c:194-229 | Updating the fields in place and walking the live list with a saved successor pushes exactly the requests that waited; the queue is run if something was queued or it was held back; no BUG_ON fires. |
| RequestHistory.EveryRequestMaps | kernel/block/blk-merge.c:12-69 | For every history of bio merges, request merges and partial completions, the incrementally kept segment count is at least the number of scatterlist entries the greedy mapper emits, each entry is one the queue allows, and together they denote exactly the bytes of the bio vectors. |
| RequestHistory.EveryRequestExact | kernel/block/blk-merge.c:228-315 | For every history, the bios left cover consecutive sectors from `__sector`, and `__data_len` is the number of bytes left in them. |
| RequestHistory.EveryBioOnce | kernel/block/blk-core.c:1102-1154 | For every history, with merges and completions in any order: the bios finished and the bios left of a request are those it was given, in the order of their sectors; no merge or completion loses, repeats or reorders one. |
| RequestHistory.MergesWithin | kernel/block/blk-merge.c:202-447 | However bios and requests are merged, the request stays within the queue's sector and segment limits if the bios on their own did. |
| MergeGrants.BioGranted | kernel/block/blk-merge.c:202-272 | For every history, a compatible bio that begins where the request ends, or ends where it begins, is taken in if and only if sectors and segments of both are within the limits; any other leaves the request as it is. |
| MergeGrants.JoinGranted | kernel/block/blk-merge.c:277-413 | For any two histories, the requests are joined if and only if the second begins where the first ends and both together are within the limits, segments that touch counting once; a refused join leaves both with their bios. |
| MergeGrants.NewRequest | kernel/block/blk-core.c:1195-1208 | A request made from a bio has its sectors, its vectors and the segments of its vectors' division. |
| RequestHistory.EveryRequestCompletes | kernel/block/blk-core.c:2010-2158 | Completing all bytes of a request with any such history finishes it. |
| Completion.FullCompletion | kernel/block/blk-core.c:2010-2158 | Completing `__data_len` bytes leaves the request unfinished if and only if it has several bios and the last has no bytes. |
| Completion.EmptyTail | kernel/block/blk-core.c:2010-2158 | An instance: a sector of data and behind it a bio without any; after all bytes are completed the code still says that more is left. |
| Completion.UpdateCompose | kernel/block/blk-core.c:2010-2158 | Completing a bytes (whole sectors) and then c has the outcome of completing a + c: the same bios finished in the same state, the same bytes left in each bio, the same length, position and segment count. |
| Completion.ComposeEnds | kernel/block/blk-core.c:150-176 | ... and makes the same bio_endio calls, with the same errors, in the same order. |
| CompletionEnds.UpdateEnds | kernel/block/blk-core.c:150-176 | A completion ends the bios that are not left, in order, each with the completion's error, or EIO if an earlier part of it failed; an error marks the first bio left if bytes of it are done; inside a flush sequence none is ended. |
| CompletionEnds.UpdateSegments | kernel/block/blk-core.c:2010-2158 | The segments of what is left are counted afresh, as the division of its vectors. |
| Completion.UpdateConserves | kernel/block/blk-core.c:2010-2158 | A completion takes exactly its bytes off a request: the length stays the number of bytes left, the position follows, and the request is finished exactly when its bytes are. |
| Completion.UpdateBytes | kernel/block/blk-core.c:2010-2158 | What is left after n bytes is exactly the bytes of the request from n on. |
| Completion.UpdateIds | kernel/block/blk-core.c:2010-2158 | Bios finished and bios left are together the bios there were, in order. |
| Segments.CountedBoundsMapSg | kernel/block/blk-merge.c:117-169 | Any count that belongs to a feasible division of the vectors into segments bounds the greedy scatterlist, which covers the same bytes. |
| SegmentParts.MapSgMaps | kernel/block/blk-merge.c:117-169 | Each scatterlist entry stands for consecutive vectors: neighbours in it are physically mergeable, within the boundary and only with clustering, it is at most max_segment_size long if it has several, and it ends only where the next vector may not be added. |
| SegmentParts.DivisionOnce | kernel/block/blk-merge.c:117-169 | There is only one division of the vectors like that. |
| SegmentParts.CountDivides | kernel/block/blk-merge.c:12-69 | The count, and the first and last sizes, are those of the one such division that keeps pages that may be bounced apart. |
| SegmentParts.CountExact | kernel/block/blk-merge.c:12-169 | For vectors that are not bounced, a fresh count is the number of scatterlist entries. |
| SegmentParts.HintsExact | kernel/block/blk-merge.c:12-69 | A recount raises the size hints of the first and last bio to the sizes of the first and last segment. |
| BlkRequest.CountSegments | kernel/block/blk-merge.c:12-69 | The counting loop returns the count, and the first and last segment sizes, of a feasible division. |
| BlkRequest.FillSg | kernel/block/blk-merge.c:117-169 | The loop writes the greedy scatterlist into the array, with the entries the queue allows, and leaves the rest of the array alone. |
| BlkRequest.WalkLoop | kernel/block/blk-core.c:2056-2130 | The loop over vectors with its byte counters and the final in-place trim amounts to the walk bio by bio that the composition theorems are about. |
| BlkRequest.Request.MergeNext | kernel/block/blk-merge.c:277-447 | The request in place takes in the next one, or both are left as the specification says, hints included. |
| ThrottleRuns.RateGuarantee | kernel/block/blk-throttle.c:496-809 | At the end of any run on a new device, for every group and direction with a limit: bytes * HZ <= bps * (t - s0 + throtl_slice), where s0 is when the slice of its first bio was opened, and likewise for bios and iops, over any mix of extensions, trims, new slices, queued and direct dispatches. |
| ThrottleRuns.FirstInFirstOut | kernel/block/blk-throttle.c:758-842 | What a group has dispatched in a direction, followed by what waits, is what was submitted, in order. |
| ThrottleRuns.NoneLost | kernel/block/blk-throttle.c:811-873 | Over every run, each bio submitted is waiting in a group or has been handed back, exactly once. |
| ThrottleSelect.SelectBound | kernel/block/blk-throttle.c:844-873 | One call of throtl_select_dispatch ends, dispatches at most 39 bios, loses none, leaves limits and arrivals alone, and keeps the invariant: groups are on the service tree exactly when bios wait, totals are sums over the groups, and the cached leftmost node is unknown or right. |
| ThrottleSelect.TurnProgress | kernel/block/blk-throttle.c:844-873 | One turn dispatches at most eight bios; one that dispatches none leaves fewer groups due, which is why the loop ends. |
| ThrottleQueue.FirstGroup | kernel/block/blk-throttle.c:381-394 | The first node is a group with waiting bios that is due no later than any other. |
| ThrottleQueue.WaitersOnTree | kernel/block/blk-throttle.c:476-494 | Waiting bios mean a group on the tree, so the BUG_ON does not fire. |
| ThrottleQueue.SubmitOk | kernel/block/blk-throttle.c:1126-1225 | A submission keeps the device's invariant, whether the bio goes through or queues. |
| ThrottleTree.AddDescends | kernel/block/blk-throttle.c:421-447 | The descent on any search tree with these nodes inserts after equal keys and takes the new node for the leftmost exactly when it is. |
| ThrottleSlice.DispatchRate | kernel/block/blk-throttle.c:534-756 | Asking for a bio, charging and trimming keep everything dispatched so far within the rate. |
| ThrottleSlice.AskTwice | kernel/block/blk-throttle.c:695-744 | Asking again in the same tick gives the same answer and changes nothing; the wait is zero exactly when the bio may go. |
| ThrottleExact.MayExactly | kernel/block/blk-throttle.c:593-744 | A bio may go if and only if, with it, the slice's bytes and bios are within bps and iops over the slice intervals begun since the slice started, at least one, and its number is at most UINT_MAX. |
| ThrottleExact.FirstGoes | kernel/block/blk-throttle.c:593-744 | After its slice is over, a bio goes at once if and only if it fits one slice. |
| ThrottleExact.PassesExactly | kernel/block/blk-throttle.c:1126-1225 | A submitted bio passes if and only if none of its direction waits and it may go. |
| ThrottleExact.RefusedWaits | kernel/block/blk-throttle.c:593-744 | The wait of a refused bio ends when the rate allows it: for the bytes give or take a tick and the time of a byte, for the bios with the first tick that is enough. |
| ThrottleExact.AskedSlice | kernel/block/blk-throttle.c:695-744 | Asking keeps the counts, in a slice that reaches a slice's length and the wait ahead and is no longer than whole intervals make it. |
| ThrottleExact.TrimExact | kernel/block/blk-throttle.c:534-591 | Trimming moves the start on by the whole intervals and takes exactly what they allow off both counts, unless they allow nothing. |
| ThrottleExact.WaitLeast | kernel/block/blk-throttle.c:771-789 | A group's wait is the smaller of those of its directions' first bios. |
| ThrottleDue.DueExactly | kernel/block/blk-throttle.c:771-789 | In every run, a group with waiting bios is due when the first bio of one direction may go again, as asked at some earlier time, and no later than that of the other. |
| ThrottleDue.TurnExact | kernel/block/blk-throttle.c:811-873 | There is a turn exactly when a group is due; it is that of a group due no later than any other, whose reads and then writes go while they may, up to six and two. |
| ThrottleDue.SelectFull | kernel/block/blk-throttle.c:844-873 | One call goes on until 32 bios have gone or no group is due. |
| ThrottleWaits.IopsWaitHelps | kernel/block/blk-throttle.c:593-641 | After the wait that tg_with_in_iops_limit computes, the bio is within that limit, if and only if its number in the slice does not exceed UINT_MAX, where the limit saturates. |
| ThrottleWaits.WaitingEnds | kernel/block/blk-throttle.c:593-744 | A bio asked for again whenever its wait is over goes after a bounded number of rounds: no more than the ticks until the slice is old enough for both limits, although slices are renewed and extended on the way. |
| ThrottleWaits.WaitingEndsExactly | kernel/block/blk-throttle.c:593-744 | It goes at all if and only if the bios charged to its slice leave room for one more below UINT_MAX. |
| ThrottleWaits.OneRoundTooFew | kernel/block/blk-throttle.c:643-683 | An instance: the wait for the byte limit is rounded down, and one round is not enough. |
| ThrottleFields.SliceFields.DispatchBio | kernel/block/blk-throttle.c:496-809 | The slice fields updated in place keep the rate, also when the bio has to wait, and then the wait is positive. |
| BlkThrottle.DispatchDirection | kernel/block/blk-throttle.c:811-842 | The loop dispatches from the front of the queue, at most `max` bios, and stops short only at one that must wait. |
| BlkThrottle.ThrottleData.SelectDispatch | kernel/block/blk-throttle.c:844-873 | The loop over the fields does what the specified selection does and returns the number dispatched, at most 39. |
| DeadlineRuns.StarvationBound | kernel/block/deadline-iosched.c:243-325 | In any stretch of a run in which a write waits at each dispatch and none is dispatched, at most (writes_starved + 1) * max(1, fifo_batch) reads are. |
| DeadlineReads.ReadStarvationBound | kernel/block/deadline-iosched.c:243-325 | The dual: if writes_starved is positive, then in any stretch of a run in which a read waits at each dispatch and none is dispatched, at most max(1, fifo_batch) writes are. |
| DeadlineReads.ReadsBoundedExactly | kernel/block/deadline-iosched.c:243-325 | There is any bound on the writes dispatched while a read waits if and only if writes_starved is positive. |
| DeadlineReads.FreshRun | kernel/block/deadline-iosched.c:243-325 | Every state a run reaches is one these bounds are about: a batch of writes goes on only with the starvation count at zero. |
| DeadlineOrder.DispatchExactly | kernel/block/deadline-iosched.c:243-325 | In every run, which request a dispatch takes: within a batch, which goes on while it is not fifo_batch long and something follows, the next in sort order; for a new batch, reads unless waiting writes have been passed over writes_starved times, beginning with the earliest deadline of the direction if one has passed or there is nowhere to go on from. |
| DeadlineOrder.FirstUnlessNewer | kernel/block/deadline-iosched.c:204-220 | The request a batch goes on with is the first of all beyond the last one, if and only if none that came or moved since lies before it. |
| DeadlineOrder.NewcomerPassed | kernel/block/deadline-iosched.c:204-220 | An instance: a read that comes between the last one and next_rq is passed over. |
| DeadlineExpiry.ExpiredBound | kernel/block/deadline-iosched.c:226-325 | While a request whose deadline has passed waits, at most (a + 1) * max(1, fifo_batch) requests of its direction go, a being the number before it in the FIFO. |
| DeadlineExpiry.AheadEarlier | kernel/block/deadline-iosched.c:98-112 | Those before a request in the FIFO have no later deadlines. |
| DeadlineRecords.RecordsExact | kernel/block/deadline-iosched.c:98-188 | In every run, each waiting request has exactly the sectors of the bios and requests merged into it, and the deadline of its arrival or an earlier one it took over. |
| DeadlineRuns.DrainAll | kernel/block/elevator.c:606-618 | Forced draining ends with nothing sorted, and dispatches each waiting request exactly once, after what was dispatched before. |
| DeadlineRuns.RunOk | kernel/block/deadline-iosched.c:84-325 | In every state a run reaches, the FIFO and the sort tree of a direction hold the same requests in order, at most one next_rq is set and it waits, and nr_sorted is right. |
| DeadlineInvariants.HeadDecides | kernel/block/deadline-iosched.c:226-237 | The head of a FIFO has expired if and only if some request of the direction has. |
| DeadlineInvariants.AddDescends | kernel/block/elevator.c:356-374 | The descent of elv_rb_add on any search tree with the direction's nodes puts the request where the sort order has it. |
| Deadline.DeadlineData.ChooseRequest | kernel/block/deadline-iosched.c:243-325 | The branches over batch, starvation and expiry, with their counters, make the specified choice; no BUG_ON fires. |
| Deadline.DeadlineData.FrontCandidate | kernel/block/deadline-iosched.c:124-145 | The lookup finds a waiting request of the direction that starts at the sector if and only if there is one. |
| Deadline.DeadlineData.DrainElevator | kernel/block/elevator.c:606-618 | The loop drains the scheduler as specified. |
| SearchTree.DescendInserts | kernel/block/blk-throttle.c:421-447 | On any search tree the descent inserts into the in-order sequence and never goes right exactly when the node becomes the first. |
| SearchTree.RbFind | kernel/block/elevator.c:385-402 | The descent finds a node with the key if and only if the tree has one. |
| ElevatorHash.HashAgrees | kernel/block/elevator.c:305-350 | After any history of insertions, back, front and request merges, dispatches and lookups, a lookup finds a mergeable request that ends at the sector if and only if one is in the scheduler, and last_merge is one of its mergeable requests. |
| ElevatorExtents.ExtentsExact | kernel/block/elevator.c:548-578 | In every run, the requests in the scheduler, the sectors each begins and ends with, which can be merged with, and last_merge are what the sectors of the requests and bios added and merged say. |
| ElevatorExtents.FindsTrueEnd | kernel/block/elevator.c:330-350 | In every run, a lookup finds a mergeable request whose sectors, as given, end right before the key, if and only if there is one. |
| ElevatorLatest.FindsLatest | kernel/block/elevator.c:316-350 | Of several, it finds the one that was last added or last grew at its end. |
| ElevatorHash.FindOk | kernel/block/elevator.c:330-350 | Unhashing unmergeable requests during a lookup does no harm. |
| Elevator.ElevatorQueue.RqhashFind | kernel/block/elevator.c:330-350 | The loop over the bucket, deleting as it goes, does what the specified lookup does. |
| ElevatorSwitch.EveryInterleaving | kernel/block/elevator.c:623-646 | Under every interleaving of allocations, unlocked set-up, failures, frees and a switch, each request with scheduler data was set up by the scheduler attached, elvpriv counts exactly these and the allocations in progress that may get such data, and the attached scheduler has not been shut down except on the way back to the old one. |
| ElevatorSwitch.FreedByOwner | kernel/block/blk-core.c:1030-1056 | A request with scheduler data holds up every switch, so it is freed by the scheduler that set it up, which has not been shut down. |
| ElevatorSwitch.DrainingFalls | kernel/block/elevator.c:953-1024 | While a switch waits, elvpriv never grows and falls with each such request or allocation that ends; at zero the switch can go on. |
| ElevatorSwitch.SwitchExactly | kernel/block/elevator.c:953-1024 | Under every interleaving, the scheduler attached and those shut down are what the steps of the switches say. |
| ElevatorSwitch.AllocExactly | kernel/block/blk-core.c:684-760 | An allocation is refused exactly when there are one and a half times nr_requests of its kind; it may get scheduler data exactly when it wants to and no switch is going on. |
| TagSpec.TagsExclusive | kernel/block/blk-tag.c:282-384 | Under every interleaving of the atomic steps of starts and ends, with resizes to arrays that are not smaller, no two requests have one tag, a non-null index entry names the holder of a tag whose bit is set, and every holder is found by its tag. |
| TagSpec.GrowExact | kernel/block/blk-tag.c:220-266 | Growing keeps every tag in flight findable, in every state that is reached, if and only if twice nr_requests is not below the old depth. |
| TagSpec.GrowDepth | kernel/block/blk-tag.c:107-138 | The new arrays have the depth asked for, or twice nr_requests if that is less. |
| TagSpec.FullReached | kernel/block/blk-tag.c:337-384 | Sync requests can take all tags of a map, and async requests all but two, or one of two; then no further one of the kind can start. |
| TagSpec.SyncNotShutOut | kernel/block/blk-tag.c:337-384 | Async requests alone never use up the tags: under every interleaving at a fixed depth of at least three, no free tag means two sync requests in flight. |
| BlkTag.QueueTags.StartTag | kernel/block/blk-tag.c:337-384 | A request gets the first free tag below its limit; it is refused if and only if all of those are taken, or too many async requests are in flight. |
| Cfq.FindNextBest | kernel/block/cfq-iosched.c:801-823 | What is found is at least as good as every other request, wherever the requests are, if and only if their classes let the neighbours decide: all of the best class are looked at, or all looked at are of the best class, or the best class lies all after the last request, its successor included. |
| Cfq.DecidedBest | kernel/block/cfq-iosched.c:801-823 | If they do, a best request of a sorted queue is found. |
| Cfq.Undecided | kernel/block/cfq-iosched.c:801-823 | If they do not, there are positions for the same requests at which a better one is missed. |
| Cfq.OneClassBest | kernel/block/cfq-iosched.c:801-823 | Requests of one class always let the neighbours decide. |
| Cfq.ClassesMatter | kernel/block/cfq-iosched.c:801-823 | An instance in which a better request is missed. |
| Cfq.Transitive | kernel/block/cfq-iosched.c:670-753 | The relation that cfq_choose_req induces is transitive. |
| Cfq.Total | kernel/block/cfq-iosched.c:670-753 | It is total and reflexive, and the choice is at least as good as both. |
| Cfq.BackPenalty | kernel/block/cfq-iosched.c:670-753 | Of two requests of a class, one ahead is chosen over one behind and within reach if and only if it is not further away than back_penalty times as far. |
| Cfq.Ahead | kernel/block/cfq-iosched.c:670-753 | Ahead of the head, the nearer is chosen. |
| Cfq.Behind | kernel/block/cfq-iosched.c:670-753 | Behind the head and within cfq_back_max, the nearer is chosen. |
| Cfq.Beyond | kernel/block/cfq-iosched.c:670-753 | Beyond it, the one further behind is chosen. |
| Cfq.Reachable | kernel/block/cfq-iosched.c:670-753 | What is within reach is chosen over what is not. |
| Cbc.RoundTrip | kernel/crypto/cbc.c:42-191 | Decryption inverts encryption, for any cipher whose directions are inverse. |
| CbcWalk.CbcEncrypt | kernel/crypto/cbc.c:90-112 | Cut into any chunks, in place or into another buffer, the walk encrypts the message as the standard defines it, and leaves the last ciphertext block as IV. |
| CbcWalk.CbcDecrypt | kernel/crypto/cbc.c:169-191 | Likewise for decryption, the in-place loop going backwards. |
| CbcWalk.EncryptEitherWay | kernel/crypto/cbc.c:42-112 | In place and out of place, under any two chunkings, encryption has the same output and final IV. |
| CbcWalk.DecryptEitherWay | kernel/crypto/cbc.c:114-191 | And so has decryption. |
| CbcWalk.ThereAndBack | kernel/crypto/cbc.c:42-191 | Encrypting and decrypting in place restores the buffer. |
| CbcWalk.ThereAndBackApart | kernel/crypto/cbc.c:42-191 | So does encrypting into another buffer and decrypting back. |
| CbcWalk.DecryptInplace | kernel/crypto/cbc.c:140-167 | Going backwards, each block is still combined with the ciphertext before it. |
| CbcWalk.CryptoXor | kernel/crypto/algapi.c:892-907 | Word by word and then byte by byte, the result is the bytewise exclusive or. |
| CbcBytes.ByteCipherOk | kernel/crypto/cbc.c:42-191 | With the exclusive or that crypto_xor computes, any permutation of byte blocks is a cipher the theorems hold for. |
| CbcBytes.EncryptSegmentBytes | kernel/crypto/cbc.c:42-64 | With the IV combined, encrypted and replaced in its byte buffer, the segment is encrypted as the standard defines it. |
| CbcBytes.BytesThereAndBack | kernel/crypto/cbc.c:42-191 | A message of byte blocks is restored. |
| CryptoInc.Inc | kernel/crypto/algapi.c:876-889 | Whole words from the end while they wrap, then bytes: the big-endian number grows by one modulo 256 to the size. |
| CryptoInc.IncByte | kernel/crypto/algapi.c:863-874 | The byte loop finishes the carry. |

## Left out

- Locks, RCU, timers, workqueues, memory allocation and tracing; each step is atomic, and what runs unlocked is a step of its own.
- The contract at kernel/block/blk-flush.c:13 is kept: a submission without data does not ask for two flushes (`FlushSteps.Submittable`), since such a request would be queued again on the list being walked.
- `blk_abort_flushes`, which empties the queues without resetting the indices.
- Discard requests, DMA padding and drain entries, failfast bits and mixed merges; the cached segment count of a bio is always recounted.
- RequestHistory.MergesWithin: is about requests of which no byte is completed yet, since the limits are tested by merges only; a completion recounts the segments without a test.
- TagSpec.TagsExclusive: leaves out a growth whose depth, after capping, is below the old one. The copy then runs past the end of the new arrays, so nothing is promised about what follows; TagSpec.GrowExact shows that such a growth, and only such a one, can lose a tag in flight.
- Limit changes and creation or removal of throttled groups, the timer set from min_disptime, and bios that pass because they have been throttled before.
- Re-balancing of rb-trees: a tree is its in-order sequence, and the descents are proved for search trees of any shape.
- A hash bucket, FIFO or list is a sequence; the links between its entries are not modelled.
- A bio merged into a sorted request carries data and touches it, as elv_try_merge and attempt_merge see to.
- Requests that bypass the scheduler (insertion at front or back, requeueing, barriers) and batching and congestion of request allocation.
- At most one switch of schedulers at a time, as sysfs_lock ensures.
- Freeing and invalidating tags; the test-and-set retry of a start is a free choice of a clear bit in `TagSpec`, and what is written past the end of a smaller array is not modelled, only that the arrays do not hold it.
- ThrottleWaits follows the bio at the head of one queue; that every bio of every group goes in the end is not stated.
- The rest of CFQ.
- Bytes left over when a message is not a multiple of the block size, and the mapping of scatterlists by the walk; a walk is given by the number of blocks from each position.
