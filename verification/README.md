# Verified model of the ve-tls log producer

The SDK is an asynchronous log producer. Writers fill builders, pack workers turn
builders into send tasks, senders dispatch the tasks by hash key, and all of it stays
within one byte budget. This project models the parts whose correctness spans several
functions, in the form the C code has (fields updated in place, loops, cursors into
buffers), and proves each against a definition that does not follow the code.

| part | files | main results |
|---|---|---|
| key-queue scheduler | `SchedulerSpec`, `SchedulerLaws`, `SchedulerSteps`, `Links`, `Rings`, `Scheduler` | the pointer structure and its rings refine an abstract scheduler; list shape, index, order per key, one task in flight per key and bounded bypass hold in every run; which keys can never be freed again |
| byte budget | `BudgetSpec`, `Budget` | every counter is exactly the bytes of its live buffers, `queue_bytes` as long as no key was freed with logs in its builder; the total never exceeds a positive limit, and the send reservation is always honoured |
| scheduler and budget together | `KeyBuilders` | both agree on what the builder of every key holds; bytes are lost exactly under two guards of the code, and a run that loses a log |
| wire encoder | `Wire`, `WireLaws`, `WireBytes`, `ProtoEncoder`, `Builder`, `BuilderStats`, `LogBuilder`, `EncodersAgree` | the fast builder and the simple encoder agree byte for byte exactly for 1 to 10000 logs, sizes are exact, and the output decodes to what went in |
| raw-buffer snapshot | `Endian`, `SnapshotSpec`, `SnapshotLaws`, `Snapshot`, `SnapshotVersions`, `BuilderExport` | import undoes export in every version, with the exact condition on the next id; on any bytes import appends a prefix of the records that can be parsed; the logs of open builders come back |
| streaming hashes | `HashSpec`, `HashLaws`, `HashWords`, `MachineWords`, `ShaConstants`, `SineTable`, `Sha256`, `Md5Stream` | buffered SHA-256, MD5 and HMAC equal the whole-message definitions, however the message is split |
| canonical query | `QuerySpec`, `QueryLaws`, `Query` | equal canonical forms if and only if equal multisets of pairs, in the order of dictionaries |
| token bucket | `TokenBucket` | admitted requests and bytes over any stretch are bounded by the rates if and only if the clock never reads zero; when a refused request should come back |

How to read the model:

- A key queue is known by its address, and each field of the queue structure is a map
  over addresses: writing `q->rnext` is updating the map `ready.next` at `q`. So links are
  updated in place and may alias. The class `Scheduler.Producer` holds these fields;
  its methods are the critical sections, and `state` is the abstract state they stand for.
  The deque of a queue is an object of the class `Rings.Ring`, with its array on the heap.
- The builder of a key queue is the number of bytes of logs in it; an entry is never empty,
  so a builder without bytes is one without logs. What those bytes are is the subject of
  `LogBuilder`, and that the scheduler and the budget agree on their number that of `KeyBuilders`.
- A run of the methods of `Scheduler.Producer` takes `state` through exactly the steps of a
  run as `SchedulerLaws.IsRun` defines it, so what is proved of runs holds of the fields.
- The clock, the verdict of the gate (when a refused key may come back), the result of
  a send and the address the allocator hands out are parameters.
- Allocation succeeds, so no buffer is ever as long as 2^64 bytes. Without a positive
  `max_buffer_bytes` nothing bounds the counters but memory, and the budget methods then
  require that the bytes live at once fit in 64 bits.
- The steps and parsers that the methods refine are pinned down apart from their definitions:
  by lists and times (`SchedulerSteps`), sums of stages (`BudgetSpec.RoomExactly`), bytes at
  positions (`WireBytes`, `SnapshotVersions`), machine words (`MachineWords`) and numbers
  (`TokenBucket.RoundByNumbers`).
- A C string is the sequence of its bytes before the terminator.
- The budget methods settle whatever size a log turns out to have; that it is the estimate
  is what `LogBuilder.LogGroupBuilder.AddKvLens` and `Builder.EstimateKvLens` prove.
- `qsort` of the C library is a parameter of which only the sorting is known.
- Proofs name the definitions they do not need (`hide`). `Scheduler.Stands`, which has many
  parts, is stated under a mark that a proof asserts where it looks inside.

Where the code does less than its documentation suggests, the model follows the code:

- Freeing a key queue frees its builder even when that holds logs, and their bytes stay in
  `queue_bytes` for good. This happens exactly when a finish finds the deque empty, no time
  to live and logs in the builder, or a cleanup finds logs in the builder of an expired idle
  key (`SchedulerLaws.LosesExactly`, `KeyBuilders.StepLoses`); `queue_bytes` is exact if and
  only if neither has happened (`KeyBuilders.NothingLostExactly`), and
  `KeyBuilders.FinishLosesLog` is a run of four steps in which it does.
- A key that was looked up, for a log or a reservation, and never got a task is on no list,
  and no cleanup takes it (`SchedulerLaws.LimboEndsWithPush`); such keys can use up
  `key_queue_max_active` for good (`SchedulerLaws.LimboUsesUpLimit`).
- A thread batch is already counted when it asks for room to be flushed, so it is flushed
  only when its size fits twice (`BudgetSpec.FlushNeedsRoomTwice`).
- A request of more bytes than the byte rate is never let through by a token bucket
  (`TokenBucket.TooLargeNeverGranted`). The limit holds for all runs of a clock if and only
  if the clock never reads zero (`TokenBucket.BoundedExactly`); a producer without a clock
  passes zero to the bucket of a key, which then refuses only what is larger than its rate.
- A refused key may be told a time that is up to a millisecond too early
  (`TokenBucket.ToldTooEarly`); it is then refused once more, and not again
  (`TokenBucket.RefusedOnceMore`).
- Import rebuilds the next id exactly under the condition of `SnapshotLaws.NextIdRebuilt`.

## Model

| member | source | states |
|---|---|---|
| `Rings.Ring.Ensure` | core/src/producer/ve_tls_producer_queue.c:478-506 | a full ring doubles and is compacted to slot 0, an unused one gets its first array, any other stays as it is; what it holds, in order, does not change |
| `Rings.Ring.PushBack` | core/src/producer/ve_tls_producer_queue.c:57-77 | appends one element to the sequence the ring holds, whatever the wraparound |
| `Rings.Ring.PushFront` | core/src/producer/ve_tls_producer_queue.c:784-795 | puts one element in front of the sequence the ring holds |
| `Rings.Ring.PopFront` | core/src/producer/ve_tls_producer_queue.c:797-806 | takes the first element and leaves the rest; fails exactly on an empty ring |
| `Links.LinkTail` | core/src/producer/ve_tls_producer_queue.c:510-523 | hanging a queue behind the tail makes the pointers spell the list with it at the end |
| `Links.Unlink` | core/src/producer/ve_tls_producer_queue.c:525-542 | unlinking makes the pointers spell the list without the queue, and does nothing to one that is not listed |
| `Links.PopHead` | core/src/producer/ve_tls_producer_queue.c:675-691 | taking the head makes the pointers spell the rest |
| `Links.LinkBefore` | core/src/producer/ve_tls_producer_queue.c:584-619 | hanging a queue in front of another makes the pointers spell the list with it at that position |
| `Scheduler.FieldsTell` | core/src/producer/ve_tls_producer_queue.c:510-512 | the flags of a queue say exactly which lists it is on, and `inflight` that a sender holds its task |
| `Scheduler.KeysCounted` | core/src/producer/ve_tls_producer_queue.c:705-720 | `key_queue_count` is the number of keys |
| `Scheduler.HashKey` | core/src/producer/ve_tls_producer_queue.c:457-468 | the loop computes FNV-1a with 32-bit wraparound |
| `Scheduler.FnvVectors` | core/src/producer/ve_tls_producer_queue.c:457-468 | the published 32-bit FNV-1a values of the empty text and of "a" |
| `Scheduler.SlotIsRemainder` | core/src/producer/ve_tls_producer_queue.c:697-698 | the bucket of a hash is its remainder by the bucket count |
| `Scheduler.Find` | core/src/producer/ve_tls_producer_queue.c:697-704 | walking one chain finds the queue of the key if any queue has it, and null otherwise |
| `Scheduler.GetOrCreate` | core/src/producer/ve_tls_producer_queue.c:693-722 | returns the one queue of the key, or creates it within the limit; the structure stands for the map with it |
| `Scheduler.Create` | core/src/producer/ve_tls_producer_queue.c:708-722 | a zeroed queue put in front of its bucket's chain adds one key to the map and nothing else |
| `Scheduler.KeyQueueRemoveAndFree` | core/src/producer/ve_tls_producer_queue.c:724-759 | takes one key out of the map, the chains and the lists together with its builder, and leaves all other keys |
| `Scheduler.FreeBuilder` | core/src/producer/ve_tls_producer_queue.c:752-753 | freeing the builder of a queue that is no longer live changes nothing the structure stands for |
| `Scheduler.FindInChain` | core/src/producer/ve_tls_producer_queue.c:731-743 | finds the queue in the chain of its hash, with its predecessor |
| `Scheduler.Unchain` | core/src/producer/ve_tls_producer_queue.c:731-758 | an unlisted queue leaves its chain, the index and the count |
| `Scheduler.ReadyAdd` | core/src/producer/ve_tls_producer_queue.c:510-523 | in place, the abstract step of the same name |
| `Scheduler.ReadyRemove` | core/src/producer/ve_tls_producer_queue.c:525-542 | the key leaves the ready list, all else stays |
| `Scheduler.IdleRemove` | core/src/producer/ve_tls_producer_queue.c:544-562 | the key leaves the idle list, all else stays |
| `Scheduler.DelayedRemove` | core/src/producer/ve_tls_producer_queue.c:564-582 | the key leaves the delayed list, all else stays |
| `Scheduler.WalkDelayed` | core/src/producer/ve_tls_producer_queue.c:601-603 | stops at the first queue due strictly later, with none such before it |
| `Scheduler.DelayedAddSorted` | core/src/producer/ve_tls_producer_queue.c:584-619 | the key leaves all lists and is inserted behind every entry due no later |
| `Scheduler.PromoteDue` | core/src/producer/ve_tls_producer_queue.c:621-637 | in place, moves delayed queues to the ready tail until the first one not due |
| `Scheduler.ReadyPop` | core/src/producer/ve_tls_producer_queue.c:675-691 | the head of the ready list is taken and marked in flight |
| `Scheduler.DequePush` | core/src/producer/ve_tls_producer_queue.c:761-773 | the ring of one queue takes a task at its end, growing when it must; all other rings keep theirs |
| `Scheduler.DequePushFront` | core/src/producer/ve_tls_producer_queue.c:784-795 | the ring of one queue takes a task at its front; all other rings keep theirs |
| `Scheduler.DequePop` | core/src/producer/ve_tls_producer_queue.c:797-806 | the ring of one queue gives its first task, or a blank one when it is empty; all other rings keep theirs |
| `Scheduler.StandsPop` | core/src/producer/ve_tls_producer_sender.c:1140-1145 | what the ring gave is the task in the sender's hand of the abstract state |
| `Scheduler.PushTask` | core/src/producer/ve_tls_producer_queue.c:761-777 | in place, the abstract push, with the ring of the queue; it fails exactly when the limit refuses the key |
| `Scheduler.ListPushed` | core/src/producer/ve_tls_producer_queue.c:769-776 | a queue that was empty and not in flight becomes ready behind all others |
| `Scheduler.CollectLogs` | core/src/ve_tls_producer.c:356-376 | in place, the abstract addition to the builder of a key; it fails exactly when the limit refuses the key |
| `Scheduler.WriteBuilder` | core/src/producer/ve_tls_producer_manager.c:383-384 | writing the builder of one queue changes that builder and nothing else |
| `Scheduler.ReserveKey` | core/src/producer/ve_tls_producer_queue.c:779-782 | in place, the abstract reservation of a key |
| `Scheduler.PickTask` | core/src/producer/ve_tls_producer_sender.c:1137-1145 | promotes what is due, then hands out the first task in the ring of the first ready key |
| `Scheduler.GateRequeue` | core/src/producer/ve_tls_producer_sender.c:1232-1249 | the task in hand goes back to the front of its ring and its key is delayed |
| `Scheduler.BreakerReport` | core/src/producer/ve_tls_producer_sender.c:135-153 | counts failures and opens the key breaker at the threshold; nothing else changes |
| `Scheduler.IdleAdd` | core/src/producer/ve_tls_producer_queue.c:639-653 | an empty queue goes to the tail of the idle list with its time |
| `Scheduler.FinishQueue` | core/src/producer/ve_tls_producer_queue.c:808-830 | the queue is delayed, made ready, put on the idle list or freed, as the abstract finish does, which `SchedulerSteps.FinishLaw` states by lists and times |
| `Scheduler.CleanIdle` | core/src/producer/ve_tls_producer_queue.c:655-673 | walking the list while freeing queues removes exactly the expired ones |
| `Scheduler.HandsKept` | core/src/producer/ve_tls_producer_sender.c:1140-1145 | a queue a sender holds stays at its address, with its task, through the steps of all others |
| `Scheduler.Producer.constructor` | core/src/ve_tls_producer.c:844 | empty buckets stand for the initial state |
| `Scheduler.Producer.PushKeyQueue` | core/src/producer/ve_tls_producer_queue.c:761-777 | one critical section: invariant and rings hold again and the abstract state took the push |
| `Scheduler.Producer.ReserveKeyQueue` | core/src/producer/ve_tls_producer_manager.c:168-172 | one critical section: the key has a queue unless the limit refuses it |
| `Scheduler.Producer.CollectKeyQueue` | core/src/ve_tls_producer.c:1696-1742 | one critical section: logs go into the builder of the key, whose queue leaves the idle list |
| `Scheduler.Producer.SealKeyQueue` | core/src/producer/ve_tls_producer_manager.c:369-392 | one critical section: the builder leaves the queue with all its bytes |
| `Scheduler.Producer.PickKeyQueue` | core/src/producer/ve_tls_producer_sender.c:1137-1145 | one critical section: the queue handed out was held by no sender |
| `Scheduler.Producer.RequeueKeyQueue` | core/src/producer/ve_tls_producer_sender.c:1237-1243 | one critical section: the gate puts a task back |
| `Scheduler.Producer.ReportKeyQueue` | core/src/producer/ve_tls_producer_sender.c:135-153 | one critical section: the sender keeps its task while the breaker is told |
| `Scheduler.Producer.FinishKeyQueue` | core/src/producer/ve_tls_producer_sender.c:1357-1360 | one critical section: the task in hand is done with, and the key goes where `SchedulerSteps.FinishLaw` says |
| `Scheduler.Producer.CleanIdleKeyQueues` | core/src/producer/ve_tls_producer_queue.c:655-673 | one critical section: only idle queues go, none that a sender holds |
| `SchedulerLaws.ApplyInv` | core/src/producer/ve_tls_producer_queue.c:510-830 | every step keeps placement, sortedness, the limit and the order per key |
| `SchedulerSteps.PushLaw` | core/src/producer/ve_tls_producer_queue.c:761-777 | a push within the limit puts its task behind those of its key; the key becomes ready behind all others exactly when its queue was empty with no task in hand, and leaves the idle list; a refused push changes nothing |
| `SchedulerSteps.ReserveLaw` | core/src/producer/ve_tls_producer_queue.c:693-722 | looking a key up creates a zeroed queue on no list or takes the key off the idle list, and nothing else |
| `SchedulerSteps.CollectLaw` | core/src/ve_tls_producer.c:1696-1742 | the bytes of a log are added to the builder of its key, which leaves the idle list |
| `SchedulerSteps.PickLaw` | core/src/producer/ve_tls_producer_queue.c:621-691 | the keys due are those at the front of the delayed list; they line up behind the ready keys, the head of the line goes in flight with its first task, and no entry due by now stays delayed |
| `SchedulerSteps.RequeueLaw` | core/src/producer/ve_tls_producer_sender.c:1232-1249 | the task is in front of its queue again, and the key is delayed until exactly the time given, behind every entry due no later and before all others; the ready list does not change |
| `SchedulerSteps.BreakerLaw` | core/src/producer/ve_tls_producer_sender.c:135-153 | a success clears failures and opening time; a failure counts one, and at the threshold or above opens the breaker for the time set, or 30000 ms when none is |
| `SchedulerSteps.FinishLaw` | core/src/producer/ve_tls_producer_queue.c:808-830 | with tasks left and an open breaker the key is delayed until the breaker closes and is not ready; with tasks left otherwise it is ready behind all others; without tasks it is idle from now on, or gone when no time to live is set |
| `SchedulerSteps.CleanupLaw` | core/src/producer/ve_tls_producer_queue.c:655-673 | the keys idle for the time to live or longer are gone, all others keep their queues, and the idle entries that stay keep times and order |
| `SchedulerLaws.InvInEveryRun` | core/src/producer/ve_tls_producer_queue.c:510-830 | the invariant holds at every point of every run |
| `SchedulerLaws.PlacedInEveryRun` | core/src/producer/ve_tls_producer_queue.c:510-830 | in every run a waiting queue is on exactly one of ready and delayed, one in flight on none, an idle one is empty, and the count respects the limit |
| `SchedulerLaws.OrderPerKey` | core/src/producer/ve_tls_producer_sender.c:1227-1249 | in every run, pushed = finished, then the task in hand, then the deque, for each key, even when the key was freed and created again |
| `SchedulerLaws.PickTakesOldest` | core/src/producer/ve_tls_producer_queue.c:675-691 | a pick takes only a key not in flight and hands out its oldest pending task |
| `SchedulerLaws.HandStays` | core/src/producer/ve_tls_producer_queue.c:655-673 | no step of another takes a task out of a sender's hand or its queue out of the index |
| `SchedulerLaws.CleanupFreesOnlyIdle` | core/src/producer/ve_tls_producer_queue.c:655-673 | a key goes exactly when it is idle for the whole time to live, and then nothing was pending |
| `SchedulerLaws.BuilderKept` | core/src/producer/ve_tls_producer_queue.c:724-759 | what a builder holds changes only by what is added or sealed, unless its key is freed |
| `SchedulerLaws.LosesExactly` | core/src/producer/ve_tls_producer_queue.c:752 | a step frees a key with bytes in its builder if and only if it is a finish or a cleanup under the guard of `Loses` |
| `SchedulerLaws.LookupMakesLimbo` | core/src/producer/ve_tls_producer_queue.c:693-722 | a looked-up key with an empty deque is on no list, be it new or taken off the idle list |
| `SchedulerLaws.LimboEndsWithPush` | core/src/producer/ve_tls_producer_queue.c:655-673 | such a key stays so in exactly the steps that push no task for it |
| `SchedulerLaws.LimboStays` | core/src/producer/ve_tls_producer_manager.c:168-218 | in every run, until a task is pushed for it |
| `SchedulerLaws.LimboUsesUpLimit` | core/src/producer/ve_tls_producer_queue.c:705-707 | as long as such keys fill the limit no other key is accepted |
| `SchedulerLaws.CleanFromExact` | core/src/producer/ve_tls_producer_queue.c:663-672 | freeing entry by entry keeps exactly the entries that have not expired |
| `SchedulerLaws.PromoteExact` | core/src/producer/ve_tls_producer_queue.c:621-637 | stopping at the first entry not due loses nothing: exactly the due ones move, in order |
| `SchedulerLaws.ReinsertStable` | core/src/producer/ve_tls_producer_queue.c:584-619 | re-inserting a delayed key keeps the list sorted and every other entry in its order |
| `SchedulerLaws.InsertPosition` | core/src/producer/ve_tls_producer_queue.c:601-618 | insertion is stable: behind all due no later, before all due later |
| `SchedulerLaws.ReadyPosition` | core/src/producer/ve_tls_producer_queue.c:675-691 | after p picks a ready key has moved up by exactly p, whatever else happens |
| `SchedulerLaws.BoundedBypass` | core/src/producer/ve_tls_producer_queue.c:675-691 | the key at position i of the ready list is taken by exactly the (i+1)-th pick |
| `BudgetSpec.EffectiveReserved` | core/src/ve_tls_producer.c:116-142 | the saturating product, capped, is the smaller of package bytes times senders and half the buffer |
| `BudgetSpec.Conserves` | core/src/ve_tls_producer.c:1389-1514 | every critical section changes the sums of the stages by exactly what it moves |
| `BudgetSpec.WriterSums` | core/src/ve_tls_producer.c:1389-1514 | an admission adds what it asked for to its stage and to no other; encoding into a batch replaces the reservation by the encoded size; cancelling, popping and dropping give back just the bytes of their buffer |
| `BudgetSpec.WorkerSums` | core/src/ve_tls_producer.c:1389-1514 | a batch that changes stage takes all its bytes along, a sealed builder keeps its bytes until they are released, and what freed builders held is added to what is lost |
| `BudgetSpec.SenderSums` | core/src/ve_tls_producer.c:1389-1514 | task memory is counted in exactly one of the two send stages from its reservation until it is given back or finished |
| `BudgetSpec.FreedBuilders` | core/src/producer/ve_tls_producer_queue.c:724-759 | freeing keys takes away their builders and no other |
| `BudgetSpec.ApplyWithinBudget` | core/src/ve_tls_producer.c:1315-1342 | every granted step keeps the total within the limit and the ingress side off the reservation |
| `BudgetSpec.RoomExactly` | core/src/ve_tls_producer.c:1315-1342 | a request is granted exactly when, with it, the sum over all stages stays within the limit and, for a writer, the ingress side also leaves the reservation free; always without a limit |
| `BudgetSpec.BoundedInEveryRun` | core/src/ve_tls_producer.c:1292-1342 | in every interleaving the six stages together stay within a positive limit |
| `BudgetSpec.ReservedIsGranted` | core/src/ve_tls_producer.c:1315-1342 | a send-side request that fits in the reservation is granted in every reachable state |
| `BudgetSpec.FlushNeedsRoomTwice` | core/src/ve_tls_producer.c:441-448 | a batch may be flushed exactly when its size fits twice |
| `BudgetSpec.QueueBytesExact` | core/src/producer/ve_tls_producer_queue.c:752 | in every run `queue_bytes` is what is live in its stage if and only if no key was freed with bytes in its builder |
| `BudgetSpec.LostForever` | core/src/producer/ve_tls_producer_queue.c:752 | what was lost stays counted, and a request that does not fit beside it is refused in every later state |
| `KeyBuilders.InvInEveryRun` | core/src/ve_tls_producer.c:353-412 | in every run of both sides together, the invariant, the bound, and the same number of bytes for the builder of every key |
| `KeyBuilders.StepLoses` | core/src/producer/ve_tls_producer_queue.c:663-672 | a step loses bytes if and only if the guard of the losing branch holds before it |
| `KeyBuilders.FinishLoses` | core/src/producer/ve_tls_producer_queue.c:808-830 | a finish loses just what the builder holds, and only with an empty deque and no time to live |
| `KeyBuilders.NothingLostExactly` | core/src/producer/ve_tls_producer_queue.c:724-759 | in every run the counter is exact if and only if no step was taken under the losing guard, and nothing is lost if and only if every key that went had an empty builder |
| `KeyBuilders.FinishLosesLog` | core/src/producer/ve_tls_producer_queue.c:808-830 | push, pick, admit, finish: a run after which nothing is live and the bytes of the log stay counted |
| `Budget.AddSat` | core/src/ve_tls_producer.c:1266-1271 | saturating addition is the sum capped at the largest value |
| `Budget.FitsLimit` | core/src/ve_tls_producer.c:1273-1275 | the check without overflow is the plain inequality |
| `Budget.ByteCounters.constructor` | core/src/ve_tls_producer.c:778 | the counters start at zero with the effective reservation |
| `Budget.ByteCounters.BufferedBytes` | core/src/ve_tls_producer.c:1292-1303 | the saturating sum is the exact total of what is live |
| `Budget.ByteCounters.IngressBytes` | core/src/ve_tls_producer.c:1305-1313 | the saturating sum is the exact ingress side |
| `Budget.ByteCounters.HasSpace` | core/src/ve_tls_producer.c:1315-1342 | the case analysis decides the plain inequality: ingress bytes + need + max(send side, reservation) within the limit |
| `Budget.ByteCounters.ReleasesAreCovered` | core/src/ve_tls_producer.c:1389-1514 | whatever is released is part of its counter, so no clamp to zero is reached |
| `Budget.ByteCounters.AdmitRaw` | core/src/ve_tls_producer.c:1528-1552 | a raw record is admitted exactly when there is room, and counted |
| `Budget.ByteCounters.CancelRaw` | core/src/ve_tls_producer.c:1574-1584 | a record not pushed after all gives its bytes back |
| `Budget.ByteCounters.PopRaw` | core/src/producer/ve_tls_producer_queue.c:122-136 | the unclamped subtraction never wraps |
| `Budget.ByteCounters.AdmitKv` | core/src/ve_tls_producer.c:1666-1747 | the estimate is reserved, settled with whatever was encoded, and given back when the key is refused; the budget holds afterwards exactly when there was room for what was encoded |
| `Budget.ByteCounters.AdmitBatch` | core/src/ve_tls_producer.c:581-588 | a thread reserves the estimate exactly when there is room |
| `Budget.ByteCounters.AppendBatch` | core/src/ve_tls_producer.c:608-627 | encoding into the thread batch settles the reservation with whatever was encoded |
| `Budget.ByteCounters.DropBatch` | core/src/ve_tls_producer.c:556-562 | a dropped thread batch gives its bytes back |
| `Budget.ByteCounters.MoveToIngress` | core/src/ve_tls_producer.c:484-507 | a flushed batch changes stage and the total stays |
| `Budget.ByteCounters.MergeBatch` | core/src/ve_tls_producer.c:510-529 | a batch merged directly changes stage and the total stays |
| `Budget.ByteCounters.MergeIngress` | core/src/ve_tls_producer.c:336-378 | an ingress batch appended to a builder changes stage and the total stays |
| `Budget.ByteCounters.DropIngress` | core/src/producer/ve_tls_producer_manager.c:323-340 | an ingress batch that cannot be merged gives its bytes back |
| `Budget.ByteCounters.SealBuilder` | core/src/producer/ve_tls_producer_manager.c:383-392 | a sealed builder stays counted |
| `Budget.ByteCounters.FreeKeyBuilders` | core/src/producer/ve_tls_producer_queue.c:752 | no counter changes, so `queue_bytes` exceeds what is live by what the builders held |
| `Budget.ByteCounters.ReleaseBuilder` | core/src/producer/ve_tls_producer_manager.c:434-460 | the worker gives a sealed builder's bytes back |
| `Budget.ByteCounters.ReserveSend` | core/src/ve_tls_producer.c:1415-1430 | task memory is reserved exactly when the total has room |
| `Budget.ByteCounters.ReleaseSend` | core/src/ve_tls_producer.c:1432-1448 | the reservation of a task that was not queued is given back; zero bytes change nothing |
| `Budget.ByteCounters.MoveToInflight` | core/src/ve_tls_producer.c:1450-1466 | a popped task changes stage and the total stays; zero bytes change nothing |
| `Budget.ByteCounters.ReleaseInflight` | core/src/ve_tls_producer.c:1468-1484 | a finished task gives its bytes back; zero bytes change nothing |
| `Budget.ByteCounters.ReserveScratch` | core/src/ve_tls_producer.c:1486-1500 | scratch space is reserved exactly when the total has room |
| `Budget.ByteCounters.ReleaseScratch` | core/src/ve_tls_producer.c:1502-1514 | scratch space is given back; zero bytes change nothing |
| `Wire.VarintRoundTrip` | core/src/ve_tls_proto.c:51-60 | a base-128 varint reads back, whatever follows it |
| `Wire.VarintLength` | core/src/producer/ve_tls_producer_builder.c:21-27 | the length of a varint by the size of the value |
| `WireBytes.VarintSpells` | core/src/ve_tls_proto.c:51-60 | a varint spells its value in groups of seven bits, low ones first, marked but for the last, with no byte to spare |
| `WireBytes.FixedBytes` | core/src/ve_tls_proto.c:91-101 | a fixed 32-bit value stands low byte first |
| `WireBytes.PairBytes` | core/src/ve_tls_proto.c:103-145 | a pair is its key behind 0x0A and its value behind 0x12, each behind its length |
| `WireBytes.LogBytes` | core/src/ve_tls_proto.c:151-181 | a log is its time behind 0x08, each pair behind 0x12, and its nanoseconds behind 0x1D when it has any |
| `WireBytes.GroupBytes` | core/src/ve_tls_proto.c:183-231 | a group is its logs behind 0x0A, its source behind 0x12, its file name behind 0x22, its tags behind 0x1A and its context flow behind 0x2A; empty texts are left out |
| `WireBytes.ListBytes` | core/src/ve_tls_proto.c:241-267 | a list of one group is the group behind 0x0A and its length |
| `WireBytes.ChunkSizes` | core/src/ve_tls_proto.c:241-267 | every group but the last holds exactly the limit of logs, the last at least one |
| `Wire.RecordRoundTrip` | core/src/ve_tls_proto.c:62-101 | each of the three kinds of field reads back, whatever follows it |
| `Wire.ParseRoundTrip` | core/src/ve_tls_proto.c:62-101 | any list of fields reads back as exactly that list |
| `WireLaws.LogRoundTrip` | core/src/ve_tls_proto.c:151-181 | a log message decodes to its time, nanoseconds, keys and values |
| `WireLaws.GroupRoundTrip` | core/src/ve_tls_proto.c:183-231 | a group decodes to its logs, source, file name, tags and context flow |
| `WireLaws.ListRoundTrip` | core/src/ve_tls_proto.c:241-267 | a list decodes to its groups, which hold all the logs in order |
| `WireLaws.OneGroupIsList` | core/src/ve_tls_proto.c:241-267 | one group is the whole list if and only if the logs are between one and the group limit |
| `ProtoEncoder.Buffer.Reserve` | core/src/ve_tls_proto.c:13-36 | the buffer doubles until the bytes fit and keeps its contents |
| `ProtoEncoder.Buffer.Put` | core/src/ve_tls_proto.c:38-45 | appends a block |
| `ProtoEncoder.Buffer.PutVarint` | core/src/ve_tls_proto.c:51-60 | the loop appends the varint of the value |
| `ProtoEncoder.Buffer.PutBytes` | core/src/ve_tls_proto.c:74-82 | appends a length-delimited field |
| `ProtoEncoder.Buffer.PutFixed32` | core/src/ve_tls_proto.c:91-101 | appends a fixed 32-bit field, low byte first |
| `ProtoEncoder.Buffer.PutPair` | core/src/ve_tls_proto.c:103-145 | a pair built in a buffer of its own becomes one nested field |
| `ProtoEncoder.EncodeLog` | core/src/ve_tls_proto.c:151-181 | the message decodes to the caller's pairs and, for a positive time, the caller's time and nanoseconds; otherwise to time zero without nanoseconds |
| `ProtoEncoder.PutGroup` | core/src/ve_tls_proto.c:183-231 | a group built in a buffer of its own becomes one nested field |
| `ProtoEncoder.EncodeGroupList` | core/src/ve_tls_proto.c:241-267 | the logs are cut into groups of at most the limit, and nothing comes of no logs |
| `Builder.U64Size` | core/src/producer/ve_tls_producer_builder.c:12-19 | the loop counts the bytes of the varint |
| `Builder.U32Size` | core/src/producer/ve_tls_producer_builder.c:21-27 | the thresholds give the same count as the loop |
| `Builder.BytesFieldSize` | core/src/producer/ve_tls_producer_builder.c:85-89 | the size of a length-delimited field, from the length alone |
| `Builder.ContentFieldSize` | core/src/producer/ve_tls_producer_builder.c:168-175 | the size of a nested pair, from the two lengths alone |
| `Builder.MsgSize` | core/src/producer/ve_tls_producer_builder.c:177-194 | the size from the lengths alone is that of the message: five bytes more with nanoseconds and a positive time, and none for nanoseconds without |
| `Builder.EstimateKvLens` | core/src/producer/ve_tls_producer_builder.c:196-206 | the estimate is the exact size of the entry |
| `Builder.ContinuedIsLowSeven` | core/src/producer/ve_tls_producer_builder.c:29-48 | the low byte of a value with the top bit set is its low seven bits and the mark to go on |
| `Builder.PackU32` | core/src/producer/ve_tls_producer_builder.c:29-48 | the unrolled loop writes the varint |
| `Builder.PackU64` | core/src/producer/ve_tls_producer_builder.c:50-57 | the loop writes the same varint |
| `Builder.PutContent` | core/src/producer/ve_tls_producer_builder.c:345-370 | the precomputed length precedes exactly the bytes it announces |
| `Builder.PutEntry` | core/src/producer/ve_tls_producer_builder.c:323-380 | the entry written in place is the reference entry and fills exactly the room computed for it |
| `BuilderStats.ExtremesMean` | core/src/producer/ve_tls_producer_builder.c:383-398 | recorded times and ids are attained extremes, the count is that of the logs, and the last time is that of the last log, zero without nanoseconds when not positive |
| `BuilderStats.OneByOneIsSummary` | core/src/producer/ve_tls_producer_builder.c:383-398 | adding logs with growing ids records their summary |
| `BuilderStats.AppendIsConcat` | core/src/producer/ve_tls_producer_builder.c:268-291 | appending a batch records both |
| `BuilderStats.MergedIsSummary` | core/src/producer/ve_tls_producer_builder.c:256-291 | batches merged in any order record the summary of all their logs |
| `BuilderStats.MergedIsOneByOne` | core/src/producer/ve_tls_producer_builder.c:256-291 | any cut of logs with growing ids records what adding them one by one does |
| `LogBuilder.LogGroupBuilder.constructor` | core/src/producer/ve_tls_producer_builder.c:208-221 | an empty builder |
| `LogBuilder.LogGroupBuilder.Reserve` | core/src/producer/ve_tls_producer_builder.c:59-78 | the buffer grows and keeps its contents |
| `LogBuilder.LogGroupBuilder.AddKvLens` | core/src/producer/ve_tls_producer_builder.c:293-400 | appends exactly the entry of the log with the caller's pairs, time and nanoseconds, or time zero and none when the time is not positive; fails only beyond the address space, changing nothing |
| `LogBuilder.LogGroupBuilder.AppendBatch` | core/src/producer/ve_tls_producer_builder.c:256-291 | appends the logs of another builder and its record; an empty one is refused |
| `LogBuilder.BuildGroupSuffix` | core/src/producer/ve_tls_producer_builder.c:402-446 | the suffix is the reference encoding of source, file name, tags and context flow |
| `LogBuilder.ToSendTask` | core/src/producer/ve_tls_producer_builder.c:448-483 | the body is the list of one group, with its sizes and record |
| `LogBuilder.BodyIsReference` | core/src/ve_tls_proto.c:237-267 | the body is the simple encoder's list if and only if it holds 1 to 10000 logs |
| `LogBuilder.BodyRoundTrip` | core/src/producer/ve_tls_producer_builder.c:448-483 | any body decodes to exactly the logs, texts and tags that went in |
| `EncodersAgree.FillBatch` | core/src/producer/ve_tls_producer_builder.c:293-400 | a batch holds its logs and their record, and fails only beyond the address space |
| `EncodersAgree.MergeBatches` | core/src/producer/ve_tls_producer_builder.c:256-291 | batches appended to one builder hold all logs in order |
| `EncodersAgree.BuildBoth` | core/src/ve_tls_proto.c:151-267 | for any cut into batches both encoders give the same bytes exactly for 1 to 10000 logs; both outputs decode, log by log, to the caller's pairs, times and nanoseconds; the record is the extremes over all logs, and growing ids give the one-by-one record |
| `EncodersAgree.FlattenAt` | core/src/producer/ve_tls_producer_builder.c:256-291 | the logs of all batches stand batch after batch, each in its order |
| `Endian.LittleRoundTrip` | core/src/ve_tls_producer.c:2202-2238 | an integer written low byte first reads back |
| `Endian.FromLittleGrows` | core/src/ve_tls_producer.c:2227-2238 | one more byte counts for the next power of 256 |
| `SnapshotLaws.StoredWhole` | core/src/ve_tls_producer.c:2325-2338 | a record survives if and only if its key has no zero byte and its parts are below 4 GiB |
| `SnapshotLaws.ItemRoundTrip` | core/src/ve_tls_producer.c:2475-2494 | a printed record reads back, casts and truncated lengths included, whatever follows it |
| `SnapshotLaws.ItemsRoundTrip` | core/src/ve_tls_producer.c:2533-2589 | all printed records that hold data and fit are read back in order |
| `SnapshotLaws.ImportIsPrefix` | core/src/ve_tls_producer.c:2533-2589 | on any bytes import appends a prefix of the parsed records within the limit, and succeeds exactly when all are there, hold data and fit |
| `SnapshotLaws.NextIdRebuilt` | core/src/ve_tls_producer.c:2531-2596 | a fresh importer ends with the exporter's next id if and only if the stated condition on the ids holds |
| `SnapshotLaws.SnapshotRoundTrip` | core/src/ve_tls_producer.c:2509-2600 | for ids handed out before the next one, records, next id and a second export come back unchanged |
| `Snapshot.PutLittle` | core/src/ve_tls_producer.c:2202-2213 | the loop writes the bytes of an integer, low byte first |
| `Snapshot.PutItem` | core/src/ve_tls_producer.c:2475-2494 | writes one record at the cursor |
| `Snapshot.TotalSize` | core/src/ve_tls_producer.c:2399-2450 | the computed size is exact, and refused exactly when it does not fit in 64 bits |
| `Snapshot.RawBuffer.Export` | core/src/ve_tls_producer.c:2399-2506 | the buffer is exactly the printed snapshot; fails exactly when there are too many records or bytes |
| `Snapshot.RawBuffer.ImportRecord` | core/src/ve_tls_producer.c:2533-2589 | one record read field by field at the cursor, with its checks in the order of the code, stays within the bytes; what each field is by position is `SnapshotVersions.RecordAccepted` |
| `Snapshot.RawBuffer.Import` | core/src/ve_tls_producer.c:2509-2600 | for any bytes, the outcome, the appended records and the next id of the specified parser, which `SnapshotVersions` states by byte positions for every version |
| `Snapshot.HeaderRoundTrip` | core/src/ve_tls_producer.c:2463-2473 | the header reads back |
| `Snapshot.ReadLittle` | core/src/ve_tls_producer.c:2215-2238 | the loop reads an integer at the cursor when all its bytes are there |
| `Snapshot.ReadFixedPart` | core/src/ve_tls_producer.c:2533-2551 | the fields in front of a record are read one by one, and it fails exactly when they are not all there |
| `SnapshotVersions.HeaderLayout` | core/src/ve_tls_producer.c:2463-2473 | the letters VTLS, the version, the count and the next id stand at their places, low byte first |
| `SnapshotVersions.HeaderExactly` | core/src/ve_tls_producer.c:2510-2527 | a header is accepted exactly for its letters and a version from 1 to 3, and its numbers are those at bytes 4, 8 and 12 |
| `SnapshotVersions.RecordLayout` | core/src/ve_tls_producer.c:2475-2494 | id, time, flag, nanoseconds and both lengths of a printed record by byte position, then key and data |
| `SnapshotVersions.RecordAccepted` | core/src/ve_tls_producer.c:2533-2589 | for any bytes and every version: an accepted record has the id of bytes 0 to 7, the time of bytes 8 to 15, the flag of byte 16, the nanoseconds of bytes 17 to 20, and key and data as long as their lengths say |
| `SnapshotVersions.RecordRefused` | core/src/ve_tls_producer.c:2533-2589 | for any bytes and every version: which record is invalid and which is dropped; the limit is looked at before it is known whether the data is there |
| `SnapshotVersions.CStringEnds` | core/src/ve_tls_producer.c:2560-2568 | a key ends before its first zero byte |
| `SnapshotVersions.SecondIsThird` | core/src/ve_tls_producer.c:2533-2589 | versions 2 and 3 read alike, whatever the bytes |
| `SnapshotVersions.VersionRoundTrip` | core/src/ve_tls_producer.c:2509-2600 | a snapshot printed in version 1, 2 or 3 gives back exactly its records, without keys in version 1, and its next id |
| `SnapshotVersions.ImportPrinted` | core/src/ve_tls_producer.c:2509-2600 | import of such a snapshot into a fresh producer: every record with its id, time, nanoseconds, data and key, and the next id |
| `SnapshotVersions.LargestSeen` | core/src/ve_tls_producer.c:2531-2590 | the largest id seen is that of a record taken or the one started with, and none taken is larger |
| `SnapshotVersions.NextIdIsLargest` | core/src/ve_tls_producer.c:2591-2596 | the next id becomes the largest of itself, the one in the header and one more than the largest id seen, and never goes back |
| `Snapshot.ExportImportExport` | core/src/ve_tls_producer.c:2249-2600 | export, import into a fresh producer and export again give the same records, next id and bytes |
| `BuilderExport.BuiltRecords` | core/src/ve_tls_producer.c:2339-2397 | one record for each builder with logs, in order: last id and time, key, and the body of its send task |
| `BuilderExport.RecordsRecover` | core/src/producer/ve_tls_producer_builder.c:448-483 | each of these records is stored whole, has the key, last id and last time of its builder, and decodes to its logs |
| `BuilderExport.ExportImportLogs` | core/src/ve_tls_producer.c:2249-2600 | after export and import the queued records are there unchanged, every log of every open builder can be decoded under its key, and the next id goes on |
| `HashSpec.ZeroCount` | core/src/ve_tls_hash.c:164-170 | the fewest zero bytes that leave room for the length in the last block |
| `HashSpec.ShortMessages` | core/src/ve_tls_hash.c:168 | below 2^61 bytes the stored bit length is the bit length |
| `ShaConstants.RoundConstants` | core/src/ve_tls_hash.c:84-93 | every round constant is the fraction of the cube root of its prime (section 4.2.2 of FIPS 180-4) |
| `ShaConstants.StartConstants` | core/src/ve_tls_hash.c:70-81 | the first hash value holds the fractions of the square roots of the first eight primes (section 5.3.3 of FIPS 180-4) |
| `SineTable.SineConstants` | core/src/ve_tls_hash.c:193-210 | every constant of MD5 is the whole part of 4294967296 times the absolute value of the sine of its number (section 3.4 of RFC 1321), for any values of sine and cosine of 1 between the partial sums of their series |
| `MachineWords.BitwiseIsMachine` | core/src/ve_tls_hash.c:103-126 | and, or and exclusive or on numbers are those of 32-bit machine words |
| `MachineWords.NotIsMachine` | core/src/ve_tls_hash.c:225-240 | the complement on numbers is that of 32-bit machine words |
| `MachineWords.RotlIsMachine` | core/src/ve_tls_hash.c:179-181 | a rotation to the left on numbers is so many single-bit rotations of the machine word |
| `MachineWords.RotrIsMachine` | core/src/ve_tls_hash.c:19-21 | a rotation to the right on numbers is so many single-bit rotations of the machine word |
| `MachineWords.NumByHalves` | core/src/ve_tls_hash.c:23-50 | the number of a machine word is that of its two halves |
| `MachineWords.ChAndMaj` | core/src/ve_tls_hash.c:111-126 | choice and majority as section 4.1.2 of FIPS 180-4 writes them in words |
| `MachineWords.Sigmas` | core/src/ve_tls_hash.c:94-126 | the rotations and shifts of the four sigma functions of section 4.1.2 of FIPS 180-4 |
| `MachineWords.Md5Functions` | core/src/ve_tls_hash.c:225-240 | the auxiliary functions of section 3.4 of RFC 1321 in words, round by round |
| `HashLaws.StoreBig64Exact` | core/src/ve_tls_hash.c:34-43 | the eight shifts store the length with its high bytes first |
| `HashLaws.StoreLittle64Exact` | core/src/ve_tls_hash.c:59-68 | the eight shifts store the length with its low bytes first |
| `HashLaws.StoreBig32Exact` | core/src/ve_tls_hash.c:27-32 | the four shifts store a word with its high bytes first |
| `HashLaws.StoreLittle32Exact` | core/src/ve_tls_hash.c:52-57 | the four shifts store a word with its low bytes first |
| `HashWords.RotatesRight` | core/src/ve_tls_hash.c:19-21 | the two shifts and the or are the rotation to the right, for every number of bits |
| `HashWords.RotatesLeft` | core/src/ve_tls_hash.c:179-181 | the two shifts and the or are the rotation to the left, for every number of bits |
| `HashWords.JoinsBig` | core/src/ve_tls_hash.c:23-25 | four shifted bytes combined are the word they spell, high bytes first |
| `HashWords.JoinsLittle` | core/src/ve_tls_hash.c:45-50 | four shifted bytes combined are the word they spell, low bytes first |
| `HashLaws.PadLength` | core/src/ve_tls_hash.c:169 | the padding length by how full the buffer is, is the padding of the standard |
| `HashLaws.CountBits` | core/src/ve_tls_hash.c:138-168 | the wrapping counter gives the bit length modulo 2^64 |
| `HashLaws.PadBytes` | core/src/ve_tls_hash.c:164-176 | both paddings by positions: the message, 0x80, the zeros, and in the last eight bytes the length in bits, low bytes first for MD5 and high bytes first for SHA-256 |
| `HashLaws.ShaRoundSums` | core/src/ve_tls_hash.c:111-126 | one round by sums modulo 2^32: six working variables move on by one, two are the sums of section 6.2.2 of FIPS 180-4 |
| `HashLaws.ScheduleSums` | core/src/ve_tls_hash.c:94-102 | the first sixteen words of the schedule are the block, high bytes first; every later one is a sum of four modulo 2^32 |
| `HashLaws.Md5StepSums` | core/src/ve_tls_hash.c:225-246 | one operation by sums modulo 2^32 and a rotation; by turns it changes A, D, C and B (section 3.4 of RFC 1321) |
| `HashLaws.Md5Start` | core/src/ve_tls_hash.c:183-190 | the first values of the registers are the bytes that section 3.3 of RFC 1321 lists |
| `Sha256.ExpandSchedule` | core/src/ve_tls_hash.c:94-102 | the loops fill in the message schedule of section 6.2.2 of FIPS 180-4 |
| `Sha256.Round` | core/src/ve_tls_hash.c:111-126 | one round on the eight working variables |
| `Sha256.Transform` | core/src/ve_tls_hash.c:83-135 | one block is compressed as section 6.2.2 of FIPS 180-4 defines |
| `Sha256.Context.Update` | core/src/ve_tls_hash.c:137-162 | the context stands for everything fed in so far, wherever the block borders fall |
| `Sha256.Context.Final` | core/src/ve_tls_hash.c:164-177 | the digest is that of the whole message, padded as section 5.1.1 of FIPS 180-4 says |
| `Sha256.Hash` | core/src/ve_tls_hash.c:295-300 | SHA-256 of the data |
| `Sha256.HashPieces` | core/src/ve_tls_hash.c:137-177 | for every way of splitting a message across updates, the digest of the message |
| `Sha256.HmacSha256` | core/src/ve_tls_hash.c:302-329 | HMAC as section 2 of RFC 2104 defines, keys longer than a block included |
| `HashLaws.HmacByBytes` | core/src/ve_tls_hash.c:302-329 | byte by byte: the key, hashed when longer than 64 bytes, filled up with zeros, with 0x36 before the text and 0x5c before the inner digest |
| `Md5Stream.TablesAgree` | core/src/ve_tls_hash.c:211-240 | the index formulas and shifts are those section 3.4 of RFC 1321 lists |
| `Md5Stream.MixAgrees` | core/src/ve_tls_hash.c:225-240 | the four auxiliary functions are those of section 3.4 of RFC 1321 |
| `Md5Stream.TurnStep` | core/src/ve_tls_hash.c:241-246 | renaming the variables after each operation is taking the registers by turns |
| `Md5Stream.Transform` | core/src/ve_tls_hash.c:192-251 | one block is processed as section 3.4 of RFC 1321 defines |
| `Md5Stream.Context.Update` | core/src/ve_tls_hash.c:253-278 | the context stands for everything fed in so far |
| `Md5Stream.Context.Final` | core/src/ve_tls_hash.c:280-293 | the digest is that of the whole message |
| `Md5Stream.HashPieces` | core/src/ve_tls_hash.c:253-293 | for every way of splitting a message across updates, the digest of the message |
| `QuerySpec.EncodeRoundTrip` | core/src/ve_tls_sign.c:145-173 | percent-encoding (sections 2.1 and 2.3 of RFC 3986) can be undone |
| `QuerySpec.EncodeInjective` | core/src/ve_tls_sign.c:145-173 | different texts have different encodings |
| `QuerySpec.EncodeSame` | core/src/ve_tls_sign.c:135-173 | a text is its own encoding if and only if nothing in it needs an escape |
| `QuerySpec.EncodedBytes` | core/src/ve_tls_sign.c:135-173 | letters, digits, '-', '.', '_' and '~' encode to themselves, listed one by one; every other byte becomes '%' and its two upper-case hexadecimal digits |
| `QuerySpec.EncodeConcat` | core/src/ve_tls_sign.c:145-173 | texts are encoded byte by byte |
| `QuerySpec.CompareAtDifference` | core/src/ve_tls_sign.c:209-217 | at the first position where two texts differ, the one that ends or holds the smaller byte comes first |
| `QuerySpec.CompareIsBefore` | core/src/ve_tls_sign.c:209-217 | the comparison decides the order of dictionaries, stated by positions |
| `QuerySpec.OrderedIsBefore` | core/src/ve_tls_sign.c:209-217 | pairs are ordered by key and, for equal keys, by value |
| `QuerySpec.OrderedTotal` | core/src/ve_tls_sign.c:209-217 | the comparison is a total order on pairs |
| `QueryLaws.SortKeeps` | core/src/ve_tls_sign.c:219-243 | sorting orders the pairs and keeps every one |
| `QueryLaws.SortedUnique` | core/src/ve_tls_sign.c:219-243 | any two sorts by this comparison give the same list |
| `QueryLaws.JoinRoundTrip` | core/src/ve_tls_sign.c:332-346 | splitting a joined list gives its pairs back |
| `QueryLaws.CountEncoded` | core/src/ve_tls_sign.c:298-329 | an encoded pair occurs as often as the pair it encodes |
| `QueryLaws.CanonicalExact` | core/src/ve_tls_sign.c:245-355 | two queries have the same canonical form if and only if they hold the same multiset of pairs |
| `QueryLaws.CanonicalPairs` | core/src/ve_tls_sign.c:245-355 | the canonical form holds the encoded pairs in order |
| `QueryLaws.CanonicalOrder` | core/src/ve_tls_sign.c:245-355 | the pairs of a canonical form are in the order of dictionaries, key first and then value |
| `QueryLaws.SplitsAt` | core/src/ve_tls_sign.c:285-330 | a query is split at every '&', and a last one opens no pair |
| `QueryLaws.PairSplits` | core/src/ve_tls_sign.c:298-329 | key and value are split at the first '='; without one the value is empty |
| `QueryLaws.ShortcutAgrees` | core/src/ve_tls_sign.c:249-284 | the shortcut without '&' gives what the general path gives |
| `Query.StrCmp` | core/src/ve_tls_sign.c:209-217 | negative when the first text comes before the second in the order of dictionaries, positive the other way round, zero exactly for equal texts |
| `Query.UrlEncodeSpan` | core/src/ve_tls_sign.c:145-173 | counting first, the encoding fits its buffer exactly |
| `Query.PairSort` | core/src/ve_tls_sign.c:219-243 | up to sixteen pairs by insertion in place, more by any `qsort` that sorts with the comparison: either way the one list that holds the same pairs in the order of dictionaries |
| `Query.InsertionSort` | core/src/ve_tls_sign.c:223-240 | the insertion sort in place leaves the sorted list |
| `Query.SortedAlike` | core/src/ve_tls_sign.c:242 | whatever sorts the pairs gives this list |
| `Query.InsertAt` | core/src/ve_tls_sign.c:224-239 | one pair moves to its place among those before it, and none behind it moves |
| `Query.SplitAndEncode` | core/src/ve_tls_sign.c:285-330 | the cursors find exactly the pairs of the query |
| `Query.JoinPairs` | core/src/ve_tls_sign.c:332-346 | writes the pairs with '=' and '&' between them |
| `Query.NormQuery` | core/src/ve_tls_sign.c:245-355 | shortcut and general path both give the canonical form: the encoded pairs of the query, each as often, in the order of dictionaries by key and then value |
| `TokenBucket.AfterWithin` | core/src/producer/ve_tls_producer_common.c:44-80 | tokens stay between zero and the rate over any run, whatever the clock reads |
| `TokenBucket.RoundByNumbers` | core/src/producer/ve_tls_producer_common.c:44-80 | one round by numbers: the first use fills both buckets, later ones add the rate for each second up to the rate, and a request that finds its tokens takes one and one for each byte |
| `TokenBucket.RateBound` | core/src/producer/ve_tls_producer_common.c:23-84 | over any stretch without a zero reading, requests and bytes let through are at most rate * (1 + advance / 1000) |
| `TokenBucket.ZeroClockUnlimited` | core/src/producer/ve_tls_producer_common.c:44-47 | with a clock that reads zero any number of requests passes, and any number of bytes |
| `TokenBucket.BoundedExactly` | core/src/producer/ve_tls_producer_common.c:44-63 | the bound holds for every run that takes its readings from a set if and only if zero is not in the set |
| `TokenBucket.TooLargeNeverGranted` | core/src/producer/ve_tls_producer_common.c:64-71 | a request with more bytes than the rate is never let through, whatever the clock reads |
| `TokenBucket.GrantedAfterOneSecond` | core/src/producer/ve_tls_producer_common.c:48-63 | a second after the last refill a request passes if and only if it has no more bytes than the rate |
| `TokenBucket.Limiter.Refill` | core/src/producer/ve_tls_producer_common.c:44-63 | the first use fills the bucket, later ones add what time has brought in |
| `TokenBucket.Limiter.Round` | core/src/producer/ve_tls_producer_common.c:44-80 | one round takes tokens exactly when both buckets cover the request |
| `TokenBucket.Limiter.Wait` | core/src/producer/ve_tls_producer_common.c:23-84 | without limits or clock there is no wait; otherwise the loop ends at the first round that sees the stop or lets the request through, and takes nothing before |
| `TokenBucket.Limiter.ReserveKey` | core/src/producer/ve_tls_producer_sender.c:51-116 | for any reading, zero included: takes tokens exactly when both buckets cover the request; otherwise the time told is late enough to within a millisecond, is let through at any time later, and a wait of more than ten milliseconds is no longer than what is missing takes: at no time before it is over is the request let through |
| `TokenBucket.ComebackExactly` | core/src/producer/ve_tls_producer_sender.c:51-116 | a request that comes back is let through exactly when the time that has passed brings in what is missing of requests and bytes |
| `TokenBucket.ToldTime` | core/src/producer/ve_tls_producer_sender.c:100-113 | at any time later than told it is let through; at the very time told exactly when rounding down has cut nothing off |
| `TokenBucket.WaitIsLeast` | core/src/producer/ve_tls_producer_sender.c:100-113 | the wait told covers what is missing up to a millisecond and, above ten milliseconds, is no longer than one of the two takes |
| `TokenBucket.NotBefore` | core/src/producer/ve_tls_producer_sender.c:100-113 | at no time before a wait of more than ten milliseconds is over would the request be let through |
| `TokenBucket.ToldTooEarly` | core/src/producer/ve_tls_producer_sender.c:100-113 | a request that is refused at the time it was told, and let through a millisecond later |
| `TokenBucket.RefusedOnceMore` | core/src/producer/ve_tls_producer_sender.c:100-113 | a request that always comes back when told is refused at most once more |

## Left out

- Compression, signing headers, HTTP requests and responses, credentials, metrics and callbacks: input/output around the parts modelled here.
- The signing-key cache and the string-length cache: they rely on hashes not colliding and on memory not changing behind a pointer.
- The object pool and the reference-counted snapshots: their interest lies in weak memory, which a step model does not express.
- `ve_tls_producer_is_drained_locked`: it does not see a task between the send queue and the in-flight count, so it is no proof of delivery.
- The global and per-key circuit breakers beyond the fields the scheduler reads: small state of its own.
- Failed allocations and the failure returns they cause; a buffer of 2^64 bytes or more counts as one.
- The fast-send path and the bounded send and ingress queues: a task there has no key order, and their blocking is only waiting.
- The order of logs before the key-queue push: popping the send queue and pushing the key queue are separate critical sections.
- Import as a step of the budget: it looks at `queue_bytes` alone, so the bound on the total does not extend over it.
- Sizes of log messages that exceed 64 bits before the overflow checks of the builder see them.
- Scheduler.Producer.constructor: one map per pointer field stands for the queue structures, so freed memory is an address that is no longer a key of the maps, and the allocator may hand it out again.
- Rings.Ring: the memory of elements that have left the ring is blanked on a pop only, as in the code; freeing it is not modelled.
- Scheduler.Producer.PickKeyQueue: what happens between picking and finishing (payload checks, retries, sleeping) is not modelled; a sender may finish or put back at any time.
- TokenBucket.RateBound: tokens are real numbers, so the rounding of `double` is not modelled; rounds end when the producer stops, after which every waiting request is let through (`TokenBucket.Limiter.Wait`).
- Snapshot.RawBuffer.Export: thread and ingress batches are merged into the builders before the export; that is `LogBuilder.LogGroupBuilder.AppendBatch`, and is not repeated here. The order in which the chains are visited is that of a list of builders.
- KeyBuilders.FinishLosesLog: a worker that seals the builder in time prevents the loss; when it comes to do so is scheduling.
- BuilderStats.Add: the count of logs is not cut to 32 bits, and the time of the first append is not kept.
- Budget.ByteCounters.HasSpace: waiting for room is the other steps of a run; timing out and closing end it without taking anything.
- SineTable.SineConstants: that sine and cosine of 1 lie between the partial sums of their series, and the addition theorem behind the recurrence, are taken from analysis.
