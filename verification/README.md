# Verification of the block-device client

A Dafny model of the data path of the client of a distributed block store, and proofs about it.
`dafny verify dfyconfig.toml` checks everything.

The source is C code in a kernel module. Objects that it updates in place are classes here, each
method proved against a function of the old state; threads that race are modelled as state
machines whose steps are the lock-protected sections of the code, and the theorems hold over every
interleaving.

## What is modelled

- **Metadata cache** (`LeafWord`, `CacheState`, `CacheOps`, `CacheRuns`, `CachePool`): leaves with a
  reference count and a delete bit in one word, a radix tree, an LRU list, a listing by HBID, and
  the operations find, put, update, invalidate, evict and resize. `CacheSizing` divides the slots
  among the volumes, in the integer widths of the source.
- **Datanode requests** (`RequestFsm`, `Request`, `RequestRaces`, `RequestLife`, `Buckets`, `WorkQueue`,
  `WorkRace`, `DnClient`, `DnClientMgr`): one request under its submitter, sender, ack handlers,
  cancellers and reconnect threads; the 33-bucket worker queue, and the races on its unlocked index;
  any number of requests with the hash pool and the retry lists.
- **Connections** (`ConnFsm`, `Net`, `RetryTask`, `Reconnect`, `ReconnectLoss`, `ReconnectReach`,
  `ReconnectEnds`, `ConnMgr`): the connection state machine, socket wrappers with deferred release,
  retry tasks with their handler and cancellers, all running together.
- **Wire protocol** (`Bytes`, `Packet`, `AckPacket`, `Segments`, `DnSimulator`, `DnLockStep`,
  `Fingerprint`, `WritePacket`): request packets and acks byte by byte, cutting the payload out of
  the chunked buffer, the framing and the answering state machine of the datanode simulator, the
  client's receiver, and the fingerprint cache, up to the packet that carries the digests.
- **Error injection** (`ErrorInjection`, `ErrorRuns`): sources, percentages and the decision per received ack.

`Wrappers`, `Seqs` and `MachineInts` hold the option type, the facts about lists without repetition
and the machine integers.

## Where the code does not do what it seems to promise

Each is a lemma, with the exact condition, and races with a run from the initial state.

- The return code of a cache update is that of its last item only (`UpdateItems`).
- Conditional invalidation empties the whole pool when a matching leaf is held
  (`ConditionalExact`).
- A stale HBID listing makes invalidation drop a newer item (`HbidExactly`,
  `StaleListingLosesItem`).
- A resize reads the number of cached leaves twice; if the pool comes to fit in between and is one
  short of full, everything is evicted (`FittingPoolEmptied`, `EmptiedReached`). Pools of 2^31 slots
  and more never evict for an update (`UpdateBounded`), and resizing a large volume to such a size
  may empty it (`WideResize`).
- A lookup whose range reaches 2^64 finds nothing (`Find`), and the 2^31st reference on a leaf marks
  it deleted while it is cached (`TouchRangeExactly`).
- The guard of the small-volume pass overdraws the budget on a second pass (`SmallExact`,
  `SecondPassOvercommits`, `TotalWithinBudget`). The large-volume pass keeps its budget in 32 bits,
  and from 2^31 slots on its fallback fires for some budgets and not for others
  (`FallbackExactly`, `FallbackByTotal`, `WideBudgets`). Its 64-bit product wraps, and slots stay
  unassigned (`RemainderExactly`, `PetabyteVolumeGetsNothing`); with claims from 2^31 on slots are
  handed out twice (`LargeExact`, `HugeClaimOverdraws`), and large volumes below one block can make it divide by
  zero (`UpdateSizes`).
- A cancel that overtakes a pending enqueue frees a request that ends up in the worker queue
  (`OvertakenExactly`, `OvertakenReached`); a cancel between two sends leaves the request in the pool
  for ever (`CancelMarksExactly`, `CancelledInRetryIsStuck`, `StuckReached`); resending a request
  with a rewritten opcode leaks a reference, and the request is never freed (`ResendLeaks`,
  `LeakedIsNeverFreed`, `LeakReached`).
- The index of the worker queue is stored outside any common lock: a stalled store adds up to 32
  peeks to the wait of a request (`BoundedWait`, `StalledStoreExceeds`).
- A connection that breaks after its retry task delivered the new socket and before that task left
  the queue is refused a new task; unless a sender saw the new socket before the break, it stays in
  ConnectRetry until it is closed or a metadata report asks for it (`BrokenBeforeUnlink`,
  `LostExactly`, `AbandonedReached`, `StuckUntilClosed`, `ReportBringsBack`). A socket that
  connected while its connection was being closed is only logged and never freed
  (`DialLostExactly`, `LostSocketReached`, `LostForGood`).
- The simulator and the receiver fall out of step for reads with payload of no block or of more
  than 32 blocks (`InStepExactly`).
- The injection count wraps at 32 bits: from 2^31 receives on the rates are not met (`RateKept`,
  `RateExactly`, `RateAcrossWrap`). The first item of a source is not checked (`LoneItem`), and the
  check of a modification wraps (`ModifyAcceptsExactly`).

## Model

| member | source | states |
|---|---|---|
| `LeafWord.IncExact` | BlockDeviceDriver2/common/cache.h:29-32 | taking a reference adds one and leaves the delete bit alone iff the 31-bit count has room |
| `LeafWord.DecExact` | BlockDeviceDriver2/common/cache.h:29-32 | dropping a reference subtracts one and leaves the delete bit alone iff the count is positive |
| `LeafWord.SetDeleteKeepsCount` | BlockDeviceDriver2/common/cache.h:29-32 | marking a leaf deleted keeps its count |
| `CacheState.TreeSize` | BlockDeviceDriver2/common/cache.c:261-350 | tree, LRU list and `cache_num` have the same size |
| `CacheState.InsertDisplaces` | BlockDeviceDriver2/common/cache.c:890-917 | inserting over a cached key unlinks exactly the displaced leaf and releases it only if nobody holds it |
| `CacheOps.KickSound` | BlockDeviceDriver2/common/cache.c:295-350 | eviction keeps every pool invariant and all outstanding references, removes only matching items, and with no quota leaves no matching item in the scanned part |
| `CacheOps.EvictsTail` | BlockDeviceDriver2/common/cache.c:304-347 | an unconditional eviction of n leaves removes exactly the n least recently used |
| `CacheOps.UpdateAllSound` | BlockDeviceDriver2/common/cache.c:878-920 | a batch of stores keeps the invariants and the cached contents become exactly the old contents overwritten by the items that were stored |
| `CacheOps.UpdateServes` | BlockDeviceDriver2/common/cache.c:830-924 | an update of at most `cache_size` items, whether the pool is full or not, ends with every item that the tree took served under its key, and any other key as before or evicted; one of more items, or on a pool without slots, changes nothing |
| `CacheOps.NeedIs` | BlockDeviceDriver2/common/cache.c:853-858 | the number of leaves to evict, computed in signed 32 bits, is the excess capped at the size below 2^31 slots and negative from there on |
| `CacheOps.UpdateBounded` | BlockDeviceDriver2/common/cache.c:847-900 | below 2^31 slots, with `cache_num` within `cache_size`, an update of n items evicts exactly the excess from the LRU tail and ends within `cache_size`; larger pools evict nothing |
| `CacheOps.ReclaimExact` | BlockDeviceDriver2/common/cache.c:847-876 | the reclaim before an update makes enough room iff `cache_num` + n is at most twice `cache_size`, from 2^31 slots on at most `cache_size` |
| `CacheOps.TouchRangeSound` | BlockDeviceDriver2/common/cache.c:456-531 | a lookup adds exactly one reference per hit and changes no contents |
| `CacheOps.TouchRangeOrder` | BlockDeviceDriver2/common/cache.c:488-515 | after a lookup the hits are at the LRU front in ascending key order, the others keep their order |
| `CacheOps.TouchRangeWords` | BlockDeviceDriver2/common/cache.c:488-515 | a lookup adds one to the word of each hit and to no other |
| `CacheOps.TouchRangeExactly` | BlockDeviceDriver2/common/cache.c:488-515 | a lookup keeps the pool well formed iff no hit has 2^31 - 1 references already; the next one marks a cached leaf deleted |
| `CacheOps.PutSound` | BlockDeviceDriver2/common/cache.c:544-586 | giving a basket back drops exactly its references; leaves that were deleted meanwhile are released with the last one |
| `CacheOps.InvalidateSound` | BlockDeviceDriver2/common/cache.c:598-647 | range invalidation removes exactly the cached keys of the range |
| `CacheOps.InvalidateHbidSound` | BlockDeviceDriver2/common/cache.c:183-217 | invalidation by HBID removes exactly the listed keys and leaves no item with that HBID |
| `CacheRuns.StepGood` | BlockDeviceDriver2/common/cache.c:295-924 | every operation, in any state, keeps tree, LRU, counters, HBID index and references consistent, never serves a stale item, and never revives a released leaf |
| `CacheRuns.NeverStale` | BlockDeviceDriver2/common/cache.c:295-924 | over every run from an empty pool: tree and LRU are the same `cache_num` leaves, a cached key maps to the item last stored for it and not invalidated since, and outside a resize a pool of less than 2^31 slots is within `cache_size` |
| `CacheRuns.EmptyGood` | BlockDeviceDriver2/common/cache.c:1321-1359 | a new pool satisfies the invariant, so runs can start |
| `CacheRuns.LeafLifetime` | BlockDeviceDriver2/common/cache.c:261-274 | over every run a leaf is released at most once, exactly when it is neither cached nor held, and the leaf counter is cached plus deleted-but-held leaves |
| `CacheRuns.SweepGood` | BlockDeviceDriver2/common/cache.c:411-443 | one sweep with a predicate removes exactly the matching items |
| `CacheRuns.ResizeGood` | BlockDeviceDriver2/common/cache.c:1062-1080 | size write, both reads of the count and eviction as separate steps: undisturbed they leave exactly the most recently used leaves that fit |
| `CacheRuns.KickGood` | BlockDeviceDriver2/common/cache.c:1075-1080 | whatever ran since the count was read twice, the eviction of a resize ends within a new size below 2^31, and leaves exactly what the count says, nothing for -1 |
| `CacheRuns.KickEmpties` | BlockDeviceDriver2/common/cache.c:304-347 | the eviction leaves nothing iff nothing was cached, the count is -1, or it covers every leaf |
| `CacheRuns.FittingPoolEmptied` | BlockDeviceDriver2/common/cache.c:1075-1080 | if the pool came to fit between the two reads, the eviction empties it iff it is one short of full, and else leaves it alone |
| `CacheRuns.EmptiedReached` | BlockDeviceDriver2/common/cache.c:1075-1080 | a run from an empty pool to such a pool, and its emptying |
| `CacheRuns.WideResize` | BlockDeviceDriver2/common/cache.c:1134-1145 | an undisturbed resize of a large volume to 2^31 slots or more evicts everything iff the size is more than 2^31 above the count or one above it, else nothing |
| `CacheRuns.ConditionalExact` | BlockDeviceDriver2/common/cache.c:357-400 | conditional invalidation removes exactly the matching items iff no matching leaf is held or everything matches; otherwise its retry pass empties the pool |
| `CacheRuns.NoHbidLeft` | BlockDeviceDriver2/common/cache.c:650-727 | after invalidation by an HBID over all pools no pool serves an item with it |
| `CacheRuns.HbidExactly` | BlockDeviceDriver2/common/cache.c:183-217 | invalidation by HBID removes only items of that HBID iff every cached key listed under it holds an item of it |
| `CacheRuns.StaleListingLosesItem` | BlockDeviceDriver2/common/cache.c:87-121 | counterexample: a stale HBID listing makes invalidation drop a newer item of another HBID |
| `CachePool.CachePool.constructor` | BlockDeviceDriver2/common/cache.c:1321-1359 | a new pool is empty, with one slot per 4096 bytes of capacity, in 32 bits |
| `CachePool.LeastKey` | BlockDeviceDriver2/common/cache.c:480-487 | the least cached key from a start key on, if any |
| `CachePool.GangLookup` | BlockDeviceDriver2/common/cache.c:480-487 | the first `count` cached keys from `start` on, ascending |
| `CachePool.ScatterStep` | BlockDeviceDriver2/common/cache.c:476-519 | moving the last unprocessed hit to the slot of its key never overwrites an unprocessed slot |
| `CachePool.CachePool.Find` | BlockDeviceDriver2/common/cache.c:456-531 | in place: slot k ends as the leaf of key `start`+k if cached and null otherwise, each hit gets one reference and moves to the front, the number of hits is returned; a range that reaches 2^64 finds nothing and changes nothing |
| `CachePool.CachePool.PutBack` | BlockDeviceDriver2/common/cache.c:544-586 | in place: the basket is given back, as specified by `Put` |
| `CachePool.CachePool.KickMeta` | BlockDeviceDriver2/common/cache.c:295-350 | the LRU scan with quota, predicate and return flag equals `Kick`; the flag says that a matching leaf was held |
| `CachePool.CachePool.KickVolume` | BlockDeviceDriver2/common/cache.c:411-443 | the two passes for one volume equal `ConditionalInvalidate` |
| `CachePool.CachePool.InvalidateRange` | BlockDeviceDriver2/common/cache.c:598-647 | in place: equals `Invalidate` |
| `CachePool.CachePool.InvalidateByHbid` | BlockDeviceDriver2/common/cache.c:694-727 | in place: equals `InvalidateHbid` |
| `CachePool.CachePool.InsertHbid` | BlockDeviceDriver2/common/cache.c:87-121 | afterwards the key, and no other pair, is newly listed under the HBID; no key twice, no empty listing |
| `CachePool.CachePool.RemoveHbid` | BlockDeviceDriver2/common/cache.c:148-181 | afterwards exactly that pair is unlisted; no key twice, no empty listing |
| `CachePool.CachePool.UpdateItems` | BlockDeviceDriver2/common/cache.c:830-924 | in place: equals `Update`, with the need in 32 bits; refused iff there are more items than slots or no slots at all; else the return code is that of the last item only |
| `CacheSizing.AllocSmall` | BlockDeviceDriver2/common/cache.c:1033-1087 | the loop equals `SmallPass` and totals the needs of the large volumes |
| `CacheSizing.SmallServed` | BlockDeviceDriver2/common/cache.c:1045-1086 | a volume of at most the threshold, that included, gets its whole need while what the volumes before it left covers its size, and else what is left; a larger one is passed over |
| `CacheSizing.SmallExact` | BlockDeviceDriver2/common/cache.c:1045-1086 | sizes handed out plus a non-negative leftover equal the budget iff no volume overcommits it |
| `CacheSizing.FreshVolumesFit` | BlockDeviceDriver2/common/cache.c:1045-1086 | no overcommitment when every small volume enters with at least its need |
| `CacheSizing.SecondPassOvercommits` | BlockDeviceDriver2/common/cache.c:1045-1086 | counterexample: a second pass over volumes cut short overdraws the budget |
| `CacheSizing.SmallTotal` | BlockDeviceDriver2/common/cache.c:1045-1086 | the small volumes get no more than the budget iff none overcommits it |
| `CacheSizing.AllocLarge` | BlockDeviceDriver2/common/cache.c:1097-1149 | the loop divides by zero iff the budget is short, no large volume has a whole block and there is one; else it equals `LargePass`, for budgets of either sign |
| `CacheSizing.LargeServed` | BlockDeviceDriver2/common/cache.c:1108-1148 | a volume above the threshold gets its claim, or what is left if that is less; a smaller one is passed over |
| `CacheSizing.FallbackExactly` | BlockDeviceDriver2/common/cache.c:1108-1148 | for every budget: the fallback fires nowhere iff at each large volume the budget minus the claims before it covers its claim, all in 32 bits |
| `CacheSizing.FallbackByTotal` | BlockDeviceDriver2/common/cache.c:1108-1148 | with claims below 2^31: no fallback iff there is no large volume or all claims fit the budget truncated to 32 bits |
| `CacheSizing.FallbackFull` | BlockDeviceDriver2/common/cache.c:1108-1148 | with a budget that covers all needs: no fallback iff there is no large volume or the total need fits the truncated budget |
| `CacheSizing.WideBudgets` | BlockDeviceDriver2/common/cache.c:1108-1148 | 2^31 slots and one block fall back; 2^32 + 5 slots and three blocks do not |
| `CacheSizing.SmallBudgetFits` | BlockDeviceDriver2/common/cache.c:1108-1148 | budgets below 2^31 never fall back |
| `CacheSizing.LargeExact` | BlockDeviceDriver2/common/cache.c:1108-1148 | for every non-negative budget: never more is handed out while no volume after the first fallback claims 2^31 slots, for budgets below 2^32 only then; without fallback each large volume gets its claim cut to 32 bits, and with claims below 2^31 a sufficient budget serves every need |
| `CacheSizing.HugeClaimOverdraws` | BlockDeviceDriver2/common/cache.c:1108-1148 | counterexample: a claim from 2^31 on after a fallback hands out almost twice the budget |
| `CacheSizing.RemainderExactly` | BlockDeviceDriver2/common/cache.c:1118-1124 | with a short budget fewer slots than large volumes stay unassigned iff 2^64 times the wraps plus the division rests stay below that many total needs |
| `CacheSizing.RemainderPromise` | BlockDeviceDriver2/common/cache.c:1118-1124 | so the bound holds when no 64-bit product wraps, and only then while volumes times need is at most 2^64 |
| `CacheSizing.PetabyteVolumeGetsNothing` | BlockDeviceDriver2/common/cache.c:1118-1124 | counterexample: a volume of 2^51 bytes and 2^25 slots leave every slot unassigned |
| `CacheSizing.UpdateSizes` | BlockDeviceDriver2/common/cache.c:1162-1183 | both passes in place equal `Resized`, or divide by zero, iff the first overdraws the budget and there are large volumes, none with a whole block |
| `CacheSizing.TotalWithinBudget` | BlockDeviceDriver2/common/cache.c:1162-1183 | both passes together hand out no more than the configured slots when no small volume overcommits them and no claim from 2^31 on follows a fallback, for less than 2^32 slots only then |
| `Request.StepInv` | BlockDeviceDriver2/discoDN_client/discoC_DNUDReq_fsm.c:30-306 | every step of every thread keeps the link, claim and reference accounting of a request; what the steps do is stated by the `RequestLife` lemmas |
| `Request.NewInv` | BlockDeviceDriver2/discoDN_client/discoC_DNUData_Request.c:150-203 | a new request satisfies it |
| `RequestLife.MemAckExactly` | BlockDeviceDriver2/discoDN_client/discoC_DNUData_Request.c:442-492 | a memory ack finds a pooled request, with one more reference and its state unchanged, iff it waits for its response; else it changes nothing |
| `RequestLife.FinalAckExactly` | BlockDeviceDriver2/discoDN_client/discoC_DNUData_Request.c:442-505 | a final ack claims and unlinks a pooled request iff it waits for its response with its pool bit set; in any other state it changes nothing |
| `RequestLife.PeekExactly` | BlockDeviceDriver2/discoDN_client/discoC_DNC_worker.c:242-276 | a peek takes the request off the queue and hands it to a sender, with one more reference, iff it waits to be sent |
| `RequestLife.SendDoneExactly` | BlockDeviceDriver2/discoDN_client/discoC_DNUDReq_fsm.c:99-131 | after the send the request waits for its response, unless it was cancelled meanwhile |
| `RequestLife.CollectExactly` | BlockDeviceDriver2/discoDN_client/discoC_DNUDReqPool.c:146-194 | a reconnect collects a pooled request, with one more reference, iff it is for that datanode and waits for its response |
| `RequestLife.RetryChkExactly` | BlockDeviceDriver2/discoDN_client/discoC_DNUDReq_fsm.c:207-240 | after the check it goes back to the worker queue, unless it was cancelled meanwhile |
| `RequestLife.CancelExactly` | BlockDeviceDriver2/discoDN_client/discoC_DNUData_Request.c:527-569 | only the caller can cancel: claimed while it waits to be sent, is sent or waits for its response, marked between two sends, else unchanged |
| `RequestLife.PlainLife` | BlockDeviceDriver2/discoDN_client/discoC_DNUDReq_fsm.c:30-306 | every new request has a run through enqueue, send, memory ack and final ack to being freed |
| `RequestLife.ResentLife` | BlockDeviceDriver2/discoDN_client/discoC_DNUDReqPool.c:146-194 | every new request whose opcode is sent as it is has a run in which it is collected after a reconnect, sent again, acknowledged and freed |
| `RequestLife.CancelledLife` | BlockDeviceDriver2/discoDN_client/discoC_DNUData_Request.c:527-569 | every new request has a run in which it is cancelled after the send and freed |
| `Request.ClaimedOnce` | BlockDeviceDriver2/discoDN_client/discoC_DNUData_Request.c:467-569 | over every interleaving a request is claimed at most once, by a final ack or a cancel, freed at most once, pooled iff unclaimed, and the ack lookup never finds its pool bit clear |
| `Request.FreedIsFinal` | BlockDeviceDriver2/discoDN_client/discoC_DNUData_Request.c:367-400 | no thread can take a step on a freed request, when no cancel overtakes an enqueue |
| `Request.FreedIsGone` | BlockDeviceDriver2/discoDN_client/discoC_DNUData_Request.c:367-400 | then a freed request has no references and is on no list, over every run |
| `RequestRaces.OvertakenExactly` | BlockDeviceDriver2/discoDN_client/discoC_DNUData_Request.c:527-569 | a cancel that overtakes a pending enqueue can end with the request freed while in the worker queue iff no reference has leaked or is bound to |
| `RequestRaces.OvertakenReached` | BlockDeviceDriver2/discoDN_client/discoC_DNC_Manager.c:179-183 | every new request, once its ID is published, has a run that ends freed and in the worker queue |
| `RequestRaces.DoomedIsNeverFreed` | BlockDeviceDriver2/discoDN_client/discoC_DNUData_Request.c:367-400 | a request with a leaked reference, or a sender about to skip a rewritten opcode, is never freed |
| `Request.CancelClaimsExactly` | BlockDeviceDriver2/discoDN_client/discoC_DNUDReq_fsm.c:136-263 | a cancel claims a pooled request iff it waits to be sent, is being sent or waits for its response |
| `Request.CancelMarksExactly` | BlockDeviceDriver2/discoDN_client/discoC_DNUDReq_fsm.c:207-268 | a cancel leaves a pooled request marked but unclaimed iff it meets it between two sends |
| `Request.CancelledInRetryIsStuck` | BlockDeviceDriver2/discoDN_client/discoC_DNUDReq_fsm.c:207-268 | such a request stays pooled for ever, neither claimed nor freed |
| `RequestRaces.StuckReached` | BlockDeviceDriver2/discoDN_client/discoC_DNUDReq_fsm.c:207-268 | every new request has a run to that state |
| `Request.ResendLeaks` | BlockDeviceDriver2/discoDN_client/discoC_DNC_workerfun.c:500-532 | finishing a send leaks the reference iff the opcode was rewritten by an earlier send |
| `Request.LeakedIsNeverFreed` | BlockDeviceDriver2/discoDN_client/discoC_DNUData_Request.c:367-400 | a request with a leaked reference is never freed, over every run |
| `RequestRaces.LeakReached` | BlockDeviceDriver2/discoDN_client/discoC_DNC_workerfun.c:500-532 | every new request whose opcode is rewritten has a run to a leaked reference |
| `Buckets.HashedTotal` | BlockDeviceDriver2/discoDN_client/discoC_DNUDReqPool.c:75-136 | with every entry in its own bucket once, the bucket lengths add up to the number of entries |
| `WorkQueue.AddOk` | BlockDeviceDriver2/discoDN_client/discoC_DNC_worker.c:87-104 | adding keeps lists and counters exact, appends, and redirects the dequeue index iff the queue was empty |
| `WorkQueue.RemoveOk` | BlockDeviceDriver2/discoDN_client/discoC_DNC_worker.c:200-209 | removing keeps them exact, takes out that entry only and leaves the index |
| `WorkRace.MoveOk` | BlockDeviceDriver2/discoDN_client/discoC_DNC_worker.c:87-209 | with index store, high-priority count, index load, index advance and bucket removal as separate moves of racing threads: counters stay exact, and at most one index store is pending, for a bucket that is not empty |
| `WorkRace.WaitStep` | BlockDeviceDriver2/discoDN_client/discoC_DNC_worker.c:87-276 | no move of any thread makes a low-priority request wait longer, and every low-priority peek brings it one step closer |
| `WorkRace.BoundedWait` | BlockDeviceDriver2/discoDN_client/discoC_DNC_worker.c:242-276 | over every interleaving a request at position p of its bucket leaves within 32p + 33 low-priority peeks, 32 more when an index store is pending |
| `WorkRace.HighWait` | BlockDeviceDriver2/discoDN_client/discoC_DNC_worker.c:242-276 | over every interleaving a counted high-priority request leaves after as many takes as there are high-priority requests before it, one more for a peek begun elsewhere; meanwhile no low-priority peek begins |
| `WorkRace.ExactWait` | BlockDeviceDriver2/discoDN_client/discoC_DNC_worker.c:242-276 | from every quiet state, along buckets that no stalled adder has locked and with a pending store left pending, there is a run of every number of peeks below the bound that leaves the request queued |
| `WorkRace.BoundIsTight` | BlockDeviceDriver2/discoDN_client/discoC_DNC_worker.c:87-104 | a run of 32 low-priority peeks after which the request is still queued |
| `WorkRace.StalledStoreExceeds` | BlockDeviceDriver2/discoDN_client/discoC_DNC_worker.c:91-97 | from the empty queue: a stalled index store makes the head of a bucket wait through 51 low-priority peeks |
| `DnClient.EmptyInv` | BlockDeviceDriver2/discoDN_client/discoC_DNUDReqPool.c:225-235 | the empty client satisfies the invariant |
| `DnClient.DoInv` | BlockDeviceDriver2/discoDN_client/discoC_DNC_worker.c:87-346 | every step of every thread on any request keeps pool, worker queue, retry lists and all counters consistent |
| `DnClient.ProtocolSafety` | BlockDeviceDriver2/discoDN_client/discoC_DNUData_Request.c:467-569 | over every interleaving on any number of requests: claimed and freed at most once, pooled iff unclaimed, `num_DNUDReq` and both queue counters exact, never on a worker bucket and a retry list at once, on neither once acknowledged |
| `DnClient.HighFirst` | BlockDeviceDriver2/discoDN_client/discoC_DNC_worker.c:242-276 | while a high-priority request is queued the next peek takes one of those, else one whose ID is the round-robin index modulo 32, if there is one |
| `DnClientMgr.CollectTakesAll` | BlockDeviceDriver2/discoDN_client/discoC_DNUDReqPool.c:146-194 | a reconnect offers every pooled request of its datanode exactly once and touches no other |
| `DnClientMgr.PeekTurns` | BlockDeviceDriver2/discoDN_client/discoC_DNC_worker.c:242-276 | for every client state, what `PeekReq` promises |
| `DnClientMgr.Manager.constructor` | BlockDeviceDriver2/discoDN_client/discoC_DNUDReqPool.c:225-235 | an empty client |
| `DnClientMgr.Manager.FindReq` | BlockDeviceDriver2/discoDN_client/discoC_DNUDReqPool.c:101-124 | walking the hash bucket finds a request iff it is pooled |
| `DnClientMgr.Manager.FindMemAck` | BlockDeviceDriver2/discoDN_client/discoC_DNUData_Request.c:467-492 | found iff pooled and waiting for its response; then one more reference and nothing else changes |
| `DnClientMgr.Manager.FindFinalAck` | BlockDeviceDriver2/discoDN_client/discoC_DNUData_Request.c:467-505 | found iff pooled, waiting for its response and with its pool bit set; then claimed and unlinked |
| `DnClientMgr.Manager.CancelReq` | BlockDeviceDriver2/discoDN_client/discoC_DNUData_Request.c:527-569 | claims and unlinks iff caller and state allow |
| `DnClientMgr.Manager.AddReq` | BlockDeviceDriver2/discoDN_client/discoC_DNC_worker.c:87-104 | appends to the bucket, keeps the queue invariant, and redirects the dequeue index iff the queue was empty |
| `DnClientMgr.Manager.RmReq` | BlockDeviceDriver2/discoDN_client/discoC_DNC_worker.c:200-209 | takes exactly that entry out and keeps the queue invariant |
| `DnClientMgr.Manager.PeekReq` | BlockDeviceDriver2/discoDN_client/discoC_DNC_worker.c:242-276 | the high-priority bucket while it has an entry, else the bucket of the index, which advances by one modulo 32; its head, if there is one, leaves the queue and is handed out, SENDING and with a reference, iff it waits to be sent; nothing else changes |
| `DnClientMgr.Manager.CollectRetries` | BlockDeviceDriver2/discoDN_client/discoC_DNUDReqPool.c:175-194 | all buckets in order, as specified by `CollectFrom` |
| `ConnFsm.TransitFacts` | BlockDeviceDriver2/connection_manager/conn_state_fsm.c:20-186 | for each action the exact pairs of state and event that give it, and the state it enters; a refusal changes nothing; only CONN_E_Connect_OK enters Connected |
| `ConnMgr.Fsm.UpdateConnState` | BlockDeviceDriver2/connection_manager/conn_state_fsm.c:20-186 | for each action the exact pairs of old state and event; retry iff a dial fails or a connection breaks, free iff a closing connection is done; no action iff the state stays; a closing connection never opens again |
| `Net.InstallInv` | BlockDeviceDriver2/connection_manager/conn_mgr_impl.c:35-68 | installing a wrapper keeps all socket invariants and overwrites nothing |
| `Net.LeaveInv` | BlockDeviceDriver2/connection_manager/conn_manager.c:142-169 | leaving Connected hands out exactly the installed wrapper |
| `Net.BreakInv` | BlockDeviceDriver2/connection_manager/conn_mgr_impl.c:116-141 | CONN_E_Connect_Broken and CONN_E_Connect_FAIL keep all socket invariants |
| `Net.StopConnInv` | BlockDeviceDriver2/connection_manager/conn_manager.c:331-360 | CONN_E_STOP keeps all socket invariants |
| `Net.DialLostExactly` | BlockDeviceDriver2/connection_manager/conn_mgr_impl.c:191-220 | the wrapper of a connecting thread is forgotten, unfreed, iff its connection is neither connecting nor retrying any more |
| `Reconnect.LostForGood` | BlockDeviceDriver2/connection_manager/conn_mgr_impl.c:191-220 | a forgotten wrapper is never freed, over every further run |
| `Net.EnqLinkInv` | BlockDeviceDriver2/connection_manager/socket_free_worker.c:27-40 | queueing for release keeps them; the counter plus pending increments is the queue length |
| `Net.DeqSockInv` | BlockDeviceDriver2/connection_manager/socket_free_worker.c:42-59 | dequeueing keeps them |
| `Net.SeenIdleInv` | BlockDeviceDriver2/connection_manager/socket_free_worker.c:61-75 | leaving the wait loop keeps them: nobody can take a reference afterwards |
| `RetryTask.ReleasedOnce` | BlockDeviceDriver2/connection_manager/socket_reconn_worker.c:96-198 | a task is freed at most once, by success or by cancel, and then its wrapper was accepted or freed, never both |
| `Reconnect.StepInv` | BlockDeviceDriver2/connection_manager/socket_reconn_worker.c:96-379 | every step of connecting, breaking, closing, sending, reporting, releasing, retrying and cancelling threads keeps the joint invariant, also of those that ask for a retry task without having won it |
| `Reconnect.StartInv` | BlockDeviceDriver2/connection_manager/socket_reconn_worker.c:381-400 | the joint invariant holds at the start |
| `Reconnect.ConnectionSafety` | BlockDeviceDriver2/connection_manager/conn_manager.c:142-207 | over every interleaving from the start: `current_sock` is set iff Connected; a wrapper is handed out, queued and freed at most once each; a freed one is out of everybody's reach with no references; queued retry tasks have distinct addresses and are counted; each task is freed once with its wrapper accepted or freed |
| `Reconnect.NeverReinstalled` | BlockDeviceDriver2/connection_manager/conn_manager.c:142-169 | a wrapper only moves on through its life; once handed out it is never installed again, over every further run |
| `Reconnect.NoNewUsers` | BlockDeviceDriver2/connection_manager/conn_manager.c:171-207 | after the hand-out no step of any thread adds a reference |
| `ReconnectLoss.KeepsCovered` | BlockDeviceDriver2/connection_manager/conn_mgr_impl.c:70-141 | every step outside a named set keeps a retry under way for a connection in ConnectRetry |
| `ReconnectLoss.RetryUnderWay` | BlockDeviceDriver2/connection_manager/conn_mgr_impl.c:70-141 | hence, over every run without such a step, a connection in ConnectRetry always has a retry under way |
| `ReconnectEnds.DropsExactly` | BlockDeviceDriver2/connection_manager/socket_reconn_worker.c:132-299 | for every step in every reachable state: a connection in ConnectRetry loses the last thread bound to bring it back iff its only asker finds no memory, a stopping manager or a task past its lookup, or its task is cancelled, fires after the stop or looks up after shutdown with nobody asking |
| `ReconnectLoss.LostExactly` | BlockDeviceDriver2/connection_manager/socket_reconn_worker.c:250-299 | asking for a retry task abandons the connection iff nobody else dials, asks or has seen a socket of its address, and the queued task of its address is past its lookup, or there is none and the manager is stopping |
| `ReconnectLoss.BrokenBeforeUnlink` | BlockDeviceDriver2/connection_manager/socket_reconn_worker.c:96-127 | whenever a connection breaks after its retry task delivered the new wrapper and before the task left the queue, the next request is refused and the connection abandoned |
| `ReconnectReach.AbandonedReached` | BlockDeviceDriver2/connection_manager/socket_reconn_worker.c:96-127 | from the start, for every address, a run to an abandoned connection |
| `ReconnectReach.LostSocketReached` | BlockDeviceDriver2/connection_manager/conn_mgr_impl.c:191-220 | from the start, for every address, a run to a forgotten wrapper |
| `ReconnectLoss.StuckUntilClosed` | BlockDeviceDriver2/connection_manager/conn_state_fsm.c:104-131 | an abandoned connection stays in ConnectRetry over every run until it is closed or a metadata report asks for its address; no sender asks, having seen no socket |
| `ReconnectReach.AskerBringsBack` | BlockDeviceDriver2/connection_manager/conn_mgr_impl.c:93-110 | whoever asks while both managers run and the address has no task can bring the connection back |
| `ReconnectReach.ReportBringsBack` | BlockDeviceDriver2/discoDN_client/discoC_DNC_workerfun.c:162-178 | so one report, or one sender that saw a socket before the break, is enough |
| `ReconnectReach.FailedDialRetried` | BlockDeviceDriver2/connection_manager/conn_mgr_impl.c:116-220 | from the start, for every address: a run through a failed first dial to ConnectRetry with a retry wanted, and on to Connected |
| `ReconnectEnds.SendsOrAsks` | BlockDeviceDriver2/discoDN_client/discoC_DNC_workerfun.c:162-178 | a sender that saw a socket gets it, with one more reference, iff the connection is still up when it reads the state, and else asks for a retry |
| `ReconnectEnds.StopEnds` | BlockDeviceDriver2/connection_manager/conn_manager.c:331-362 | every open connection can be closed for good: out of the pool, its wrapper handed out for release, in the end state |
| `ReconnectEnds.Forward` | BlockDeviceDriver2/connection_manager/conn_state_fsm.c:20-186 | over every run a connection only moves forward from new to open to closing to gone |
| `ConnMgr.Connections.UpdateConn` | BlockDeviceDriver2/connection_manager/conn_manager.c:142-169 | a wrapper is returned iff the event takes the connection out of Connected; it is the one installed there and was never handed out; other connections stay |
| `ConnMgr.Connections.RetryConn` | BlockDeviceDriver2/connection_manager/conn_mgr_impl.c:116-141 | won iff this call entered ConnectRetry; the old wrapper is then kept for release and one thread wants a retry task |
| `ConnMgr.Connections.GetWrapper` | BlockDeviceDriver2/connection_manager/conn_manager.c:171-195 | the installed wrapper, with one more reference, iff Connected; never one that was handed out or freed |
| `ConnMgr.Connections.EnqRelease` | BlockDeviceDriver2/connection_manager/socket_free_worker.c:27-40 | a wrapper handed out is queued, was not queued before, and count plus pending increments is again the queue length |
| `ConnMgr.Connections.DeqRelease` | BlockDeviceDriver2/connection_manager/socket_free_worker.c:42-59 | the head of the queue, or nothing |
| `ConnMgr.Connections.FreeAll` | BlockDeviceDriver2/connection_manager/socket_free_worker.c:144-164 | the shutdown loop, with its wait for the references of each wrapper, ends as `Drain` says and keeps the invariant |
| `ConnMgr.DrainExact` | BlockDeviceDriver2/connection_manager/socket_free_worker.c:144-164 | draining frees exactly the queued wrappers, once each and with no reference left, and leaves the counter at minus the increments still due |
| `ConnMgr.RetryTasks.FindTask` | BlockDeviceDriver2/connection_manager/socket_reconn_worker.c:42-56 | finds a task iff the address has one queued |
| `ConnMgr.RetryTasks.AddRetryTask` | BlockDeviceDriver2/connection_manager/socket_reconn_worker.c:250-299 | adds iff the manager runs and the address has no task, keeping the joint invariant |
| `ConnMgr.RetryTasks.CancelAttempt` | BlockDeviceDriver2/connection_manager/socket_reconn_worker.c:321-379 | claims iff the queued task of the address waits, asks to try again iff it is connecting |
| `Bytes.BERound` | BlockDeviceDriver2/discoDN_client/discoC_DN_protocol.c:39-79 | network order written and read back is the identity |
| `Bytes.SwapTwice` | BlockDeviceDriver2/discoDN_simulator/discoDNSrv_protocol.c:24-32 | a raw 64-bit word is the byte-swapped original and swapping it back loses nothing |
| `Packet.PacketRoundTrip` | BlockDeviceDriver2/discoDN_client/discoC_DN_protocol.c:146-208 | for every read or write opcode, 1..33 HBIDs and up to 33 locations: parsing recovers opcode, counts and IDs, each raw word is the swapped original, and the length is 32+8n+(20n or 8n)+8m, below a page |
| `Packet.PacketByOpcode` | BlockDeviceDriver2/discoDN_client/discoC_DNC_Manager.h:49-57 | the same by opcode number, so for each of the eight requests; the heart beat is not parsed as one |
| `Packet.ReadMaskAt` | BlockDeviceDriver2/discoDN_client/discoC_DNC_Manager.c:434-438 | in the packet of a read the first of the eight mask bytes of every block is 1 and the others are 0 |
| `Packet.SwapAllBack` | BlockDeviceDriver2/discoDN_simulator/discoDNSrv_simulator.c:192-240 | swapping the stored words back gives the words sent |
| `Packet.GenHeader` | BlockDeviceDriver2/discoDN_client/discoC_DN_protocol.c:39-55 | seven stores make the header; the three reserved bytes keep the buffer content |
| `Packet.FillWords` | BlockDeviceDriver2/discoDN_client/discoC_DN_protocol.c:65-79 | the loop stores the words in network order and nothing else |
| `Packet.GenReqPacket` | BlockDeviceDriver2/discoDN_client/discoC_DN_protocol.c:146-208 | the buffer holds exactly the packet and is otherwise unchanged |
| `AckPacket.GenAck` | BlockDeviceDriver2/discoDN_simulator/discoDNSrv_protocol.c:34-76 | the stores, with the ID fields first wrong and then corrected, leave exactly the ack bytes |
| `AckPacket.AckRoundTrip` | BlockDeviceDriver2/discoDN_client/discoC_DN_protocol.c:420-465 | the client's conversion inverts the simulator's builder for every 16-bit count and 32-bit IDs |
| `AckPacket.AckNtoh` | BlockDeviceDriver2/discoDN_client/discoC_DN_protocol.c:420-465 | the conversion returns the ack that was built |
| `Segments.LocFacts` | BlockDeviceDriver2/discoDN_client/discoC_DNUData_Request.c:263-285 | inside the data the next piece is non-empty, holds the right bytes and, block-aligned, whole blocks |
| `Segments.InitSegments` | BlockDeviceDriver2/discoDN_client/discoC_DNUData_Request.c:327-345 | the loop ends, and its at most n segments, each whole blocks, concatenate to exactly the n blocks at the offset |
| `DnSimulator.WriteIsFramed` | BlockDeviceDriver2/discoDN_client/discoC_DNC_workerfun.c:325-361 | segments of whole blocks that add up to the request are well framed |
| `DnSimulator.PayloadDelivers` | BlockDeviceDriver2/discoDN_simulator/discoDNSrv_simulator.c:242-288 | nothing is submitted before the last segment; then exactly the request, with the pending size at zero |
| `DnSimulator.FramingExact` | BlockDeviceDriver2/discoDN_simulator/discoDNSrv_simulator.c:242-288 | any sequence of requests is submitted completely, once each and in order |
| `DnSimulator.HeaderByOpcode` | BlockDeviceDriver2/discoDN_simulator/discoDNSrv_simulator.c:242-273 | by opcode number, which headers wait for payload, how much, and which are submitted at once |
| `DnLockStep.ReadsAddUp` | BlockDeviceDriver2/discoDN_client/discoC_DNC_workerfun.c:543-584 | the chunk reads add up to the expected size, none above 128 KiB |
| `DnLockStep.RcvReadData` | BlockDeviceDriver2/discoDN_client/discoC_DNC_workerfun.c:543-584 | the loop makes exactly those reads |
| `DnLockStep.ReadStep` | BlockDeviceDriver2/discoDN_client/discoC_DNC_workerfun.c:594-663 | each read of the receiver delivers the next receipt owed or a part of it |
| `DnLockStep.Conversation` | BlockDeviceDriver2/discoDN_simulator/discoDNSrv_simulator.c:242-396 | however packets and reads interleave, receipts got plus receipts owed are exactly those of the submitted requests, in order |
| `DnLockStep.LockStep` | BlockDeviceDriver2/discoDN_simulator/discoDNSrv_simulator.c:242-396 | at every moment of sending, also between a write header and its payload, receipts got plus owed are exactly those of the first k requests, and of all once every packet arrived: MEM_ACK then DISK_ACK per write, one read ack with its data per read, with IDs and counts |
| `DnLockStep.AnswersByOpcode` | BlockDeviceDriver2/discoDN_simulator/discoDNSrv_simulator.c:290-345 | by opcode and ack number, what each request is answered with, each ack with the IDs and the block count sent |
| `DnLockStep.InStepExactly` | BlockDeviceDriver2/discoDN_simulator/discoDNSrv_simulator.c:290-396 | a read with payload leaves both sides in step iff it has 1 to 32 blocks |
| `DnLockStep.Simulator.RxReceive` | BlockDeviceDriver2/discoDN_simulator/discoDNSrv_simulator.c:242-288 | the header of a request without payload submits exactly that request; one with payload waits for its size; payload submits it with the last byte and not before |
| `DnLockStep.Simulator.TxTransmit` | BlockDeviceDriver2/discoDN_simulator/discoDNSrv_simulator.c:359-396 | in place: equals `TxSend`; the buffer holds the ack bytes or is untouched |
| `Fingerprint.MarkExact` | BlockDeviceDriver2/discoDN_client/fingerprint.c:53-59 | setting the bit of a block sets no other bit |
| `Fingerprint.RunExact` | BlockDeviceDriver2/discoDN_client/fingerprint.c:31-81 | every output slot begins with the digest of its block, in order; cached slots are the output slots; the map/cache promise is kept and nothing else changes |
| `Fingerprint.FullDigest` | BlockDeviceDriver2/discoDN_client/fingerprint.c:31-81 | with a 20-byte digest the output is exactly the digests |
| `Fingerprint.SameForReplicas` | BlockDeviceDriver2/discoDN_client/fingerprint.c:59-61 | for other replicas, with any output buffer, the same bytes come out and map and cache stay |
| `Fingerprint.RunPadded` | BlockDeviceDriver2/discoDN_client/fingerprint.c:31-81 | in a cleared buffer every output slot is its digest padded with zeros, for every digest length and for first and later replicas; the cache keeps promising the same |
| `Fingerprint.StaleExactly` | BlockDeviceDriver2/discoDN_client/discoC_DNC_workerfun.c:519 | why the buffer is cleared: without it a first fingerprint is independent of the old content iff the digest has 20 bytes |
| `Fingerprint.FpBlock` | BlockDeviceDriver2/discoDN_client/fingerprint.c:52-79 | one turn of the inner loop equals `FpStep` |
| `Fingerprint.CalFingerprint` | BlockDeviceDriver2/discoDN_client/fingerprint.c:31-81 | the nested loops equal `FpRun` over the blocks of the segments in order |
| `Fingerprint.GetFingerprint` | BlockDeviceDriver2/discoDN_client/fingerprint.c:91-105 | zeros when disabled, else the loops; the length is 20 per block |
| `WritePacket.SegmentsAreBlocks` | BlockDeviceDriver2/discoDN_client/discoC_DNUData_Request.c:327-345 | the blocks of the segments of a write are exactly its blocks of the data of the I/O request |
| `WritePacket.DigestsCarried` | BlockDeviceDriver2/discoDN_client/discoC_DN_protocol.c:146-208 | what the loops leave in a cleared buffer are the digests of the blocks of the request padded with zeros, in order, whatever other replicas computed |
| `WritePacket.DigestAt` | BlockDeviceDriver2/discoDN_client/discoC_DN_protocol.c:146-208 | fingerprint k of the packet is the padded digest of block k of the request |
| `WritePacket.GenWrite` | BlockDeviceDriver2/discoDN_client/discoC_DNC_workerfun.c:519-530 | segments, cleared buffer, fingerprints and packet in place: every byte of the packet is a function of the request and its data, and the fingerprint cache keeps its promise |
| `ErrorInjection.HitWide` | BlockDeviceDriver2/SelfTest.c:612-640 | for every 32-bit percentage: a window is met iff the residue is in it; one whose upper bound wraps is never met |
| `ErrorInjection.MeetsExactly` | BlockDeviceDriver2/SelfTest.c:612-722 | the three windows of residues follow each other without overlap, for counts of either sign |
| `ErrorInjection.RateExact` | BlockDeviceDriver2/SelfTest.c:612-722 | with a sum of at most ten, any ten consecutive receives of a non-negative count that does not wrap meet each error exactly as often as its percentage, in any list order |
| `ErrorInjection.RateBelowZero` | BlockDeviceDriver2/SelfTest.c:679-722 | with the count below zero ten receives meet one error in all, of the first type with a percentage |
| `ErrorInjection.RateAcrossZero` | BlockDeviceDriver2/SelfTest.c:679-722 | a window that starts below zero and ends above it: the rates for the part above zero |
| `ErrorInjection.RateAcrossWrap` | BlockDeviceDriver2/SelfTest.c:679-722 | a window in which the 32-bit count wraps: the exact number of each error |
| `ErrorInjection.RateExactly` | BlockDeviceDriver2/SelfTest.c:612-722 | for every 32-bit starting count: the promised rate is met iff the sum is at most `Reach` of that count |
| `ErrorInjection.LoneItem` | BlockDeviceDriver2/SelfTest.c:140-147 | a lone item, unchecked when added, makes min(percentage, 10) of ten receives fail while the count does not wrap |
| `ErrorInjection.CommandsKeepOrder` | BlockDeviceDriver2/SelfTest.c:97-147 | over every sequence of add, modify, remove and receive: one source per key, one item per type, sum below ten from two items on |
| `ErrorInjection.CountsUp` | BlockDeviceDriver2/SelfTest.c:49-68 | however commands and receives interleave, no count is negative before 2^31 receives |
| `ErrorInjection.RateKept` | BlockDeviceDriver2/SelfTest.c:612-722 | after every history, a source with a sum of at most ten meets each error exactly as often as its percentage in its next ten receives, up to 2^31 receives in all |
| `ErrorRuns.RateAnswered` | BlockDeviceDriver2/SelfTest.c:612-722 | after every history of commands and receives, ten receives of a key with a sum of at most ten, with anything done to other keys between them, answer each error exactly as often as its percentage and no error the rest of the time, up to 2^31 receives |
| `ErrorRuns.AnsweredRate` | BlockDeviceDriver2/SelfTest.c:612-722 | in every state, for every 32-bit count: ten receives of a key answer at the promised rate iff the sum is at most `Reach` of the count |
| `ErrorRuns.AnswersCount` | BlockDeviceDriver2/SelfTest.c:679-722 | the answers of any run that leaves the source alone are the decisions of consecutive counts, also where they wrap |
| `ErrorRuns.ReceiveExactly` | BlockDeviceDriver2/SelfTest.c:679-698 | a receive adds one to the 32-bit count of its source and changes nothing else |
| `ErrorRuns.AddExactly` | BlockDeviceDriver2/SelfTest.c:70-159 | a new key gets a source with count zero and this item, unchecked; a known one gets the item iff it has none of the type and the sum stays below ten; no other key changes |
| `ErrorRuns.ModifyExactly` | BlockDeviceDriver2/SelfTest.c:257-301 | a modification changes percentage and check type of that item only, iff the source has the type and the others leave room |
| `ErrorRuns.RemoveExactly` | BlockDeviceDriver2/SelfTest.c:161-211 | a removal leaves the other types and the count, and drops the source iff it has no other type |
| `ErrorInjection.ModifyAcceptsExactly` | BlockDeviceDriver2/SelfTest.c:267-300 | a modification is accepted iff the sum is below ten or the 32-bit check wraps |
| `ErrorInjection.CountBefore` | BlockDeviceDriver2/SelfTest.c:695-698 | the decision uses the count before the receive, also where it wraps |
| `ErrorInjection.Injector.AddTestItem` | BlockDeviceDriver2/SelfTest.c:70-159 | in place: equals `AddItem`, with its 32-bit sum; a new source starts at count zero |
| `ErrorInjection.Injector.ModifyTestItem` | BlockDeviceDriver2/SelfTest.c:257-301 | in place: equals `ModifyItem`, with its 8-bit and 32-bit sums |
| `ErrorInjection.Injector.RemoveTestItem` | BlockDeviceDriver2/SelfTest.c:161-211 | in place: equals `RemoveItem` |
| `ErrorInjection.Injector.MeetTest` | BlockDeviceDriver2/SelfTest.c:679-722 | answers as `Answer` says from the count before the receive, adds one to the count of the first matching source and leaves the others |

## Left out

- Leaves are numbers into a map from numbers to records, and sockets, tasks, connections and
  requests likewise: pointers into freed memory are not represented, being released is recorded.
- Locks, sleeps, wake-ups and memory barriers: each locked section is one atomic step; fairness and
  time are not modelled.
- The kernel runs at most one handler of a retry task at a time; re-initialising the work item while
  its handler still runs is not modelled.
- A closed connection record is never reused or freed in the model; the source restricts closing to
  shutdown for that reason.
- The radix tree is a finite map and the HBID hash table a map from HBIDs to key lists; their bucket
  layout adds nothing but easy members.
- Cache calls on a volume without a pool, and creating and dropping pools in the table of volumes.
- CacheRuns.NeverStale: callers never hold 2^31 - 1 references on one leaf; `TouchRangeExactly` says
  what happens then. No pool has 2^31 leaves, so that `cache_num` does not wrap. An update reads
  `cache_size` once.
- CacheSizing.LargeExact: for budgets of 2^32 and more the condition under which no more is handed out
  is sufficient; that it is necessary is proved below 2^32.
- CacheSizing.TotalWithinBudget: likewise.
- WorkRace.ExactWait: the 32 peeks that a pending store can add are met in one run
  (`StalledStoreExceeds`), not in every state.
- Allocation failures inside a cache update are an input (`Fate`) to the operation, not a heap model.
- What payload and metadata managers do in their callbacks, and the choice of datanode and location.
- The bodies of SHA-1 and MD5: the digest is a function parameter that writes at most 20 bytes.
- An unknown fingerprint method, which writes nothing at all.
- Sending on a real socket, partial sends, and the error paths of a broken send beyond the state
  machine steps they cause.
- Heartbeats, the second protocol version, and a bare header as a packet.
- DnClient.ProtocolSafety: an add or peek of the worker queue is one step here; `WorkRace` splits it.
- WorkRace.MoveOk: linking an entry and counting it is one move, and so is unlinking and uncounting.
- DnLockStep.LockStep: reads in which the receiver would wait are not events; a read with payload
  above one chunk is excluded, as `InStepExactly` requires.
- WritePacket.GenWrite: the fingerprints are computed in a copy of their part of the cleared buffer and
  then stored there, where the source computes them in place.
- DnLockStep.Simulator.TxTransmit: an unknown opcode, answered with uninitialised bytes, cannot be
  in the pool.
- Parsing the error-injection commands, printing the lists, and removing a source between the two
  locked sections of a removal.
- ReconnectLoss.StuckUntilClosed: which connections a metadata report can be about (those of name
  nodes) is not modelled; a report may be about any.
- Name-node client, overwrite tables, payload manager, flow control, housekeeping, configuration,
  ioctl, procfs and block-layer glue.
