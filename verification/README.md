# Verified models of the virtual-platform benchmark devices

This project models the golden device models of LLM-VPBench and proves what they are for.
Every device appears twice: as a *specification* (a state, one function per operation, lemmas over
all states and all runs) and as a *program* (a class that updates its fields in place with the same
loops and branches as the C++), each method of which is proved equal to the specification.

| file | content |
|---|---|
| `prelude.dfy` | bytes, options, single-bit tests |
| `cyclic_scan.dfy` | scanning a ring of slots from a moving start: the search and the distance measure shared by the NoC and DMA arbiters |
| `sequences.dfy` | taking one element out of a sequence |
| `words.dfy` | 32-bit register words as sets of bit numbers |
| `noc_arbiter.dfy`, `noc_fairness.dfy` | round-robin, fixed-priority and weighted arbitration; waiting bounds and bandwidth shares |
| `noc_route_cache.dfy`, `noc_routes.dfy` | route cache with timestamp LRU; rule walk and decode; when the cache is invisible, and what it keeps |
| `noc_data_cache.dfy`, `noc_transport.dfy`, `noc_runs.dfy` | data cache with byte validity; blocking data path; both caches are invisible over whole runs, from power-up and through route writes |
| `noc_monitor.dfy`, `noc_status.dfy` | status and interrupt registers of the router; what its runs leave in them |
| `noc_drain.dfy`, `noc_system.dfy`, `noc_flights.dfy` | the order in which a non-blocking queue is served; the router as one state with all its steps; every request accepted is delivered once |
| `noc_service.dfy` | what the router's partners get: requests queued where they are routed, drained reads that answer as the target would, replies, flushes, the status register |
| `noc_router.dfy` | the router program |
| `plic.dfy`, `plic_device.dfy` | gateways, arbitration and claim/complete; the PLIC program |
| `mtimer.dfy`, `mtimer_count.dfy`, `mtimer_device.dfy` | comparators, outputs and split access; counting, firing and reading; the timer program |
| `dma_state.dfy` | DMA channels, register semantics, arbitration, bursts |
| `dma_arbiter.dfy`, `dma_invariants.dfy`, `dma_conservation.dfy`, `dma_runs.dfy`, `dma_copy.dfy`, `dma_layout.dfy`, `dma_drain.dfy` | starvation bounds; interrupt lines; what one event does; conservation over runs, abort, pause and errors; copy correctness; copy correctness from the starting registers; exactly when linked channels come to rest |
| `dma_status.dfy`, `dma_machine.dfy`, `dma_progress.dfy` | which event sets and clears each interrupt bit; the channel state machine seen from outside; what a burst moves in every address mode and what the registers show |
| `dma_witness.dfy` | concrete runs from reset in which the code departs from its documents |
| `dma_controller.dfy` | the DMA program |

Conventions. `std::vector` members are `seq` fields. Registers used bit by bit are sets of bit
numbers (`Words` gives both directions), registers with fields are decoded arithmetically. Unsigned
wrap-around is written out where the code can reach it (`U32`, `UINT_RANGE`, the 64-bit counter and simulation time).
Memories behind the sockets are maps from addresses to bytes; an access outside a map is answered
with an error. One event is one register access, one wire change, one tick, or one arbitration with
its burst.

Where the code and the repository's documents disagree, the code is modelled:

- DMA: XFER_SIZE above 0x10000 loses its top bit instead of being clamped (`SizeClampIff`); resuming a transfer whose size was reprogrammed to what it has already moved does not complete but underflows (`ResumeUnderflowsIff` says for which sizes, `ResumedTransferRunsOn` is a run from reset); ERROR can also be left through a link (`ErrorIsLeftIff`, `LinkRevivesError`); the half event fires when half or less remains, which is strictly below half only if half the size is no whole number of beats (`HalfEventBelowHalfIff`).
- NoC: an allocation discards the other bytes of its line instead of accumulating them, so `AllocateHolds` says what is evicted; the route cache stores ranges, not rule indices; weighted arbitration, QoS, non-blocking transport and a flush register exist; register addresses are those of the code.
- PLIC: the register map is packed by the number of sources, and claim and complete are separate registers.
- MTIMER: enabling the timer does not re-evaluate the outputs by itself; they are exact at all times anyway (`StepKeepsExact`).

## Model

| member | source | states |
|---|---|---|
| CyclicScan.Nearest | benchmarks/noc-router/golden/noc_arbiter.h:74-81 | the wrapped scan finds a set slot exactly when there is one, and then one at least scan distance |
| CyclicScan.StartPastWinner | benchmarks/noc-router/golden/noc_arbiter.h:94-100 | restarting just past the winner brings every slot the scan had not reached closer by exactly the steps taken |
| NocArbiter.GrantsARequester | benchmarks/noc-router/golden/noc_arbiter.h:31-44 | a legal mode grants a current requester whenever there is one, never anyone else; the reserved mode grants nobody; the port stays well formed |
| NocArbiter.Arbiter.Arbitrate | benchmarks/noc-router/golden/noc_arbiter.h:31-44 | winner and new pointers and credits are those of the declarative decision; other targets' ports are untouched |
| NocArbiter.Arbiter.ArbRoundRobin | benchmarks/noc-router/golden/noc_arbiter.h:71-103 | the two-pass loop finds the eligible initiator nearest after the last winner, where eligible means requesting and, with QoS, outranked by no requester |
| NocArbiter.Arbiter.ArbFixedPriority | benchmarks/noc-router/golden/noc_arbiter.h:106-120 | the running-best loop finds the lowest-numbered eligible initiator |
| NocArbiter.Arbiter.ArbWeightedRr | benchmarks/noc-router/golden/noc_arbiter.h:123-153 | both scans, the credit decrement with unsigned wrap, the reload and the pointer advance |
| NocArbiter.Arbiter.MaxPriority | benchmarks/noc-router/golden/noc_arbiter.h:85-92 | the highest requested priority, attained by a requester, or a negative value exactly for no request |
| NocFairness.RoundRobinServes | benchmarks/noc-router/golden/noc_arbiter.h:71-103 | in any call sequence over all targets and modes, an initiator eligible in every round-robin round of its target is granted within its scan distance |
| NocFairness.RoundRobinServesWithinN | benchmarks/noc-router/golden/noc_arbiter.h:71-103 | hence within n rounds, with QoS provided nobody requesting outranks it |
| NocFairness.WeightedNeverFallsBack | benchmarks/noc-router/golden/noc_arbiter.h:123-152 | from credits and weights in 1..255 the reload-and-rescan fallback is unreachable when anyone requests, and credits stay in 1..255 |
| NocFairness.WeightedProgress | benchmarks/noc-router/golden/noc_arbiter.h:125-134 | a round an initiator requests and loses strictly lowers the sum of credits ahead of it |
| NocFairness.WeightedServes | benchmarks/noc-router/golden/noc_arbiter.h:123-153 | no starvation: an initiator that keeps requesting is granted once more rounds have passed than there are credits ahead of it, for any behaviour of the others and any rewriting of weights |
| NocFairness.WeightedServesWithinBound | benchmarks/noc-router/golden/noc_arbiter.h:123-153 | hence after at most 255*(n-1) other grants |
| NocFairness.ProportionalShare | benchmarks/noc-router/golden/noc_arbiter.h:123-153 | with everyone requesting and fixed weights, from any legal credits, every window of cycles*sum(weights) consecutive grants after the first rotation, wherever it starts, gives initiator i exactly cycles*weights[i], and the port state recurs |
| NocFairness.OneRotationSettles | benchmarks/noc-router/golden/noc_arbiter.h:123-153 | from any legal credits, after as many such rounds as there were credits the credits equal the weights |
| NocFairness.BandwidthShare | benchmarks/noc-router/golden/noc_arbiter.h:123-153 | the exact share over sequences of arbiter calls, with any calls for other targets in between, after one warm-up rotation |
| NocFairness.PowerUpRotation | benchmarks/noc-router/golden/noc_arbiter.h:21-28 | from the power-up credits of one each, that rotation is one round per initiator |
| NocFairness.BusyIsWeighted | benchmarks/noc-router/golden/noc_arbiter.h:125-134 | a weighted round in which everyone requests grants the scan position; the step the share theorem counts |
| NocFairness.AnyCycle | benchmarks/noc-router/golden/noc_arbiter.h:123-153 | once the credits equal the weights, the grant sequence is periodic from every moment, one period granting each initiator its weight |
| NocRouteCache.RouteCache.LookupAddr | benchmarks/noc-router/golden/noc_cache.h:30-40 | hit, answer and restamped slot of the first covering valid entry; a miss changes nothing |
| NocRouteCache.RouteCache.UpdateLine | benchmarks/noc-router/golden/noc_cache.h:43-73 | the slot overwritten is the same-range one, else a free one, else one with the least stamp; every other slot is kept |
| NocRouteCache.RouteCache.MinElement | benchmarks/noc-router/golden/noc_cache.h:65-66 | the first slot whose stamp no other undercuts |
| NocRouteCache.RouteCache.FlushAll | benchmarks/noc-router/golden/noc_cache.h:76-80 | all entries invalid, stamps left behind, tick back to zero |
| NocRouteCache.LookupIsMoveToFront | benchmarks/noc-router/golden/noc_cache.h:30-40 | timestamps refine a recency list: a lookup hits exactly when a listed line covers the address, answers from it and moves it to the front |
| NocRouteCache.UpdateIsInsertFront | benchmarks/noc-router/golden/noc_cache.h:53-72 | recording a new range inserts it at the front and drops the least recently used line exactly when the cache is full |
| NocRouteCache.FlushClears | benchmarks/noc-router/golden/noc_cache.h:76-80 | a flush empties the list whatever stamps remain in invalid slots |
| NocRouteCache.OrderUnique | benchmarks/noc-router/golden/noc_cache.h:83-91 | the recency order is determined by the stamps |
| NocRoutes.Walk | benchmarks/noc-router/golden/noc_router.h:604-607 | the rule found matches, and no higher-numbered rule does; none is found only if none matches |
| NocRoutes.DecodeKeepsSound | benchmarks/noc-router/golden/noc_router.h:593-615 | whatever the rules, every valid cache entry stays the image of an enabled rule that routes some address |
| NocRoutes.DecodeIsRoute | benchmarks/noc-router/golden/noc_router.h:593-623 | under a table without shadowing, decode through the cache gives the walk's success, port and cacheable flag |
| NocRoutes.DisjointRulesDoNotShadow | benchmarks/noc-router/golden/noc_router.h:604-606 | pairwise disjoint enabled ranges never shadow |
| NocRoutes.RouteCacheTransparentIff | benchmarks/noc-router/golden/noc_router.h:593-623 | cached answers equal walk answers for all address sequences after a flush if and only if no winning rule covers an address that decodes differently |
| NocRoutes.OverlapCanShadow | benchmarks/noc-router/golden/noc_cache.h:31-38 | a two-rule table where a cached low rule answers for a higher one |
| NocRoutes.MissMeansNewRange | benchmarks/noc-router/golden/noc_cache.h:44-51 | after a decode miss the same-range branch of update is never taken |
| NocRoutes.DecodeIsRecent | benchmarks/noc-router/golden/noc_router.h:594-612 | with disjoint rules one decode is one step of a bounded most-recently-used list, and hits exactly when the list covers the address |
| NocRoutes.RouteCacheIsLru | benchmarks/noc-router/golden/noc_router.h:594-612 | over any sequence of decodes the table holds exactly the list of most recently used rules |
| NocRoutes.RouteCacheIsLruFromEmpty | benchmarks/noc-router/golden/noc_cache.h:76-80 | the same from power-up or a flush, starting with the empty list |
| NocDataCache.MaskArithmetic | benchmarks/noc-router/golden/noc_cache.h:189-192 | for every offset and length, the 32-bit word the program computes has exactly the bits of the byte mask the model uses |
| NocDataCache.ReadHitMeansCached | benchmarks/noc-router/golden/noc_cache.h:116-129 | a read hits exactly when it stays in a resident line and every byte of it is held, and answers the held bytes |
| NocDataCache.WriteHolds | benchmarks/noc-router/golden/noc_cache.h:132-143 | a write changes what is held at exactly the written addresses of a resident line, and nothing otherwise |
| NocDataCache.AllocateHolds | benchmarks/noc-router/golden/noc_cache.h:146-158 | a fill holds the bytes given up to the end of the line, evicts every other byte of it and leaves other lines alone |
| NocDataCache.WriteCoherenceIff | benchmarks/noc-router/golden/noc_router.h:249-254 | a write keeps the cache coherent for every payload if and only if it is accepted and stays in one line or touches no held byte, or is rejected without finding its line |
| NocDataCache.AllocateCoherenceIff | benchmarks/noc-router/golden/noc_router.h:321-327 | a fill keeps the cache coherent if and only if its bytes are those the memory holds at that moment |
| NocDataCache.DataCache.ReadBytes | benchmarks/noc-router/golden/noc_cache.h:116-129 | hit flag and data |
| NocDataCache.DataCache.WriteBytes | benchmarks/noc-router/golden/noc_cache.h:132-143 | merged bytes and mask, or no change; reports residence |
| NocDataCache.DataCache.AllocateLine | benchmarks/noc-router/golden/noc_cache.h:146-158 | the fresh line and whether a valid one was evicted |
| NocDataCache.DataCache.FlushLines | benchmarks/noc-router/golden/noc_cache.h:161-164 | every line invalid, nothing else changed |
| NocDataCache.DataCache.CountValid | benchmarks/noc-router/golden/noc_cache.h:167-173 | the number of valid lines |
| NocTransport.CfgWriteKeepsLegal | benchmarks/noc-router/golden/noc_router.h:492-589 | no register write makes the mode reserved, a weight zero, a route target nonexistent, or a cached route stale |
| NocTransport.CfgReadsBack | benchmarks/noc-router/golden/noc_router.h:430-489 | each register that keeps what is written reads back the legal value of it, and the write changes what no other register reads, apart from the count of valid lines and the statistics counters |
| NocMonitor.StatusIsSticky | benchmarks/noc-router/golden/noc_router.h:514-524 | over any run of register writes, decode errors, evictions and timeouts a status bit is set exactly if it was raised, or set before, and not cleared by a one since; the interrupt output always equals the or of the enabled bits |
| NocStatus.RouterStatusIsSticky | benchmarks/noc-router/golden/noc_router.h:401-406 | the same over runs of the whole router (blocking and non-blocking accesses, register writes, drained queues, responses, timeout checks): a bit is set exactly if an access no rule covers, a fill over a valid line or an overdue request raised it, or it was set before, and no one was written to it since |
| NocStatus.ActMovesBit | benchmarks/noc-router/golden/noc_router.h:593-623 | one step of the router raises, clears or keeps each bit under those conditions and no others |
| NocStatus.DecodeFailsIff | benchmarks/noc-router/golden/noc_router.h:593-623 | an address fails to decode exactly if no enabled rule covers it, whatever the route cache holds and however rules overlap |
| NocMonitor.NextKeepsIrqExact | benchmarks/noc-router/golden/noc_router.h:401-406 | no register write, decode error, eviction or timeout leaves the interrupt output stale |
| NocTransport.DecodedTargetExists | benchmarks/noc-router/golden/noc_router.h:593-615 | decode never answers with a port that does not exist, even with overlapping rules |
| NocTransport.StepKeepsLegal | benchmarks/noc-router/golden/noc_router.h:208-266 | the same configuration invariant for every access |
| NocTransport.HitIsFetch | benchmarks/noc-router/golden/noc_router.h:239-247 | a data-cache hit returns what the target would have returned, and the target would have accepted |
| NocTransport.StepIsTransparent | benchmarks/noc-router/golden/noc_router.h:208-266 | one admissible step of the cached router is one step of a router without caches: an access under a table without shadowing, a route write that leaves every held byte where its address is then routed, any other register write |
| NocRuns.CachesAreTransparent | benchmarks/noc-router/golden/noc_router.h:208-266 | over every run of such steps, route writes included, all responses, data, rules and target memories equal those of a router that walks its rules and asks its targets every time |
| NocRuns.FixedTableIsAdmissible | benchmarks/noc-router/golden/noc_router.h:208-266 | while the route table is left alone, what a run has to respect depends on the table and the targets only, not on its states |
| NocRuns.ProgrammingIsAdmissible | benchmarks/noc-router/golden/noc_router.h:492-589 | while no data line is valid the whole table may be reprogrammed, in any order and through any intermediate tables |
| NocRuns.ProgrammedRouterIsTransparent | benchmarks/noc-router/golden/noc_router.h:492-589 | from power-up, program any registers in any order, arrive at a table that shadows nothing and work under it: the caches are never seen |
| NocRuns.ByteReadsAreTransparentIff | benchmarks/noc-router/golden/noc_router.h:239-247 | with both enables set and no shadowing, every single-byte read is answered as without caches if and only if every held byte a cacheable rule routes is the byte its target has: what a route write, which does not flush the data cache, must leave true |
| NocDrain.WinnerIsWaiting | benchmarks/noc-router/golden/noc_router.h:635-656 | the arbiter always names an initiator with a queued entry, so the not-found retry is unreachable |
| NocDrain.DrainIsPermutation | benchmarks/noc-router/golden/noc_router.h:630-684 | in every reachable mode the loop ends and dispatches each queued entry exactly once |
| NocDrain.UnarbitratedIsFifo | benchmarks/noc-router/golden/noc_router.h:630-634 | without arbitration the order is that of arrival |
| NocDrain.FixedPrioritySorts | benchmarks/noc-router/golden/noc_router.h:634-657 | fixed priority dispatches in ascending initiator order, with QoS by descending priority first |
| NocDrain.QosDrainsByPriority | benchmarks/noc-router/golden/noc_router.h:634-657 | in round-robin and fixed-priority mode QoS dispatches the whole queue by descending priority, whatever its order |
| NocDrain.RoundRobinDrainServes | benchmarks/noc-router/golden/noc_router.h:634-657 | in round-robin mode every queued initiator that, with QoS, nothing queued outranks is dispatched within n dispatches, more precisely within its scan distance |
| NocDrain.WeightedDrainServes | benchmarks/noc-router/golden/noc_router.h:634-657 | in weighted mode within the credits ahead of it |
| NocDrain.LoserIsOvertaken | benchmarks/noc-router/golden/noc_router.h:644-653 | a queue whose head is overtaken by a later entry of its own initiator: per-initiator order is not kept |
| NocDrain.TurnKeepsOrderIff | benchmarks/noc-router/golden/noc_router.h:630-657 | with distinct entries, a turn keeps the order of an initiator's entries if and only if it is not the head that loses the arbitration while another of its entries is queued |
| NocDrain.UnovertakenIsFifo | benchmarks/noc-router/golden/noc_router.h:630-657 | an initiator to which that never happens during the drain leaves in order |
| NocDrain.OneInitiatorIsFifo | benchmarks/noc-router/golden/noc_router.h:630-657 | entries of a single initiator leave in order in every mode |
| NocSystem.StepKeepsOk | benchmarks/noc-router/golden/noc_router.h:208-343 | every step keeps the configuration invariant, sound route cache, credits in 1..255, queued initiators that exist, an in-flight table keyed by payload and an exact interrupt output |
| NocFlights.StepConservesIff | benchmarks/noc-router/golden/noc_router.h:269-343 | a step neither loses a request nor delivers one twice or to another initiator, and keeps every queued request in flight and queued once, if and only if its partner keeps the handshake: no payload in flight sent again or ended early, no response to what is still queued |
| NocFlights.RequestsAreDeliveredOnce | benchmarks/noc-router/golden/noc_router.h:269-343 | over every run that keeps the handshake, the (initiator, payload) pairs in flight at the start and those of the calls accepted are, each exactly once, those of the replies delivered (answers of a drain, responses passed on) or in flight at the end |
| NocFlights.IdleToIdle | benchmarks/noc-router/golden/noc_router.h:269-343 | from an idle router nothing is delivered that was not accepted, and everything accepted has been delivered if and only if nothing is in flight |
| NocService.StepKeepsRouted | benchmarks/noc-router/golden/noc_router.h:289-308 | while the table shadows nothing and is left alone, every request waits in the queue of the target its address is routed to, with that rule's cacheable flag |
| NocService.DrainIsTransparent | benchmarks/noc-router/golden/noc_router.h:659-683 | draining entries in order, every read answered from the cache gets exactly what its target holds at that moment, after all writes dispatched before, and the cache stays coherent |
| NocService.DrainAnswersAsTarget | benchmarks/noc-router/golden/noc_router.h:627-685 | the same for a whole drain of the router in any arbitration mode |
| NocService.AnsweredIff | benchmarks/noc-router/golden/noc_router.h:662-672 | the entries answered from the cache are exactly the cacheable reads that, with the cache enabled, find every byte held in one resident line |
| NocService.ForwardReplies | benchmarks/noc-router/golden/noc_router.h:269-308 | which calls are completed, turned away as disabled, turned away because no enabled rule covers their address, or accepted, and that an accepted request is in flight with its initiator and start time |
| NocService.ReadFills | benchmarks/noc-router/golden/noc_router.h:257-264 | a cacheable read that the target answers and that stays in one line is answered from the cache the next time |
| NocService.AccessFillsIff | benchmarks/noc-router/golden/noc_router.h:239-265 | what a blocking access does to the cache lines: a cacheable read that goes to the target fills one, and reports an eviction exactly if its slot was valid; a write only updates; nothing else touches them |
| NocService.ResponseFills | benchmarks/noc-router/golden/noc_router.h:311-343 | a response fills a line exactly if it answers a cacheable read in flight with data and the cache is enabled; what it fills is then read from the cache |
| NocService.FlushesIff | benchmarks/noc-router/golden/noc_router.h:494-584 | exactly which register writes empty the route cache and the data cache; no other touches their lines |
| NocService.SoloIsGranted | benchmarks/noc-router/golden/noc_router.h:230-236 | the arbiter call of a blocking access moves the round-robin pointer of its target to the initiator, or spends one of its credits, and touches no other port |
| NocService.DrainMovesPointer | benchmarks/noc-router/golden/noc_router.h:634-657 | a drain leaves the round-robin pointer of its target at the initiator dispatched last, and every other port alone |
| NocService.DrainFollowsRegisters | benchmarks/noc-router/golden/noc_router.h:634-657 | the order of a drain is that of the mode, priorities and enables the registers hold |
| NocService.RequestCachesRoute | benchmarks/noc-router/golden/noc_router.h:594-612 | a request or blocking access that decodes with the route cache enabled leaves its route there |
| NocService.TimesOutIff | benchmarks/noc-router/golden/noc_router.h:687-705 | with one request in flight TIMEOUT is raised exactly if the check is enabled and more than the configured ticks have passed since it started |
| NocService.RouteByRegisters | benchmarks/noc-router/golden/noc_router.h:604-607 | an address is routed by rule i exactly if, as the rule registers read, rule i is enabled and covers it and no higher-numbered rule does |
| NocService.ConstantsRead | benchmarks/noc-router/golden/noc_router.h:430-489 | identification registers, the count of valid lines, status registers at power-up |
| NocService.StatusShows | benchmarks/noc-router/golden/noc_router.h:430-436 | the bits and the initiator field of STATUS as read |
| NocService.InitiatorOfLast | benchmarks/noc-router/golden/noc_router.h:617-622 | over any run that field names the initiator of the last access that failed to decode |
| NocProgram.NocRouter.constructor | benchmarks/noc-router/golden/noc_router.h:134-170 | power-up satisfies the invariants of the transparency theorem, with the status registers at their reset values |
| NocProgram.NocRouter.CfgWriteReg | benchmarks/noc-router/golden/noc_router.h:492-589 | every register write but that of the statistics control: the new registers, the flushes it causes, and the status and interrupt registers |
| NocProgram.NocRouter.CfgReadReg | benchmarks/noc-router/golden/noc_router.h:430-489 | every register read outside the statistics block |
| NocProgram.NocRouter.DecodeAddress | benchmarks/noc-router/golden/noc_router.h:593-623 | result and cache after the lookup, the descending rule loop and the fill; a failure records the initiator and raises the status bit and the interrupt |
| NocProgram.NocRouter.DataBTransport | benchmarks/noc-router/golden/noc_router.h:208-266 | response and whole new state of a blocking access: caches, targets, arbiter pointers, status registers |
| NocProgram.NocRouter.DataNbTransportFw | benchmarks/noc-router/golden/noc_router.h:269-308 | reply and whole new state for each phase: refused, failed to decode, or queued and in flight |
| NocProgram.NocRouter.DataNbTransportBw | benchmarks/noc-router/golden/noc_router.h:311-343 | whom the response is passed to and the whole new state: the fill and its eviction exactly when the target accepted a cacheable read in flight and the cache is enabled; the request is forgotten |
| NocProgram.NocRouter.TimeoutTick | benchmarks/noc-router/golden/noc_router.h:687-705 | TIMEOUT is raised exactly when the check is enabled and some request in flight is older than the configured number of ticks; nothing else changes |
| NocProgram.NocRouter.Drain | benchmarks/noc-router/golden/noc_router.h:627-685 | the dispatch log and the whole new state: an empty queue, the arbiter port, the data cache, and the in-flight table without the payloads answered |
| Words.BitsOfWordOf | benchmarks/plic/golden/plic.h:86-92 | a set of bit numbers below 32 survives packing into a word |
| Words.WordOfBitsOf | benchmarks/plic/golden/plic.h:185-191 | every 32-bit word survives unpacking |
| Plic.Winner | benchmarks/plic/golden/plic.h:94-110 | the winner qualifies and precedes every other qualifying source; 0 exactly if none qualifies |
| Plic.ClaimsSort | benchmarks/plic/golden/plic.h:199-208 | repeated claims return every qualifying source exactly once (equal multisets), by descending priority, then ascending ID |
| Plic.ClaimsLeaveQuiet | benchmarks/plic/golden/plic.h:199-208 | afterwards exactly those sources are claimed, nothing else changed, and the interrupt line is low |
| Plic.StepKeepsSettled | benchmarks/plic/golden/plic.h:50-131 | every event keeps: sampled value equals wire, line equals "somebody qualifies", unclaimed level source pending exactly while its wire is high |
| Plic.RunKeepsSettled | benchmarks/plic/golden/plic.h:133-244 | the same over every run of wire changes and bus traffic, erroneous accesses included |
| Plic.StepMovesGateway | benchmarks/plic/golden/plic.h:50-80 | which events claim, complete and release a gateway; an idle edge-triggered gateway becomes pending exactly on a rising edge |
| Plic.ClaimsMinusCompletes | benchmarks/plic/golden/plic.h:199-221 | over every run, claims minus effective completions of a source is one exactly while it is claimed, else zero |
| Plic.EdgesPayForClaims | benchmarks/plic/golden/plic.h:58-60 | while a source stays edge triggered, its claims and the request pending at the end are exactly the rising edges that met an idle gateway and the request pending at the start |
| Plic.ClaimAnswers | benchmarks/plic/golden/plic.h:199-208 | a read of CLAIM answers 0 exactly if nothing qualifies, and otherwise with the source that it claims, which qualified and came first; no other gateway moves |
| Plic.ClaimServesHighest | benchmarks/plic/golden/plic.h:94-112 | the same in terms of what PENDING, ENABLE, PRIORITY and THRESHOLD read just before |
| Plic.RefusedIff | benchmarks/plic/golden/plic.h:133-160 | which accesses are refused, with which error and in which precedence; refused accesses and reads other than of CLAIM change nothing |
| Plic.ResetReadsZero | benchmarks/plic/golden/plic.h:20-30 | after reset every register reads 0 and the line is low |
| Plic.PendingRegister | benchmarks/plic/golden/plic.h:86-92 | PENDING has bit i set exactly for pending source i, bit 0 never |
| Plic.EnableAndTypeReadBack | benchmarks/plic/golden/plic.h:185-191 | ENABLE and INT_TYPE read back what was written, restricted to existing sources |
| Plic.PriorityAndThresholdReadBack | benchmarks/plic/golden/plic.h:172-198 | three bits are kept, and priorities do not mix |
| PlicDevice.Device.Resolve | benchmarks/plic/golden/plic.h:94-110 | the argmax loop returns the winner |
| PlicDevice.Device.IrqMethod | benchmarks/plic/golden/plic.h:50-80 | every gateway samples its wire once, and the line is refreshed |
| PlicDevice.Device.EvaluatePendingForSource | benchmarks/plic/golden/plic.h:116-131 | the re-evaluation after a type change |
| PlicDevice.Device.PendingBits | benchmarks/plic/golden/plic.h:86-92 | the set of pending IDs |
| PlicDevice.Device.BTransport | benchmarks/plic/golden/plic.h:133-244 | reply and new state of every bus transaction, with the program's order of error checks |
| Mtimer.SplitWriteIsCopy | benchmarks/risc-v-aclint/golden/aclint_mtimer.h:335-349 | mask-and-shift halves are a byte copy at offset 0 or 4 |
| Mtimer.SplitReadsBack | benchmarks/risc-v-aclint/golden/aclint_mtimer.h:321-349 | a half reads back what was written, the other half is kept, and the halves make up the register |
| Mtimer.ControlReadsBack | benchmarks/risc-v-aclint/golden/aclint_mtimer.h:243-292 | legal values of enable and prescaler; the overflow flag ignores writes and clears on read |
| Mtimer.StepKeepsExact | benchmarks/risc-v-aclint/golden/aclint_mtimer.h:352-374 | after every tick, register access and debug access each output equals its comparison |
| Mtimer.FollowsComparator | benchmarks/risc-v-aclint/golden/aclint_mtimer.h:351-355 | whatever else happens, a hart's output follows its own comparator until someone writes it |
| Mtimer.NoSpuriousInterrupt | benchmarks/risc-v-aclint/golden/aclint_mtimer.h:212-240 | the three-write update raises no interrupt early under any interleaving and exactly the right one afterwards |
| Mtimer.LowFirstCanMisfire | benchmarks/risc-v-aclint/golden/aclint_mtimer.h:335-349 | a concrete spurious interrupt when the low half is written first |
| Mtimer.LowWriteMisfiresIff | benchmarks/risc-v-aclint/golden/aclint_mtimer.h:335-355 | with the counter below the old and the new value, writing the new low half first raises the interrupt if and only if the old high half with the new low half is at or below the counter |
| Mtimer.LowFirstRaisesIff | benchmarks/risc-v-aclint/golden/aclint_mtimer.h:335-374 | and at any later moment before the high half is written, whatever happens in between, the interrupt is up exactly under that condition |
| Mtimer.LowFirstMisfiresIff | benchmarks/risc-v-aclint/golden/aclint_mtimer.h:335-349 | some counter value makes the low-first order spurious if and only if the new low half is below the old one and the new high half above |
| MtimerCount.CounterCounts | benchmarks/risc-v-aclint/golden/aclint_mtimer.h:358-374 | over any run that does not write the counter it stands where it stood plus one for every tick that found the timer enabled, modulo 2^64 |
| MtimerCount.EveryTickCounts | benchmarks/risc-v-aclint/golden/aclint_mtimer.h:259-274 | while the enable register is not written every tick counts, or none does |
| MtimerCount.FlagIsExact | benchmarks/risc-v-aclint/golden/aclint_mtimer.h:243-257 | over any run the overflow flag is up exactly if the counter has passed its last value, or it was up before, and nobody has read it since |
| MtimerCount.FiresAfter | benchmarks/risc-v-aclint/golden/aclint_mtimer.h:352-374 | an untouched comparator ahead of the counter raises its output after exactly as many counted ticks as it is ahead |
| MtimerCount.BusReads | benchmarks/risc-v-aclint/golden/aclint_mtimer.h:321-333 | a read answers with the little-endian bytes of the register it reaches, whole or by halves, and changes nothing |
| MtimerCount.PortsAgree | benchmarks/risc-v-aclint/golden/aclint_mtimer.h:112-155 | the debug port reads the same bytes at the same addresses |
| MtimerCount.BusReadsBack | benchmarks/risc-v-aclint/golden/aclint_mtimer.h:335-349 | what is written is read back, the other bytes of the register stay, and no other register changes |
| MtimerCount.DebugReadsBack | benchmarks/risc-v-aclint/golden/aclint_mtimer.h:112-155 | a debug write copies as many bytes as fit its region over those that were there, is read back, and changes nothing else |
| MtimerCount.BusRefusedIff | benchmarks/risc-v-aclint/golden/aclint_mtimer.h:67-97 | which accesses are refused and with which error; they change nothing |
| MtimerCount.ResetShows | benchmarks/risc-v-aclint/golden/aclint_mtimer.h:50-63 | power-up values: the counter at zero and running, every comparator out of reach, no output up |
| MtimerDevice.Device.TimerTick | benchmarks/risc-v-aclint/golden/aclint_mtimer.h:358-374 | increment, wrap with overflow flag, outputs; nothing when disabled |
| MtimerDevice.Device.BTransport | benchmarks/risc-v-aclint/golden/aclint_mtimer.h:67-97 | reply and new state, with the byte-enable and streaming-width checks and the program's dispatch order |
| MtimerDevice.Device.ValidateTransaction | benchmarks/risc-v-aclint/golden/aclint_mtimer.h:168-197 | accepts exactly 4- and 8-byte accesses with all lanes enabled and trivial streaming width |
| MtimerDevice.Device.TransportDbg | benchmarks/risc-v-aclint/golden/aclint_mtimer.h:112-155 | clipped byte copies at any offset, across comparators |
| MtimerDevice.Device.UpdateIrqs | benchmarks/risc-v-aclint/golden/aclint_mtimer.h:352-355 | all outputs after a change |
| DmaState.ChooseFinds | benchmarks/dma/golden/dma_controller.h:505-548 | an arbitration grants a running channel of the required level exactly when something runs |
| DmaState.CtrlReadsBack | benchmarks/dma/golden/dma_controller.h:304-309 | CTRL reads back without action and reserved bits |
| DmaArbiter.EightArbitrationsServeBelow | benchmarks/dma/golden/dma_controller.h:513-537 | eight consecutive arbitrations with constant top priority and something below it grant at least once to the highest level below, from any arbiter state |
| DmaArbiter.ForcedGrantsAreRare | benchmarks/dma/golden/dma_controller.h:513-529 | two forced grants are separated by at least seven unforced ones, whatever runs |
| DmaArbiter.OneLevelServes | benchmarks/dma/golden/dma_controller.h:539-546 | with one shared priority every running channel is granted within n arbitrations |
| DmaArbiter.ForcedGrantsTheHeir | benchmarks/dma/golden/dma_controller.h:539-546 | below a single top channel every forced grant after the first arbitration goes to the channel of the next level the scan meets first after the top one |
| DmaArbiter.ForcedLevelServesIff | benchmarks/dma/golden/dma_controller.h:513-546 | with a single top channel and a scene that stays as it is, the lower channels ever served are exactly that one and the one a forced first arbitration finds: the forced level is fair only if it has one channel |
| DmaArbiter.EngineArbitrates | benchmarks/dma/golden/dma_controller.h:382-390 | every engine round is such an arbitration, followed by the burst of the granted channel exactly when something runs, and by nothing otherwise |
| DmaInvariants.StepKeepsWellFormed | benchmarks/dma/golden/dma_controller.h:188-380 | register ranges over every event |
| DmaInvariants.StepKeepsIrqExact | benchmarks/dma/golden/dma_controller.h:103-117 | no event leaves a channel or global interrupt line different from its unmasked status bits |
| DmaStatus.StatusBitIff | benchmarks/dma/golden/dma_controller.h:401-491 | for every event and every status bit: it is set afterwards exactly if the event ends an iteration of the channel (bit 3c), raises its half event (3c+1), fails its burst or aborts it suspended (3c+2), or if it was set, no one was written to it in INT_CLEAR and no reset came |
| DmaStatus.StatusIsSticky | benchmarks/dma/golden/dma_controller.h:229-254 | the same over runs: a bit is set exactly if some event set it, or it was set at the start, and nothing has cleared it since |
| DmaStatus.MaskBitIff | benchmarks/dma/golden/dma_controller.h:246-250 | INT_MASK changes only by being written, within twelve bits, or by a reset, which masks all |
| DmaStatus.EnableIff | benchmarks/dma/golden/dma_controller.h:239-245 | EN follows writes of GLOBAL_CTRL, and RST clears it |
| DmaStatus.LineIff | benchmarks/dma/golden/dma_controller.h:103-117 | from an exact state, a channel line is up after an event exactly if one of its three bits then stands unmasked |
| DmaMachine.StartsIff | benchmarks/dma/golden/dma_controller.h:158-186 | exactly which events start a channel: START written while EN is set to a channel neither active nor in ERROR whose settings, with those written, are valid, or the completion of a channel linking to it, EN or not |
| DmaMachine.StartedShows | benchmarks/dma/golden/dma_controller.h:177-185 | a started channel reads as a transfer at its first byte |
| DmaMachine.NothingRunsDisabled | benchmarks/dma/golden/dma_controller.h:158-186 | as long as EN is never written, whatever else is, no channel becomes active and no byte of memory changes |
| DmaMachine.EngineMovesState | benchmarks/dma/golden/dma_controller.h:392-497 | where an engine round takes the state of every channel: fail, complete, restart through its own link, start through another's, pause, run on or stay |
| DmaMachine.WriteMovesState | benchmarks/dma/golden/dma_controller.h:256-380 | where a register write takes it, from every state |
| DmaMachine.WriteLeavesPending | benchmarks/dma/golden/dma_controller.h:336-380 | which pause and abort requests a write leaves pending |
| DmaMachine.WriteSetsControl | benchmarks/dma/golden/dma_controller.h:336-352 | which settings a control write changes in each state, as read back |
| DmaMachine.WriteTakes | benchmarks/dma/golden/dma_controller.h:265-333 | which data writes take in which state, as read back, and that address writes to a suspended channel set its current addresses |
| DmaProgress.BeatsAreCopies | benchmarks/dma/golden/dma_controller.h:401-458 | the beats of a burst are word copies between addresses in closed form, for incrementing, decrementing and fixed modes on either side |
| DmaProgress.RoundCopies | benchmarks/dma/golden/dma_controller.h:392-458 | one engine round as memory and registers show it: a full burst or all that is left unless it fails, addresses following their modes, the count dropping by what was copied |
| DmaProgress.RoundWraps | benchmarks/dma/golden/dma_controller.h:470-477 | the round that ends an iteration of a circular channel puts its registers back to the first byte and counts one wrap |
| DmaProgress.GlobalRegistersShow | benchmarks/dma/golden/dma_controller.h:229-254 | STATUS, INT_STATUS, INT_MASK and GLOBAL_CTRL, bit by bit |
| DmaProgress.ChannelStatusShows | benchmarks/dma/golden/dma_controller.h:127-143 | the bits of CH_STATUS |
| DmaProgress.RefusedIff | benchmarks/dma/golden/dma_controller.h:188-227 | which register accesses are refused and how; they and reads change nothing |
| DmaProgress.RemainingShowsProgress | benchmarks/dma/golden/dma_controller.h:458 | over every run with good resizes REMAINING reads the size less the bytes moved in the current iteration |
| DmaProgress.ResetReadsZero | benchmarks/dma/golden/dma_controller.h:76-101 | after a reset event every channel register reads 0 and nothing is active, enabled or set |
| DmaConservation.RegisterEffect | benchmarks/dma/golden/dma_controller.h:256-380 | register writes leave an active transfer where it stands unless they reprogram a suspended one, activate a channel only by a validated load, never suspend, never lift an abort |
| DmaConservation.ResizeSoundIff | benchmarks/dma/golden/dma_controller.h:286-303 | reprogramming the size keeps a suspended transfer sound if and only if the size is a multiple of the width and exceeds the bytes moved, which then stay accounted for |
| DmaConservation.ConservedIff | benchmarks/dma/golden/dma_controller.h:286-503 | every event keeps every active transfer conserved, if and only if it is not such a bad size write |
| DmaConservation.BurstAccounts | benchmarks/dma/golden/dma_controller.h:393-490 | what leaves the remaining count has been moved; a burst raises the half event exactly when it sets the half flag, and a finishing burst has it raised, whatever the size was reprogrammed to |
| DmaConservation.FinishedBurst | benchmarks/dma/golden/dma_controller.h:467-490 | a finished iteration is back at its first byte if circular, else complete or restarted by its own link |
| DmaConservation.OnlyLinkStarts | benchmarks/dma/golden/dma_controller.h:482-486 | a burst starts another channel exactly if it completes a non-circular channel that links to it, and changes no other channel |
| DmaRuns.RunKeepsConserved | benchmarks/dma/golden/dma_controller.h:286-503 | legal locked width, divisibility and 0 < remaining <= size of every active channel over whole runs with good resizes |
| DmaRuns.BytesAreAccounted | benchmarks/dma/golden/dma_controller.h:286-490 | over every run with good resizes, at every moment the bytes an active channel has moved in its current iteration are exactly size - remaining |
| DmaRuns.ConservationFromReset | benchmarks/dma/golden/dma_controller.h:90-101 | the same from reset, with the ranges of width, size and remaining spelled out and exact interrupt lines |
| DmaRuns.UnfinishedRunAccounts | benchmarks/dma/golden/dma_controller.h:286-490 | while a channel stays active and does not finish, what leaves remaining, resizes included, is what has moved |
| DmaRuns.RunKeepsIrqExact | benchmarks/dma/golden/dma_controller.h:103-117 | interrupt lines over whole runs |
| DmaRuns.IterationMovesSizeAndHalvesOnce | benchmarks/dma/golden/dma_controller.h:458-490 | every iteration moves exactly the size its register holds at the end and raises exactly one half event, however it is cut up, resized and interleaved; if it is not resized, that is the size it started with |
| DmaRuns.HalfFlagIsExact | benchmarks/dma/golden/dma_controller.h:461-465 | while an unresized transfer is under way its half flag is set exactly if no more than half of it remains |
| DmaRuns.DataRegistersReadBack | benchmarks/dma/golden/dma_controller.h:265-333 | data registers read back within their widths and do not disturb each other |
| DmaRuns.AbortHalts | benchmarks/dma/golden/dma_controller.h:369-376 | an abort of any active channel halts it where it stands |
| DmaRuns.AbortIsFinal | benchmarks/dma/golden/dma_controller.h:361-410 | from then on no byte moves and addresses and count stay frozen until a successful start or a reset, whatever else the run contains |
| DmaRuns.PauseOnlyAtBurstEnd | benchmarks/dma/golden/dma_controller.h:468-497 | a channel is suspended only at the end of its own burst with bytes left; completion beats a pending pause |
| DmaRuns.ErrorIsLeftIff | benchmarks/dma/golden/dma_controller.h:158-177 | an event takes a channel out of ERROR if and only if it is CLR_ERR, a reset, or a burst that completes a non-circular channel linking to it while its own registers pass validation |
| DmaWitness.LinkRevivesError | benchmarks/dma/golden/dma_controller.h:482-486 | a run from reset, by register writes and two engine rounds, in which the link does it |
| DmaRuns.SizeClampIff | benchmarks/dma/golden/dma_controller.h:289-290 | the code agrees with clamping exactly for sizes that need none |
| DmaRuns.ResizeEmptiesIff | benchmarks/dma/golden/dma_controller.h:286-303 | a size write leaves a suspended transfer with less than one beat remaining if and only if the new size is below the bytes moved plus one beat |
| DmaRuns.BeatUnderflowsIff | benchmarks/dma/golden/dma_controller.h:395-458 | a beat leaves more remaining than before if and only if less than one beat remained |
| DmaRuns.ResumeUnderflowsIff | benchmarks/dma/golden/dma_controller.h:286-303 | hence suspend, reprogram the size, resume: the next beat of that channel wraps the remaining count under exactly that condition, instead of completing |
| DmaRuns.HalfEventBelowHalfIff | benchmarks/dma/golden/dma_controller.h:461-465 | the half event of a sound transfer finds strictly less than half remaining if and only if half the size is not a whole number of beats |
| DmaWitness.ResumedTransferRunsOn | benchmarks/dma/golden/dma_controller.h:286-303 | a run from reset that does so |
| DmaCopy.CompletedTransferIsACopy | benchmarks/dma/golden/dma_controller.h:382-503 | a completed incrementing transfer has copied its source as it was at the start, in every run in whose states nobody else is about to write its regions and it is not reprogrammed while suspended |
| DmaCopy.OverlapAheadCopiesIff | benchmarks/dma/golden/dma_controller.h:452-458 | when the destination starts a whole number of beats inside the source, the same run delivers a copy if and only if the source repeats its first dst - src bytes throughout, which is what the destination then holds |
| DmaCopy.DeliversIff | benchmarks/dma/golden/dma_controller.h:452-458 | both cases together: a completed transfer is a copy of its source if and only if the destination does not start inside it or the source repeats |
| DmaCopy.FinishedIterationDelivers | benchmarks/dma/golden/dma_controller.h:467-490 | the same at the end of every iteration, completion or wrap of a circular channel |
| DmaCopy.BeatsStayInWindow | benchmarks/dma/golden/dma_controller.h:452-458 | a burst in any address mode writes only inside a window computed from its registers |
| DmaCopy.DisjointDestinationsDoNotDisturb | benchmarks/dma/golden/dma_controller.h:452-458 | in one state, disjoint destinations of the other running channels that are in step leave a channel undisturbed |
| DmaLayout.TidyTransfers | benchmarks/dma/golden/dma_controller.h:382-503 | if at the start all channels increment, active ones are in step, the others' destinations are disjoint from this channel's regions, it is not self-linked and does not repeat an overlap, then every run of bursts, links, pauses, resumes, aborts and priority writes meets the hypotheses of the copy theorem in every state |
| DmaLayout.TidyTransferIsACopy | benchmarks/dma/golden/dma_controller.h:382-503 | hence such a transfer, when it completes, has copied its source: copy correctness from the starting registers |
| DmaLayout.EngineRunsAreTame | benchmarks/dma/golden/dma_controller.h:382-503 | for runs of bursts alone nothing else is asked of the run |
| DmaDrain.BurstLowersPotential | benchmarks/dma/golden/dma_controller.h:392-490 | every burst strictly lowers remaining bytes plus sizes along the links, even when a completion restarts a channel |
| DmaDrain.LinksDrain | benchmarks/dma/golden/dma_controller.h:158-186 | without circular channels and link cycles the engine rests within that many bursts |
| DmaDrain.LoopNeverDrains | benchmarks/dma/golden/dma_controller.h:473-486 | a set of startable channels, each circular or linking into the set, one of them running and none about to be stopped, runs for ever: loops of any length, circular channels included |
| DmaDrain.RestsIff | benchmarks/dma/golden/dma_controller.h:158-186 | on a fully decoded bus, with startable channels and nothing pending, the engine comes to rest if and only if the links of every running channel lead through non-circular channels to one without a link |
| DmaProgram.DmaController.UpdateIrqs | benchmarks/dma/golden/dma_controller.h:103-117 | every line and the global line from status and mask |
| DmaProgram.DmaController.constructor | benchmarks/dma/golden/dma_controller.h:52-65 | power-up is the reset state, conserved and with exact interrupt lines |
| DmaProgram.DmaController.DoGlobalReset | benchmarks/dma/golden/dma_controller.h:90-101 | all registers and lines at their reset values |
| DmaProgram.DmaController.StartChannelAt | benchmarks/dma/golden/dma_controller.h:158-186 | ignored, gated, rejected or loaded |
| DmaProgram.DmaController.HandleCtrlWrite | benchmarks/dma/golden/dma_controller.h:336-380 | partial writes by state and the actions in bit order |
| DmaProgram.DmaController.HandleChannelWrite | benchmarks/dma/golden/dma_controller.h:256-334 | the implicit acknowledge and every channel register |
| DmaProgram.DmaController.HandleGlobalWrite | benchmarks/dma/golden/dma_controller.h:229-254 | clear, mask, enable and reset |
| DmaProgram.DmaController.BTransport | benchmarks/dma/golden/dma_controller.h:188-227 | status, data and new state of every register access, streaming-width check included |
| DmaProgram.DmaController.SelectChannel | benchmarks/dma/golden/dma_controller.h:505-548 | the grant and the starvation counter |
| DmaProgram.DmaController.BeatOnce | benchmarks/dma/golden/dma_controller.h:401-491 | one pass of the beat loop with each of its exits |
| DmaProgram.DmaController.RunBurst | benchmarks/dma/golden/dma_controller.h:392-497 | the burst and the pause check |
| DmaProgram.DmaController.TransferRound | benchmarks/dma/golden/dma_controller.h:382-503 | one round of the transfer thread |

## Left out

- SystemC and TLM shell: sockets, events, simulated time, delta cycles, DMI, null pointers and, where not named in a row, byte enables and streaming width.
- TransferRound: a burst is one event, so register accesses and resets that land between two beats of the same burst, and the reset flag that exists for them, are not modelled.
- TimerTick: the prescaled wait before a tick is not modelled; ticks may come at any moment.
- DataNbTransportFw: the route hit, miss and error counters are not modelled, and the request delay is part of the start time given.
- CfgWriteReg: the statistics counters, hence STAT_CTRL, are not modelled, because they only count; access errors of the configuration port are left out too.
- CfgReadReg: the statistics counters cannot be read in the model.
- CfgReadsBack: says nothing of the statistics counters.
- DecodeAddress: the route hit, miss and error counters are not modelled.
- DataNbTransportBw: the transaction counter is not modelled; `AllocateCoherenceIff` says when a late fill would be harmful.
- TimeoutTick: the timeout counter is not modelled.
- DataBTransport: the statistics counters and commands other than read and write are not modelled.
- Drain: callbacks that re-enter the router while the loop runs, changes of the settings between two turns and the statistics counters are not modelled.
- DmaCopy.CompletedTransferIsACopy: the conditions on intermediate states are hypotheses there; `DmaLayout.TidyTransferIsACopy` discharges them from the starting registers.
- Target behaviour other than byte memories: a target or bus answers by address only.
- Data lengths near 2^32, where the offset sum of the data cache wraps, and the 64-bit wrap of the LRU tick and of the starvation counter.
- More than 30 PLIC sources and more than 10 DMA channels, for which the C++ shifts leave the 32-bit word.
- In `MtimerCount`, more than 4092 harts, whose comparators would cover the control registers.
- A reserved arbitration mode in the drain loop: no register write can select it (`CfgWriteKeepsLegal`).
- AXI4 interconnect, MSWI and SSWI: fixed address subtraction and one-bit registers.
