# Replication, limiter and teardown of the SIP B2BUA

A Dafny model of the stateful core of the B2BUA worker, with proofs of the guarantees its comments state.

- **Replication.** A worker stamps each call write in a channel per peer; the peer pulls, filters by watermark, and applies through a per-call generation gate with a partition flip. `KvStore`, `KvBackend`, `PartitionedStorage`, `ReplicationProtocol`, `ReplLogServer`, `EchoApply` and `PullerFiber` model the parts. `ReplicationLink` holds the invariant of one direction and `Cluster` runs two workers against each other; `ReplicaIndexes` follows the SIP index keys to the replica, `CaughtUp` says when a puller may call itself caught up, `StuckCalls` is about what the channel does not record (deletes without a peer, and what a restart's seed skips), `Recovery` about the way from bootstrap back into replication. `Bootstrap` is the boot-time scan that races with the peer's writes. `FrameStream` is the length-prefixed parser, `EpochCounter` the packing of generations.
- **Addresses.** `CallRefs`, `PartitionRefs`, `Addresses` and `MemberText`: who stores a call where, and whether sender and receiver mean the same key.
- **Limiter.** `CallLimiter` has the in-memory and the Redis form, `LimiterRuns` and `LimiterLimit` compare them over whole runs through the live admission tokens, `LimiterAudit`, `LimiterLedger` and `CallAdmission` are the ledger and a call's use of it.
- **Call lifecycle.** `CallModel` (legs, dispositions, index keys), `CallTable` (the call table as a class), `CallLife` (runs of it), `CallStore` (its submissions meet what replication asks of a source), `Announcements` (who is told of each change, and what that leaves in the channel), `Lookup` (from a SIP message to its call), `Teardown` (the bounded terminating state), `Cleanup` (the effects of a call's end) and `Timers` (the fiber registry).
- **Rates.** `Overload` (token bucket and admit decision, over the reals) and `CircuitBreaker`.

Classes follow the source's mutable objects. Each method's contract equates the new state with a specification function or step relation, and the lemmas are about those. Main results quantify over every run; where a promise fails in the code, a lemma gives the input and another the exact condition.

`dafny verify dfyconfig.toml` checks everything.

## Where the code and its promises differ

The model follows the code in each case.

- The comment on packed generations promises thousands of exact restarts; 2^53 / 2^48 leaves 32 (`EpochCounter.PackedValue`).
- Delete frames are documented to carry the call's index keys; the body they would be read from is already gone, so a replica's index entries stay (`EchoApply.DeleteFrameLeavesIndexes`).
- A bootstrap retry after a partial attempt, or a store that outlived the process, can keep a call deleted in between (`Bootstrap.BootstrapExact`). The seeded watermark also skips the peer's own calls, whose backup copies the scan does not cover (`Bootstrap.ForwardCopyUntouched`).
- Frames decoded before a malformed payload in the same chunk are dropped with it (`FrameStream.ChunkingExact`).
- The puller's header says a working connection recovers the backoff budget; neither the attempt count nor the time of the first error is ever reset (`PullerFiber.PullerFiber.ConnectionLost`).
- The limiter refresh tick renews fail-open entries, which teardown skips: a slot leaks (`CallAdmission.TeardownBalancesExact`). The two limiter forms still agree, because the origin of such an entry is never summed (`LimiterLimit.FailOpenRenewalAgrees`).
- After a crash mid-teardown the recovery deletes the call without a peer: the backup keeps its copy for as long as it lives (`StuckCalls.StuckCallLeavesCopy`, exactly when in `StuckCalls.ForgetExact`). Other calls are not affected (`Cluster.Convergence`).
- A restarted worker whose puller is seeded at the recorded head never hears of the peer's own calls stamped before it; convergence of such a call is lost exactly when the seed skips something of it (`StuckCalls.RestartExact`).
- The result that begins a termination carries a cancel-all, which runs after the update armed the safety timer and cancels it; a comment says the two do not race. Until a later event arms it again only the sweep purges the call, so one timeout per leg is not the bound (`Teardown.CancelledTimerLetsLegsLate`, `Teardown.TimeoutPerLegExact`, `Teardown.BoundedTeardown`).
- A cancel waits for the fiber it interrupts and then removes whatever the id has; overlapping a schedule it takes the new timer's entry, and the timer can no longer be found (`Timers.OverlappingCancelLosesTimer`, `Timers.RequestExact`).
- Legacy call references are taken by every worker for its own (`Addresses.ReceiverReadsWhatLands`).
- A force-purge cannot resolve a b-leg that shares the a-leg's id (`CallModel.ForceResolvesExact`).
- A handler that rescheduled itself is out of reach of a cancel-all from elsewhere (`Timers.SupersededHandlerSurvives`).
- An update that stores a record taken before a whole-table flush repeats a generation (`CallLife.StaleRecordReusesGeneration`, exactly when in `CallLife.UpdateThenFlushExact`). Nothing in the program calls the whole-table flush, and every other bump is serialised with the updates, so no run of the program as it stands gets there.
- The retry advice is wrong while the clock is behind the last refill (`Overload.RetryAfterExact`); the breaker's probe counts per hour are higher than documented (`CircuitBreaker.DefaultSchedule`).
- Comments speak of a 64 s safety timer in places; the constant is 32 s, Timer H and J of section 17.2 of RFC 3261 (`Teardown.BoundedTeardown`).

## Model

| member | source | states |
|---|---|---|
| Cluster.Convergence | src/replication/ChannelIndex.ts:80-106 | After any run of both workers' writes, deletes with and without a peer, served pulls, deliveries, lost connections, crashes inside an apply and restarts from the origin or a bootstrap's seed, whatever befell other calls: a call of a worker of which nothing went unrecorded (no delete of it without a peer left a copy there, no seed of the peer skipped something of it) matches on the peer in presence, body and generation, or has a channel member above the peer's watermark; once the watermark has passed the head it matches |
| Cluster.ClaimedCallsConverge | src/replication/ChannelIndex.ts:80-106 | The same for any set of calls at once |
| Cluster.InvOfEach | src/replication/ChannelIndex.ts:80-106 | The two-sided invariant on a set of calls is one on each of them, so what breaks it for one call leaves it for the others |
| Cluster.SameRuns | src/replication/PullerFiber.ts:198-328 | Which calls are claimed on does not matter to what can happen |
| Cluster.RunKeepsInv | src/replication/PullerFiber.ts:198-328 | The two-sided replication invariant on any set of calls, including every frame still in flight, survives every run in which nothing of these calls goes unrecorded; other calls may be forgotten or skipped at will |
| Cluster.StepKeepsInv | src/replication/PullerFiber.ts:291-328 | No single step of either worker or of the network between them breaks it, but for a delete without a peer or a seed that leaves out one of these calls |
| Cluster.InitInv | src/replication/PullerFiber.ts:208-220 | Two fresh workers start in the invariant |
| Cluster.OnlyOwnerWrites | src/replication/EchoApply.ts:1-52 | No echo: nothing but a worker's own put, refresh or delete changes one of its calls on it |
| Cluster.DeleteIsFinal | src/replication/EchoApply.ts:101-121 | A deleted call, with a peer or without one where nothing was left, stays gone on its worker and, once drained, on the peer, and the peer's channel back never mentions it, whatever befalls other calls |
| ReplicaIndexes.TakeoverFindsCall | src/replication/EchoApply.ts:90-159 | After any run, once the peer has drained: every index key of a live call of which nothing went unrecorded, and which no other call names, leads to the call in the peer's own index |
| ReplicaIndexes.RunKeepsIndexInv | src/replication/ReplicationProtocol.ts:507-567 | Over any run every update frame in flight carries its body's index keys, and a replica's body is never without them in the index |
| ReplicaIndexes.NextUpdateIsIndexed | src/replication/ReplicationProtocol.ts:507-567 | Serving and delivering the next member, an update of a live call that the gate lets through, makes each index key of the stored body lead to the call at the replica |
| CaughtUp.CaughtUpExact | src/replication/PullerFiber.ts:291-328 | Over any run, the puller's own restarts aside: it is caught up if and only if it was before or a noop was delivered; it counts each noop, and as applied just the data frames it acknowledged |
| CaughtUp.FreshPullerNeedsNoop | src/replication/PullerFiber.ts:108-120 | A fresh or restarted puller, from any seed, is caught up after a run if and only if a noop was delivered to it |
| CaughtUp.TickCatchesUpExact | src/replication/ReplLogServer.ts:233-277 | A tick delivered without loss makes a puller caught up if and only if the pull stayed below the chunk size, and its watermark has then reached that pull's head; data alone never does |
| CaughtUp.TickIdlesExact | src/replication/ReplLogServer.ts:244-277 | The server pauses exactly after a tick that ended with a noop, and then no member is left above its cursor |
| StuckCalls.ForgetExact | src/call/CallState.ts:461-480 | For each stuck call by itself: a delete without a peer keeps its convergence over every later run if and only if the peer, now and after each frame on its way, has no copy of it or a stamped delete of it still to come |
| StuckCalls.RestartExact | src/main.ts:493-512 | For each call by itself: a restart of the peer keeps its convergence over every later run if and only if pulling from the seed misses nothing of it (it matches or has a member above the seed, the last of them an update if it is live, and no delete it needs is skipped) |
| StuckCalls.SeedBelowCovers | src/replication/PullerFiber.ts:208-220 | A seed at or below the old watermark, the origin among them, covers every call whose order the channel still records from there |
| StuckCalls.StuckCallLeavesCopy | src/call/CallState.ts:880-902 | The ordinary case: for every call its peer has caught up on, a crash of its owner and the recovery's delete leave the copy at the peer with nothing to come |
| StuckCalls.CanDrain | src/replication/ReplLogServer.ts:219-278 | From any resting state some run of the puller alone drains the channel, so convergence can always be reached |
| Cluster.ForgetKeepsInv | src/cache/PartitionedRelayStorageKvBacked.ts:493-506 | A delete without a peer keeps the two-sided invariant where nothing is left at the peer |
| Cluster.StepAdvances | src/replication/PullerFiber.ts:291-328 | Each step keeps acknowledged frames in strictly increasing position order, and neither the watermark nor the caught-up flag goes back |
| Cluster.EffectivelyOnce | src/replication/PullerFiber.ts:198-265 | Over any run with reconnects and replayed suffixes: watermark never decreases, applied positions strictly increase, `everCaughtUp` is sticky |
| Cluster.CrashThenReapply | src/replication/PullerFiber.ts:301-314 | After a crash between apply and watermark update, the same frame applied again leaves the store unchanged |
| Cluster.UndisciplinedPutIsSkipped | src/replication/EchoApply.ts:127-139 | Without growing generations the gate starves an update for good: a concrete run |
| CallStore.RunsAreDisciplined | src/call/CallState.ts:595-680 | Every put a run of the call table submits, restarts and reloads from storage included, has a greater generation than the stored entry it replaces or is that very entry: what convergence asks of a source |
| CallStore.RunDrivesLink | src/cache/PartitionedRelayStorageKvBacked.ts:370-520 | In any state of the cluster whose store holds what the call table submitted so far, the table's next submission is an enabled action of its worker, and the store holds it afterwards |
| Recovery.RecoveredLinkExact | src/replication/PeerScanBootstrap.ts:332-364 | A worker whose partition bootstrap made equal to the peer's copies starts on an own link that satisfies the replication invariant if and only if no delete the peer has yet to pull is the last word on a call bootstrap brought back |
| CallStore.ReplayHoldsLastPut | src/cache/PartitionedRelayStorageKvBacked.ts:370-520 | After any run the store holds, under the key this worker itself reads, exactly the last submission of each call's life, and nothing once it was deleted |
| CallStore.RunIsRouted | src/call/CallState.ts:291-341 | Every submission of a run, with or without a peer, addresses the worker's own key for that call |
| ReplicationLink.DrainedIsSynced | src/replication/PullerFiber.ts:291-328 | A replica whose watermark passed every member equals the source on all keys the source owns |
| ReplicationLink.OneRoundSyncs | src/replication/ChannelIndex.ts:80-106 | One pull that is not cut short by the limit, applied in order, synchronises everything |
| ReplicationLink.DeliverNext | src/replication/EchoApply.ts:101-159 | Delivering the next member, read with whatever body is there at pull time, keeps the link invariant |
| ReplicationLink.BatchSettles | src/replication/ChannelIndex.ts:98-106 | So does every prefix of a pulled batch |
| ReplicationLink.TickSettles | src/replication/ReplLogServer.ts:233-277 | So does a whole server tick, noop included, and the reader's watermark after it is the server's next cursor |
| ReplicationLink.NoopIsBehind | src/replication/ReplLogServer.ts:244-262 | A drained pull's noop is at most the position its data already reached, so it can never skip a member |
| ReplicationLink.WriteKeepsSettles | src/storage/KvBackend.ts:891-953 | A source write (update, re-stamp or tombstone) is safe for the replica and for all frames in flight |
| ReplicationLink.RestartKeepsSettles | src/replication/EpochCounter.ts:95-109 | A source that restarts under a greater generation invalidates nothing already stamped or in flight |
| ReplicationLink.OlderWatermark | src/replication/PullerFiber.ts:301-314 | A replica that was fine at an older watermark stays fine there after an apply: why a crash before the watermark moves is safe |
| ReplicationLink.NarrowScope | src/replication/ChannelIndex.ts:80-106 | What holds for a link holds for each part of its keys |
| ReplicationLink.TargetIsFlip | src/replication/EchoApply.ts:95-99 | The receiver's partition flip is the key flip, for every key the channel can carry |
| EchoApply.ReplicationApply.Apply | src/replication/EchoApply.ts:90-159 | One frame: delete unconditionally, skip at or below the local generation, otherwise write body, sidecar and indexes; no channel changes |
| EchoApply.ReapplyIsNoop | src/replication/EchoApply.ts:90-159 | Applying any frame twice equals applying it once |
| EchoApply.ApplyIsLocal | src/replication/EchoApply.ts:1-52 | A frame changes no outgoing channel and no body but its target |
| EchoApply.DeleteFrameLeavesIndexes | src/replication/ReplicationProtocol.ts:507-567 | A delete frame read after its tombstone has no body, hence no index keys: the replica's index entries stay |
| EchoApply.IndexClearedIff | src/replication/EchoApply.ts:109-121 | An index key set by an applied update is gone after the delete exactly when the delete frame names it |
| EchoApply.SidecarWrapSkips | src/storage/KvBackend.ts:334-351 | A replica at generation 2^32 - 1 skips every update whose generation came back wrapped |
| PullerFiber.PullerFiber.ApplyOne | src/replication/PullerFiber.ts:291-328 | Data above the watermark is applied, then the watermark moves to the greater of the two; a noop sets the sticky flag; older data is not applied |
| PullerFiber.PullerFiber.Connect | src/replication/PullerFiber.ts:212-222 | Each connection resumes from the preserved watermark |
| PullerFiber.PullerFiber.ConnectionLost | src/replication/PullerFiber.ts:226-264 | Failure and clean end alike: error state by time since the first error ever, capped exponential delay, attempt count never reset |
| PullerFiber.BackoffNeverShrinks | src/replication/PullerFiber.ts:259-263 | Delays never shrink over the fiber's life and never exceed the cap |
| PullerFiber.BackoffDoubles | src/replication/PullerFiber.ts:259-263 | The first delay is the initial one, each of the next thirty is twice the one before, all of them capped |
| KvStore.PullUnique | src/replication/ChannelIndex.ts:98-106 | The pull contract determines the batch: the first `limit` members above the cursor in (generation, counter) order |
| KvStore.StampKeepsChannelValid | src/storage/KvBackend.ts:891-953 | Stamping, also a member that is already there, keeps scores distinct and counted |
| KvBackend.KvBackend.ChannelPullBatch | src/storage/KvBackend.ts:955-1024 | The bucket walk returns exactly the contract's batch with bodies and sidecars read now, and the true head |
| KvBackend.KvBackend.ComputeHead | src/storage/KvBackend.ts:753-773 | The greatest stamped position over all buckets, or the origin |
| KvBackend.KvBackend.SortedBucket | src/storage/KvBackend.ts:955-1024 | The members of one bucket above a counter, all of them, by score |
| KvBackend.KvBackend.WalkBuckets | src/storage/KvBackend.ts:955-1024 | Walking buckets in ascending generation and stopping at the limit meets the pull contract |
| KvBackend.KvBackend.ChannelWriteUpdate | src/storage/KvBackend.ts:891-925 | Body, sidecar, indexes, counter + 1 and member with that score, in one step |
| KvBackend.KvBackend.ChannelWriteTombstone | src/storage/KvBackend.ts:927-953 | Body, sidecar and indexes gone, counter + 1 and a delete member, in one step |
| KvBackend.KvBackend.ApplyReplicaUpdate | src/storage/KvBackend.ts:852-870 | Local body, sidecar and indexes set; channels untouched |
| KvBackend.KvBackend.ApplyReplicaDelete | src/storage/KvBackend.ts:872-881 | Local body, sidecar and named indexes removed; channels untouched |
| PartitionedStorage.PartitionedStorage.Put | src/cache/PartitionedRelayStorageKvBacked.ts:370-421 | With a peer a channel write, without one (or with an empty name) a local write at the given owner |
| PartitionedStorage.PartitionedStorage.Refresh | src/cache/PartitionedRelayStorageKvBacked.ts:423-484 | With a peer the stored body and generation are stamped again, a missing body is dropped; without one nothing but lifetimes changes |
| PartitionedStorage.PartitionedStorage.Delete | src/cache/PartitionedRelayStorageKvBacked.ts:486-520 | With a peer a tombstone, without one a local delete nobody else hears of |
| PartitionedStorage.PutLeaves | src/cache/PartitionedRelayStorageKvBacked.ts:370-421 | With or without a peer a put leaves just this body under its generation modulo 2^32, its index keys leading to the call, and stamps the named peer's channel only |
| PartitionedStorage.DeleteLeaves | src/cache/PartitionedRelayStorageKvBacked.ts:486-520 | With or without a peer a delete takes away just this body and the named index keys, and stamps the named peer's channel only |
| PartitionedStorage.RefreshLeaves | src/cache/PartitionedRelayStorageKvBacked.ts:423-484 | A refresh announces the stored body again and changes no body; without a peer or a body it does nothing |
| ReplLogServer.ReplLogServer.Step | src/replication/ReplLogServer.ts:219-278 | One tick: frames of exactly one atomic pull, a noop at that pull's head only if it was not full, cursor at the last frame, idle after a partial pull |
| ReplLogServer.DataFramesSnoc | src/replication/ReplLogServer.ts:239-243 | Frames come in pull order, one per member |
| Positions.CompareIsTotalOrder | src/replication/ReplicationProtocol.ts:141-150 | The wire comparator decides a strict total order |
| EpochCounter.PackedComesBack | src/replication/EpochCounter.ts:95-122 | Any whole restart count and any boot time below 2^48 come back as they went in |
| EpochCounter.LaterBootIsGreater | src/replication/EpochCounter.ts:85-109 | One boot's generation is below another's if and only if its restart count is smaller, or equal with an earlier clock |
| EpochCounter.PackOfOddNumbers | src/replication/EpochCounter.ts:99-104 | A fraction packs as its whole part; NaN, infinities and anything not above zero pack as zero, in either position |
| EpochCounter.PackedValue | src/replication/EpochCounter.ts:76-109 | A generation is restarts * 2^48 + milliseconds, below 2^53 if and only if there were fewer than 32 restarts (the comment promises thousands) |
| Cluster.LaterBootMayRestart | src/replication/EpochCounter.ts:85-109 | A worker's packed generation lets it restart in the two-worker model if and only if the boot is a later one by count or clock |
| EpochCounter.UnpackPack | src/replication/EpochCounter.ts:95-122 | Unpacking gives back restart count and boot time modulo 2^48, for every input including non-numbers |
| EpochCounter.PackGenOrders | src/replication/EpochCounter.ts:85-109 | Generations order by restart count, then boot time, and are equal only for equal inputs |
| EpochCounter.PackGenExactness | src/replication/EpochCounter.ts:76-109 | A generation is exactly representable below 2^53 if and only if there were fewer than 32 restarts (the comment promises thousands) |
| Bootstrap.BootstrapExact | src/replication/PeerScanBootstrap.ts:332-364 | Head before scan, racing writes and deletes, seeded pull: every attempt ends with exactly the peer's copies, if and only if the local partition held no call already gone from the peer when the head was recorded |
| Bootstrap.SeededRecovers | src/replication/PeerScanBootstrap.ts:389-424 | From such a state every racing scan recovers everything: no lost update, no surviving deleted call |
| Bootstrap.StaleLocalSurvives | src/replication/PeerScanBootstrap.ts:268-322 | Otherwise some attempt leaves a deleted call behind |
| Bootstrap.RetryKeepsDeleted | src/replication/PeerScanBootstrap.ts:286-322 | A retry is such a case: from an empty partition one call is imported, the attempt breaks off, the peer deletes the call, and the second attempt may end with it, whatever head it records |
| Bootstrap.RunKeepsInv | src/replication/ChannelStream.ts:55-68 | The state of an attempt, scan and peer writes interleaved at will, stays recoverable |
| Bootstrap.PerPeerBootstrap.OnEvent | src/replication/PeerScanBootstrap.ts:332-364 | Entries are written without a gate and counted, body or not; one the store refuses is skipped and not counted; the head event seeds the puller |
| Bootstrap.ImportLeaves | src/replication/PeerScanBootstrap.ts:332-352 | An imported call stands in the worker's own partition under its body's generation, found by each of its index keys, with nothing else changed |
| Bootstrap.LocalKeysSurvive | src/replication/PeerScanBootstrap.ts:520-559 | A bootstrap deletes nothing |
| Bootstrap.ForwardCopyUntouched | src/replication/ReplicationSupervisor.ts:209-225 | The seeded watermark also skips the peer's own calls: such a backup copy matches afterwards exactly when it matched before, unless the peer wrote the call after the head |
| FrameStream.ChunkingExact | src/replication/NdjsonStream.ts:37-76 | All splits of a byte stream emit the same frames if and only if no payload is malformed or the very first one is |
| FrameStream.FeedAllSound | src/replication/NdjsonStream.ts:43-74 | Any split fails exactly when the stream does, emits a prefix of its frames, all of them if it does not fail, and leaves less than one frame over |
| FrameStream.EncodedRoundTrip | src/replication/NdjsonStream.ts:45-62 | Encoded frames, concatenated and cut anywhere, parse back to the original frames with nothing left over |
| FrameStream.PrefixIsBigEndian | src/replication/NdjsonStream.ts:45-62 | The length prefix is four bytes, the most significant first |
| FrameStream.DrainSplit | src/replication/NdjsonStream.ts:43-63 | Draining in two steps is draining at once, and a failure is final |
| FrameStream.Reassembler.Feed | src/replication/NdjsonStream.ts:65-74 | One chunk: the loop's output is the drained stream's, or nothing at all on a malformed payload |
| FrameStream.CutAfterFirstFrame | src/replication/NdjsonStream.ts:53-60 | A frame sharing a chunk with a malformed payload is lost, and saved by another cut |
| Addresses.ReceiverReadsWhatLands | src/call/CallState.ts:291-341 | A write lands on the key its receiver itself reads, in either direction, if and only if the call reference names its primary |
| Addresses.SenderReadsWhatItStamps | src/replication/ChannelIndex.ts:117-142 | The key the channel derives is the key the sender reads, for every reference and topology |
| Addresses.RoutingAgrees | src/cache/PartitionRef.ts:55-95 | Both derivations of role, owner, peer and direction agree on every self-describing reference |
| Addresses.PeerIsOther | src/call/CallState.ts:318-341 | A chosen peer is never this worker and never empty |
| Addresses.TakeoverReturnsHome | src/replication/EchoApply.ts:95-99 | Primary to backup and back: the backup's write returns to the primary's own key |
| Addresses.SinglePrimary | src/call/CallState.ts:291-303 | At most one worker takes itself for the primary of a self-describing call |
| Addresses.LegacyCallIsLost | src/call/CallState.ts:295-298 | A legacy two-segment call is kept by its backup where the backup does not look |
| MemberText.ParseMemberExact | src/replication/ReplicationProtocol.ts:477-492 | Member text parses back if and only if the call is named and the owner name hides no `:call:` |
| MemberText.OrdinalsRoundTrip | src/replication/ReplicationProtocol.ts:477-492 | Owner names without a colon always parse back |
| MemberText.FormOfMembers | src/replication/ReplicationProtocol.ts:458-492 | The textual form itself, on an update and a delete |
| CallRefs.DeriveParseExact | src/call/CallModel.ts:715-741 | Derive then parse gives the segments back if and only if they are well formed; tags may contain the separator |
| CallRefs.ParseDerive | src/call/CallModel.ts:730-741 | Whatever parses is well formed and derives back to the same text |
| CallRefs.LegacyDoesNotParse | src/call/CallModel.ts:723-736 | Two-segment references parse to nothing |
| CallModel.IndexKeysAgree | src/call/CallModel.ts:758-838 | On every value shaped like a call, whatever else it holds, the tolerant walk lists the typed walk's keys in the same order |
| CallModel.CallIndexKeys | src/call/CallModel.ts:758-774 | The loops list the specified keys in order |
| CallModel.CallIndexKeysFromUnknown | src/call/CallModel.ts:789-838 | Total over every decoded value: missing and wrong-typed fields, nulls and arrays are skipped |
| CallModel.StoredIndexOmitsPinned | src/call/CallState.ts:381-421 | Stored and in-memory indexes name the same keys in the same order but for the B2BUA's own a-leg tags, which are never stored |
| CallModel.SipKeysExact | src/call/CallState.ts:381-421 | The SIP keys of a call are the a-leg's pair, the B2BUA's own a-leg tags, and of each b-leg its pair, its Call-ID and the pair with each far tag; nothing else |
| CallModel.IndexKeysExact | src/call/CallModel.ts:758-774 | The stored index has the same keys without the B2BUA's own tags, and the callback context |
| CallModel.UnknownLegExact | src/call/CallModel.ts:789-838 | Of a decoded leg with a Call-ID the tolerant walk finds every tag that is a string, whatever else is missing or of another type |
| CallModel.OddLegSpoilsNoOther | src/call/CallModel.ts:789-838 | A leg of another shape gives no key and takes none from the legs around it |
| CallModel.ForceDispositions | src/call/CallState.ts:963-971 | The disposition loop over a snapshot of the legs, each found again by id |
| CallModel.ForceResolvesExact | src/call/CallModel.ts:907-967 | The loop ends fully resolved if and only if no unresolved b-leg shares the a-leg's id |
| CallModel.ForceTouchesOnlyOutstanding | src/call/CallState.ts:963-971 | With distinct ids exactly the undefined and `bye_sent` legs become `bye_timeout` |
| CallModel.ResolvedExact | src/call/CallModel.ts:907-967 | Which dispositions leave a leg resolved, one by one, and which of them forcing changes |
| CallLife.GenerationDeterminesContent | src/call/CallState.ts:595-680 | Over every run of create, load, update, flush, whole-table flush, remove, purge, recovery delete and restart: within a call's life submitted generations never decrease, one generation is one body, and a cached body is a submitted encoding |
| CallLife.StepKeepsGenInv | src/call/CallState.ts:595-680 | No operation breaks this, given updates whose generation is not below what was submitted |
| CallLife.UpdateThenFlushExact | src/call/CallState.ts:519-680 | After an update to any record the next flush keeps it if and only if the record's generation is not below the last submitted one, or is one below it and the bumped record is what was submitted |
| CallLife.FlushSubmitsCurrent | src/call/CallState.ts:599-668 | Hit or miss, a flush submits the encoding of the record it leaves in memory, which differs from the one before in its generation alone, by one on a miss and by nothing on a hit |
| CallLife.StaleRecordReusesGeneration | src/call/CallState.ts:913-946 | A record taken before a whole-table flush and stored after it makes the next flush reuse a generation for other content; no caller of that flush exists in the program |
| CallLife.NoTopologyNoGeneration | src/call/CallState.ts:631-643 | Without topology every submission has generation 0 |
| CallLife.SecondFlushRepeats | src/call/CallState.ts:603-624 | A second flush with no update in between submits the same put again and changes nothing else |
| Announcements.RunAnnounces | src/call/CallState.ts:682-758 | Every submission of every run: a put reports the record just left in memory with its index keys and generation, the delete of a call in memory its end, both to the worker that the reference and the record's topology name: the other primary, or else the backup unless that is nobody or this worker |
| Announcements.EndedCallIsTombstoned | src/call/CallState.ts:1050-1058 | After any run, the end of a call this worker is primary of stands, once the submissions are carried out, as a delete member on top of the backup's channel, with the body gone here |
| Announcements.ChangeIsReportedHome | src/call/CallState.ts:318-341 | Any change of a call another worker is primary of, its removal unseen included, stands on top of the channel to that worker |
| Announcements.ReportIsStamped | src/cache/PartitionedRelayStorageKvBacked.ts:370-520 | A reported change, carried out: its member, under the key this worker reads, is on top of the told worker's channel; body and index keys are as reported, or gone |
| Announcements.CounterCountsTold | src/storage/KvBackend.ts:891-953 | A channel's counter is the number of submissions that told its worker, and the last of them stands at that number |
| Announcements.FlushReports | src/call/CallState.ts:599-680 | Single and whole-table flush, hit or miss, submit the record left in memory with its generation and index keys to the worker to be told |
| Announcements.EndReports | src/call/CallState.ts:725-758 | Removal and force-purge submit one delete with the record's index keys to that worker |
| Announcements.UnknownRemoveReports | src/call/CallState.ts:725-758 | Removing an unknown call tells the other primary, if the reference names one |
| Announcements.StuckReportsNobody | src/call/CallState.ts:461-480 | The recovery's delete of a call in teardown tells nobody |
| Lookup.FlushedLegIsFound | src/call/CallState.ts:760-801 | After any run a message for any leg of the record a call submitted last finds the call, in memory or not, also when the leg was added after the call was indexed, if no other call has the same keys |
| Lookup.NewTagIsFound | src/call/CallState.ts:767-801 | So does one with a tag not known yet, by the Call-ID of a b-leg of that record alone |
| Lookup.MemoryAnswersTruly | src/call/CallState.ts:760-776 | What memory answers is a live call that has the key |
| CallLife.TrailsAreRuns | src/call/CallState.ts:913-946 | A whole-table flush and a sweep are runs of single steps, so both keep every invariant |
| CallLife.PurgeIsTotal | src/call/CallState.ts:959-1058 | After any run a purge or a removal leaves no record, semaphore, dedup entry, SIP key or timer of the call, and submits one delete of it; whom it tells is `Announcements.EndReports` |
| CallLife.InterruptedPurgeIsTotal | src/call/CallState.ts:959-1058 | So does a purge whose steps other fibers interleave with, short of creating or loading the call again; a timer is left if and only if one is armed when the record goes |
| CallLife.PurgeClearsKeysExact | src/call/CallState.ts:1034-1048 | No SIP key is left if and only if every key still leading to the call is one it has now |
| CallLife.PurgeSparesOthers | src/call/CallState.ts:1030-1048 | Another call keeps its record, timers and every SIP key it does not share with the one purged or removed |
| CallLife.PurgeResolvesAndReleases | src/call/CallState.ts:963-1013 | The purged record is `terminated` unless an unresolved b-leg shares the a-leg's id; slots are given back only for a terminating call, only by its natural primary, and exactly the entries that hold one |
| CallLife.PurgeMatchesCleanup | src/b2bua/helpers.ts:109-123 | A purge's loop decrements the counters, in the order, that the filter and map of the rules' final cleanup name |
| Cleanup.DecrementsAreReleases | src/b2bua/helpers.ts:49-68 | Filtering the entries on their flag and mapping them to effects names the counters a loop with a skip decrements |
| Cleanup.OneEntryReleases | src/b2bua/helpers.ts:49-68 | Entry by entry: one marked as failed gives nothing back, any other, an older one without a mark included, its own counter |
| CallLife.ProcessedTimerExact | src/sip/SipRouter.ts:514-566 | After a processed result the safety timer is live and stands at the deadline the sweep reads if and only if the result carries no cancel-all, and armed it or kept a live one |
| CallLife.RunKeepsSipInv | src/call/CallState.ts:380-421 | Over any run every SIP key leads to a live call that has that key |
| CallLife.IndexedOnEntry | src/call/CallState.ts:381-434 | A created or loaded call is found by each of its SIP keys, and no other key has changed |
| CallLife.KeyStays | src/call/CallState.ts:381-421 | Over any run a key leads to its call until the call ends, another call with that key comes or the process restarts |
| CallTable.CallState.Create | src/call/CallState.ts:428-434 | Record stored and all its SIP keys lead to it; nothing else changes |
| CallTable.CallState.GetSemaphore | src/call/CallState.ts:372-378 | The call has a semaphore, made at most once |
| CallTable.CallState.Update | src/call/CallState.ts:519-589 | Entering `terminating`, or an unbudgeted leg's update in it, stores the record with its safety entry and arms that timer; any other update stores the function's own result |
| CallTable.CallState.ProcessResult | src/sip/SipRouter.ts:514-566 | The update, and after it the cancel-all if the result carries one |
| CallTable.CallState.LoadCall | src/call/CallState.ts:446-485 | In memory as it is; from storage an active call with its SIP keys, one in teardown deleted without a peer, a terminated one ignored |
| CallTable.CallState.ResolveFromSipKey | src/call/CallState.ts:767-801 | In memory by tag, then by Call-ID; in storage likewise |
| CallTable.CallState.FlushToRedis | src/call/CallState.ts:595-680 | Same record as cached: same body again. Otherwise bump, store, encode, cache, submit |
| CallTable.CallState.FlushAllCalls | src/call/CallState.ts:913-946 | Each call exactly once, always bumped and encoded, dedup cache left alone |
| CallTable.CallState.Remove | src/call/CallState.ts:682-758 | Timers, record, semaphore, dedup entry and SIP keys go; one delete is submitted, also for an unknown call; whom it tells is `Announcements.EndReports` |
| CallTable.CallState.ForcePurgeOne | src/call/CallState.ts:959-1058 | Dispositions forced, record promoted if resolved, CDR, decrements, memory and SIP keys cleared, delete submitted; whom it tells is `Announcements.EndReports` |
| CallTable.CallState.SweepOnce | src/call/CallState.ts:1085-1129 | Every active call stays as it is, every terminated one goes, a terminating one stays exactly before its deadline; each is purged once |
| CallTable.CallState.IndexCall | src/call/CallState.ts:381-421 | Every SIP key of the call leads to it, later keys winning |
| CallTable.SipKeyWalk | src/call/CallState.ts:399-420 | The nested walk lists the specified keys in order |
| Teardown.BoundedTeardown | src/call/CallState.ts:519-589 | However many events arrive and whichever cancel the call's timers: a call that entered at t is purged, or its next sweep purges it, before t + 92 s plus 60 s per leg that refreshed, of which there are at most 1 + b-legs; a live timer always stands at the deadline the sweep reads |
| Teardown.TimeoutPerLegExact | src/call/CallState.ts:536-558 | The deadline stays within t + 32 s * (1 + refreshing legs) at every point of a run if and only if the n-th leg to refresh does so by t + 32 s * n |
| Teardown.LiveTimerKeepsOnTime | src/call/CallState.ts:575-584 | While no result cancels the timers, the live timer enforces that |
| Teardown.CancelledTimerLetsLegsLate | src/b2bua/rules/framework/ActionExecutor.ts:2134-2137 | The result that begins a termination cancels the timer its own update armed: a leg heard of at 50 s moves the deadline to 82 s, where two timeouts are 64 s |
| Teardown.BegunByTheRules | src/b2bua/rules/framework/ActionExecutor.ts:2063-2137 | When only the entering result cancels, the wait for a sweep is paid once: the call ends before t + 92 s plus 32 s per leg that refreshed |
| Teardown.EntryBoundIsTight | src/call/CallState.ts:1083-1129 | The bound is reached from the entry: the next sweep comes just before the first deadline, each result cancels the timers and each leg refreshes just before a sweep |
| Teardown.BoundIsTight | src/call/CallState.ts:1083-1129 | The same from any state whose next sweep would purge the call |
| Teardown.SweepAgreesExact | src/call/CallState.ts:1104-1115 | Sweep and timer agree if and only if the first safety entry under another id, if there is one, names the same time |
| Teardown.SweepDeadlineExact | src/call/CallState.ts:1104-1115 | The sweep's deadline is the time in the first safety entry of the record, or else 32 s after the call was created |
| Teardown.WithoutTimerExact | src/call/timer-helpers.ts:38-57 | Taking out an id takes out just its entries: all others stay, and in their order |
| Teardown.ArmedRecordExact | src/call/CallState.ts:559-589 | After an update that arms the timer the record holds every other timer and one entry of the call's safety id, the last |
| Teardown.RefreshedLegCannotExtend | src/call/CallState.ts:540-558 | A leg that refreshed once cannot move the deadline again, and its update is stored as it is |
| Teardown.FindAfterReplace | src/call/timer-helpers.ts:38-57 | What a search by type finds after a replacement by id |
| LimiterRuns.LimitersBisimilar | src/call/CallLimiter.redis.ts:129-188 | Over every run of checks, releases, refreshes and renewals of fail-open entries whose origin is no longer summed, memory and Redis give the same decisions and windows, and both keep counting the same tokens |
| LimiterRuns.FreshInv | src/call/CallLimiter.memory.ts:39-48 | Two empty stores start in the invariant |
| LimiterRuns.StepAgrees | src/call/CallLimiter.memory.ts:62-132 | Each operation agrees and keeps every active counter equal to the live tokens of its window, although Redis may hold negative keys |
| LimiterRuns.RenewAgrees | src/b2bua/rules/framework/FrameworkLimiterRefresh.ts:39-50 | A renewal takes a slot in the current window in both forms alike |
| LimiterRuns.TotalsCountTokens | src/call/CallLimiter.memory.ts:70-82 | Both totals are the number of live tokens in the summed windows |
| LimiterRuns.SweepKeeps | src/call/CallLimiter.memory.ts:52-58 | A sweep drops no active counter |
| LimiterLimit.LimitHolds | src/call/CallLimiter.memory.ts:51-132 | With a fixed limit and timely refreshes, live calls never exceed the limit in any run by more than the renewals of entries admitted without the limiter |
| LimiterLimit.AdmissionExact | src/call/CallLimiter.memory.ts:70-88 | A check admits if and only if fewer live tokens than the limit are still in the summed range, and its token is the only change |
| LimiterLimit.TtlExact | src/call/CallLimiter.memory.ts:86-87 | No counter expires while its window is summed if and only if ttl >= activeWindows * windowSec |
| LimiterLimit.ShortTtlOveradmits | src/call/CallLimiter.memory.ts:51-88 | With any shorter ttl a limit of one admits two |
| LimiterLimit.RenewalDivergesExact | src/call/CallLimiter.redis.ts:69-74 | Refreshing an entry that holds no token sets the two forms apart at some limit if and only if its origin is an earlier window still summed in which no token is live |
| LimiterLimit.FailOpenRenewalAgrees | src/b2bua/rules/framework/FrameworkLimiterRefresh.ts:39-50 | Fail-open entries start at window 0, which no real clock still sums: they never set the forms apart |
| CallLimiter.MemoryLimiter.CheckAndIncrement | src/call/CallLimiter.memory.ts:62-90 | Sweep, sum of the active windows, reject at the limit, otherwise count and renew the current window |
| CallLimiter.MemoryLimiter.SweepExpired | src/call/CallLimiter.memory.ts:52-58 | Exactly the expired counters go |
| CallLimiter.MemoryLimiter.Decrement | src/call/CallLimiter.memory.ts:92-106 | Down by one, never below zero, missing counters stay missing, expiry kept |
| CallLimiter.MemoryLimiter.Refresh | src/call/CallLimiter.memory.ts:108-132 | Up at the current window before down at the origin; nothing within the same window |
| CallLimiter.CurrentWindowExact | src/call/CallLimiter.memory.ts:39-50 | The current window is the one multiple of the window length, in whole seconds, that the clock is in |
| CallLimiter.RedisLimiter.WindowKeysFor | src/call/CallLimiter.redis.ts:121-127 | The active windows oldest first, the current one last |
| CallLimiter.RedisLimiter.CheckAndIncrement | src/call/CallLimiter.redis.ts:46-58 | The script: sum, reject at the limit, otherwise INCR and EXPIRE of the last key |
| CallLimiter.RedisLimiter.Decrement | src/call/CallLimiter.redis.ts:81-83 | DECR, also of a missing key, which then has no expiry |
| CallLimiter.RedisLimiter.Refresh | src/call/CallLimiter.redis.ts:69-74 | INCR and EXPIRE of the current key, DECR of the origin; nothing within the same window |
| LimiterAudit.RunAudit | src/call/CallLimiter.contracts.ts:552-640 | Reports each counter away from zero and each limiter released more often than admitted, once, and nothing else |
| LimiterLedger.LedgerCountsTokens | src/call/CallLimiter.contracts.ts:561-611 | Over any recorded run, failed operations included, the ledger at each (limiter, window) is the change in live tokens there less what renewals borrowed there |
| LimiterLedger.BackToZeroExact | src/call/CallLimiter.contracts.ts:613-625 | From a fresh limiter all deltas are zero if and only if what is still held is just what renewals borrowed |
| LimiterLedger.BackToZeroWithoutRenewals | src/call/CallLimiter.contracts.ts:613-625 | Without renewals: if and only if every admission was released |
| LimiterLedger.NoOrphanDecrements | src/call/CallLimiter.contracts.ts:627-639 | Admissions and borrowings of a limiter less its releases are its live tokens |
| LimiterLedger.AuditSilentExact | src/call/CallLimiter.contracts.ts:552-640 | The whole audit, orphan check included, is silent if and only if every unskipped counter holds just what was borrowed there |
| LimiterLedger.AuditSilentWithoutRenewals | src/call/CallLimiter.contracts.ts:552-640 | Without renewals: if and only if every token still held is of a skipped limiter |
| CallAdmission.TeardownBalancesExact | src/b2bua/helpers.ts:49-68 | A call's whole life (admission, refresh ticks, teardown) balances at every counter if and only if no entry whose check went unanswered was moved away from window 0 by the ticks |
| CallAdmission.UnrefreshedBalances | src/decision/apply/applyRoute.ts:263-386 | A call rejected part-way, or torn down before its first refresh, always balances |
| CallAdmission.FailOpenRefreshLeaks | src/b2bua/rules/framework/FrameworkLimiterRefresh.ts:39-50 | A fail-open entry refreshed once takes a slot that no teardown gives back |
| CallAdmission.Acquire | src/decision/apply/applyRoute.ts:263-403 | Entries up to the first rejection; a backend failure is recorded as fail-open at window 0 |
| CallAdmission.RefreshAll | src/b2bua/rules/framework/FrameworkLimiterRefresh.ts:39-50 | Every entry moves to the window its refresh returned, or stays on failure |
| Timers.RunKeepsSound | src/call/TimerService.ts:84-185 | Over any run, with other steps between a request's interrupt and its resumption, in which no schedule of an id overlaps another schedule or a cancel of it: an entry names a live fiber of its id and call, every sleeping fiber has its entry, every cancel-all stays on course |
| Timers.RequestExact | src/call/TimerService.ts:99-103 | A schedule, a cancel or a cancel-all's next cancel can never cost a sleeping fiber its entry, however things go on, if and only if it does not overlap a schedule of its id in that way |
| Timers.WaitsExact | src/call/TimerService.ts:156-173 | Of the requests under way: no sleeping fiber can lose its entry if and only if no two wait on one id but for cancels |
| Timers.OverlappingCancelLosesTimer | src/call/TimerService.ts:171-172 | A schedule and a cancel-all waiting for the same running handler: the cancel removes the entry the schedule just made, the cancel-all is through with a fiber asleep and unregistered, and one more schedule makes two sleepers of one id |
| Timers.MutualWaitNeverEnds | src/call/TimerService.ts:101-103 | A request whose awaited fiber in turn waits for it never resumes, over every run in which that fiber does not end first |
| Timers.BothComeToWait | src/call/TimerService.ts:84-185 | The run from the start that brings both to wait |
| Timers.OneSleeperPerId | src/call/TimerService.ts:84-154 | After any run whose requests fit at most one fiber of an id is pending |
| Timers.ScheduledWakes | src/call/TimerService.ts:84-154 | With no fiber to wait for a timer sleeps until its time, or until now if that has passed; no other timer is disturbed |
| Timers.ScheduledWakesLate | src/call/TimerService.ts:84-154 | After waiting for a prior fiber, whatever ran meanwhile, a timer wakes later than asked by just the time waited, or at once if it was overdue when asked for |
| Timers.SupersededExitIsHarmless | src/call/TimerService.ts:106-142 | The exit of a superseded fiber, also one that rescheduled itself, leaves its successor's entry alone |
| Timers.SelfCancelIsHarmless | src/call/TimerService.ts:156-173 | A timer that cancels itself keeps running and its exit removes nothing |
| Timers.RescheduleReplaces | src/call/TimerService.ts:101-154 | A schedule that had to wait ends with its fiber registered, the old sleeper gone and no other id disturbed |
| Timers.CancelAllSilences | src/call/TimerService.ts:175-185 | When a cancel-all is through, no fiber of the call that was there when it began is registered or asleep, and what still runs of them had been superseded |
| Timers.CancelAllExact | src/call/TimerService.ts:175-185 | It leaves the call silent if and only if nothing scheduled meanwhile is still registered |
| Timers.HandlerReschedules | src/call/TimerService.ts:88-97 | A handler that reschedules itself runs on unregistered |
| Timers.CancelAllFindsSuccessor | src/call/TimerService.ts:175-185 | A cancel-all from elsewhere then waits for the successor only |
| Timers.SupersededHandlerSurvives | src/call/TimerService.ts:88-97 | and is through with the handler still running |
| Timers.TimerService.Schedule | src/call/TimerService.ts:84-154 | Up to the wait for the prior fiber, or forks and registers at once if there is none or it is the caller |
| Timers.TimerService.Cancel | src/call/TimerService.ts:156-171 | Self: only the entry goes. Otherwise up to the wait for the interrupted fiber |
| Timers.TimerService.Resume | src/call/TimerService.ts:145-173 | After the wait a schedule forks and registers, its delay counted from now, and a cancel removes whatever the id has now |
| Timers.TimerService.BeginCancelAll | src/call/TimerService.ts:175-181 | Exactly the ids registered for the call are collected |
| Timers.TimerService.CancelNext | src/call/TimerService.ts:182-184 | The next collected id is cancelled |
| Timers.TimerService.FiberExit | src/call/TimerService.ts:135-142 | The exit hook removes the entry only while it points at this fiber |
| Overload.AdmissionBound | src/b2bua/OverloadController.ts:119-148 | Over any run non-emergency admissions are at most capacity + rate * advance of the highest clock reading, with forced debits and a clock that steps back |
| Overload.LookingIsFree | src/b2bua/OverloadController.ts:129-135 | Refilling in between changes nothing, so the bound holds from any reading on |
| Overload.RetryAfterExact | src/b2bua/OverloadController.ts:150-155 | Waiting the advertised time lets the next attempt through if and only if capacity >= 1, rate > 0 and the clock was behind by no more than the advice was rounded up |
| Overload.RetryAfterSuffices | src/b2bua/OverloadController.ts:150-155 | With a clock not behind the last refill the advice always works |
| Overload.SteppedBackClockMisadvises | src/b2bua/OverloadController.ts:129-155 | With a clock that stepped back it may not: a concrete state |
| Overload.PanicSpendsToken | src/b2bua/OverloadController.ts:320-360 | A request turned away for load has spent its token |
| Overload.BurstExact | src/b2bua/OverloadController.ts:119-148 | Of a burst at one clock reading exactly as many requests are admitted as the refilled bucket holds whole tokens, each for one token |
| Overload.TokensAtOneReading | src/b2bua/OverloadController.ts:119-148 | At one reading what is left of the refilled bucket is its tokens less one for each debit, emergencies and load rejections included |
| Overload.EmergenciesDebit | src/b2bua/OverloadController.ts:320-360 | Emergencies all go through, each for one token, if need be on credit |
| Overload.RetryAfterLeast | src/b2bua/OverloadController.ts:150-155 | For a clock not behind, the advice is the least number of whole seconds after which there is a token |
| Overload.RetryAfterWithoutRate | src/b2bua/OverloadController.ts:150-155 | A bucket that never refills is answered with a minute |
| Overload.OverloadController.ShouldAdmit | src/b2bua/OverloadController.ts:320-360 | Emergencies always admitted at a token's cost; others by bucket, then by load; each decision counted once under its outcome |
| Overload.TokenBucket.TryConsume | src/b2bua/OverloadController.ts:136-143 | Succeeds if and only if the refilled bucket holds a token, and takes it |
| Overload.TokenBucket.RetryAfterSec | src/b2bua/OverloadController.ts:150-155 | Zero, sixty without a rate, or the rounded-up wait |
| CircuitBreaker.CooldownIsExponential | src/observability/otel-circuit-breaker.ts:130-169 | Over any run from closed: while open the cooldown is min(base * 2^k, max) after k failed probes (the base itself at k = 0), closed it is the base |
| CircuitBreaker.CooldownClosedForm | src/observability/otel-circuit-breaker.ts:152-159 | The closed form needs no special case if and only if k > 0 or base <= max |
| CircuitBreaker.ProbesAreSpaced | src/observability/otel-circuit-breaker.ts:130-169 | Against a dead collector the n-th probe comes no earlier than the sum of the first n cooldowns, however the clock steps back |
| CircuitBreaker.ScheduleIsReached | src/observability/otel-circuit-breaker.ts:130-169 | and when an export comes just then, it is a probe: the schedule is kept, not only respected |
| CircuitBreaker.ProbeComes | src/observability/otel-circuit-breaker.ts:130-169 | After any run from closed: an export is handed over if and only if the circuit is closed or the cooldown of its failed probes since the last refusal is over; one accepted export closes it, one refused opens it anew |
| CircuitBreaker.RecoveryIsComplete | src/observability/otel-circuit-breaker.ts:130-169 | With the collector back and the cooldown over no span is dropped any more |
| CircuitBreaker.AttemptsApart | src/observability/otel-circuit-breaker.ts:130-159 | Two inner attempts with only drops between them are at least the cooldown apart that the first, failed, one left |
| CircuitBreaker.AttemptsBounded | src/observability/otel-circuit-breaker.ts:15-32 | Attempts within a span of time are bounded by the schedule alone |
| CircuitBreaker.DefaultSchedule | src/observability/otel-circuit-breaker.ts:26-30 | By default 14 probes in the first hour and 12 in each hour after, where the comment says about 8 and 4 |
| CircuitBreaker.NoSpanUncounted | src/observability/otel-circuit-breaker.ts:130-138 | Every span is handed over or counted as dropped |
| CircuitBreaker.CircuitBreakerSpanExporter.ExportSpans | src/observability/otel-circuit-breaker.ts:130-169 | Dropped and reported as exported while cooling down; otherwise handed over, with the state moved by the result |

## Left out

- Lifetimes of stored bodies, sidecars and index entries, and hence the local store's TTL operations: an update skipped by the gate does not renew the replica's, so no parity is claimed. Expiry is modelled only inside the limiter.
- Calls without topology in statements about the gate and convergence: their generation is always 0 (`CallLife.NoTopologyNoGeneration`).
- Cluster.Convergence: assumes each call is written by one worker at a time and that generations of one life stay below 2^32; two simultaneous writers are not decided by the code modelled here. `CallStore.RunDrivesLink` derives the generation discipline from the call table.
- Recovery.RecoveredLinkExact: states the worker's own link only; the peer's own calls, whose backup copies bootstrap skips, are `Bootstrap.ForwardCopyUntouched` and `StuckCalls.RestartExact`.
- Cluster.StepKeepsInv: a restart keeps the worker's store; a store lost with its process is only what bootstrap finds (`Bootstrap.BootstrapExact`).
- CallLife.GenerationDeterminesContent: assumes calls carry a topology, that a created call has no stored life, and that an update hands back a generation not below what was submitted; `CallLife.UpdateThenFlushExact` is the exact condition for one update.
- CallLife.PurgeIsTotal: assumes updates only add legs and dialogs; `CallLife.PurgeClearsKeysExact` is the exact condition for one purge.
- Teardown.BoundedTeardown: assumes sweeps take no time and come every 60 s, a live timer fires by its deadline, updates leave the safety entry and the refresh budget alone, and sources are legs of the call.
- Timers.SupersededExitIsHarmless: takes the fiber that makes a request from inside a handler to be the registered one, and so do `Timers.SelfCancelIsHarmless` and `Timers.HandlerReschedules`. As the effect library reads, the handler's time limit runs it in a child fiber, whose requests under its own id would wait for the fiber that waits for it: `Timers.MutualWaitNeverEnds` says what becomes of those.
- CircuitBreaker.CooldownIsExponential: the inner exporter answers at once; overlapping exports are not modelled.
- Overload.AdmissionBound: arithmetic is over the reals, without floating-point rounding; clock readings are inputs.
- Bootstrap.BootstrapExact: no store error on an entry occurs in its runs (`Bootstrap.PerPeerBootstrap.OnEvent` has it), and the peer deletes through the channel; deadlines and the retry timer of an attempt are not modelled, its possible prefixes are.
- CallTable.CallState.SweepOnce: other fibers may run between two purges in the source; here the sweep's steps follow each other. In the runs of `CallLife` purges interleave with everything else.
- CallTable.CallState.ForcePurgeOne: one step here, several in the source, which suspends at the CDR write, the decrements and the cancel-all; `CallLife.InterruptedPurgeIsTotal` is about what other fibers do in between.
- PartitionedStorage.PartitionedStorage.Put: the path without a peer is one step here and a write per key in the source.
- PartitionedStorage.PartitionedStorage.Delete: likewise.
- PartitionedStorage.PartitionedStorage.Refresh: the lifetimes it renews are not represented.
- Textual store keys: keys are tuples, so a call reference ending in `:gen`, whose body key would be another call's sidecar key and which the partition scan filters out, is not represented.
- The buffered writer between the call table and storage: submissions are taken to be carried out in order; its drainers and fall-through are not modelled.
- Decode errors when loading a call: the source treats such a body as missing.
- Restoring timers from persisted entries: a loop of the modelled schedule.
- The duplicate-id assertion of the timer helper, which runs outside production only.
- EWMA samplers, gauges, metrics registries, logging, CDR files and their errors.
- Frame payload encoding: decoders and encoders are arbitrary functions, injective where the source relies on it.
- HTTP, UDP, Redis connections, discovery, the supervisor's peer set, SIP parsing, rules and the transaction layer: I/O and code without a hard property of its own.
