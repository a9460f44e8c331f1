# Chain synchronisation and blockstores of a Filecoin node, in Dafny

This project models the parts of Lotus that decide what to sync, how a chain is collected and
completed, and how blocks are buffered, cached and served over the network. It proves what those
parts promise over every run, every interleaving and every input.

| file | what it models |
|---|---|
| `Tipsets.dfy` | tipsets, keys, identifiers, and how they compare |
| `Buckets.dfy`, `SyncBuckets.dfy` | buckets of related sync targets, as values and as the objects that change them; the ring of recent successes |
| `Scheduler.dfy`, `SchedulerProperties.dfy` | the sync scheduler as a state machine, and its properties over every run |
| `SchedulerFates.dfy` | what becomes of heads, deferred targets and finished workers; when a head is forgotten |
| `SyncManager.dfy` | the sync manager object: each handler takes one step of that machine |
| `ForkResolution.dfy` | the search for the fork point |
| `HeaderCollection.dfy` | collecting headers down to the local chain, and the cache of bad blocks |
| `Messages.dfy` | fetching, checking and zipping messages, and handing full tipsets on |
| `Autobatch.dfy`, `AutobatchStore.dfy` | the write-buffering blockstore as a concurrent machine and as an object |
| `Cbor.dfy`, `NetCodec.dfy`, `SectorCodec.dfy` | CBOR headers, the array-coded RPC messages, the map-coded sector records |
| `NetClient.dfy`, `NetStore.dfy` | the networked blockstore's client as a state machine and as an object |
| `NetServe.dfy` | the serving loop, and what a remote caller sees of the store behind it |
| `NetSystem.dfy` | many callers, both streams and the server together |
| `TimedCache.dfy` | the two-generation cache over in-memory stores |

State machines are relations or functions on values, and a run is a sequence of states and
events. Objects the program updates in place are classes whose methods are proved to take a step of
the machine, or to compute a specification function. What the program asks of the outside is a
parameter: the exchange, the chain store, the beacon entries, the message root, the backing store's
failures, and the order in which goroutines and maps are met.

Findings, each proved:

- Forgetting all but ten successes never lets the scheduler restart on a lighter target, because at
  most five workers run at once (`NoLighterRestart`).
- A deferred target is not always processed once a worker is freed: when the last worker ends and nothing
  continues its chain, all deferred targets are dropped. `NoHeadIsForgotten` says that this and the
  failure of a worker as heavy are the only ways to lose hold of a head, `IdleHoldsOnlyRecent` what is
  left then, `DeferredHeadIsLost` gives an instance.
- A tipset shared at height zero is refused by the fork search: `ResolvesIffAllowed` says exactly
  when it succeeds, `SharedGenesisIsRefused` gives an instance.
- A bad block below the parents of a new head marks the blocks asked for on the way down, and not the
  head's own: `CollectHeaders` states the cache after every outcome, `AcceptedLieBelow` that.
- A successful collection can give the checkpoint up. `GivesUpIff` says exactly when: the head is the
  checkpoint and the list hangs beside it on its parent. A fork below the head never does.
  `SiblingGivesUpCheckpoint` gives an instance and `AcceptSibling` takes it through the code.
- A message answer makes its check panic in three ways: it is too short but fits as far as it goes, or
  the check gets to an index that names no message, or to one that names a null signed message. The
  exchange client compares indices as signed numbers, so those from 2^63 on pass it, and it does not
  look at the messages. `ChunkPanicsIff` says exactly when a fetch panics, `ShortAnswerPanics`,
  `StrayIndexPanics` and `NullMessagePanics` give instances, `PassesClientIff` says which indices pass.
- Storing the messages of an answer panics at a null signed message even if no block includes it:
  `PersistMessages` says exactly when.
- A fetched fork can be accepted without hanging on the headers above it, which takes a header that
  lists a parent twice: `LinkedParts` and `FetchedContinues` say exactly when the list is linked,
  `RepeatedParentBreaksLink` gives an instance and `CollectUnlinked` takes it through the code.
- The autobatch buffer size is never reduced by a flush: `PutSignalsIff` says exactly when a put
  signals, `EmptyBufferSignals` gives a run where a small put into an empty buffer does.
- In a sector record that repeats `Value`, an empty second value takes bytes from what follows
  (`RepeatedValueReadsOn`); `ReadIntoWritten` says exactly when bytes are read back.
- Remotely, sizes travel modulo 2^32, blocks over the codec's limit come back as errors, and a
  not-found error of an operation on many blocks ends the connection (`FromAfar`, `Sendable`). A
  request beyond the codec's limits is not sent, and one with an identifier that can be written and
  not read makes the server hang up (`Delivered`).

Assumptions carried as preconditions: tipsets that compare equal are equal, or weigh the same, where
identifiers stand for content (`InitialTargetIsHeaviest`, `NoHeadIsForgotten`); the blocks of a tipset share their height and their parents, as
tipsets are built so, and heights drop from child to parent (`WellFormed`); the exchange answers with
linked tipsets, and with message lists shaped like the tipsets asked about, as its client validates.
Built into the model: a message that was decoded can be encoded again, so only null signed messages have
no identifier (a null unsigned message has that of the encoded null).

## Model

| member | source | states |
|---|---|---|
| Buckets.Insert | chain/sync_manager.go:562-570 | buckets only grow, a new one is added only when none is related, and none becomes empty |
| Buckets.InsertPlaces | chain/sync_manager.go:562-570 | the target is held by the first related bucket or by a new last one, and no other bucket changes |
| Buckets.InsertNoTwins | chain/sync_manager.go:562-570 | a tipset is held once, however often it is inserted |
| Buckets.HeaviestIsMax | chain/sync_manager.go:681-693 | the heaviest tipset of a bucket is a member no other member outweighs |
| Buckets.HeaviestIsFirst | chain/sync_manager.go:681-693 | and the first of that weight |
| Buckets.BestIndexIsMax | chain/sync_manager.go:572-586 | the bucket popped first holds a tipset no other bucket's heaviest outweighs |
| Buckets.BestIndexIsFirst | chain/sync_manager.go:572-586 | and is the first bucket with such a tipset |
| Buckets.KeptAtIsUnrelated | chain/sync_manager.go:598-610 | the buckets kept are exactly the unrelated ones, in order |
| Buckets.RelatedTipsMembers | chain/sync_manager.go:598-610 | the popped bucket holds exactly the tipsets of all related buckets |
| SyncBuckets.BucketSameChainAs | chain/sync_manager.go:628-641 | true exactly when some member equals the tipset, is its parent or is its child |
| SyncBuckets.BucketAdd | chain/sync_manager.go:643-679 | the tipset is appended unless an equal one is there |
| SyncBuckets.BucketHeaviest | chain/sync_manager.go:681-693 | the loop finds the first member of greatest weight |
| SyncBuckets.SyncBucketSet.IsRelatedToAny | chain/sync_manager.go:553-560 | true exactly when some bucket is related |
| SyncBuckets.SyncBucketSet.InsertTipSet | chain/sync_manager.go:562-570 | the set becomes the specified insertion |
| SyncBuckets.SyncBucketSet.RemoveBucket | chain/sync_manager.go:588-596 | exactly that bucket goes, the others keep their order |
| SyncBuckets.SyncBucketSet.Pop | chain/sync_manager.go:572-586 | the bucket with the heaviest tipset is taken out |
| SyncBuckets.SyncBucketSet.HeaviestTipSet | chain/sync_manager.go:612-622 | a tipset of greatest weight over all buckets, if any |
| SyncBuckets.SyncBucketSet.PopRelated | chain/sync_manager.go:598-610 | despite removal during iteration, exactly the related buckets go and their tipsets come back together |
| SyncBuckets.PopRelatedStep | chain/sync_manager.go:598-610 | walking past a bucket either drops it or leaves it in place |
| SyncBuckets.SyncBuffer.Push | chain/sync_manager.go:507-511 | the ring holds the latest ten pushes |
| SyncBuckets.SyncBuffer.WasSynced | chain/sync_manager.go:513-521 | true exactly when a remembered tipset equals or outweighs the given one |
| SyncManagers.SyncManager.constructor | chain/sync_manager.go:113-129 | the manager starts in the machine's initial state |
| SyncManagers.SyncManager.SpawnWorker | chain/sync_manager.go:298-313 | one worker more, under a fresh id |
| SyncManagers.SyncManager.Judge | chain/sync_manager.go:461-487 | the verdict on a deferred target is one the rules allow, for whichever worker is met first |
| SyncManagers.SyncManager.SelectDeferredSyncTarget | chain/sync_manager.go:455-491 | the loop takes an allowed selection of the deferred targets |
| SyncManagers.SyncManager.AddTarget | chain/sync_manager.go:363-425 | the handling of a new target is one the machine allows |
| SyncManagers.SyncManager.SelectSyncTarget | chain/sync_manager.go:427-453 | the choice after a finished worker is one the machine allows |
| SyncManagers.SyncManager.SelectInitialSyncTarget | chain/sync_manager.go:333-358 | the target is chosen from the recorded heads in order of height, and the heads are cleared |
| SyncManagers.HeadsByHeight | chain/sync_manager.go:336-345 | every peer's head once, sorted by height, for any map order |
| SyncManagers.HeaviestHead | chain/sync_manager.go:347-357 | the heaviest tipset of the buckets made from the heads |
| SyncManagers.SyncManager.HandleHead | chain/sync_manager.go:198-237 | a peer head is one step of the machine |
| SyncManagers.SyncManager.RetireWorker | chain/sync_manager.go:239-263 | the worker goes, a success is remembered and may complete the initial sync |
| SyncManagers.SyncManager.HandleStatus | chain/sync_manager.go:239-277 | a worker's report is one step of the machine |
| SyncManagers.SyncManager.HandleInitialSyncDone | chain/sync_manager.go:279-296 | the ramp-up loop starts workers until the pool is full or nothing is left |
| SyncManagers.SyncManager.HandleTicker | chain/sync_manager.go:177-196 | the ticker ramps up once the initial sync is done |
| Scheduler.SelectDeferred | chain/sync_manager.go:455-491 | a selection shrinks the deferred set whenever it yields a target and leaves no empty bucket |
| SchedulerProperties.NextKeepsInv | chain/sync_manager.go:177-296 | every event keeps the scheduler's invariant |
| SchedulerProperties.ReachableInv | chain/sync_manager.go:177-296 | the invariant holds in every state of every run |
| SchedulerProperties.PendingNeverOrphaned | chain/sync_manager.go:239-277 | in every reachable state each pending bucket has a tipset whose parent an active worker is syncing; no worker, no pending bucket |
| SchedulerProperties.BoundedAndWorkConserving | chain/sync_manager.go:279-296 | never more than five workers, one before the initial sync is done, deferred work implies a worker and after ramp-up a full pool |
| SchedulerProperties.SuccessSetsGuard | chain/sync_manager.go:239-263 | a success establishes the guard against lighter targets |
| SchedulerProperties.LighterSuccessKeepsGuard | chain/sync_manager.go:507-511 | each lighter success pushes the guarding entry one place on but uses up one lighter worker |
| SchedulerProperties.NextKeepsGuard | chain/sync_manager.go:363-491 | every event keeps the guard and starts no lighter worker under it |
| SchedulerProperties.GuardPersists | chain/sync_manager.go:23-24 | the guard holds in every later state of a run |
| SchedulerProperties.NoLighterRestart | chain/sync_manager.go:363-491 | once a target has synced no worker is ever started on a lighter one, although only ten successes are remembered |
| SchedulerProperties.HandOver | chain/sync_manager.go:427-451 | a worker started from the pending set works on a heaviest tipset of the related buckets, no lighter than the finished, an active or a remembered one, and exactly those buckets go; it is started whenever every such tipset is that heavy and not itself remembered |
| SchedulerProperties.InsertAllOnlyHeads | chain/sync_manager.go:347-349 | bucketing the heads adds nothing |
| SchedulerProperties.InsertAllEveryHead | chain/sync_manager.go:347-349 | bucketing the heads loses none |
| SchedulerProperties.InitialTargetIsHeaviest | chain/sync_manager.go:333-358 | syncing starts on a recorded head that no recorded head outweighs |
| SchedulerFates.HeadFate | chain/sync_manager.go:363-423 | once syncing has started a head is ignored if a remembered tipset is it or outweighs it; starts a worker if none runs; is pended if a worker is on its parent or a pending tipset is next to it; is ignored if a worker is on it or an active or pending tipset outweighs it; and else starts a worker if there is room and is deferred if not |
| SchedulerFates.IgnoredOnlyIfCovered | chain/sync_manager.go:363-423 | a head changes nothing only if a remembered, active, pending or deferred tipset is the head or a remembered, active or pending one outweighs it |
| SchedulerFates.SyncStarts | chain/sync_manager.go:198-221 | before that a head is recorded, and once enough peers have sent one a single worker starts on a heaviest recorded head |
| SchedulerFates.TakenMeans | chain/sync_manager.go:455-491 | a deferred target that is started was deferred, is news to the remembered and pending ones, and some worker is neither on it, nor on its parent, nor on a heavier one |
| SchedulerFates.HeaviestDeferredIsTaken | chain/sync_manager.go:455-491 | a heaviest deferred tipset is started if all of that weight are news and every worker lets them be |
| SchedulerFates.ReportRetires | chain/sync_manager.go:239-277 | a report ends that worker and no other, at most one follows, on a pending or deferred tipset, and a success is remembered |
| SchedulerFates.TickRampsUp | chain/sync_manager.go:177-196 | the tick after the initial sync uses up the deferred targets or fills the pool, and leaves the workers that run alone |
| SchedulerFates.OnlyReceivedHeads | chain/sync_manager.go:198-296 | over every run, only heads that peers have sent are worked on, kept or remembered |
| SchedulerFates.NextKeepsRing | chain/sync_manager.go:239-277 | what is remembered is remembered for good, as a tipset as heavy |
| SchedulerFates.SelectDeferredKeepsWeight | chain/sync_manager.go:455-491 | a selection drops a deferred target only for one as heavy that is remembered, worked on, pending or chosen |
| SchedulerFates.NextKeepsWeight | chain/sync_manager.go:198-296 | a step loses hold of a weight only if a worker as heavy fails or the last worker ends while targets are deferred |
| SchedulerFates.HoldingPersists | chain/sync_manager.go:198-296 | over every run without such a step, what is held of some weight is held on to in the same or a heavier tipset |
| SchedulerFates.NoHeadIsForgotten | chain/sync_manager.go:363-491 | so a head that arrives after the start is not forgotten |
| SchedulerFates.IdleHoldsOnlyRecent | chain/sync_manager.go:455-491 | without workers nothing is pending or deferred, and what is held is what is remembered |
| SchedulerFates.DeferredHeadIsLost | chain/sync_manager.go:455-491 | the smallest run that drops a head heavier than all that synced |
| ForkResolution.SyncFork | chain/sync.go:879-940 | the walk succeeds with the fork up to the highest shared tipset, or fails with the one error of the place where it stops |
| ForkResolution.OneStop | chain/sync.go:879-940 | there is one depth of the local chain where a failing search stops, and one error it stops with |
| ForkResolution.ResolvesIffAllowed | chain/sync.go:879-940 | the search succeeds exactly when some shared tipset may be forked to |
| ForkResolution.RefusalRulesOut | chain/sync.go:881-939 | each error means no shared tipset may be forked to |
| ForkResolution.SharedGenesisIsRefused | chain/sync.go:906-911 | a chain that shares only the genesis tipset is refused |
| ForkResolution.SkipFetched | chain/sync.go:917-918 | moving down the fetched chain misses no shared tipset |
| ForkResolution.SkipLocal | chain/sync.go:919-936 | moving down the local chain misses no shared tipset |
| HeaderCollection.NewReason | chain/badtscache.go:22-27 | a new reason has no root of its own |
| HeaderCollection.Reason.Linked | chain/badtscache.go:29-35 | a linked reason points at the root cause, at depth one |
| HeaderCollection.MarkedFairly | chain/sync.go:696-704 | marking blocks that have a bad block among their ancestors, with a reason linked to that block, is fair and keeps every reason shallow |
| HeaderCollection.SuffixDescends | chain/sync.go:747-756 | every block of a linked list has every parent block of the last tipset among its ancestors, along a path of blocks |
| HeaderCollection.Syncer.FirstBad | chain/sync.go:747-756 | a bad block of the key, or none of its blocks is bad |
| HeaderCollection.Syncer.CheckBeacons | chain/sync.go:706-730 | the fault of the beacon entries: a wrong order in the first block, or blocks that disagree; only a wrong order marks a block |
| HeaderCollection.BeaconFaultMeans | chain/sync.go:706-731 | wrong order exactly when a round falls in the first block, a mismatch exactly when another block differs, and no fault exactly when rounds ascend and all blocks agree |
| HeaderCollection.Syncer.BlameIncoming | chain/sync.go:696-704 | exactly the incoming blocks are marked, linked to a bad block among their parents |
| HeaderCollection.Syncer.BlameAccepted | chain/sync.go:748-755 | exactly the accepted blocks are marked, and each has the bad block among its ancestors |
| HeaderCollection.Syncer.TakeFetched | chain/sync.go:808-823 | exactly the clean tipsets of the fetched segment above the limit are appended, linked; it stops above a parent block below the limit, or above a bad block |
| HeaderCollection.Syncer.CountUsable | chain/sync.go:808-823 | the first fetched tipset that is below the limit or holds a bad block |
| HeaderCollection.Syncer.FetchMore | chain/sync.go:771-828 | the peers' answer adds exactly what it should: a linked clean segment that ends lower or above a parent block below the limit, or the error it deserves; only a bad block in it marks anything, the accepted blocks, as linked to it |
| HeaderCollection.Syncer.TakeTurn | chain/sync.go:746-829 | one turn of the walk: bad parents end it, stored parents are taken, others are asked for; it marks the accepted blocks if it comes to a bad one, and otherwise nothing |
| HeaderCollection.Syncer.Gather | chain/sync.go:732-829 | the walk ends as its turns determine; on success with linked clean headers, all but the last more than one above the head, and the last not or with a parent block no higher than the head |
| HeaderCollection.WalkFailsAtObstacle | chain/sync.go:746-829 | a walk that fails got, turn by turn, to a list with a bad block below it, no answer, or an answer that does not link, each with its own error |
| HeaderCollection.SameWalk | chain/sync.go:746-829 | the walk has the same outcome from every list it passes through |
| HeaderCollection.AcceptedLieBelow | chain/sync.go:746-829 | the blocks marked for a bad one further down lie below the head and are not its own |
| HeaderCollection.Syncer.Connect | chain/sync.go:837-868 | the gathered headers are kept and joined at the head, its parent or the fork point, with the outcome and error those determine; both parts are linked, and the whole exactly when the upper part hangs on the lower, as it does unless a header lists a parent twice |
| HeaderCollection.Syncer.Fork | chain/sync.go:853-867 | the fork is joined or its error given, and the head marked exactly on the two fork errors |
| HeaderCollection.FetchedContinues | chain/exchange/client.go:209-221 | a fetched fork continues the chain above exactly when its first tipset holds parents of it only, as it does if none is listed twice |
| HeaderCollection.RepeatedParentBreaksLink | chain/sync.go:851-867 | with a parent listed twice a fork fits the request and may be taken though the list does not hang on it |
| HeaderCollection.RepeatedParentIsCollected | chain/sync.go:851-867 | in that case exactly that list is collected, and no error |
| HeaderCollection.CollectUnlinked | chain/sync.go:851-867 | collecting the headers in that case returns a list that is not linked |
| HeaderCollection.JoinsIff | chain/sync.go:837-867 | the join succeeds exactly when the bottom hangs on the head, on its parent, or on a fork that may be taken |
| HeaderCollection.BottomIsLocal | chain/sync.go:831-867 | the bottom of a joined list is a child of the head, a child of its parent, or a fork point at most the threshold below it that abandons no checkpoint |
| HeaderCollection.GivesUpIff | chain/sync.go:837-867 | the checkpoint is among the local tipsets left behind exactly when the head is the checkpoint and the list hangs on its parent beside it |
| HeaderCollection.SiblingGivesUpCheckpoint | chain/sync.go:842-849 | a sibling of a checkpointed head joins the local chain and gives the checkpoint up |
| HeaderCollection.AcceptSibling | chain/sync.go:842-849 | collecting the headers of such a sibling returns it |
| HeaderCollection.Syncer.constructor | chain/sync.go:133-161 | a syncer starts with an empty cache of bad blocks |
| HeaderCollection.Syncer.CheckIncoming | chain/sync.go:694-730 | refused exactly when a parent is bad or the beacon entries are at fault, with fair marks |
| HeaderCollection.Syncer.Trim | chain/sync.go:831-835 | the head itself is dropped from the bottom, which never empties the list |
| HeaderCollection.Syncer.CollectHeaders | chain/sync.go:684-868 | on success the list starts with the incoming tipset, the gathered part is linked and clean and the whole joins the local chain, linked unless a header lists a parent twice, the cache is untouched and the checkpoint is given up only beside the head; outcome and error are the ones determined by the parents, the beacon entries, the walk and the join; the cache after every outcome is stated: the head marked for a bad parent and for the two fork errors, its first block for beacon order, the blocks asked for so far for a bad block further down, and nothing otherwise; every linked mark is on a block with a bad block among its ancestors, and every reason is shallow |
| HeaderCollection.CollectsIff | chain/sync.go:684-868 | a collection succeeds exactly when no parent of the new head is bad, the beacon entries agree, the walk finds every segment stored or answered, linked and clean, and its bottom can be joined |
| Messages.CheckMsgMeta | chain/sync.go:1029-1056 | accepted exactly when the zipped blocks keep the message limit and match their roots; panics exactly when a block that keeps the limit has an index that names no message or a null signed one and all before it are good |
| Messages.ZipIs | chain/sync.go:392-412 | a zipped block is the header with the messages its indices name, in their order, and nothing else is |
| Messages.FitsMeans | chain/sync.go:1029-1056 | messages fit exactly when in each block the root over the messages the indices name, unsigned then signed and in order, is the one in the header |
| Messages.ZipTipSetAndMessages | chain/sync.go:383-415 | zipping succeeds exactly when the messages fit and yields for each header the messages its indices name, in their order, in blocks that validate; panics exactly when the check does |
| Messages.PassesClientIff | chain/exchange/client.go:282-296 | indices the client lets through all name messages exactly when none is 2^63 or more |
| Messages.CheckAnswer | chain/sync.go:1096-1108 | the verdict on an answer: the first entry that does not fit decides, and a short answer that fits overruns |
| Messages.FetchChunk | chain/sync.go:1083-1110 | the first decisive answer within the retries |
| Messages.AttemptsFit | chain/sync.go:1083-1110 | a usable answer covers the whole request and fits it |
| Messages.ChunkPanicsIff | chain/sync.go:1085-1110 | a chunk panics exactly when the first answer that is not useless is short and fits as far as it goes, or its check gets to an index that names no message or a null signed one |
| Messages.ChunkUsableIff | chain/sync.go:1085-1110 | a chunk is answered exactly with the first answer that is not useless, if it covers all tipsets asked about and fits them |
| Messages.ShortAnswerPanics | chain/sync.go:1097-1104 | one tipset's messages in answer to a request for two |
| Messages.StrayIndexPanics | chain/sync.go:1034-1043 | a full answer with an index from 2^63 on, which the client lets through |
| Messages.NullMessagePanics | chain/exchange/cbor_gen.go:575-588 | a full answer whose one index names a null signed message, which the decoder and the client let through |
| Messages.FillBatch | chain/sync.go:1069-1125 | the chunks fill the shared batch in any order, each slot once |
| Messages.FetchMessages | chain/sync.go:1058-1134 | succeeds exactly when every chunk gets a usable answer, and then slot i holds messages that fit header i |
| Messages.CallsDoneIff | chain/sync.go:995-1021 | a series of callbacks goes well exactly when each of them does |
| Messages.CallsPanickedIff | chain/sync.go:995-1021 | it panics exactly when the first that does not go well panics |
| Messages.PersistMessages | chain/sync.go:1136-1159 | storing succeeds exactly when every message is stored and every signed one is there with a known signature type; panics exactly when a null signed message comes before anything fails |
| Messages.HandOnBatch | chain/sync.go:995-1021 | a fetched batch is handed on oldest first, each header with its own messages, until the first hand-over or storing that fails or panics, which is the outcome |
| Messages.CompleteBatch | chain/sync.go:981-1021 | panics when the fetch of a chunk does, fails when a chunk has no usable answer, and otherwise ends as the hand-overs do; keeps the order in any case |
| Messages.TakeTurn | chain/sync.go:968-1024 | one turn of the loop: a stored header or the batch below it, with the outcome its course determines |
| Messages.TurnDoneIff | chain/sync.go:968-1024 | a turn goes well exactly when its hand-overs are accepted and a batch it needs is fetched and stored |
| Messages.TurnPanicsIff | chain/sync.go:968-1024 | a turn panics exactly when the fetch of its batch does, or the first of its hand-overs and storings that does not go well panics |
| Messages.EndsDoneIff | chain/sync.go:961-1027 | the iteration completes exactly when every hand-over is accepted and every batch is fetched and stored |
| Messages.EndsPanickedIff | chain/sync.go:961-1027 | it panics exactly when some turn panics after all before it went well |
| Messages.IterationEndsIff | chain/sync.go:961-1027 | both, for the headers, answers and callbacks given |
| Messages.IterFullTipsets | chain/sync.go:961-1027 | on success every header was handed on once, oldest first, complete; on failure a prefix of that; the ending is the one its course determines |
| Autobatch.StepKeeps | blockstore/autobatch.go:67-200 | every step keeps the invariant of the concurrent machine |
| Autobatch.Reachable | blockstore/autobatch.go:67-200 | the invariant holds in every state of every interleaving |
| Autobatch.GetAfterPut | blockstore/autobatch.go:172-200 | a get begun after a put of the identifier returned finds a block, whatever flushes, failures and retries interleave, and only a block put or stored under it |
| Autobatch.GetFindsPresent | blockstore/autobatch.go:172-200 | a read finds an identifier that was in the backing store or a batch when it began, however it got there, and what it finds was held while it ran; so a miss means there was nothing to find |
| Autobatch.GetEnds | blockstore/autobatch.go:172-200 | every step brings a read nearer to its answer, and alone it answers with what is held, from the backing store first |
| Autobatch.FlushStoresEarlierPuts | blockstore/autobatch.go:117-155 | when a flush returns without error everything put before it is stored |
| Autobatch.FlushReturns | blockstore/autobatch.go:117-151 | a flush is over exactly when it returns, with the error it leaves, and succeeds only by dropping its batch |
| Autobatch.BatchesAreConserved | blockstore/autobatch.go:117-150 | the batches taken and the buffer together are the first-time puts in order, and a batch is replaced only when all of it is stored |
| Autobatch.PutSignalsIff | blockstore/autobatch.go:67-88 | a first-time put leaves a signal exactly when one is pending or all bytes ever put reach the capacity |
| Autobatch.EmptyBufferSignals | blockstore/autobatch.go:76-84 | after two bytes are put and flushed, one more byte into the empty buffer of two signals |
| AutobatchStore.AutobatchBlockstore.constructor | blockstore/autobatch.go:47-65 | the store starts empty over the backing store |
| AutobatchStore.AutobatchBlockstore.PutOne | blockstore/autobatch.go:67-88 | the locked section is the machine's put, and nothing put is lost |
| AutobatchStore.AutobatchBlockstore.PutMany | blockstore/autobatch.go:237-245 | the blocks are put one after the other |
| AutobatchStore.PutAllBuffers | blockstore/autobatch.go:237-245 | new blocks are buffered in the order they are put |
| AutobatchStore.PutAllAgain | blockstore/autobatch.go:237-245 | blocks put before change nothing |
| AutobatchStore.AutobatchBlockstore.DoFlush | blockstore/autobatch.go:117-150 | success empties both batches and lays their blocks over the backing store, so that everything added is stored; it fails exactly when the retry or the new write stops early, and keeps the unwritten batch |
| AutobatchStore.AutobatchBlockstore.TakeBatch | blockstore/autobatch.go:131-137 | the locked section is the machine's taking of the batch |
| AutobatchStore.AutobatchBlockstore.ClearBatch | blockstore/autobatch.go:142-147 | the locked section is the machine's dropping of a written batch |
| AutobatchStore.AutobatchBlockstore.Write | blockstore/autobatch.go:121-141 | the write is the machine's writes of the first blocks, all of them exactly when it does not fail, and nothing is lost |
| AutobatchStore.WriteFirstWrites | blockstore/autobatch.go:121-141 | the machine's writes change the backing store only, lose nothing from it and store what they write |
| AutobatchStore.WriteAllStores | blockstore/autobatch.go:121-150 | a batch written in full is its map laid over the backing store |
| AutobatchStore.AutobatchBlockstore.Flush | blockstore/autobatch.go:153-155 | success means everything added is in the backing store |
| AutobatchStore.AutobatchBlockstore.Get | blockstore/autobatch.go:172-200 | finds every added block, the stored copy first |
| AutobatchStore.VisibleIsRead | blockstore/autobatch.go:172-200 | the object reads what the undisturbed machine does |
| AutobatchStore.AutobatchBlockstore.Has | blockstore/autobatch.go:216-226 | true exactly when the block is stored, being flushed or buffered |
| AutobatchStore.AutobatchBlockstore.GetSize | blockstore/autobatch.go:228-235 | the size of what a get returns |
| Cbor.FromToBytes | blockstore/cbor_gen.go:35-44 | numbers survive their big-endian bytes |
| Cbor.ShortHead | blockstore/cbor_gen.go:35-44 | an argument below 24 shares the one byte with the major type |
| Cbor.LongHead | blockstore/cbor_gen.go:35-44 | a longer one follows a byte with its width code, the most significant byte first |
| Cbor.ReadWriteHead | blockstore/cbor_gen.go:35-44 | a written header is read back with the rest of the stream |
| Cbor.WriteReadHead | blockstore/cbor_gen.go:86-135 | only the canonical header is accepted |
| Cbor.ReadWriteString | blockstore/cbor_gen.go:70-82 | strings within their limit are read back |
| Cbor.WriteReadString | blockstore/cbor_gen.go:196-225 | an accepted string is the writing of its value |
| Cbor.ReadWriteCid | blockstore/cbor_gen.go:54-60 | identifiers below the reader's limit are read back |
| Cbor.ReadLongCid | blockstore/cbor_gen.go:164-171 | an identifier at the reader's limit or beyond can be written and not read |
| Cbor.WriteReadCid | blockstore/cbor_gen.go:155-175 | an accepted identifier is the writing of its value |
| Cbor.WriteLoop | blockstore/cbor_gen.go:54-82 | entries are written in order, given up exactly when one does not fit |
| Cbor.ReadLoop | blockstore/cbor_gen.go:155-175 | reading entry by entry yields the specified list |
| NetCodec.DecodeEncodeRequest | blockstore/cbor_gen.go:23-228 | every request within the limits is decoded from its encoding, leaving the rest of the stream |
| NetCodec.DecodeLongRequest | blockstore/cbor_gen.go:86-228 | a request with such an identifier does not decode |
| NetCodec.EncodeDecodeRequest | blockstore/cbor_gen.go:86-228 | a decoded request re-encodes to the bytes read |
| NetCodec.DecodeEncodeResponse | blockstore/cbor_gen.go:232-342 | the same for responses |
| NetCodec.EncodeDecodeResponse | blockstore/cbor_gen.go:270-342 | a decoded response re-encodes to the bytes read |
| NetCodec.DecodeEncodeError | blockstore/cbor_gen.go:346-459 | the same for errors, with or without an identifier |
| NetCodec.RequestBytes | blockstore/cbor_gen.go:23-84 | a small request, byte by byte |
| NetCodec.ResponseBytes | blockstore/cbor_gen.go:232-388 | a small response and a small error, byte by byte |
| NetCodec.EncodeDecodeError | blockstore/cbor_gen.go:390-459 | a decoded error re-encodes to the bytes read |
| NetCodec.ReadWriteOptionalCid | blockstore/cbor_gen.go:375-457 | an absent identifier and a present one are told apart |
| NetCodec.MarshalRequest | blockstore/cbor_gen.go:23-84 | the writer yields the encoding exactly when the request keeps the limits |
| NetCodec.UnmarshalRequest | blockstore/cbor_gen.go:86-228 | the reader computes the decoding |
| SectorCodec.DecodeMapLoop | api/cbor_gen.go:279-369 | the loop over map entries computes the map decoding |
| SectorCodec.IntOfHead | api/cbor_gen.go:519-527 | every 64-bit number is read back from its header, the minimum included although its negation wraps |
| SectorCodec.HeadOfInt | api/cbor_gen.go:594-618 | an accepted header is the one its number is written with |
| SectorCodec.ReadWriteInt64 | api/cbor_gen.go:519-618 | signed numbers are read back from the stream |
| SectorCodec.WriteReadInt64 | api/cbor_gen.go:594-618 | an accepted signed number re-encodes to the bytes read |
| SectorCodec.ReadIntoWritten | api/cbor_gen.go:619-640 | bytes are read back exactly when they are not empty or nothing was in their place |
| SectorCodec.DecodeTicketAnyOrder | api/cbor_gen.go:555-648 | a seal ticket's fields decode to it in every order, repeated or not |
| SectorCodec.DecodeEncodeTicket | api/cbor_gen.go:495-803 | seal tickets and seeds are decoded from their encoding, leaving the rest |
| SectorCodec.TicketBytes | api/cbor_gen.go:495-553 | a small ticket, byte by byte |
| SectorCodec.RepeatedValueReadsOn | api/cbor_gen.go:619-640 | an empty value after a non-empty one takes its length from whatever follows |
| SectorCodec.DecodeScheduleAnyOrder | api/cbor_gen.go:1219-1317 | a deal schedule's fields decode to it in every order |
| SectorCodec.DecodeEncodeSchedule | api/cbor_gen.go:1161-1317 | deal schedules are decoded from their encoding, leaving the rest |
| SectorCodec.ScheduleBytes | api/cbor_gen.go:1161-1217 | a small schedule, byte by byte |
| SectorCodec.DecodeRefAnyOrder | api/cbor_gen.go:279-369 | a sealed reference's fields decode to it in every order |
| SectorCodec.DecodeEncodeRef | api/cbor_gen.go:216-369 | sealed references are decoded from their encoding, leaving the rest |
| SectorCodec.RefBytes | api/cbor_gen.go:216-277 | a small reference, byte by byte |
| SectorCodec.DecodeEncodeRefs | api/cbor_gen.go:371-493 | lists of sealed references are decoded from their encoding, leaving the rest |
| NetClient.NextKeeps | blockstore/net.go:107-288 | every locked section of the client keeps its invariant |
| NetClient.ReachableInv | blockstore/net.go:107-288 | the invariant holds in every state of every run |
| NetClient.NoSendBlocks | blockstore/net.go:184-196 | the channels in the response map are distinct and empty and no channel ever gets a second response, so no send blocks |
| NetClient.ResponseArrives | blockstore/net.go:185-195 | a response under an id in the map is put on its channel, a waiting call can take it, and the id leaves the map exactly when no more is announced; any other is dropped |
| NetClient.DeliveredIsTaken | blockstore/net.go:185-195 | over every run, a response delivered to a call that is out is what it ends with unless it is cancelled |
| NetClient.WaitEnds | blockstore/net.go:248-288 | a take ends the call with its response, a cancel without one and out of the map, and no other call is touched |
| NetClient.SentCallIsInMap | blockstore/net.go:200-246 | a call that is sent waits in the map under its own fresh channel |
| NetClient.ResponseReachesOnlyItsRequest | blockstore/net.go:184-196 | a response touches no channel of another id, and a call ends only with a response under its own id |
| NetClient.FinishedCallsHearNothing | blockstore/net.go:277-287 | a call has one outcome for good, and a response to a cancelled, failed or fully answered call changes nothing |
| NetClient.ShutdownGivesOneError | blockstore/net.go:107-135 | each channel in the map at shutdown gets exactly the one error under its id and nothing is sent on any channel afterwards |
| NetClient.OutstandingCallGetsTheError | blockstore/net.go:123-134 | a call in the map at shutdown ends with that error unless it is cancelled, or refused when it was not yet written |
| NetClient.WaitersAreServed | blockstore/net.go:248-288 | a waiting call is in the map or has a response of its own to take |
| NetStore.SendToAll | blockstore/net.go:123-134 | the shutdown loop sends each registered channel its error and touches no other |
| NetStore.NetworkStore.constructor | blockstore/net.go:92-105 | the client starts with nothing outstanding |
| NetStore.NetworkStore.Begin | blockstore/net.go:200-203 | a fresh id and a fresh channel |
| NetStore.NetworkStore.Enroll | blockstore/net.go:205-211 | the call is registered unless the store has closed |
| NetStore.NetworkStore.Written | blockstore/net.go:221-243 | a failed send takes the call out of the map |
| NetStore.NetworkStore.SendRpc | blockstore/net.go:200-246 | refused when closed, failed when the request does not fit or is not written, else waiting with the encoding sent; other calls are untouched |
| NetStore.NetworkStore.OnResponse | blockstore/net.go:184-196 | a response is one step of the machine: under an id in the map it is put on its channel, otherwise nothing happens |
| NetStore.NetworkStore.Shut | blockstore/net.go:107-135 | the shutdown is one step of the machine |
| NetStore.NetworkStore.ReceiveOne | blockstore/net.go:162-197 | a stop, a failed read and an undecodable message shut down, any other message is delivered |
| NetStore.NetworkStore.WaitResp | blockstore/net.go:248-288 | the caller takes the response on its channel, or cancels and leaves the map |
| NetServe.ServeRequest | blockstore/net_serve.go:34-237 | a response fits the codec and carries the id of its request |
| NetServe.NetworkStoreHandler.Dispatch | blockstore/net_serve.go:56-184 | the handler changes the store and replies as specified |
| NetServe.NetworkStoreHandler.HandleOne | blockstore/net_serve.go:44-184 | one turn of the loop on the bytes of a message |
| NetServe.NetworkStoreHandler.Serving | blockstore/net_serve.go:34-186 | the loop answers the messages in turn until one ends the connection |
| NetServe.ServerGoesOn | blockstore/net_serve.go:41-187 | the server hangs up exactly on a request it has no response to, and on a put whose lists differ in length |
| NetServe.AllAreServed | blockstore/net_serve.go:41-187 | as long as it goes on, every request is answered in turn by the store as those before it left it |
| NetServe.BuildBlocks | blockstore/net_serve.go:143-149 | each block pairs an identifier with its own data |
| NetServe.AskServes | blockstore/net_serve.go:41-237 | a request is not sent when it breaks the limits, dropped when it cannot be read, and otherwise crosses the wire unharmed, as its response does |
| NetServe.ReadReplyTo | blockstore/net_serve.go:188-237 | any reply is read as the local answer seen from afar |
| NetServe.WireIsFaithful | blockstore/net.go:200-288 | a call over the codec and the handler is a faithful transport |
| NetServe.RemoteHasIsLocal | blockstore/net.go:290-312 | a remote existence check returns what the served store returns, not-found as not-found for the same identifier; outside the codec's limits the store is untouched and the caller is told |
| NetServe.RemoteGetIsLocal | blockstore/net.go:314-326 | a remote get returns the served block under the identifier asked for, an error when it is too large for a response; outside the codec's limits the store is untouched and the caller is told |
| NetServe.RemoteGetSizeIsLocal | blockstore/net.go:342-358 | a remote size is the served size modulo 2^32; outside the codec's limits the store is untouched and the caller is told |
| NetServe.RemotePutManyIsLocal | blockstore/net.go:364-384 | a remote put leaves the store and returns the result of putting the same blocks locally; outside the codec's limits the store is untouched and the caller is told |
| NetServe.RemoteDeleteManyIsLocal | blockstore/net.go:390-402 | a remote delete leaves the store and returns the result of deleting the same identifiers locally; outside the codec's limits the store is untouched and the caller is told |
| NetServe.ResponseReadsAsAsked | blockstore/net.go:248-276 | a response is read as the same request made alone would be |
| NetSystem.NextKeeps | blockstore/net.go:149-288 | every step of client, streams and server keeps the system's invariant |
| NetSystem.ReachableInv | blockstore/net.go:149-288 | the invariant holds in every state of every run |
| NetSystem.StreamsConserve | blockstore/net.go:149-246 | what was written is served or on its way and what was answered is delivered or on its way, all in order |
| NetSystem.DeliveredCanBeTaken | blockstore/net.go:149-288 | over every run, a waiting caller whose request was served and whose response is no longer on its way can take exactly that response |
| NetSystem.AnswersAreExplained | blockstore/net.go:149-288 | every answer is the store's to the caller's own request, executed once, after it was asked and in the state left by those served before, unless the client shut down |
| NetSystem.LaterIsServedLater | blockstore/net_serve.go:41-186 | what was served stays so and a request asked later is placed after it |
| NetSystem.RealTimeOrder | blockstore/net_serve.go:41-186 | a call asked after another was answered is executed after it |
| NetSystem.ConcurrentAnswersAreLocal | blockstore/net.go:290-402 | with many callers interleaved, each answer is the one the request gets alone from the store in the state where it was served |
| TimedCache.MemPutManyKeys | blockstore/mem.go:68-91 | a put makes its multihashes present, keeps the others and stores only data put or present |
| TimedCache.MemPutManyWinner | blockstore/mem.go:68-94 | a multihash keeps the last block of the own type put, else the one there, else the first put |
| TimedCache.MemDeleteManyKeys | blockstore/mem.go:22-32 | exactly the named multihashes go |
| TimedCache.GenerationsHold | blockstore/timed.go:88-94 | each generation holds exactly the multihashes put since the latest, or the second latest, rotation and not deleted after |
| TimedCache.StoredIsGenuine | blockstore/mem.go:47-84 | a stored block has identifier and data of a put that still counts |
| TimedCache.LookupFinds | blockstore/timed.go:137-145 | found exactly when put after the second latest rotation and not deleted since, with such a put's data, under its identifier if the codec is the one asked for and under the one asked for otherwise |
| TimedCache.ListKeys | blockstore/timed.go:184-201 | each multihash not hidden is listed once, by the identifier of its block |
| TimedCache.TimedCacheBlockstore.constructor | blockstore/timed.go:34-42 | the cache starts empty |
| TimedCache.TimedCacheBlockstore.PutMany | blockstore/timed.go:106-118 | the blocks join the active generation |
| TimedCache.TimedCacheBlockstore.DeleteMany | blockstore/timed.go:172-182 | the multihashes leave both generations |
| TimedCache.TimedCacheBlockstore.Rotate | blockstore/timed.go:88-94 | the active generation becomes the inactive one |
| TimedCache.TimedCacheBlockstore.Get | blockstore/timed.go:137-145 | the lookup, with when it succeeds and what it returns |
| TimedCache.TimedCacheBlockstore.Has | blockstore/timed.go:157-166 | agrees with the lookup |
| TimedCache.TimedCacheBlockstore.GetSize | blockstore/timed.go:147-155 | the size of what the lookup returns |
| TimedCache.TimedCacheBlockstore.AllKeys | blockstore/timed.go:184-201 | each visible multihash exactly once, by an identifier that was put |

## Left out

- SyncBuckets.BucketAdd: does not merge sibling tipsets, which the program does only when told to by its environment.
- SyncBuckets.SyncBucketSet.RemoveBucket: buckets are values known by position, so removal by pointer identity is not captured.
- NetStore.NetworkStore.SendRpc: runs its three locked sections with nothing in between, because the interleavings are those of the client machine; the request counter does not wrap at 2^64.
- AutobatchStore.AutobatchBlockstore.DoFlush: runs its sections with nothing in between; each locked section is a step of the concurrent machine, which has the interleavings.
- NetSystem.AnswersAreExplained: messages on the streams are the decoded ones; that encoding and decoding change nothing is stated by the codec lemmas.
- HeaderCollection.Syncer.CollectHeaders: requires that the incoming tipset is not the head; the caller has returned before in that case.
- Worker ids and request ids are unbounded numbers.
- Worker history, state snapshots, tracing, metrics, timers and wall-clock values.
- Starting and stopping goroutines, the shutdown sequence of the autobatch store and its retry timer; only their effects appear, as events.
- Eviction from the bad-block cache and from the in-memory indexes: plain maps.
- The text of bad-block reasons beyond what it names.
- Failures of the local chain store other than a missing entry.
- Persisting headers, state validation and consensus checks after collection; what becomes of a hand-over and of the copy into the chain's blockstore is a parameter.
- The CBOR library: its limits (8192 entries, 2 MiB byte strings, 512-byte identifiers) and its canonical headers follow its published behaviour; whether identifier bytes parse is not modelled.
- Unknown fields of map-coded records are skipped by the library's scanner, which is a parameter.
- Codecs with foreign nested types: payment info, piece deal info, sector pieces.
- The texts of the server's own complaints: one stands for all, and one for the codec's.
- Failed stream writes on the server, callbacks on close, and the unsupported operations of the networked store.
- The delegating blockstores (union, buffered, identity, fallback, synchronised), the metrics, websocket and IPFS wrappers, the API declarations and the command line.
