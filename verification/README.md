# Ultramarine: a verified model of the blob lifecycle and proposal streaming

This project models the decided state of an Ultramarine validator and the life of its blobs:
proposing, receiving, restreaming, synchronising, deciding, committing, archiving and pruning, with
crashes between any two database writes and restarts. It also models the blob store over encoded
keys, the streaming of proposals, the archiver worker and the KZG inclusion proofs.

## How the model is built

- `Disk.dfy` holds the durable state. Each constructor of `Write` is one atomic transaction of the
  redb store or one put or delete of the blob store. `DiskOk` is what holds between any two writes;
  `Extends` says how the decided data may change.
- `Node.dfy` gives every operation as a chain of writes and memory updates. Its state `Exec` records
  in `points` the disk after each write: the states in which a crash can leave the node.
- `NodeState.dfy` is the node as an object. Its methods change the store and the fields step by step,
  with the loops of the program, and each ends in the state and crash points of its function in
  `Node`. `State.Handle` keeps the object sound under every promised event.
- `NodeSafety`, `NodeBlobs`, `NodeOps`, `NodeDecide` prove that every write of every operation keeps
  `DiskOk` and `Extends`. `NodeMemory`, `NodeSteps` prove that every operation, and start-up, leaves
  the memory exact. `NodeRuns` lifts both to whole runs and states what follows.
- `Trails` lists for every operation the writes it can perform, and `Traces` turns that into what a
  step of a run can change: what every allowed write keeps holds after the step, crash or not.
- `Commits`, `Cleanup` say table by table what a commit, a clean-up and start-up leave behind.
  `Lifecycle`, `Restreams`, `Rounds`, `Syncs` follow one offer (value, proposer, payload, entry, blobs)
  from where it is made, received, restreamed or synchronised to its decision, at one node and from one
  node to another. `EndToEnd`, `Custody` follow a height over whole runs, until it is archived.
- `NodeClaims`, `Replacement`, `Tracking`, `Recovery`, `Serving`, `Provenance` hold further properties
  that span operations and runs; `Chain` says what equal header roots mean for two nodes.
- `BlobFamilies.dfy` and `RoundMoves.dfy` give the blob store as two maps; `BlobKeys.dfy` and `RocksDb.dfy`
  refine them to byte keys and prefix scans.
- `Streaming.dfy`, `Proposals.dfy` cover splitting, signing, streaming and reassembly, `Binding.dfy` what
  a signature over the transcript binds; `Archiver.dfy`
  covers archive jobs and the worker; `Merkle.dfy` the inclusion proofs; `BlobMetadata.dfy` the
  metadata entry and its stored form.

## Assumptions

- Hashes, signatures, tree hashing and KZG are the function fields of `Crypto`, `Signing` and
  `Hasher`. Injectivity is assumed only where a statement says so.
- Reads and writes of the two databases succeed. A crash may fall between any two writes.
- What consensus promises is the predicate `NodeRuns.Promised`: candidates arrive only for heights that
  are not committed, a height whose metadata is decided is not synchronised again, the headers offered
  for one height and round agree, a height is decided with one value in one round and its metadata is
  promoted once, and a round is started only at a height at most one above finality.
- The execution layer is an outcome chosen freely: the payload is undecodable, refused or accepted.
  Whether a received payload decodes and passes the timestamp rules is likewise a free parameter.
- A hash set that the program iterates over is visited in key order.
- The first start height is 1, as the application announces it.
- In a `Full` synchronisation package with commitments and no sidecars the program stops with a
  panic; the model stops at the same point without accepting the package.

## What turned out false, and exactly when it holds

- Metadata survives storage if and only if every record's round is Nil or below 2^31
  (`MetadataRoundTrip`).
- After a restart the parent of the start height can be resolved if and only if the highest decided
  value has its metadata (`StartHeightResolvable`). A crash inside `commit` breaks this, since the
  decided value is stored before the metadata is promoted (`CommitCrashLeavesGap`).
- A payload outlives pruning the store if and only if its decided copy is stored or its height is not
  below the retain height (`PayloadOutlivesPrune`). `commit` promotes the metadata before it stores the
  decided copy, so a crash in between leaves a committed height whose payload is later lost, since the
  node goes on one height above it (`CommitCrashStrandsPayload`).
- A decision changes a blob that is already decided if and only if the last of the rounds it moves that
  holds the index has another blob there (`DecisionReplacesBlob`). The replay of a committed height does
  so for a stray round: with the proposal gone, the round empty and the decided blobs valid, the
  fallback of `mark_decided` overwrites them (`ReplayReplacesBlob`, `StrayOverwritesDecided`,
  `StrayExample`).
- A pruned height whose bytes are gone stays without bytes through a decision if and only if no round
  that the decision moves holds a blob of it (`PrunedStaysGone`, `StrayRefillsPruned`,
  `RefillExample`); it is never pruned again.
- Of the 2n crash points inside `mark_decided` for n blobs, the retry passes blob validation at the
  first, where one blob is copied and none deleted, at the last if the decided family held no other
  index of the height, and at no other (`PartialPromotionBlocksRetry`). A whole promotion over leftover
  decided blobs is likewise not repeatable (`PromotionBacksBlock`).
- A height taken over without its blobs is stored and pruned as documented (`PrunedPackagePrunes`), but
  its blob check passes if and only if no hashes are expected or the blobs stored before already carry
  them (`PrunedSyncBacking`). Without blobs it is never decided, in any run, unless a candidate of the
  round still brings them (`PrunedSyncNeverDecides`); the comment at crates/node/src/app.rs:966-981 says
  the receiver can import the block.
- After a crash between the two writes of a notice, record and entry agree on the blob hash if and only
  if the entry knew its hash before or the notice carries the placeholder (`CrashForgetsHash`); neither
  changes ever after (`RecordedHashFixed`).
- Restreaming stores blobs without tracking their round, so tracking stays complete if and only if one
  of the guards of the restream fails or the round was tracked already (`RestreamTracked`); tracking
  does not survive a restart (`RestartTracked`).
- Repeating `mark_decided` is a no-op if and only if no other round was left behind
  (`MarkDecidedTwice`), and a block without blobs keeps an empty decided family if and only if no round
  of its height holds blobs (`BloblessDecisionTakesStrays`).
- A restreamed proposal that names another proposer is signed by the restreaming node, so it is accepted
  if and only if that proposer's key accepts the signature (`SignedVerifies`). Its blobs are signed by the
  restreaming node under the index that the entry names, so they verify at another node if and only if
  the entry names the restreaming node, or nobody (`RestreamedIsVerified`).
- A received proposal whose sidecars verify can be decided if and only if no index occurs twice among them
  (`ReceivedSuffices`): `verify_blob_sidecars` checks each index against the value, but not that the
  indices differ, and the later one overwrites the earlier one in the store.
- A full package stores its sidecars before it verifies them. One that is rejected leaves none behind
  (`RejectedExactly`), but a crash in between does, so the stored blobs are all genuine as long as no
  crash falls into the take-over of sidecars that are not (`StoredBlobsGenuine`).
- The branch that removes a finished stream is never taken, which is what prevents a second delivery
  (`NeverDoneAfter`, `NeverTwice`).

## Model

| member | source | states |
|---|---|---|
| NodeRuns.NoBlobLost | crates/consensus/src/state.rs:1365-1423 | in every run with crashes between any two writes, once all blobs of a decided height are stored, at every later moment every index has an archive record or all places are still taken: in a committed height only by blobs that were there for that place, and by the same blobs if no undecided one differed |
| NodeRuns.SettledBlobsStay | crates/consensus/src/state.rs:1393-1423 | decided blobs of a committed height without undecided blobs never change; one that is gone has its height archived |
| NodeRuns.PrunedBytesGone | crates/consensus/src/state.rs:1393-1423 | a settled height that has been marked pruned holds none of its blobs, between any two writes, and never gets one back |
| EndToEnd.BytesExact | crates/consensus/src/state.rs:482-519 | bytes are deleted exactly when that is safe: in every running state after a final height was settled, its bytes are all gone if every blob is archived, and otherwise all there, unchanged |
| BlobReplacement.DecideMoves | crates/consensus/src/state.rs:2016-2144 | a decision moves exactly the rounds named by the state it starts in; what follows removes at most blobs of pending heights that are not marked pruned yet |
| BlobReplacement.DecisionReplacesBlob | crates/consensus/src/state.rs:2016-2144 | a decision changes a decided blob iff the last moved round that holds its index has another blob there, and never one of another height |
| BlobReplacement.ReplayReplacesBlob | crates/consensus/src/state.rs:2816-2860 | for a committed height with an empty round: a decided blob changes iff the decision is accepted with the proposal gone, the decided blobs back the block and the last round in key order that holds the index differs |
| BlobReplacement.StrayOverwritesDecided | crates/consensus/src/state.rs:2816-2860 | the input: an accepted replay with one stray round overwrites a valid decided blob by the stray |
| BlobReplacement.StrayExample | crates/consensus/src/state.rs:2816-2860 | a concrete sound state of that kind, and the decision that replaces its blob |
| Traces.ChangeNeedsDecision | crates/consensus/src/state.rs:2016-2144 | in every step, crash points included, a decided blob of a committed height changes only by a decision of that height that passes the blob check, and only into a blob some round held at its index |
| BlobReplacement.PrunedStaysGone | crates/consensus/src/state.rs:2119-2135 | a pruned height without bytes keeps none through a decision iff no moved round holds a blob of it |
| BlobReplacement.StrayRefillsPruned | crates/consensus/src/state.rs:2119-2135 | the input: deciding a pruned height whose payload lists no blobs, with a stray in another round, stores the stray's bytes again |
| BlobReplacement.RefillExample | crates/consensus/src/state.rs:2119-2135 | a concrete sound pruned state whose repeated decision stores bytes again |
| Traces.RefillNeedsDecision | crates/consensus/src/state.rs:2016-2144 | in every step, crash points included, bytes come back to a height without bytes only by a decision of it that passes the blob check |
| NodeRuns.PruningIsExact | crates/consensus/src/state.rs:482-519 | in every running state a decided height with blobs is pruned iff fully archived and final, final iff at or below the highest finalized one or below the current height, and pending iff fully archived and not pruned |
| NodeRuns.ChainGapless | crates/consensus/src/state.rs:973-985 | decided heights are a gapless prefix ending at the latest pointer, every decided or undecided entry above genesis carries the header root of the decided entry below, and the cached root is that of the cached height |
| HeaderChain.RootsBind | crates/types/src/blob_metadata.rs:253-262 | under collision-free hashes two entries have the same header root iff they agree on height, parent root, state root, commitments, execution header and proposer index |
| HeaderChain.ChainsAgree | crates/consensus/src/state.rs:973-985 | two sound stores with the same header root at one height agree on every entry up to it |
| HeaderChain.NodesAgree | crates/consensus/src/state.rs:973-985 | two nodes, at any moments of any runs of theirs, with the same header root at a height have the same decided headers at every height up to it |
| NodeRuns.RecordsWriteOnce | crates/consensus/src/state.rs:1264-1368 | an archive record never changes once stored, was signed by a validator and matches the decided commitment, and the decided blob hash unless that is still the placeholder |
| NodeRuns.RecordsByProposer | crates/consensus/src/state.rs:1294-1304 | in every state of every run each archive record was signed by a validator and, where the entry of its height names a validator as proposer, made by that one |
| ArchiveCompletion.NoticeChangesExactly | crates/consensus/src/state.rs:1264-1391 | a notice is recorded iff it is welcome, made by the height's proposer included, and its index has no record yet; otherwise neither store nor memory changes |
| NodeRuns.PrunedServesLocators | crates/consensus/src/state.rs:371-397 | a pruned height yields exactly one locator per blob, in index order, from the record table |
| NodeRuns.CommittedPayloadStable | crates/consensus/src/store.rs:416-531 | the payload read for a committed height and round never changes; it can only be lost, and not once the decided copy is stored |
| Traces.ValuePayloadStable | crates/consensus/src/store.rs:416-531 | from the moment its value is stored, and as long as its payload can be read, the payload of a height never changes |
| Recovery.PayloadOutlivesPrune | crates/consensus/src/store.rs:339-371 | for a height with a value the payload survives pruning the store iff its decided copy is stored or the height is not below the retain height |
| Recovery.CommitCrashStrandsPayload | crates/consensus/src/state.rs:2643-2743 | the input: a crash after the metadata is promoted leaves a sound store with value and metadata but no decided payload; the node starts one height above, with a resolvable parent, and pruning beyond the height loses the payload |
| NodeRuns.RunSound | crates/consensus/src/state.rs:443-519 | every state of every run meets the durable invariant, and while the node runs its memory is exact |
| NodeRuns.RunExtends | crates/consensus/src/store.rs:675-864 | between any two moments of a run values, decided payloads, records and metadata are only extended, decided blobs are kept or archived, a committed height gets no blob it did not hold, pruned settled heights have lost their bytes, committed payloads do not change, and hashes change at most once and together with a record |
| NodeRuns.EventSafe | crates/node/src/app.rs:187-814 | every promised event keeps the durable invariant at each of its writes and leaves memory exact |
| DiskInvariant.WriteSafe | crates/consensus/src/store.rs:262-913 | each guarded atomic write keeps the durable invariant and extends the decided data |
| NodeSteps.RestartExact | crates/consensus/src/state.rs:443-480 | start-up from any store a crash can leave rebuilds both pending sets as a function of the store, sets finality to the highest decided value and the cache to the latest entry |
| NodeMemory.HandleNoticeExact | crates/consensus/src/state.rs:1264-1391 | handling any notice leaves pruning exact |
| NodeMemory.FlushPrunesExact | crates/consensus/src/state.rs:493-519 | a flush from exact pending sets prunes exactly the pending heights at or below finality and changes no header or cache |
| NodeMemory.RehydrateHeightsExact | crates/consensus/src/state.rs:443-480 | visiting the decided heights makes the pending sets exact on those visited, whatever half-finished pruning the crash left |
| NodeOps.HandleNoticeFrame | crates/consensus/src/state.rs:1264-1391 | a notice touches no undecided data, value, block, pointer or cache, and removes decided blobs at most |
| NodeSafety.HandleNoticeSafe | crates/consensus/src/state.rs:1264-1391 | between the record write, the entry write, each blob delete and the pruned mark the store is sound |
| NodeSafety.PruneHeightSafe | crates/consensus/src/state.rs:1393-1423 | pruning a fully archived final height is safe at every delete |
| NodeOps.ProposeSafe | crates/consensus/src/state.rs:2980-3070 | proposing keeps every write point sound and extends the chain |
| NodeOps.ReceiveSafe | crates/consensus/src/state.rs:1167-1262 | receiving with or without blobs keeps every write point sound |
| NodeOps.RestreamSafe | crates/node/src/app.rs:267-544 | replicating a proposal into a new round keeps every write point sound |
| NodeSteps.ProposeQuiet | crates/consensus/src/state.rs:2980-3070 | proposing changes no decided table, pointer, cache or pending set |
| NodeSteps.ReceiveQuiet | crates/consensus/src/state.rs:1167-1262 | receiving changes no decided table, pointer, cache or pending set |
| NodeDecide.SyncFullSafe | crates/consensus/src/state.rs:1530-1841 | taking over or rejecting a full package keeps every write point sound |
| NodeDecide.SyncMetadataSafe | crates/consensus/src/state.rs:1842-2014 | taking over a package without blobs keeps every write point sound |
| NodeDecide.DecideSafe | crates/consensus/src/state.rs:2016-2144 | deciding keeps every write point sound, whatever the execution layer answers |
| NodeDecide.CommitFirstSafe | crates/consensus/src/state.rs:2512-2928 | the first commit of a height keeps every write point sound |
| NodeSteps.DecideExact | crates/consensus/src/state.rs:2512-2928 | a decision leaves pruning and cache exact for the new finality |
| NodeSteps.SyncExact | crates/consensus/src/state.rs:1520-2014 | accepting or rejecting a package leaves pruning and cache exact |
| NodeSteps.AdoptedCache | crates/consensus/src/state.rs:1714-1813 | after taking over an entry the cached root is right iff the promoted first writer's entry has the offered header |
| NodeState.State.constructor | crates/consensus/src/state.rs:559-656 | start-up from any sound store yields a sound object, with a sound store at every crash point |
| NodeState.State.Handle | crates/node/src/app.rs:187-814 | every promised event keeps the object sound and the store sound and extended at every crash point |
| NodeState.State.HandleArchiveNotice | crates/consensus/src/state.rs:1264-1391 | ends in the state and crash points of its specification and, from a sound state, sound at its end and at every crash point |
| NodeState.State.ProcessSyncedPackage | crates/consensus/src/state.rs:1520-2014 | every accepting and rejecting path with its clean-up: from a sound state and a promised package sound at its end and at every crash point |
| NodeState.State.Decided | crates/consensus/src/state.rs:2016-2144 | validation, promotion and commit with their early exits: from a sound state and a promised decision sound at its end and at every crash point |
| NodeState.State.ProposeValueWithBlobs | crates/consensus/src/state.rs:2980-3070 | from a sound state, for a height that is not committed, sound at its end and at every crash point |
| NodeState.State.ReceivedProposal | crates/consensus/src/state.rs:1167-1262 | from a sound state, for a height that is not committed, sound at its end and at every crash point |
| NodeState.State.RestreamProposal | crates/node/src/app.rs:267-544 | from a sound state, for a height that is not committed, sound at its end and at every crash point |
| NodeState.State.StartedRound | crates/consensus/src/state.rs:687-800 | from a sound state, for a height at most one above finality, sound at its end and at every crash point |
| SyncSoundness.FullPackageAccepted | crates/consensus/src/state.rs:1530-1841 | a full package is accepted iff it meets the listed conditions, so the later parent-root comparison never fails; a rejected one changes no decided blob, metadata, pointer or cache |
| SyncSoundness.AcceptedSidecars | crates/consensus/src/state.rs:1554-1712 | an accepted package with n sidecars has exactly the indices 0..n-1, each with the value's commitment |
| SyncedHeights.SyncTakesOver | crates/consensus/src/state.rs:1530-1841 | an acceptable full package for a vacant height is taken over as offered: payload, proposal, entry and cache, and above finality exactly its blobs, decided |
| SyncedHeights.SyncedIsDecided | crates/consensus/src/state.rs:1520-2144 | over runs: an acceptable full package for a vacant height above finality and then an accepted decision commit the height as the package offers it |
| SyncedHeights.TakenBlobsStay | crates/consensus/src/state.rs:2016-2144 | the decision of a height taken over leaves exactly the offered blobs decided, or the height archived |
| SyncedHeights.ServedIsAccepted | crates/node/src/app.rs:928-943 | the listed blobs, value and payload of a trusted proposer's height pass every check at another node with the same parent, which then holds the proposer's offer |
| Provenance.VerifiedGenuine | crates/consensus/src/state.rs:3470-3600 | verified sidecars are for the height, signed by the validator they name, who is the proposer, with the parent's root, the value's body root and a valid inclusion proof |
| Provenance.StoredBlobsGenuine | crates/consensus/src/state.rs:3470-3600 | in every run every stored blob carries a header for its height that the validator it names has signed, as long as blobs are restreamed by their own proposer and no crash falls into taking over other sidecars |
| Provenance.RejectedExactly | crates/consensus/src/state.rs:1530-1712 | what a rejected full package leaves, table by table: its payload if the round had none, a round without blobs unless they failed the KZG check, and no entry of the round if a sidecar does not match the value |
| DecisionClaims.PromotionBacksBlock | crates/consensus/src/state.rs:2058-2144 | past a promotion that the execution layer refuses, the decided listing has the block's hashes in order, and a retry passes validation again, iff the decided family held no index outside the round; the retry moves nothing |
| DecisionClaims.PartialPromotionBlocksRetry | crates/consensus/src/state.rs:2069-2106 | of the 2n crash points of a promotion, validation passes again exactly at the first, and at the last iff the decided family held no other index |
| BlobReplacement.BloblessDecisionTakesStrays | crates/consensus/src/state.rs:2119-2135 | deciding a block without blobs, refused or accepted, leaves the decided family of its height empty iff no round of the height holds blobs |
| Traces.BlobsChangeOnlyValidated | crates/consensus/src/state.rs:2058-2115 | validate before promote, in every step and at every crash point: unless the height is synchronised or a decision of it passes the blob check, no decided blob of it is added or changed, and no undecided one is touched except by a candidate or a round change |
| DecisionClaims.PromotionKeepsCandidates | crates/consensus/src/state.rs:2069-2082 | the blobs offered for validation are the same before and after promotion |
| EndToEnd.ProposedIsArchived | crates/consensus/src/state.rs:1264-3070 | from proposal to pruning, over every run with crashes and restarts: a height the node proposed and later decided, whose archive job was built then or later and succeeded and whose notices were handled at any later steps, is archived and pruned in every running state from then on, and its bytes are gone if the decision left no stray |
| EndToEnd.ProposedIsDecided | crates/consensus/src/state.rs:2512-3070 | what a node proposes it can decide, after any events, crashes and restarts that spare the round: the accepted decision commits the proposed value, proposer, payload, entry and blobs, and the height is final |
| EndToEnd.RestreamedIsDecided | crates/node/src/app.rs:267-544 | a proposal that its proposer restreams into another round can be decided there, and is then committed with the very blobs, entry and payload of the first round |
| EndToEnd.ReceivedIsDecided | crates/consensus/src/state.rs:1167-1262 | what a node receives it can decide: after any events, crashes and restarts that spare the round, the accepted decision commits exactly the received value, proposer, payload, entry and blobs |
| EndToEnd.FollowerDecides | crates/consensus/src/state.rs:1167-3070 | two nodes: what one proposes and another with the same parent receives, the follower decides, and holds the same value, payload, entry and blobs as the proposer's offer |
| Lifecycle.ReadyProposed | crates/consensus/src/state.rs:2980-3070 | a proposal leaves its round holding exactly this payload, proposal, entry and numbered blobs, and these back its block |
| Lifecycle.ReadyReceived | crates/consensus/src/state.rs:1167-1262 | a received proposal leaves its round holding exactly this payload, a proposal with this proposer and these commitments, the entry, and these blobs |
| Lifecycle.ReceivedSuffices | crates/consensus/src/state.rs:3470-3600 | a received proposal backs its block iff no index occurs twice among its sidecars |
| Restreams.ReceivedExactly | crates/consensus/src/state.rs:1167-1262 | a received proposal for a blank round is stored iff it assembled, its height is not past, the parent is known and its blobs verify; otherwise nothing changes |
| Restreams.ProposedExactly | crates/consensus/src/state.rs:2980-3070 | proposing in a blank round always stores the proposal, entry and payload iff the parent is known, and blobs only if the node is a validator whose blobs pass the KZG check |
| Lifecycle.ProposedIsVerified | crates/consensus/src/state.rs:3470-3600 | the sidecars one node proposes verify at every other node with the same parent |
| Lifecycle.OffersAgree | crates/consensus/src/state.rs:1167-1262 | value, payload, entry and blobs that a node stores for another's proposal equal those of the proposer |
| Lifecycle.SignedHeaderIsEntry | crates/consensus/src/state.rs:948-985 | the header a proposer signs hashes to the header root of the entry it stores |
| Restreams.RestreamedIsReady | crates/node/src/app.rs:428-544 | restreaming a ready round makes another one ready with the same value, payload, entry and blobs under a new signature, leaves the first alone, and the copy backs its block iff the first does |
| Restreams.AdoptedRestreams | crates/consensus/src/state.rs:2479-2495 | a round whose entry is already decided is restreamed under that entry and without blobs if the height has none or they are pruned; otherwise nothing changes |
| Restreams.OwnRestreamed | crates/consensus/src/state.rs:1100-1165 | a proposer that restreams its own proposal repeats it exactly, headers, signatures and inclusion proofs included |
| Restreams.RestreamedIsVerified | crates/consensus/src/state.rs:1100-1165 | restreamed blobs verify at another node iff the entry names the node that restreams, or nobody |
| ReadyRounds.ReadyIsDecidedLater | crates/consensus/src/state.rs:2016-2144 | a round that is ready at any moment is committed as offered by any later accepted decision, after any events that spare it |
| Commits.CommitEffect | crates/consensus/src/state.rs:2512-2928 | the first commit of a height, table by table: value, consensus metadata, promoted entry, decided payload, what the retain height prunes, and the memory |
| Commits.CommitRetains | crates/consensus/src/state.rs:2704-2737 | a commit removes no proposal and no payload from the retain height on |
| Commits.ReplayEffect | crates/consensus/src/state.rs:2816-2928 | a commit whose proposal is gone but whose value is stored is completed: entry and blobs of the round are promoted and the height is final |
| ReadyRounds.RoundSurvives | crates/consensus/src/state.rs:687-800 | over any stretch of a run whose events spare the round, it keeps its proposal, payload, metadata and blobs, and the height stays undecided |
| EndToEnd.FinalStays | crates/consensus/src/state.rs:482-491 | once a running node knows a decided height as final it does so in every later running state, also after crashes and restarts |
| BlobTracking.RunTracked | crates/consensus/src/state.rs:687-800 | in every run, with crashes and restarts, each round with undecided blobs is tracked as long as no step restreams blobs into an untracked round and no start-up finds undecided blobs |
| BlobTracking.CleanupIsExact | crates/consensus/src/state.rs:687-800 | clean-up removes exactly the tracked rounds below the current one minus 3, from store and tracking, and no other blob |
| CleanUps.StartRoundEffect | crates/consensus/src/state.rs:687-800 | entering a round removes proposals, payloads, metadata and blobs of exactly the tracked rounds below it minus 3, stops tracking them, and moves the node to the height and round |
| CleanUps.CommitDropsOrphans | crates/consensus/src/state.rs:2742-2814 | a first commit removes the undecided metadata of exactly the other tracked rounds of the height |
| BlobTracking.DecideTracked | crates/consensus/src/state.rs:2742-2814 | a decision keeps tracking complete, and after the first commit no undecided blob of the height remains |
| BlobTracking.RestreamTracked | crates/node/src/app.rs:428-544 | restreaming keeps tracking complete iff one of its guards fails or the round was tracked already |
| BlobTracking.RestartTracked | crates/consensus/src/state.rs:443-480 | after a restart tracking is complete iff no undecided blob was left |
| Recovery.StartHeightResolvable | crates/node/src/app.rs:157-162 | the parent of the start height resolves iff the highest decided value has decided metadata |
| CleanUps.RestartTables | crates/consensus/src/state.rs:559-640 | start-up removes exactly the undecided metadata below the first height, seeds the genesis entry only without a newest one, and leaves every table but decided blobs and entries alone |
| Recovery.CommitCrashLeavesGap | crates/consensus/src/state.rs:2512-2688 | a crash after the first write of commit leaves a sound store whose start height has no parent root |
| Recovery.NoticeLearnsHash | crates/consensus/src/state.rs:1320-1368 | a notice handled to the end leaves its record and its blob hash |
| Recovery.CrashForgetsHash | crates/consensus/src/state.rs:1365-1368 | at the crash point between the two writes of a notice record and entry agree on the hash iff the entry knew it before or the notice carries the placeholder |
| Recovery.RecordedHashFixed | crates/consensus/src/state.rs:1320-1368 | in every run, once an index has its record neither the record nor the hash of its entry changes again |
| Recovery.ArchivedOnce | crates/consensus/src/state.rs:1330-1352 | in every run, once an index has its record no notice about it changes store or memory |
| Recovery.PrunedSyncBacking | crates/consensus/src/state.rs:1842-2014 | after a package without blobs is accepted the blob check passes iff no hashes are expected or the blobs stored before already carry them |
| Recovery.PrunedSyncNeverDecides | crates/consensus/src/state.rs:1842-2014 | in every run a height that expects blobs and was taken over without any never gets a decided value, unless a candidate of its round brings the blobs or another round is decided |
| Recovery.RetainHeightBound | crates/consensus/src/state.rs:2704-2737 | the retain height exceeds neither the committed height nor any height waiting for its archive, and otherwise keeps the window |
| Custody.OwnStartsWaiting | crates/consensus/src/state.rs:2405-2420 | over every run: right after the accepted decision of a height the node proposed, with the archiver on, the height waits for its archive and is not archived |
| Custody.ProposedWaits | crates/consensus/src/state.rs:2405-2420 | from proposal to archive: in every running state after that decision, crashes and restarts included, the height waits or is archived, waits iff it is not archived if the decision left no stray, and no retain height exceeds it until then |
| Custody.FollowerDoesNotWait | crates/consensus/src/state.rs:2405-2420 | a height that another node proposed does not start waiting by its decision |
| Custody.ReadyWaits | crates/consensus/src/state.rs:2405-2420 | deciding a ready round with blobs and the archiver on makes the height wait iff the proposer is this node |
| Custody.OnlyOwnWait | crates/consensus/src/state.rs:2405-2420 | in every step of a running node a height starts to wait only by an accepted decision of a proposal that names this node, with the archiver on |
| Custody.WaitsUntilArchived | crates/consensus/src/state.rs:2704-2737 | a committed own height that waits or is archived does so in every later running state, and until it is archived no retain height exceeds it |
| Custody.WaitingIsRetained | crates/consensus/src/state.rs:2704-2737 | while a height waits, no decision removes or changes a proposal or a payload of it |
| Recovery.PruneIsExact | crates/consensus/src/store.rs:339-371 | prune removes exactly the undecided proposals and payloads below the retain height and no decided data |
| Traces.FirstProposalWins | crates/consensus/src/store.rs:262-285 | over every stretch of a run in which a round keeps a proposal, it is the same one |
| Traces.FirstPayloadWins | crates/consensus/src/store.rs:467-491 | over every stretch of a run in which a round keeps a payload, it is the same one |
| Traces.FirstMetadataWins | crates/consensus/src/store.rs:608-641 | over every stretch of a run in which a round keeps undecided metadata and is not synchronised, it is the same |
| Serving.PrunedIsServedFromRecords | crates/node/src/app.rs:865-1043 | in every run a height with a value is answered without blobs iff it is pruned or its payload cannot be read, which the decided copy rules out; a pruned one with all records in index order |
| Serving.ServedInFull | crates/node/src/app.rs:928-943 | in every run a settled height that is neither pruned nor archived is answered with its committed value, its payload and exactly its blobs in index order |
| Serving.PrunedPackagePrunes | crates/consensus/src/state.rs:1842-2014 | a height taken over from a peer's records is fully archived here: pruned at once, with its bytes gone, iff final, otherwise pending |
| Serving.NoticesOfArchived | crates/consensus/src/state.rs:357-360 | the notices of an archived height are one per blob in index order |
| ArchiveCompletion.NoticesComplete | crates/consensus/src/state.rs:1264-1391 | over every run: once a notice for each index was handled while acceptable, with any events, crashes and restarts in between, the height is archived, every running state in which it is final has it pruned and not pending, and its bytes are gone if it was settled before |
| ArchiveCompletion.WelcomeStays | crates/consensus/src/state.rs:1264-1352 | a notice that is acceptable stays so along a run, or its index is recorded by then |
| ArchiveCompletion.CoveredIsRecorded | crates/consensus/src/state.rs:1264-1391 | an index with an acceptable notice in the list is recorded after the list is handled |
| ArchiveJobs.BuildArchiveJob | crates/consensus/src/state.rs:1434-1483 | a job exists iff some decided blob has no record, and lists exactly those blobs in ascending order with their commitment and hashes |
| ArchiveFlow.StoreKeysMatch | crates/blob_engine/src/store/rocksdb.rs:173-205 | every decided blob is stored under its own index, which building a job relies on |
| ArchiveJobs.ProcessJob | crates/node/src/archiver.rs:289-443 | notices are sent in job order up to the first failure, each with the commitment and hash of its own blob and the locator that its upload returned, and the job succeeds iff there is none |
| ArchiveJobs.UploadsDecided | crates/node/src/archiver.rs:360-443 | for the job of a height, the blob uploaded under an index is the decided blob of that index, and the announced hash and commitment are its own |
| Archiver.ArchiverWorker.Run | crates/node/src/archiver.rs:159-223 | over any wake-ups, jobs received are those succeeded plus those queued, and the worker stops only with an empty queue and every job succeeded |
| Archiver.ArchiverWorker.RetryDue | crates/node/src/archiver.rs:170-179 | the retry loop ends, loses no job and leaves no due entry at the front |
| Archiver.ArchiverWorker.ProcessWithRetry | crates/node/src/archiver.rs:226-283 | an attempt either succeeds or queues the job at the back for a later time |
| Archiver.BackoffDoubles | crates/node/src/archiver.rs:269-274 | the first delay is the configured one, and each further failure doubles it up to 60000 milliseconds, for any number of failures |
| ArchiveFlow.JobCompletes | crates/node/src/archiver.rs:289-443 | over every run: once the notices of a successful job are handled at any later steps, the height is archived, pruned in every running state in which it is final, and its bytes are gone if it was settled when the job was built |
| ArchiveFlow.BackedStays | crates/consensus/src/state.rs:1434-1483 | a settled height whose unrecorded blobs carry the commitments and hashes of its entry stays so along a run |
| ArchiveFlow.RecoverPendingArchiveJobs | crates/consensus/src/state.rs:812-880 | start-up rebuilds one job for every height that calls for one, in ascending order, and no other |
| ArchiveFlow.OwedIsRecovered | crates/consensus/src/state.rs:443-480 | with its blobs, proposer hint and round on record, a height waits for its archive iff a job is rebuilt for it |
| KeyedFamilies.ScanPrefix | crates/blob_engine/src/store/rocksdb.rs:118-140 | a seek and break scan returns exactly the keys with the prefix, in order |
| KeyedFamilies.RoundScan | crates/blob_engine/src/store/rocksdb.rs:118-140 | the scan of a round is the round's list of blobs by index |
| KeyedFamilies.HeightScan | crates/blob_engine/src/store/rocksdb.rs:118-140 | the scan of a height is all its rounds in key order, each by index |
| RocksDb.RocksDbBlobStore.PutUndecidedBlobs | crates/blob_engine/src/store/rocksdb.rs:173-205 | the store then stands for the map with the blobs written over it |
| RocksDb.RocksDbBlobStore.GetUndecidedBlobs | crates/blob_engine/src/store/rocksdb.rs:207-249 | returns the round's blobs in index order |
| RocksDb.RocksDbBlobStore.MarkDecided | crates/blob_engine/src/store/rocksdb.rs:251-318 | moves as the two-map model moves, and returns the number of entries removed and their bytes |
| RocksDb.RocksDbBlobStore.GetDecidedBlobs | crates/blob_engine/src/store/rocksdb.rs:320-352 | returns the height's decided blobs in index order |
| RocksDb.RocksDbBlobStore.DropRound | crates/blob_engine/src/store/rocksdb.rs:354-405 | removes exactly the round's undecided blobs and returns their number and bytes |
| RocksDb.RocksDbBlobStore.DeleteArchived | crates/blob_engine/src/store/rocksdb.rs:407-427 | removes exactly the listed indices of the height |
| RocksDb.RocksDbBlobStore.PruneBefore | crates/blob_engine/src/store/rocksdb.rs:437-477 | removes exactly the decided blobs below the height and returns their number |
| RoundMoves.MarkDecidedRemoves | crates/blob_engine/src/store/rocksdb.rs:268-300 | exactly the requested round leaves the undecided family or, if it holds nothing, every round of the height |
| RoundMoves.MarkDecidedStores | crates/blob_engine/src/store/rocksdb.rs:283-300 | a decided index takes the blob of the last moved round in key order that holds it, and keeps its own otherwise |
| RoundMoves.MarkDecidedFrame | crates/blob_engine/src/store/rocksdb.rs:251-318 | other heights are untouched in both families |
| RoundMoves.MarkDecidedTwice | crates/blob_engine/src/store/rocksdb.rs:251-318 | a repeated call is a no-op iff the requested round was empty or the only one |
| NodeBlobs.PromoteBlobsEffect | crates/blob_engine/src/store/rocksdb.rs:283-300 | moving entry by entry, put before delete, ends where moving whole rounds ends |
| BlobKeys.UndecidedKeyCodec | crates/blob_engine/src/store/mod.rs:33-61 | undecided keys encode and decode inversely in both directions |
| BlobKeys.DecidedKeyCodec | crates/blob_engine/src/store/mod.rs:42-72 | decided keys encode and decode inversely in both directions |
| BlobKeys.PrefixMeans | crates/blob_engine/src/store/rocksdb.rs:157-169 | a key starts with a prefix iff it belongs to that height, or height and round |
| BlobKeys.UndecidedKeyOrder | crates/blob_engine/src/store/mod.rs:33-39 | keys of a height sort by round with Nil last, then by index |
| Encoding.PrefixContiguous | crates/blob_engine/src/store/rocksdb.rs:129-137 | after the first key beyond a prefix no later key has it |
| Streaming.SentIsDelivered | crates/consensus/src/streaming.rs:75-147 | whatever the order, repeats and other streams, an insertion returns the parts in order iff it is the last missing message |
| Streaming.DeliveredOnce | crates/consensus/src/streaming.rs:75-147 | once every message has arrived exactly one insertion has returned the parts |
| Streaming.NeverTwice | crates/consensus/src/streaming.rs:125-146 | no stream of any kind, well-formed or not, is delivered twice |
| Streaming.NeverDoneAfter | crates/consensus/src/streaming.rs:139-143 | after an insertion the stream is never done, so it is never removed |
| PartStreams.StreamState.Drain | crates/consensus/src/streaming.rs:55-63 | popping by least sequence number gives the data in sequence order |
| PartStreams.StreamState.Insert | crates/consensus/src/streaming.rs:80-104 | one stream's new state and result are those of the specification |
| PartStreams.PartStreamsMap.Insert | crates/consensus/src/streaming.rs:125-146 | the whole map and the result are those of the specification, with no sharing between streams |
| Proposals.MakeProposalParts | crates/consensus/src/state.rs:3135-3210 | the parts are the chunks, sidecars and a signature over the transcript that a verifier computes from them |
| Proposals.VerifyProposalSignature | crates/consensus/src/state.rs:3718-3767 | the verdict in every case: notice inside, no signature, unknown proposer, bad or good signature |
| Proposals.AcceptedMeans | crates/consensus/src/state.rs:3718-3767 | a proposal is accepted iff it holds no notice and the key of the proposer it names accepts its last signature over all its parts |
| TranscriptBinding.TranscriptBinds | crates/consensus/src/state.rs:3718-3760 | part lists of the same shape have the same transcript iff they agree on every signed field: height, round, payload bytes, requests and, per sidecar, index, blob, commitment and proof |
| TranscriptBinding.AlteredIsRefused | crates/consensus/src/state.rs:3718-3767 | under an injective digest and a key that accepts only the signed digest, a proposal altered on the way within its shape is accepted iff every signed field is as it was made |
| TranscriptBinding.MadeTranscript | crates/consensus/src/state.rs:3135-3210 | what is signed does not depend on how the payload is cut: height and round, the requests, the payload and the sidecars, in this order |
| TranscriptBinding.MadeBinds | crates/consensus/src/state.rs:3135-3210 | two made proposals with equal sizes and equal transcripts have the same height, round, payload, requests and signed fields of every sidecar |
| Proposals.SignedVerifies | crates/consensus/src/state.rs:3135-3210 | a made proposal is accepted iff the named proposer is a validator whose key accepts the sender's signature |
| Proposals.AssembleParts | crates/consensus/src/state.rs:3234-3261 | payload, requests and sidecars are collected in order, mismatched or invalid requests refused |
| Proposals.RequestsAgree | crates/consensus/src/state.rs:3234-3261 | the requests are collected iff all parts that carry some carry the same list |
| Proposals.SplitThenAssemble | crates/consensus/src/state.rs:3135-3261 | splitting and assembling is the identity for every payload, request list and sidecar list, empty or not |
| Proposals.ValidateExecutionRequests | crates/consensus/src/state.rs:3686-3714 | accepted iff at most 64 requests, each with type and payload, with strictly increasing types |
| Proposals.HashExecutionRequests | crates/consensus/src/state.rs:3674-3684 | feeds the count and each length and request, or nothing for no requests |
| Proposals.ChunksAreFull | crates/consensus/src/state.rs:3158-3176 | every chunk of a payload is non-empty and at most 128 KiB, only the last may be shorter, and only the first carries the requests |
| Proposals.StreamProposal | crates/consensus/src/state.rs:3111-3123 | message i carries part i and the last is the closing message |
| Proposals.StreamIdsDiffer | crates/consensus/src/state.rs:3072-3079 | stream ids agree iff height, round and nonce do |
| Proposals.ProposalArrives | crates/consensus/src/state.rs:3090-3261 | a streamed proposal is delivered with its last missing message, accepted, and assembled to the same payload, requests and sidecars |
| Merkle.MerkleRootFromBranch | crates/consensus/src/state.rs:3782-3796 | the loop computes the bit-indexed fold |
| Merkle.ReconstructRoots | crates/consensus/src/state.rs:3798-3841 | the list root and the body root as one 17-level fold, or an error iff proof length or index is out of range |
| Merkle.StagedFold | crates/consensus/src/state.rs:3798-3841 | 13 siblings at index i and then 4 at index 11 fold as 17 at i + 11 * 2^13 |
| Merkle.BranchLeadsToRoot | crates/consensus/src/state.rs:3782-3796 | a branch taken from a perfect tree folds from its leaf to the root |
| Merkle.FoldInjective | crates/consensus/src/state.rs:3782-3796 | under an injective pair hash equal roots at equal index and depth force equal leaf and branch |
| Merkle.GeneratedProofVerifies | crates/types/src/ethereum_compat/merkle.rs:219-315 | every generated inclusion proof verifies against the body root |
| Merkle.VerifiedProofIsSound | crates/types/src/ethereum_compat/merkle.rs:273-315 | under an injective hash a verifying proof is the generated one for the commitment at that index |
| MetadataCodec.MetadataRoundTrip | crates/types/src/blob_metadata.rs:386-478 | decoding the encoded entry gives it back iff every record's round is Nil or below 2^31 |
| MetadataCodec.FromProto | crates/types/src/blob_metadata.rs:386-449 | the slot-filling loop decodes as specified, with its error cases |
| MetadataCodec.NoticeRoundTrip | crates/types/src/archive.rs:147-173 | a notice survives iff its round fits the signed 32-bit field |
| BlobMetadata.New | crates/types/src/blob_metadata.rs:121-153 | a new entry has matching lengths and no archive state |
| BlobMetadata.LocatorsInOrder | crates/consensus/src/state.rs:380-390 | a fully archived entry yields one locator per index, in order |

## Left out

- KZG, Ed25519, SHA-256, Keccak, SSZ hashing and protobuf bytes: foreign code, uninterpreted here; the
  metadata codec is modelled at message level.
- Engine API client, transports, timers and retries towards the execution layer: network plumbing.
- HTTP upload of the archiver: an upload succeeds with a locator or fails.
- `prune_archived_before` at engine level: a manual operation that does not check archive status; the
  store's `PruneBefore` is modelled, but not as an event of a run.
- Proposer rotation, timestamp rules, and request validation inside synchronisation: small rules that
  would only add easy members.
- Heights are unbounded in `Node`; the 64-bit width matters, and is modelled, only in keys and
  transcripts. A sequence number of 2^64 - 1, where the announced length would overflow, is not modelled.
- Errors of the databases, and the metrics and logs of all components.
- JobCompletes: assumes that the unrecorded decided blobs carry the commitments and hashes of the
  height's metadata and that the node's own notices verify. The first is derived for a height at the
  moment the node's own proposal is decided and carried along the run (ProposedIsArchived), not for
  heights received from others, which the node does not archive.
- ProposedIsDecided: between proposal and decision no candidate for the same round, package or decision
  for the height, decision above it or clean-up of the round may fall; consensus sends none of these
  for a round that is about to be decided.
- SyncedIsDecided: the decision follows the package directly, and the height is above finality; at or below
  it the notices of the package may prune the blobs at once.
- TranscriptBinds: for lists of one shape, that is equal kinds of parts and equal lengths of payloads, blobs
  and proofs, with requests shorter than 2^32 bytes. The transcript has no length prefix for payload chunks,
  blobs and proofs, whose sizes are fixed elsewhere.
- StoredBlobsGenuine: says nothing of the header's state root, which the program does not compare with the
  value's.
- ProposedWaits: rounds below Nil, which consensus never uses, are left out.
- OwedIsRecovered: a height whose proposer is known only from consensus metadata waits for its archive
  but gets no rebuilt job, because start-up reads the proposer hint alone.
- RunTracked: candidates in Nil rounds, which clean-up skips, are left out; for restreams and restarts it
  asks for the exact conditions of RestreamTracked and RestartTracked.
- PrunedSyncBacking: for a height at or below finality with an empty round and decided blobs it states
  only that the decided blobs afterwards are among those before, since the notices may prune some.
- FirstMetadataWins: a synchronisation of the very round is left out; it promotes or deletes the entry.
- PrunedPackagePrunes: assumes that the peer's records were made by the proposer that the package names.
