/** What a crash, or synchronising from a pruned peer, can leave behind that later stops a height. */
module Recovery {

  import opened Types
  import opened Ordering
  import opened BlobMetadata
  import opened BlobFamilies
  import opened DiskState
  import opened DiskInvariant
  import opened Node
  import opened NodeSafety
  import opened NodeBlobs
  import opened NodeOps
  import opened NodeDecide
  import opened NodeMemory
  import opened NodeSteps
  import opened NodeRuns
  import opened DecisionClaims
  import opened BlobReplacement
  import opened Trails
  import opened Traces

  // ----- The height after a restart -----

  /** The height consensus is told to start at: one above the highest decided value. */
  function StartHeight(d: Disk): nat {
    if d.values.Keys == {} then 1 else MaxOrZero(d.values.Keys) + 1
  }

  /** After a restart the parent of the start height can be resolved, so that a proposal can be made
      or accepted at all, if and only if the highest decided value has its decided metadata. */
  lemma StartHeightResolvable(config: Config, d: Disk)
    requires DiskOk(config, d) && d.latest.Some?
    ensures d.ParentRoot(config.crypto, StartHeight(d)).Some?
            <==> MaxOrZero(d.values.Keys) <= d.latest.value
  {
    hide CandidatesOk, RecordsOk, InlinesOk, PrunedOk, BlocksOk, Ascending, Metadata.HeaderRoot;
    assert ChainOk(config.crypto, d.metas, d.latest);
    assert 0 in d.metas;
  }

  ghost predicate Grows(x: Exec, y: Exec) {
    |x.points| <= |y.points| && forall i :: 0 <= i < |x.points| ==> y.points[i] == x.points[i]
  }

  lemma {:induction false} DeleteBlobsGrows(x: Exec, h: nat, i: nat, n: nat)
    ensures Grows(x, DeleteBlobs(x, h, i, n))
    decreases n - i
  {
    if i < n { DeleteBlobsGrows(Do(x, DeleteDecidedBlob(h, i)), h, i + 1, n); }
  }

  lemma {:induction false} FlushGrows(x: Exec, heights: seq<nat>)
    ensures Grows(x, FlushHeights(x, heights))
    decreases |heights|
  {
    hide DeleteBlobs;
    if heights != [] {
      var h := heights[0];
      var x1 := x.(mem := x.mem.(pendingPrune := x.mem.pendingPrune - {h}));
      if h in x1.disk.metas { DeleteBlobsGrows(x1, h, 0, x1.disk.Meta(h).blobCount); }
      FlushGrows(FlushHeight(x, h), heights[1..]);
    }
  }

  lemma {:induction false} DropEntriesGrows(x: Exec, h: nat, entries: seq<(Round, nat, Sidecar)>)
    ensures Grows(x, DropEntries(x, h, entries))
    decreases |entries|
  {
    if entries != [] {
      DropEntriesGrows(Do(x, DeleteBlob(h, entries[0].0, entries[0].1)), h, entries[1..]);
    }
  }

  lemma {:induction false} DropOrphansGrows(x: Exec, h: nat, rounds: seq<Round>)
    ensures Grows(x, DropOrphans(x, h, rounds))
    decreases |rounds|
  {
    hide DropEntries, RoundEntries;
    if rounds != [] {
      var x1 := Do(x, DeleteUndecidedMeta(h, rounds[0]));
      DropEntriesGrows(x1, h, RoundEntries(x1.disk.undecided, h, rounds[0]));
      DropOrphansGrows(DropOrphan(x, h, rounds[0]), h, rounds[1..]);
    }
  }

  lemma CommitGrows(config: Config, x: Exec, h: nat, r: Round)
    requires (h, r) in x.disk.proposals
    ensures var p := x.disk.proposals[(h, r)];
            var d1 := Apply(x.disk, PutValue(h, DecidedValue(p.value, r)));
            var y := CommitFirst(config, x, h, r).0;
            |x.points| < |y.points| && y.points[|x.points|] == d1
  {
    hide DropOrphans, InKeyOrder, RetainHeight, FlushHeights, Metadata.HeaderRoot, CommitFirst,
         ReadyHeights;
    CommitFirstParts(config, x, h, r);
    var x3 := StoreDecision(config, x, h, r, x.disk.proposals[(h, r)]);
    if h in x3.disk.metas {
      var x4 := Cache(config, x3, h, x3.disk.Meta(h));
      var data := x4.disk.BlockData(h, r);
      var x5 := if data.Some? then Do(x4, PutDecidedBlock(h, data.value)) else x4;
      var x6 := Do(x5, PruneBelow(RetainHeight(config, x5.mem, h)));
      DropOrphansGrows(x6, h, InKeyOrder(x6.mem.Tracked(h) - {r}));
      var x7 := SettleHeight(config, x4, h, r);
      var x8 := x7.(mem := x7.mem.(finalized := if h > x7.mem.finalized then h
                                                else x7.mem.finalized));
      FlushGrows(x8, ReadyHeights(x8.mem));
    }
  }

  /** A crash right after the first write of `commit`, which stores the decided value before the
      metadata is promoted, leaves a disk on which the node starts one height above its metadata:
      the parent root of its start height stays unresolvable. */
  lemma CommitCrashLeavesGap(config: Config, x: Exec, h: nat, r: Round)
    requires DiskOk(config, x.disk) && (h, r) in x.disk.proposals && x.points == []
    requires x.disk.latest == Some(h - 1) && forall g :: g in x.disk.values ==> g < h
    ensures var points := CommitFirst(config, x, h, r).0.points;
            && points != []
            && DiskOk(config, points[0])
            && StartHeight(points[0]) == h + 1
            && points[0].ParentRoot(config.crypto, h + 1) == None
            && Restart(config, points[0]).mem.finalized == h
  {
    hide DiskOk, CommitFirst, Restart, Ascending;
    CommitGrows(config, x, h, r);
    var d1 := Apply(x.disk, PutValue(h, DecidedValue(x.disk.proposals[(h, r)].value, r)));
    assert h in d1.values.Keys;
    PutValueSafe(config, x.disk, h, DecidedValue(x.disk.proposals[(h, r)].value, r));
    GapAt(config, x.disk, h);
    RestartExact(config, d1);
  }

  lemma GapAt(config: Config, d: Disk, h: nat)
    requires DiskOk(config, d) && d.latest == Some(h - 1)
    ensures h !in d.metas
  {
    assert ChainOk(config.crypto, d.metas, d.latest);
  }

  /** The third write of `commit` promotes the metadata, before the decided payload is stored. */
  lemma CommitPromotes(config: Config, x: Exec, h: nat, r: Round)
    requires (h, r) in x.disk.proposals && x.points == []
    requires (h, r) in x.disk.undecidedMetas || h in x.disk.metas
    ensures var y := CommitFirst(config, x, h, r).0;
            && |y.points| > 2
            && y.points[2] == StoreDecision(config, x, h, r, x.disk.proposals[(h, r)]).disk
  {
    hide DropOrphans, InKeyOrder, RetainHeight, FlushHeights, Metadata.HeaderRoot, CommitFirst,
         ReadyHeights;
    CommitFirstParts(config, x, h, r);
    var x3 := StoreDecision(config, x, h, r, x.disk.proposals[(h, r)]);
    var x4 := Cache(config, x3, h, x3.disk.Meta(h));
    var data := x4.disk.BlockData(h, r);
    var x5 := if data.Some? then Do(x4, PutDecidedBlock(h, data.value)) else x4;
    var x6 := Do(x5, PruneBelow(RetainHeight(config, x5.mem, h)));
    DropOrphansGrows(x6, h, InKeyOrder(x6.mem.Tracked(h) - {r}));
    var x7 := SettleHeight(config, x4, h, r);
    var x8 := x7.(mem := x7.mem.(finalized := if h > x7.mem.finalized then h
                                              else x7.mem.finalized));
    FlushGrows(x8, ReadyHeights(x8.mem));
  }

  /** For a height with a decided value, the payload of its round outlives pruning the store if and
      only if the decided copy is stored or the height is not below the retain height. */
  lemma PayloadOutlivesPrune(config: Config, d: Disk, h: nat, retain: nat)
    requires DiskOk(config, d) && h in d.values && d.values[h].round >= NIL_ROUND
    requires d.BlockData(h, d.values[h].round).Some?
    ensures var r, d' := d.values[h].round, Apply(d, PruneBelow(retain));
            d'.BlockData(h, r) == d.BlockData(h, r) <==> h in d.decidedBlocks || h >= retain
  {
    hide ChainOk, CandidatesOk, RecordsOk, InlinesOk, PrunedOk, MaxOrZero;
    assert BlocksOk(d.metas.Keys, d.values, d.blocks, d.decidedBlocks);
  }

  /** The input: a crash right after that third write leaves a sound disk with the value and the
      metadata of the height but no decided payload. The node then starts one height above, whose
      parent resolves, so nothing decides the height again; and the first commit that prunes beyond
      the height removes the only copy of its payload. */
  lemma CommitCrashStrandsPayload(config: Config, x: Exec, h: nat, r: Round, retain: nat)
    requires DiskOk(config, x.disk) && Agreed(x.disk, h, r) && x.points == []
    requires (h, r) in x.disk.proposals && (h, r) in x.disk.undecidedMetas
    requires (h, r) in x.disk.blocks && h !in x.disk.decidedBlocks
    requires (forall g :: g in x.disk.values ==> g < h) && retain > h
    ensures var points := CommitFirst(config, x, h, r).0.points;
            && |points| > 2
            && var d := points[2];
            && DiskOk(config, d) && Committed(d, h) && d.values[h].round == r
            && d.BlockData(h, r) == x.disk.BlockData(h, r) && h !in d.decidedBlocks
            && StartHeight(d) == h + 1 && d.ParentRoot(config.crypto, h + 1).Some?
            && Apply(d, PruneBelow(retain)).BlockData(h, r) == None
  {
    hide DiskOk, CommitFirst, Safe, StartHeight, StoreDecision, Disk.ParentRoot;
    CommitPromotes(config, x, h, r);
    DecisionStored(config, x, h, r, retain);
    assert Safe(config, x.disk, x) by { UntouchedSafe(config, x); }
    StoreDecisionSafe(config, x.disk, x, h, r);
    SafeDisk(config, x.disk, StoreDecision(config, x, h, r, x.disk.proposals[(h, r)]));
  }

  lemma UntouchedSafe(config: Config, x: Exec)
    requires DiskOk(config, x.disk) && x.points == []
    ensures Safe(config, x.disk, x)
  {
    hide DiskOk, Extends;
    ExtendsReflexive(x.disk);
  }

  lemma DecisionStored(config: Config, x: Exec, h: nat, r: Round, retain: nat)
    requires (h, r) in x.disk.proposals && (h, r) in x.disk.undecidedMetas
    requires (h, r) in x.disk.blocks && h !in x.disk.decidedBlocks
    requires (forall g :: g in x.disk.values ==> g < h) && retain > h
    ensures var d := StoreDecision(config, x, h, r, x.disk.proposals[(h, r)]).disk;
            && Committed(d, h) && d.values[h].round == r
            && d.BlockData(h, r) == x.disk.BlockData(h, r) && h !in d.decidedBlocks
            && StartHeight(d) == h + 1 && d.ParentRoot(config.crypto, h + 1).Some?
            && Apply(d, PruneBelow(retain)).BlockData(h, r) == None
  {
    hide Metadata.HeaderRoot, StartHeight, Hydrate, KeepFrom;
    var d := StoreDecision(config, x, h, r, x.disk.proposals[(h, r)]).disk;
    PruneLoses(d, h, r, retain);
    assert d.values == x.disk.values[h := DecidedValue(x.disk.proposals[(h, r)].value, r)];
    StartAbove(d, h);
  }

  lemma PruneLoses(d: Disk, h: nat, r: Round, retain: nat)
    requires h !in d.decidedBlocks && retain > h
    ensures Apply(d, PruneBelow(retain)).BlockData(h, r) == None
  {
  }

  lemma StartAbove(d: Disk, h: nat)
    requires h in d.values && forall g :: g in d.values ==> g <= h
    ensures StartHeight(d) == h + 1
  {
    hide MaxOrZero;
    assert h in d.values.Keys && forall g :: g in d.values.Keys ==> g <= h;
    TopHeight(d.values.Keys, h);
  }

  lemma TopHeight(heights: set<nat>, h: nat)
    requires h in heights && forall g :: g in heights ==> g <= h
    ensures MaxOrZero(heights) == h
  {
  }

  // ----- The hash learned from a notice -----

  /** A notice that is handled to the end leaves its record and its blob hash on the entry. */
  lemma NoticeLearnsHash(config: Config, x: Exec, n: Notice)
    requires Judge(config, x.disk, n) == Record
    ensures var y, h, i := HandleNotice(config, x, n), n.body.height, n.body.index;
            && (h, i) in y.disk.records && y.disk.records[(h, i)] == n
            && h in y.disk.metas && i < |y.disk.metas[h].keccaks|
            && y.disk.metas[h].keccaks[i] == n.body.keccak
  {
    hide HandleNotice, Prunes;
    HandleNoticeEffect(config, x, n);
  }

  /** A crash between the two writes of a notice leaves a sound disk with the record but without the
      hash: record and entry agree on the hash if and only if the entry knew its hash before, or the
      notice itself carries the placeholder. */
  lemma CrashForgetsHash(config: Config, x: Exec, n: Notice)
    requires DiskOk(config, x.disk) && Judge(config, x.disk, n) == Record && x.points == []
    ensures var points, h, i := HandleNotice(config, x, n).points, n.body.height, n.body.index;
            && points != [] && DiskOk(config, points[0])
            && (h, i) in points[0].records && points[0].records[(h, i)] == n
            && h in x.disk.metas && h in points[0].metas
            && i < |x.disk.metas[h].keccaks| && i < |points[0].metas[h].keccaks|
            && (points[0].metas[h].keccaks[i] == n.body.keccak
                <==> x.disk.metas[h].keccaks[i] != ZERO_HASH || n.body.keccak == ZERO_HASH)
  {
    hide DiskOk, HandleNotice, NoticeMeta;
    var h, i := n.body.height, n.body.index;
    NoticeFacts(config, x.disk, n);
    PutRecordSafe(config, x.disk, h, i, n);
    FirstPoint(config, x, n);
    JudgedHash(config, x.disk, n);
  }

  lemma JudgedHash(config: Config, d: Disk, n: Notice)
    requires Judge(config, d, n) == Record
    ensures var h, i := n.body.height, n.body.index;
            && h in d.metas && i < |d.metas[h].keccaks|
            && (d.metas[h].keccaks[i] == ZERO_HASH || d.metas[h].keccaks[i] == n.body.keccak)
  {
  }

  /** And so it stays: once an index has its record, neither the record nor the hash of its entry ever
      changes again, in any run. */
  lemma RecordedHashFixed(config: Config, run: seq<State>, i: nat, j: nat, h: nat, k: nat)
    requires IsRun(config, run) && i <= j < |run| && (h, k) in run[i].disk.records
    ensures var a, b := run[i].disk, run[j].disk;
            && (h, k) in b.records && b.records[(h, k)] == a.records[(h, k)]
            && h in a.metas && h in b.metas
            && k < |a.metas[h].keccaks| && k < |b.metas[h].keccaks|
            && b.metas[h].keccaks[k] == a.metas[h].keccaks[k]
  {
    hide IsRun, RecordOk, MetasExtend, BlobsKept, CommittedKept, PrunedGone, PayloadKept;
    RecordsWriteOnce(config, run, i, i, h, k);
    RecordsWriteOnce(config, run, i, j, h, k);
    RunExtends(config, run, i, j);
    RecordedIndex(config, h, k, run[i].disk.metas[h], run[i].disk.records[(h, k)]);
    assert HashKept(run[i].disk, run[j].disk, h, k);
  }

  lemma RecordedIndex(config: Config, h: nat, i: nat, m: Metadata, record: ArchiveRecord)
    requires RecordOk(config, h, i, m, record)
    ensures i < |m.keccaks|
  {
  }

  /** An index is archived once: after it has its record, no notice about it changes anything, at any
      later moment of any run. */
  lemma ArchivedOnce(config: Config, run: seq<State>, i: nat, j: nat, n: Notice)
    requires IsRun(config, run) && i <= j < |run| && run[j].Running?
    requires (n.body.height, n.body.index) in run[i].disk.records
    ensures var x := Exec(run[j].disk, run[j].mem, []); HandleNotice(config, x, n) == x
  {
    hide IsRun, HandleNotice, DiskOk, MemOk, RecordOk;
    RecordsWriteOnce(config, run, i, j, n.body.height, n.body.index);
    RunSound(config, run, j);
    RecordedJudged(config, run[j].disk, n);
    RejectedChangesNothing(config, Exec(run[j].disk, run[j].mem, []), n);
  }

  lemma RecordedJudged(config: Config, d: Disk, n: Notice)
    requires DiskOk(config, d) && (n.body.height, n.body.index) in d.records
    ensures Judge(config, d, n) != Record
  {
    hide DiskOk, Config.KnowsSigner, Disk.ProposerAt;
    if n.body.height in d.metas {
      HydratedFacts(config, d, n.body.height);
    }
  }

  lemma FirstPoint(config: Config, x: Exec, n: Notice)
    requires Judge(config, x.disk, n) == Record && x.points == []
    ensures var points := HandleNotice(config, x, n).points;
            points != [] && points[0] == Apply(x.disk, PutRecord(n.body.height, n.body.index, n))
  {
    hide DeleteBlobs, Judge, NoticeMeta;
    var h, m, x2 := n.body.height, NoticeMeta(x.disk, n), RecordNotice(x, n);
    var x3 := x2.(mem := x2.mem.(pendingArchive := x2.mem.pendingArchive - {h}));
    DeleteBlobsGrows(x3, h, 0, m.blobCount);
  }

  // ----- Synchronising a pruned height -----

  lemma {:induction false} NoticesAddNoBlobs(config: Config, x: Exec, notices: seq<Notice>)
    ensures var y := HandleNotices(config, x, notices);
            && y.disk.undecided == x.disk.undecided && y.disk.blocks == x.disk.blocks
            && y.disk.decidedBlocks == x.disk.decidedBlocks
            && y.disk.proposals == x.disk.proposals
            && (forall k :: k in y.disk.decided ==> k in x.disk.decided)
    decreases |notices|
  {
    hide HandleNotice;
    if notices != [] {
      HandleNoticeFrame(config, x, notices[0]);
      NoticesAddNoBlobs(config, HandleNotice(config, x, notices[0]), notices[1..]);
    }
  }

  lemma NoBlobsNoBacking(config: Config, d: Disk, h: nat, r: Round, hashes: seq<Hash>)
    requires RoundIndices(d.undecided, h, r) == {} && HeightIndices(d.decided, h) == {}
    requires hashes != []
    ensures !BlobsBack(config.crypto, d, h, r, hashes)
  {
    hide Listing, BlobsBack;
    if BlobsBack(config.crypto, d, h, r, hashes) {
      CandidatesNeeded(config, d, h, r, hashes);
    }
  }

  /** What the round holds after a package without blobs: the first writer wins. */
  ghost function SyncedPayload(d: Disk, h: nat, r: Round, package: Package): Payload
    requires package.MetadataOnly? && package.payloadOpt.Some?
  {
    if (h, r) in d.blocks then d.blocks[(h, r)] else package.payloadOpt.value
  }

  ghost function SyncedHashes(crypto: Crypto, d: Disk, h: nat, r: Round, package: Package): seq<Hash>
    requires package.MetadataOnly? && package.payloadOpt.Some?
  {
    var value := if (h, r) in d.proposals then d.proposals[(h, r)].value else package.value;
    var payload := SyncedPayload(d, h, r, package);
    if payload.blobHashes == [] then HashesOf(crypto, value.commitments) else payload.blobHashes
  }

  /** The state a package without blobs leaves: payload, expected hashes and blobs of its round. */
  lemma SyncedRound(
    config: Config, x: Exec, h: nat, r: Round, proposer: Address, package: Package)
    requires package.MetadataOnly? && Sync(config, x, h, r, proposer, package).1
    ensures package.payloadOpt.Some?
    ensures var y := Sync(config, x, h, r, proposer, package).0;
            && (h, r) in y.disk.proposals && (h, r) in y.disk.blocks && h in y.disk.metas
            && y.disk.values == x.disk.values && y.disk.decidedBlocks == x.disk.decidedBlocks
            && y.disk.BlockData(h, r) == Some(SyncedPayload(x.disk, h, r, package))
            && Hashes(config, y.disk, h, r) == SyncedHashes(config.crypto, x.disk, h, r, package)
            && y.disk.undecided == x.disk.undecided && DecidedAmong(x.disk.decided, h, y.disk)
            && (h > x.mem.Finality() ==>
                  forall i :: (h, i) in x.disk.decided ==> (h, i) in y.disk.decided)
  {
    hide HandleNotices, AdoptMeta, SyncedMeta, Disk.ParentRoot;
    var payload := package.payloadOpt.value;
    var x1 := Do(x, PutBlock(h, r, payload));
    var m := SyncedMeta(config, x1.disk, h, proposer, package).value;
    AdoptMetaFrame(config, x1, h, r, m);
    AdoptedHeight(config, x1, h, r, m);
    var x2 := AdoptMeta(config, x1, h, r, m);
    NoticesAddNoBlobs(config, x2, package.notices);
    NoticesKeepBlobs(config, x2, package.notices, h);
  }

  lemma AdoptedHeight(config: Config, x: Exec, h: nat, r: Round, m: Metadata)
    ensures h in AdoptMeta(config, x, h, r, m).disk.metas
  {
  }

  lemma NoticeKeepsBlobs(config: Config, x: Exec, n: Notice, h: nat)
    ensures var y := HandleNotice(config, x, n);
            && DecidedAmong(x.disk.decided, h, y.disk)
            && (h > x.mem.Finality() ==>
                  forall i :: (h, i) in x.disk.decided ==> (h, i) in y.disk.decided)
            && (h in x.disk.metas ==> h in y.disk.metas)
            && y.disk.values == x.disk.values
  {
    hide PruneHeight, Judge, NoticeMeta, Metadata.AllArchived, RecordNotice;
    if Judge(config, x.disk, n) == Record {
      var g, m, x2 := n.body.height, NoticeMeta(x.disk, n), RecordNotice(x, n);
      var x3 := x2.(mem := x2.mem.(pendingArchive := x2.mem.pendingArchive - {g}));
      RecordNoticeEffect(x, n);
      PrunedBlobs(x3, g, m, h);
    }
  }

  lemma PrunedBlobs(x: Exec, g: nat, m: Metadata, h: nat)
    ensures var y := PruneHeight(x, g, m);
            && DecidedAmong(x.disk.decided, h, y.disk)
            && (h != g ==> forall i :: (h, i) in x.disk.decided ==> (h, i) in y.disk.decided)
            && (h in x.disk.metas ==> h in y.disk.metas) && y.disk.values == x.disk.values
  {
    hide DeleteBlobs;
    DeleteBlobsEffect(x, g, 0, m.blobCount);
  }

  lemma {:induction false} NoticesKeepBlobs(
    config: Config, x: Exec, notices: seq<Notice>, h: nat)
    ensures var y := HandleNotices(config, x, notices);
            && DecidedAmong(x.disk.decided, h, y.disk)
            && (h > x.mem.Finality() ==>
                  forall i :: (h, i) in x.disk.decided ==> (h, i) in y.disk.decided)
            && (h in x.disk.metas ==> h in y.disk.metas)
            && y.disk.values == x.disk.values
    decreases |notices|
  {
    hide HandleNotice;
    if notices != [] {
      var y := HandleNotice(config, x, notices[0]);
      NoticeKeepsBlobs(config, x, notices[0], h);
      HandleNoticeFrame(config, x, notices[0]);
      NoticesKeepBlobs(config, y, notices[1..], h);
    }
  }

  lemma SameCandidates(a: Disk, b: Disk, h: nat, r: Round)
    requires b.undecided == a.undecided && DecidedAmong(a.decided, h, b)
    requires || RoundIndices(a.undecided, h, r) != {} || HeightIndices(a.decided, h) == {}
             || forall i :: (h, i) in a.decided ==> (h, i) in b.decided
    ensures CandidateBlobs(b, h, r) == CandidateBlobs(a, h, r)
  {
    hide Listing, HeightIndices, RoundIndices, HeightBlobs, RoundBlobs, DecidedAmong;
    if RoundIndices(a.undecided, h, r) == {} {
      NoRoundListing(a, h, r);
      NoRoundListing(b, h, r);
      SameHeight(a, b, h);
    } else {
      SameRound(a, b, h, r);
    }
  }

  lemma SameHeight(a: Disk, b: Disk, h: nat)
    requires DecidedAmong(a.decided, h, b)
    requires || HeightIndices(a.decided, h) == {}
             || forall i :: (h, i) in a.decided ==> (h, i) in b.decided
    ensures HeightBlobs(b.decided, h) == HeightBlobs(a.decided, h)
  {
    forall i: nat ensures i in HeightIndices(a.decided, h) <==> i in HeightIndices(b.decided, h) {
      HeightHas(a.decided, h, i);
      HeightHas(b.decided, h, i);
    }
  }

  /** After a package without blobs is accepted for a height, the blob check of a decision passes if
      and only if the expected hashes are empty or the blobs stored before already carry them. (A
      final height with an empty round is left with what pruning keeps of its decided blobs.) */
  lemma PrunedSyncBacking(
    config: Config, x: Exec, h: nat, r: Round, proposer: Address, package: Package)
    requires package.MetadataOnly? && Sync(config, x, h, r, proposer, package).1
    ensures var y := Sync(config, x, h, r, proposer, package).0;
            var hashes := SyncedHashes(config.crypto, x.disk, h, r, package);
            && y.disk.BlockData(h, r).Some? && Hashes(config, y.disk, h, r) == hashes
            && DecidedAmong(x.disk.decided, h, y.disk)
            && (|| h > x.mem.Finality() || RoundIndices(x.disk.undecided, h, r) != {}
                || HeightIndices(x.disk.decided, h) == {} ==>
                  (BlobsBack(config.crypto, y.disk, h, r, hashes)
                   <==> || hashes == []
                        || SidecarHashes(config.crypto, CandidateBlobs(x.disk, h, r)) == hashes))
  {
    hide Sync, SyncedHashes, Hashes, DecidedAmong, CandidateBlobs, RoundIndices, HeightIndices,
         SidecarHashes, SyncedPayload;
    SyncedRound(config, x, h, r, proposer, package);
    var y := Sync(config, x, h, r, proposer, package).0;
    if || h > x.mem.Finality() || RoundIndices(x.disk.undecided, h, r) != {}
       || HeightIndices(x.disk.decided, h) == {} {
      SameCandidates(x.disk, y.disk, h, r);
    }
  }

  /** Neither the round nor the decided family holds a blob. */
  ghost predicate NoBlobs(h: nat, r: Round, d: Disk) {
    (forall i: nat :: (h, r, i) !in d.undecided) && (forall i: nat :: (h, i) !in d.decided)
  }

  /** The block of the round, as long as it is there, expects blobs. */
  ghost predicate ExpectsBlobs(config: Config, h: nat, r: Round, d: Disk) {
    && h !in d.decidedBlocks
    && ((h, r) in d.blocks ==> ExpectedHashes(config.crypto, d, h, r, d.blocks[(h, r)]) != [])
  }

  /** The height has metadata but no value, and either the round's proposal is gone or its block expects
      blobs of which there are none. */
  ghost predicate Stuck(config: Config, h: nat, r: Round, d: Disk) {
    && h in d.metas && h !in d.values
    && ((h, r) in d.proposals ==> NoBlobs(h, r, d) && ExpectsBlobs(config, h, r, d))
  }

  /** The event brings no candidate of the round, and decides the height in this round only. */
  ghost predicate LeavesStuck(e: Option<Event>, h: nat, r: Round) {
    && ScopeOf(e) != CandidateScope(h, r)
    && (ScopeOf(e).DecisionScope? && ScopeOf(e).h == h ==> ScopeOf(e).r == r)
  }

  lemma StuckKept(config: Config, inv: Disk -> bool, h: nat, r: Round, s: Scope)
    requires Stands(s, h) && s != CandidateScope(h, r)
    requires forall d :: inv(d) <==> Stuck(config, h, r, d)
    ensures Kept(inv, s)
  {
    hide Allowed, Apply, Stuck;
    forall d, w | inv(d) && Allowed(s, d, w) ensures inv(Apply(d, w)) {
      StuckAfter(config, h, r, s, d, w);
    }
  }

  lemma StuckAfter(config: Config, h: nat, r: Round, s: Scope, d: Disk, w: Write)
    requires Stands(s, h) && s != CandidateScope(h, r)
    requires Stuck(config, h, r, d) && Allowed(s, d, w)
    ensures Stuck(config, h, r, Apply(d, w))
  {
    hide NoBlobs, ExpectsBlobs, Apply, Allowed;
    RoundUntouched(h, r, s, d, w);
    if (h, r) in Apply(d, w).proposals {
      NoBlobsAfter(h, r, s, d, w);
      ExpectsAfter(config, h, r, s, d, w);
    }
  }

  /** Other events leave the height's entries and those of the round, or delete them. */
  lemma RoundUntouched(h: nat, r: Round, s: Scope, d: Disk, w: Write)
    requires Stands(s, h) && s != CandidateScope(h, r) && Allowed(s, d, w)
    ensures var d' := Apply(d, w);
            && (h in d.metas ==> h in d'.metas) && (h in d'.values ==> h in d.values)
            && (h in d'.decidedBlocks ==> h in d.decidedBlocks)
            && ((h, r) in d'.proposals ==>
                  (h, r) in d.proposals && d'.proposals[(h, r)] == d.proposals[(h, r)])
            && ((h, r) in d'.blocks ==>
                  (h, r) in d.blocks && d'.blocks[(h, r)] == d.blocks[(h, r)])
  {
  }

  lemma NoBlobsAfter(h: nat, r: Round, s: Scope, d: Disk, w: Write)
    requires Stands(s, h) && s != CandidateScope(h, r) && Allowed(s, d, w)
    requires NoBlobs(h, r, d)
    ensures NoBlobs(h, r, Apply(d, w))
  {
  }

  lemma ExpectsAfter(config: Config, h: nat, r: Round, s: Scope, d: Disk, w: Write)
    requires Stands(s, h) && s != CandidateScope(h, r) && Allowed(s, d, w)
    requires ExpectsBlobs(config, h, r, d) && (h, r) in Apply(d, w).proposals
    ensures ExpectsBlobs(config, h, r, Apply(d, w))
  {
    hide Apply, Allowed, HashesOf;
    RoundUntouched(h, r, s, d, w);
  }

  ghost predicate Abandoned(h: nat, r: Round, d: Disk) {
    h in d.metas && h !in d.values && (h, r) !in d.proposals
  }

  lemma AbandonedKept(inv: Disk -> bool, h: nat, r: Round)
    requires forall d :: inv(d) <==> Abandoned(h, r, d)
    ensures Kept(inv, DecisionScope(h, r))
  {
    hide Allowed, Apply, Abandoned;
    forall d, w | inv(d) && Allowed(DecisionScope(h, r), d, w) ensures inv(Apply(d, w)) {
      AbandonedAfter(h, r, d, w);
    }
  }

  lemma AbandonedAfter(h: nat, r: Round, d: Disk, w: Write)
    requires Abandoned(h, r, d) && Allowed(DecisionScope(h, r), d, w)
    ensures Abandoned(h, r, Apply(d, w))
  {
  }

  lemma StuckRefuses(config: Config, d: Disk, h: nat, r: Round, el: ElOutcome)
    requires Stuck(config, h, r, d) && (h, r) in d.proposals
    ensures !Promotes(config, d, h, r, el)
  {
    hide BlobsBack, ExpectedHashes;
    if d.BlockData(h, r).Some? {
      assert RoundIndices(d.undecided, h, r) == {} && HeightIndices(d.decided, h) == {};
      NoBlobsNoBacking(config, d, h, r, Hashes(config, d, h, r));
    }
  }

  lemma StuckStep(config: Config, s: State, e: Option<Event>, t: State, h: nat, r: Round)
    requires Step(config, s, e, t) && Stuck(config, h, r, s.disk) && LeavesStuck(e, h, r)
    ensures Stuck(config, h, r, t.disk)
  {
    hide Step, Kept, Promotes, ExpectedHashes;
    SyncedOnce(config, s, e, t, h);
    if ScopeOf(e).DecisionScope? && ScopeOf(e).h == h {
      if (h, r) in s.disk.proposals {
        StuckRefuses(config, s.disk, h, r, e.value.el);
        RefusedStep(config, s, h, r, e.value.el, t);
      } else {
        var abandoned: Disk -> bool := d => Abandoned(h, r, d);
        AbandonedKept(abandoned, h, r);
        StepKeeps(config, abandoned, s, e, t);
      }
    } else {
      var stuck: Disk -> bool := d => Stuck(config, h, r, d);
      StuckKept(config, stuck, h, r, ScopeOf(e));
      StepKeeps(config, stuck, s, e, t);
    }
  }

  lemma SyncedOnce(config: Config, s: State, e: Option<Event>, t: State, h: nat)
    requires Step(config, s, e, t) && h in s.disk.metas
    ensures !(ScopeOf(e).SyncScope? && ScopeOf(e).h == h)
  {
    hide Handle, Restart, SyncedMeta;
  }

  lemma {:induction false} StuckStays(
    config: Config, run: seq<State>, events: seq<Option<Event>>, i: nat, j: nat, h: nat, r: Round)
    requires IsTrace(config, run, events) && i <= j < |run| && Stuck(config, h, r, run[i].disk)
    requires forall m :: i <= m < j ==> LeavesStuck(events[m], h, r)
    ensures Stuck(config, h, r, run[j].disk)
    decreases j
  {
    hide Step, Stuck, LeavesStuck;
    if i < j {
      StuckStays(config, run, events, i, j - 1, h, r);
      assert Step(config, run[j - 1], events[j - 1], run[j - 1 + 1]);
      StuckStep(config, run[j - 1], events[j - 1], run[j], h, r);
    }
  }

  /** A height with blobs that is taken over from a peer which has pruned them is accepted but never
      decided: at no later moment of the run, crashes and restarts included, does it get a decided
      value, unless a candidate of the round still brings the blobs or another round is decided. */
  lemma PrunedSyncNeverDecides(
    config: Config, run: seq<State>, events: seq<Option<Event>>, i: nat, j: nat, h: nat, r: Round,
    proposer: Address, package: Package)
    requires IsTrace(config, run, events) && i < j < |run|
    requires events[i] == Some(Synced(h, r, proposer, package)) && package.MetadataOnly?
    requires run[i].Running? && run[i + 1].Running?
    requires Sync(config, Exec(run[i].disk, run[i].mem, []), h, r, proposer, package).1
    requires package.payloadOpt.Some?
             && SyncedHashes(config.crypto, run[i].disk, h, r, package) != []
    requires RoundIndices(run[i].disk.undecided, h, r) == {}
    requires HeightIndices(run[i].disk.decided, h) == {} && h !in run[i].disk.values
    requires forall m :: i < m < j ==> LeavesStuck(events[m], h, r)
    ensures h !in run[j].disk.values
  {
    hide LeavesStuck, IsTrace, SyncedHashes, RoundIndices, HeightIndices, Step, Sync, StateOk, IsRun,
         NoBlobs, ExpectsBlobs;
    TraceStep(config, run, events, i);
    TraceIsRun(config, run, events);
    RunSound(config, run, i);
    SyncedSticks(config, run[i], run[i + 1], h, r, proposer, package);
    StuckStays(config, run, events, i + 1, j, h, r);
  }

  lemma TraceStep(config: Config, run: seq<State>, events: seq<Option<Event>>, i: nat)
    requires IsTrace(config, run, events) && i + 1 < |run|
    ensures Step(config, run[i], events[i], run[i + 1])
  {
    hide Step;
  }

  lemma SyncedSticks(
    config: Config, s: State, t: State, h: nat, r: Round, proposer: Address, package: Package)
    requires StateOk(config, s) && s.Running? && t.Running? && package.MetadataOnly?
    requires Step(config, s, Some(Synced(h, r, proposer, package)), t)
    requires Sync(config, Exec(s.disk, s.mem, []), h, r, proposer, package).1
    requires package.payloadOpt.Some?
             && SyncedHashes(config.crypto, s.disk, h, r, package) != []
    requires RoundIndices(s.disk.undecided, h, r) == {}
    requires HeightIndices(s.disk.decided, h) == {} && h !in s.disk.values
    ensures Stuck(config, h, r, t.disk)
  {
    hide StateOk, Sync, Promised, SyncedHashes, RoundIndices, HeightIndices, ExpectedHashes,
         SyncedPayload;
    var x := Exec(s.disk, s.mem, []);
    SyncedRound(config, x, h, r, proposer, package);
    NoDecidedBlock(config, s, h);
    forall i: nat ensures (h, i) !in t.disk.decided {
      HeightHas(s.disk.decided, h, i);
    }
    forall i: nat ensures (h, r, i) !in t.disk.undecided {
      RoundHas(s.disk.undecided, h, r, i);
    }
  }

  lemma RoundHas(u: Undecided, h: nat, r: Round, i: nat)
    ensures (h, r, i) in u <==> i in RoundIndices(u, h, r)
  {
  }

  // ----- What pruning the store removes -----

  /** `commit` never prunes at or above a height whose blobs still wait for archiving, nor above the
      retention window. */
  lemma RetainHeightBound(config: Config, mem: Memory, h: nat)
    ensures RetainHeight(config, mem, h) <= h
    ensures forall g :: g in mem.pendingArchive ==> RetainHeight(config, mem, h) <= g
    ensures RetainHeight(config, mem, h) + config.retentionWindow > h
            || RetainHeight(config, mem, h) in mem.pendingArchive || config.retentionWindow == 0
  {
    hide Ascending;
    var pending := Ascending(mem.pendingArchive);
    forall g | g in mem.pendingArchive ensures RetainHeight(config, mem, h) <= g {
      assert g in pending;
      var i :| 0 <= i < |pending| && pending[i] == g;
      assert pending[0] <= pending[i];
    }
    if pending != [] { assert pending[0] in pending; }
  }

  /** `prune` removes exactly the undecided proposals and payloads below the retain height. */
  lemma PruneIsExact(d: Disk, retain: nat)
    ensures var d' := Apply(d, PruneBelow(retain));
            && d' == d.(proposals := d'.proposals, blocks := d'.blocks)
            && (forall k :: k in d.proposals && k.1 >= NIL_ROUND ==>
                  (k in d'.proposals <==> k.0 >= retain))
            && (forall k :: k in d.blocks && k.1 >= NIL_ROUND ==>
                  (k in d'.blocks <==> k.0 >= retain))
            && Included(d'.proposals, d.proposals) && Included(d'.blocks, d.blocks)
  {
  }
}

/** Archiving completes: handled notices archive a height and prune it. */
module ArchiveCompletion {

  import opened Types
  import opened Ordering
  import opened BlobMetadata
  import opened BlobFamilies
  import opened DiskState
  import opened DiskInvariant
  import opened Node
  import opened NodeSafety
  import opened NodeOps
  import opened NodeMemory
  import opened NodeRuns

  /** The notice passes every check up to the comparison with an existing record. */
  ghost predicate Welcome(config: Config, d: Disk, n: Notice) {
    var h, i := n.body.height, n.body.index;
    && config.KnowsSigner(n) && h in d.metas
    && var m := d.metas[h];
    && i < m.blobCount && i < |m.commitments| && i < |m.keccaks| && i < |m.records|
    && (d.ProposerAt(config, h, m.proposerHint).Some? ==>
          n.body.archivedBy == d.ProposerAt(config, h, m.proposerHint).value)
    && m.commitments[i] == n.body.commitment
    && (m.keccaks[i] == ZERO_HASH || m.keccaks[i] == n.body.keccak)
  }

  ghost predicate Recorded(d: Disk, n: Notice) {
    (n.body.height, n.body.index) in d.records
  }

  /** A welcome notice leaves its index recorded: by itself, or because it already was. */
  lemma WelcomeIsRecorded(config: Config, x: Exec, n: Notice)
    requires DiskOk(config, x.disk) && Welcome(config, x.disk, n)
    ensures Recorded(HandleNotice(config, x, n).disk, n)
  {
    hide DiskOk, PruneHeight;
    var h, i := n.body.height, n.body.index;
    HydratedFacts(config, x.disk, h);
    if Judge(config, x.disk, n) == Record {
      RecordsAfterNotice(config, x, n);
    } else {
      assert x.disk.Meta(h).IsArchived(i);
    }
  }

  /** A notice changes the store if and only if it is welcome and its index has no record yet; then it
      becomes the record. Otherwise nothing changes, neither store nor memory. */
  lemma NoticeChangesExactly(config: Config, x: Exec, n: Notice)
    requires DiskOk(config, x.disk)
    ensures var y := HandleNotice(config, x, n);
            var first := Welcome(config, x.disk, n) && !Recorded(x.disk, n);
            && (first ==>
                  Recorded(y.disk, n) && y.disk.records[(n.body.height, n.body.index)] == n)
            && (!first ==> y == x)
  {
    hide DiskOk, PruneHeight, HandleNotice, Config.KnowsSigner, Disk.ProposerAt;
    var h, i := n.body.height, n.body.index;
    if h in x.disk.metas {
      HydratedFacts(config, x.disk, h);
      EntrySizes(config, x.disk, h);
    }
    if Judge(config, x.disk, n) == Record {
      RecordsAfterNotice(config, x, n);
    } else {
      RejectedChangesNothing(config, x, n);
    }
  }

  lemma EntrySizes(config: Config, d: Disk, h: nat)
    requires DiskOk(config, d) && h in d.metas
    ensures d.metas[h].Valid()
  {
    assert ChainOk(config.crypto, d.metas, d.latest);
  }

  lemma RecordsAfterNotice(config: Config, x: Exec, n: Notice)
    requires Judge(config, x.disk, n) == Record
    ensures HandleNotice(config, x, n).disk.records
            == x.disk.records[(n.body.height, n.body.index) := n]
  {
    hide HandleNotice, Judge;
    HandleNoticeEffect(config, x, n);
  }

  /** The entry after a notice: at other indices its hashes are as before. */
  lemma MetaAfterNotice(config: Config, x: Exec, n: Notice, h: nat)
    requires DiskOk(config, x.disk) && Judge(config, x.disk, n) == Record && h in x.disk.metas
    ensures var y := HandleNotice(config, x, n);
            && h in y.disk.metas && x.disk.metas[h].SameBlock(y.disk.metas[h])
            && |y.disk.metas[h].keccaks| == |x.disk.metas[h].keccaks|
            && |y.disk.metas[h].records| == |x.disk.metas[h].records|
            && (forall i :: 0 <= i < |x.disk.metas[h].keccaks|
                            && (h, i) != (n.body.height, n.body.index) ==>
                  y.disk.metas[h].keccaks[i] == x.disk.metas[h].keccaks[i])
  {
    hide DiskOk, HandleNotice, Judge;
    HandleNoticeEffect(config, x, n);
  }

  /** Handling another notice keeps a notice welcome, or its index is recorded by then. */
  lemma StaysWelcome(config: Config, x: Exec, n: Notice, other: Notice)
    requires DiskOk(config, x.disk)
    requires Welcome(config, x.disk, n) || Recorded(x.disk, n)
    ensures var y := HandleNotice(config, x, other);
            Welcome(config, y.disk, n) || Recorded(y.disk, n)
  {
    hide DiskOk, HandleNotice, Judge, Config.KnowsSigner;
    HandleNoticeFrame(config, x, other);
    if Judge(config, x.disk, other) == Record {
      RecordsAfterNotice(config, x, other);
      if Welcome(config, x.disk, n) && !Recorded(HandleNotice(config, x, other).disk, n) {
        MetaAfterNotice(config, x, other, n.body.height);
      }
    } else {
      RejectedChangesNothing(config, x, other);
    }
  }

  ghost predicate Covered(config: Config, d: Disk, h: nat, i: nat, notices: seq<Notice>) {
    (h, i) in d.records
    || exists n :: n in notices && n.body.height == h && n.body.index == i && Welcome(config, d, n)
  }

  /** Notices in any order and with repeats: every covered index ends up recorded. */
  lemma {:induction false} CoveredIsRecorded(
    config: Config, base: Disk, x: Exec, notices: seq<Notice>, h: nat, i: nat)
    requires Safe(config, base, x) && FinalityBound(x)
    requires Covered(config, x.disk, h, i, notices)
    ensures (h, i) in HandleNotices(config, x, notices).disk.records
    decreases |notices|
  {
    hide DiskOk, Extends, HandleNotice, FinalityBound, Welcome;
    if notices != [] {
      var y := HandleNotice(config, x, notices[0]);
      HandleNoticeSafe(config, base, x, notices[0]);
      HandleNoticeFrame(config, x, notices[0]);
      if (h, i) in x.disk.records {
        KeepsRecords(config, x, notices[0], h, i);
      } else {
        var n :| n in notices && n.body.height == h && n.body.index == i
                 && Welcome(config, x.disk, n);
        if n == notices[0] {
          WelcomeIsRecorded(config, x, n);
        } else {
          StaysWelcome(config, x, n, notices[0]);
          assert n in notices[1..];
        }
      }
      CoveredIsRecorded(config, base, y, notices[1..], h, i);
    }
  }

  lemma KeepsRecords(config: Config, x: Exec, n: Notice, h: nat, i: nat)
    requires (h, i) in x.disk.records
    ensures (h, i) in HandleNotice(config, x, n).disk.records
  {
    hide HandleNotice, Judge;
    if Judge(config, x.disk, n) == Record {
      RecordsAfterNotice(config, x, n);
    } else {
      RejectedChangesNothing(config, x, n);
    }
  }

  // ----- Over whole runs -----

  /** Step `m` handles the notice to its end. */
  ghost predicate HandledAt(run: seq<State>, events: seq<Option<Event>>, m: nat, n: Notice) {
    && m < |events| && m + 1 < |run| && events[m] == Some(Noticed(n))
    && run[m].Running? && run[m + 1].Running?
  }

  /** Before state `j` a notice for the index was handled while it was welcome. */
  ghost predicate HandledWelcome(
    config: Config, run: seq<State>, events: seq<Option<Event>>, j: nat, h: nat, k: nat)
  {
    exists m: nat, n: Notice :: m < j && HandledAt(run, events, m, n)
      && n.body.height == h && n.body.index == k && Welcome(config, run[m].disk, n)
  }

  lemma HandledIsRecorded(
    config: Config, run: seq<State>, events: seq<Option<Event>>, m: nat, j: nat, n: Notice)
    requires IsTrace(config, run, events) && m < j < |run| && HandledAt(run, events, m, n)
    requires Welcome(config, run[m].disk, n) || Recorded(run[m].disk, n)
    ensures Recorded(run[j].disk, n)
  {
    hide Welcome, DiskOk, MemOk, RecordOk, Promised, HandleNotice;
    TraceIsRun(config, run, events);
    var h, i := n.body.height, n.body.index;
    if Recorded(run[m].disk, n) {
      hide IsTrace, IsRun;
      RecordsWriteOnce(config, run, m, j, h, i);
    } else {
      RunSound(config, run, m);
      assert Step(config, run[m], events[m], run[m + 1]);
      WelcomeIsRecorded(config, Exec(run[m].disk, run[m].mem, []), n);
      hide IsTrace, IsRun;
      RecordsWriteOnce(config, run, m + 1, j, h, i);
    }
  }

  /** Archiving completes, over every run: once a notice for each index of a height has been handled
      while it was welcome, in any order, with any events, crashes and restarts in between, the height
      is archived; every later running state in which it is final has it pruned and no longer pending;
      and its bytes are gone if it was settled at some moment before. */
  lemma NoticesComplete(
    config: Config, run: seq<State>, events: seq<Option<Event>>, i: nat, j: nat, h: nat)
    requires IsTrace(config, run, events) && i <= j < |run| && run[j].Running?
    requires h in run[j].disk.metas && run[j].disk.metas[h].blobCount > 0
    requires forall k: nat :: k < run[j].disk.metas[h].blobCount ==>
      (h, k) in run[j].disk.records || HandledWelcome(config, run, events, j, h, k)
    ensures var d, mem := run[j].disk, run[j].mem;
            && d.Archived(h)
            && (h <= mem.Finality() ==> d.metas[h].pruned && h !in mem.pendingPrune)
            && (h <= mem.Finality() && Unsoiled(run[i].disk, h) ==> Gone(d, h))
  {
    hide IsTrace, IsRun, Settled, Gone;
    TraceIsRun(config, run, events);
    var d := run[j].disk;
    forall k: nat | k < d.metas[h].blobCount ensures (h, k) in d.records {
      if (h, k) !in d.records {
        var m: nat, n: Notice :| m < j && HandledAt(run, events, m, n)
          && n.body.height == h && n.body.index == k && Welcome(config, run[m].disk, n);
        HandledIsRecorded(config, run, events, m, j, n);
      }
    }
    PruningIsExact(config, run, j, h);
    if h <= run[j].mem.Finality() && Unsoiled(run[i].disk, h) {
      SettledHasMeta(run[i].disk, h);
      PrunedBytesGone(config, run, i, j, h);
    }
  }

  /** The height is settled, and if it is marked pruned its bytes are gone. */
  ghost predicate Unsoiled(d: Disk, h: nat) {
    Settled(d, h) && (d.metas[h].pruned ==> Gone(d, h))
  }

  lemma SettledHasMeta(d: Disk, h: nat)
    requires Settled(d, h)
    ensures h in d.metas
  {
  }

  /** What is welcome stays welcome along a run, or its index is recorded by then. */
  lemma WelcomeStays(config: Config, a: Disk, b: Disk, n: Notice)
    requires Extends(a, b) && DiskOk(config, b)
    requires Welcome(config, a, n) || Recorded(a, n)
    requires n.body.height in b.metas ==>
      b.ProposerAt(config, n.body.height, b.metas[n.body.height].proposerHint)
      in {None, Some(n.body.archivedBy)}
    ensures Welcome(config, b, n) || Recorded(b, n)
  {
    hide CandidatesOk, RecordsOk, InlinesOk, PrunedOk, BlocksOk, MaxOrZero, Config.KnowsSigner,
         BlobsKept, CommittedKept, PrunedGone, PayloadKept, Disk.ProposerAt;
    var h, i := n.body.height, n.body.index;
    if !Recorded(a, n) && !Recorded(b, n) {
      assert MetaExtends(a.metas[h], b.metas[h]);
      assert b.metas[h].Valid() by { assert ChainOk(config.crypto, b.metas, b.latest); }
      assert HashKept(a, b, h, i);
    }
  }

  /** A notice that marks its height pruned takes the height's bytes along. */
  lemma NoticeTakesBytes(config: Config, x: Exec, n: Notice, h: nat)
    requires h in x.disk.metas && (x.disk.metas[h].pruned ==> Gone(x.disk, h))
    ensures var y := HandleNotice(config, x, n);
            h in y.disk.metas && (y.disk.metas[h].pruned ==> Gone(y.disk, h))
  {
    hide PruneHeight, Judge, NoticeMeta, RecordNotice, Metadata.AllArchived;
    if Judge(config, x.disk, n) == Record {
      var g, m, x2 := n.body.height, NoticeMeta(x.disk, n), RecordNotice(x, n);
      RecordNoticeEffect(x, n);
      PruneHeightEffect(x2.(mem := x2.mem.(pendingArchive := x2.mem.pendingArchive - {g})), g, m);
    }
  }

  lemma {:induction false} NoticesTakeBytes(config: Config, x: Exec, notices: seq<Notice>, h: nat)
    requires h in x.disk.metas && (x.disk.metas[h].pruned ==> Gone(x.disk, h))
    ensures var y := HandleNotices(config, x, notices);
            h in y.disk.metas && (y.disk.metas[h].pruned ==> Gone(y.disk, h))
    decreases |notices|
  {
    hide HandleNotice, Gone;
    if notices != [] {
      NoticeTakesBytes(config, x, notices[0], h);
      NoticesTakeBytes(config, HandleNotice(config, x, notices[0]), notices[1..], h);
    }
  }

  lemma {:induction false} NoticesFrame(config: Config, x: Exec, notices: seq<Notice>)
    ensures var y := HandleNotices(config, x, notices);
            y.mem.currentHeight == x.mem.currentHeight && y.mem.finalized == x.mem.finalized
    decreases |notices|
  {
    hide HandleNotice;
    if notices != [] {
      HandleNoticeFrame(config, x, notices[0]);
      NoticesFrame(config, HandleNotice(config, x, notices[0]), notices[1..]);
    }
  }

  lemma {:induction false} BlockStays(
    config: Config, base: Disk, x: Exec, notices: seq<Notice>, h: nat)
    requires Safe(config, base, x) && FinalityBound(x) && h in x.disk.metas
    ensures var y := HandleNotices(config, x, notices);
            h in y.disk.metas && x.disk.metas[h].SameBlock(y.disk.metas[h])
    decreases |notices|
  {
    hide DiskOk, Extends, HandleNotice, FinalityBound, Judge;
    if notices != [] {
      var n := notices[0];
      HandleNoticeSafe(config, base, x, n);
      HandleNoticeFrame(config, x, n);
      if Judge(config, x.disk, n) == Record {
        MetaAfterNotice(config, x, n, h);
      } else {
        RejectedChangesNothing(config, x, n);
      }
      BlockStays(config, base, HandleNotice(config, x, n), notices[1..], h);
    }
  }
}
