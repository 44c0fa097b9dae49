/** Safety of synchronisation, of deciding a height and of start-up. */
module NodeDecide {

  import opened Types
  import opened Ordering
  import opened BlobMetadata
  import opened BlobFamilies
  import opened DiskState
  import opened DiskInvariant
  import opened Node
  import opened NodeSafety
  import opened NodeBlobs
  import opened NodeOps

  // ----- Synchronisation -----

  lemma AdoptMetaSafe(config: Config, base: Disk, x: Exec, h: nat, r: Round, m: Metadata)
    requires Safe(config, base, x) && h !in x.disk.metas
    requires m.height == h && m.Valid() && m.Fresh()
    requires x.disk.ParentRoot(config.crypto, h) == Some(m.parentRoot)
    ensures Safe(config, base, AdoptMeta(config, x, h, r, m))
  {
    hide Safe, Disk.ParentRoot, Metadata.HeaderRoot;
    ResolvedParentOk(config, x.disk, h, r, m);
    var x1 := Do(x, PutUndecidedMeta(h, r, m));
    DoSafe(config, base, x, PutUndecidedMeta(h, r, m));
    DoSafe(config, base, x1, PromoteMeta(h, r));
    SafeMemory(config, base, Do(x1, PromoteMeta(h, r)), AdoptMeta(config, x, h, r, m));
  }

  lemma RejectSafe(config: Config, base: Disk, x: Exec, h: nat, r: Round)
    requires Safe(config, base, x)
    ensures Safe(config, base, DropBlobs(x, h, r))
    ensures Safe(config, base, Do(DropBlobs(x, h, r), DeleteUndecidedMeta(h, r)))
  {
    hide Safe, DropEntries, RoundEntries;
    DropEntriesSafe(config, base, x, h, RoundEntries(x.disk.undecided, h, r));
    DoSafe(config, base, DropBlobs(x, h, r), DeleteUndecidedMeta(h, r));
  }

  /** The finality bound speaks of the decided values and of three memory fields only. */
  lemma FinalityFrame(x: Exec, y: Exec)
    requires FinalityBound(x) && x.disk.values.Keys <= y.disk.values.Keys
    requires y.mem.currentHeight == x.mem.currentHeight && y.mem.finalized == x.mem.finalized
    ensures FinalityBound(y)
  {
    MaxMonotone(x.disk.values.Keys, y.disk.values.Keys);
  }

  /** A package is taken over: entry promoted, proposal stored, notices handled. */
  function Adopt(
    config: Config, x: Exec, h: nat, r: Round, proposer: Address, value: Value, m: Metadata,
    notices: seq<Notice>): Exec
  {
    HandleNotices(
      config,
      Do(AdoptMeta(config, x, h, r, m), PutProposal(h, r, Proposal(value, proposer))), notices)
  }

  lemma AdoptSafe(
    config: Config, base: Disk, x: Exec, h: nat, r: Round, proposer: Address, value: Value,
    m: Metadata, notices: seq<Notice>)
    requires Safe(config, base, x) && FinalityBound(x) && h !in x.disk.metas
    requires m.height == h && m.Valid() && m.Fresh()
    requires x.disk.ParentRoot(config.crypto, h) == Some(m.parentRoot)
    ensures Safe(config, base, Adopt(config, x, h, r, proposer, value, m, notices))
  {
    hide Safe, Disk.ParentRoot, HandleNotices, FinalityBound, Metadata.HeaderRoot;
    AdoptMetaSafe(config, base, x, h, r, m);
    var y := AdoptMeta(config, x, h, r, m);
    var w := PutProposal(h, r, Proposal(value, proposer));
    DoSafe(config, base, y, w);
    FinalityFrame(x, Do(y, w));
    HandleNoticesSafe(config, base, Do(y, w), notices);
  }

  lemma SyncFullSafe(
    config: Config, base: Disk, x: Exec, h: nat, r: Round, proposer: Address, package: Package)
    requires Safe(config, base, x) && FinalityBound(x) && h !in x.disk.metas && package.Full?
    ensures Safe(config, base, Sync(config, x, h, r, proposer, package).0)
  {
    hide DiskOk, Extends, FinalityBound, StoreSidecars, PromoteBlobs, DropBlobs, HandleNotices,
         SidecarsVerified, MatchesValue, DistinctIndices, SyncedMeta, AdoptMeta, Disk.ParentRoot;
    var Full(value, payload, sidecars, notices) := package;
    var x1 := Do(x, PutBlock(h, r, payload));
    DoSafe(config, base, x, PutBlock(h, r, payload));
    var x2 := StoreSidecars(x1, h, r, sidecars);
    StoreSidecarsSafe(config, base, x1, h, r, sidecars);
    StoreSidecarsEffect(x1, h, r, sidecars);
    RejectSafe(config, base, x2, h, r);
    var x3 := if sidecars != [] then PromoteBlobs(x2, h, r) else x2;
    PromoteBlobsSafe(config, base, x2, h, r);
    RejectSafe(config, base, x3, h, r);
    var meta := SyncedMeta(config, x3.disk, h, proposer, package);
    if meta.Some? {
      FinalityFrame(x, x3);
      AdoptSafe(config, base, x3, h, r, proposer, value, meta.value, notices);
    }
  }

  lemma SyncMetadataSafe(
    config: Config, base: Disk, x: Exec, h: nat, r: Round, proposer: Address, package: Package)
    requires Safe(config, base, x) && FinalityBound(x)
    requires package.MetadataOnly? && (package.payloadOpt.Some? ==> h !in x.disk.metas)
    ensures Safe(config, base, Sync(config, x, h, r, proposer, package).0)
  {
    hide DiskOk, Extends, FinalityBound, HandleNotices, SyncedMeta, AdoptMeta,
         Disk.ParentRoot;
    var MetadataOnly(value, notices, payload) := package;
    if payload.None? {
      HandleNoticesSafe(config, base, x, notices);
    } else {
      var x1 := Do(x, PutBlock(h, r, payload.value));
      DoSafe(config, base, x, PutBlock(h, r, payload.value));
      var synced := SyncedMeta(config, x1.disk, h, proposer, package);
      if synced.Some? {
        var meta := synced.value;
        AdoptMetaSafe(config, base, x1, h, r, meta);
        AdoptMetaFrame(config, x1, h, r, meta);
        var x2 := AdoptMeta(config, x1, h, r, meta);
        FinalityFrame(x, x2);
        HandleNoticesSafe(config, base, x2, notices);
        DoSafe(config, base, HandleNotices(config, x2, notices),
               PutProposal(h, r, Proposal(value, proposer)));
      }
    }
  }

  lemma AdoptMetaFrame(config: Config, x: Exec, h: nat, r: Round, m: Metadata)
    ensures var y := AdoptMeta(config, x, h, r, m);
            && y.disk == x.disk.(metas := y.disk.metas, undecidedMetas := y.disk.undecidedMetas,
                                 latest := y.disk.latest)
            && y.mem == x.mem.(cacheRoot := y.mem.cacheRoot, cacheHeight := y.mem.cacheHeight)
  {
  }

  // ----- Deciding -----

  /** Consensus agreement: a height is decided with one value in one round, and its metadata is
      promoted once. */
  ghost predicate Agreed(d: Disk, h: nat, r: Round) {
    && (h in d.values ==>
          && d.values[h].round == r
          && ((h, r) in d.proposals ==> d.values[h].value == d.proposals[(h, r)].value))
    && ((h, r) in d.undecidedMetas ==> h !in d.metas)
  }

  lemma DropOrphanSafe(config: Config, base: Disk, x: Exec, h: nat, r: Round)
    requires Safe(config, base, x)
    ensures Safe(config, base, DropOrphan(x, h, r))
    ensures var y := DropOrphan(x, h, r);
            && y.mem == x.mem
            && y.disk == x.disk.(undecided := y.disk.undecided,
                                 undecidedMetas := y.disk.undecidedMetas)
  {
    hide Safe, DropEntries, RoundEntries;
    if r >= 0 {
      var x1 := Do(x, DeleteUndecidedMeta(h, r));
      DoSafe(config, base, x, DeleteUndecidedMeta(h, r));
      DropEntriesSafe(config, base, x1, h, RoundEntries(x1.disk.undecided, h, r));
      DropEntriesEffect(x1, h, RoundEntries(x1.disk.undecided, h, r));
    }
  }

  lemma {:induction false} DropOrphansSafe(
    config: Config, base: Disk, x: Exec, h: nat, rounds: seq<Round>)
    requires Safe(config, base, x)
    ensures Safe(config, base, DropOrphans(x, h, rounds))
    ensures var y := DropOrphans(x, h, rounds);
            && y.mem == x.mem
            && y.disk == x.disk.(undecided := y.disk.undecided,
                                 undecidedMetas := y.disk.undecidedMetas)
    decreases |rounds|
  {
    hide Safe, DropOrphan;
    if rounds != [] {
      DropOrphanSafe(config, base, x, h, rounds[0]);
      DropOrphansSafe(config, base, DropOrphan(x, h, rounds[0]), h, rounds[1..]);
    }
  }

  lemma FinishSafe(config: Config, base: Disk, x: Exec, h: nat)
    requires Safe(config, base, x) && FinalityBound(x) && h in x.disk.values
    ensures Safe(config, base, Finish(x, h))
  {
    hide Safe, FlushPrunes, MaxOrZero, Ascending;
    var x1 := x.(mem := x.mem.(finalized := if h > x.mem.finalized then h else x.mem.finalized));
    SafeMemory(config, base, x, x1);
    FlushPrunesSafe(config, base, x1);
    SafeMemory(config, base, FlushPrunes(x1), Finish(x, h));
  }

  /** The first part of `commit`: value, consensus metadata and promoted entry are stored. */
  function StoreDecision(config: Config, x: Exec, h: nat, r: Round, p: Proposal): Exec {
    Do(Do(Do(x, PutValue(h, DecidedValue(p.value, r))),
          PutConsensus(h, ConsensusMetadata(r, p.proposer, p.value.exec.blockHash))),
       PromoteMeta(h, r))
  }

  lemma StoreDecisionSafe(config: Config, base: Disk, x: Exec, h: nat, r: Round)
    requires Safe(config, base, x) && Agreed(x.disk, h, r) && (h, r) in x.disk.proposals
    ensures var p := x.disk.proposals[(h, r)];
            && Safe(config, base, StoreDecision(config, x, h, r, p))
            && Safe(config, base,
                    Do(Do(x, PutValue(h, DecidedValue(p.value, r))),
                       PutConsensus(h, ConsensusMetadata(r, p.proposer, p.value.exec.blockHash))))
  {
    hide Safe;
    var p := x.disk.proposals[(h, r)];
    var x1 := Do(x, PutValue(h, DecidedValue(p.value, r)));
    DoSafe(config, base, x, PutValue(h, DecidedValue(p.value, r)));
    var w := PutConsensus(h, ConsensusMetadata(r, p.proposer, p.value.exec.blockHash));
    DoSafe(config, base, x1, w);
    DoSafe(config, base, Do(x1, w), PromoteMeta(h, r));
  }

  /** The rest of `commit` up to advancing the height. */
  function SettleHeight(config: Config, x: Exec, h: nat, r: Round): Exec {
    var data := x.disk.BlockData(h, r);
    var x5 := if data.Some? then Do(x, PutDecidedBlock(h, data.value)) else x;
    var x6 := Do(x5, PruneBelow(RetainHeight(config, x5.mem, h)));
    var x7 := DropOrphans(x6, h, InKeyOrder(x6.mem.Tracked(h) - {r}));
    x7.(mem := x7.mem.(blobRounds := x7.mem.blobRounds - {h}))
  }

  lemma SettleHeightSafe(config: Config, base: Disk, x: Exec, h: nat, r: Round)
    requires Safe(config, base, x) && h in x.disk.metas
    requires h in x.disk.values && x.disk.values[h].round == r
    ensures Safe(config, base, SettleHeight(config, x, h, r))
    ensures var y := SettleHeight(config, x, h, r);
            && y.disk.values == x.disk.values && y.disk.metas == x.disk.metas
            && y.disk.records == x.disk.records && y.disk.decided == x.disk.decided
            && y.disk.consensus == x.disk.consensus
            && y.mem == x.mem.(blobRounds := x.mem.blobRounds - {h})
  {
    hide Safe, DropOrphans, InKeyOrder, RetainHeight;
    var data := x.disk.BlockData(h, r);
    var x5 := if data.Some? then Do(x, PutDecidedBlock(h, data.value)) else x;
    if data.Some? { DoSafe(config, base, x, PutDecidedBlock(h, data.value)); }
    var x6 := Do(x5, PruneBelow(RetainHeight(config, x5.mem, h)));
    DoSafe(config, base, x5, PruneBelow(RetainHeight(config, x5.mem, h)));
    DropOrphansSafe(config, base, x6, h, InKeyOrder(x6.mem.Tracked(h) - {r}));
    SafeMemory(
      config, base, DropOrphans(x6, h, InKeyOrder(x6.mem.Tracked(h) - {r})),
      SettleHeight(config, x, h, r));
  }

  /** `commit` is the stored decision, the cached root, the settled height and the next height. */
  lemma CommitFirstParts(config: Config, x: Exec, h: nat, r: Round)
    requires (h, r) in x.disk.proposals
    ensures var p := x.disk.proposals[(h, r)];
            var x3 := StoreDecision(config, x, h, r, p);
            CommitFirst(config, x, h, r) ==
            if h in x3.disk.metas then
              (Finish(SettleHeight(config, Cache(config, x3, h, x3.disk.Meta(h)), h, r), h), true)
            else
              (Do(Do(x, PutValue(h, DecidedValue(p.value, r))),
                  PutConsensus(h, ConsensusMetadata(r, p.proposer, p.value.exec.blockHash))), false)
  {
    hide DropOrphans, InKeyOrder, RetainHeight, FlushPrunes, Metadata.HeaderRoot, Finish;
  }

  lemma CommitFirstSafe(config: Config, base: Disk, x: Exec, h: nat, r: Round)
    requires Safe(config, base, x) && FinalityBound(x)
    requires Agreed(x.disk, h, r) && (h, r) in x.disk.proposals
    ensures Safe(config, base, CommitFirst(config, x, h, r).0)
  {
    hide Safe, SettleHeight, FinalityBound, Metadata.HeaderRoot, Finish, CommitFirst;
    CommitFirstParts(config, x, h, r);
    StoreDecisionSafe(config, base, x, h, r);
    var x3 := StoreDecision(config, x, h, r, x.disk.proposals[(h, r)]);
    if h in x3.disk.metas {
      var x4 := Cache(config, x3, h, x3.disk.Meta(h));
      SafeMemory(config, base, x3, x4);
      SettleHeightSafe(config, base, x4, h, r);
      var x7 := SettleHeight(config, x4, h, r);
      FinalityFrame(x, x7);
      FinishSafe(config, base, x7, h);
    }
  }

  lemma CommitReplaySafe(config: Config, base: Disk, x: Exec, h: nat, r: Round)
    requires Safe(config, base, x) && FinalityBound(x) && h in x.disk.values
    ensures Safe(config, base, CommitReplay(config, x, h, r).0)
  {
    hide Safe, PromoteBlobs, FinalityBound, Metadata.HeaderRoot, Finish;
    var x1 := PromoteBlobs(x, h, r);
    PromoteBlobsSafe(config, base, x, h, r);
    var x2 :=
      if h in x1.disk.metas then Cache(config, x1, h, x1.disk.Meta(h))
      else if (h, r) in x1.disk.undecidedMetas then
        Cache(config, Do(x1, PromoteMeta(h, r)), h, x1.disk.undecidedMetas[(h, r)])
      else x1;
    if h in x1.disk.metas {
      SafeMemory(config, base, x1, x2);
    } else {
      DoSafe(config, base, x1, PromoteMeta(h, r));
      if (h, r) in x1.disk.undecidedMetas {
        SafeMemory(config, base, Do(x1, PromoteMeta(h, r)), x2);
      }
    }
    FinalityFrame(x, x2);
    FinishSafe(config, base, x2, h);
  }

  lemma DecideSafe(config: Config, base: Disk, x: Exec, h: nat, r: Round, el: ElOutcome)
    requires Safe(config, base, x) && FinalityBound(x) && Agreed(x.disk, h, r)
    ensures Safe(config, base, Decide(config, x, h, r, el).0)
  {
    hide Safe, FinalityBound, PromoteBlobs, CommitFirst, CommitReplay, BlobsBack, AlreadyDecided,
         ExpectedHashes, JobIndices;
    var data := x.disk.BlockData(h, r);
    if data.Some? && data.value.ssz != [] && el != BadPayload {
      var hashes := ExpectedHashes(config.crypto, x.disk, h, r, data.value);
      if BlobsBack(config.crypto, x.disk, h, r, hashes) {
        PromoteBlobsSafe(config, base, x, h, r);
        var x1 := if AlreadyDecided(x.disk, h, r, hashes) then x else PromoteBlobs(x, h, r);
        FinalityFrame(x, x1);
        if (h, r) in x1.disk.proposals {
          CommitFirstSafe(config, base, x1, h, r);
        } else if h in x1.disk.values {
          CommitReplaySafe(config, base, x1, h, r);
        }
        SafeMemory(config, base, Commit(config, x1, h, r).0,
          var y := Commit(config, x1, h, r).0;
          y.(mem := y.mem.(pendingArchive := y.mem.pendingArchive + {h})));
      }
    }
  }

  // ----- Start-up -----

  lemma HydrateCacheSafe(config: Config, base: Disk, x: Exec)
    requires Safe(config, base, x)
    ensures Safe(config, base, HydrateCache(config, x))
    ensures var y := HydrateCache(config, x);
            && y.disk == x.disk.(metas := y.disk.metas, latest := y.disk.latest)
            && y.mem == x.mem.(cacheRoot := y.mem.cacheRoot, cacheHeight := y.mem.cacheHeight)
  {
    hide Extends, Metadata.HeaderRoot, CandidatesOk, RecordsOk, InlinesOk, PrunedOk, BlocksOk;
    var y := HydrateCache(config, x);
    if x.disk.latest.Some? && x.disk.latest.value in x.disk.metas {
      SafeMemory(config, base, x, y);
    } else {
      assert ChainOk(config.crypto, x.disk.metas, x.disk.latest);
      var genesis := Genesis(config.genesisExec);
      DoSafe(config, base, x, SeedGenesis(genesis));
      SafeMemory(config, base, Do(x, SeedGenesis(genesis)), y);
    }
  }

  lemma {:induction false} DeleteMetasSafe(config: Config, base: Disk, x: Exec, keys: seq<Round>)
    requires Safe(config, base, x)
    ensures Safe(config, base, DeleteMetas(x, keys))
    ensures var y := DeleteMetas(x, keys);
            y.mem == x.mem && y.disk == x.disk.(undecidedMetas := y.disk.undecidedMetas)
    decreases |keys|
  {
    hide Safe;
    if keys != [] {
      DoSafe(config, base, x, DeleteUndecidedMeta(0, keys[0]));
      DeleteMetasSafe(config, base, Do(x, DeleteUndecidedMeta(0, keys[0])), keys[1..]);
    }
  }

  lemma RehydrateSafe(config: Config, base: Disk, x: Exec)
    requires Safe(config, base, x) && x.mem.currentHeight <= 1 && x.mem.finalized == 0
    ensures Safe(config, base, Rehydrate(config, x))
    ensures FinalityBound(Rehydrate(config, x))
  {
    hide Safe, RehydrateHeights, Ascending, MaxOrZero;
    var finalized :=
      if x.disk.values.Keys == {} then x.mem.finalized else MaxOrZero(x.disk.values.Keys);
    var x1 := x.(mem := x.mem.(finalized := finalized, pendingArchive := {}, pendingPrune := {}));
    SafeMemory(config, base, x, x1);
    RehydrateHeightsSafe(config, base, x1, Ascending(x1.disk.metas.Keys));
  }

  /** Start-up is safe from any disk a crash can leave, at every point of its own writes. */
  lemma RestartSafe(config: Config, d: Disk)
    requires DiskOk(config, d)
    ensures Safe(config, d, Restart(config, d)) && FinalityBound(Restart(config, d))
  {
    hide DiskOk, Extends, Rehydrate, HydrateCache, DeleteMetas, InKeyOrder, FinalityBound;
    var x := Exec(d, FRESH_MEMORY, []);
    ExtendsReflexive(d);
    assert Safe(config, d, x);
    HydrateCacheSafe(config, d, x);
    var x1 := HydrateCache(config, x);
    var keys := InKeyOrder(set k | k in x1.disk.undecidedMetas && k.0 < START_HEIGHT :: k.1);
    DeleteMetasSafe(config, d, x1, keys);
    RehydrateSafe(config, d, DeleteMetas(x1, keys));
  }
}
