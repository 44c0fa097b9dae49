/** Each operation leaves the memory of a running node exact. */
module NodeSteps {

  import opened Types
  import opened Ordering
  import opened BlobMetadata
  import opened BlobFamilies
  import opened DiskState
  import opened DiskInvariant
  import opened Node
  import opened NodeSafety
  import opened NodeBlobs
  import opened NodeOps
  import opened NodeDecide
  import opened NodeMemory

  /** Decided metadata, records, pointer, pending sets, finality and cache are untouched. */
  ghost predicate Quiet(x: Exec, y: Exec) {
    && y.disk.metas == x.disk.metas && y.disk.records == x.disk.records
    && y.disk.latest == x.disk.latest && y.disk.values == x.disk.values
    && y.mem == x.mem.(blobRounds := y.mem.blobRounds)
  }

  lemma QuietExact(config: Config, x: Exec, y: Exec)
    requires MemOk(config, x) && Quiet(x, y)
    ensures MemOk(config, y)
  {
  }

  /** Neither the decided tables nor, apart from round tracking, the memory differ. */
  ghost predicate Undisturbed(x: Exec, y: Exec) {
    Quiet(x, y) && y.disk.decided == x.disk.decided
  }

  lemma CandidateWrite(x: Exec, w: Write)
    requires w.PutProposal? || w.PutUndecidedMeta? || w.PutBlock?
    ensures Undisturbed(x, Do(x, w))
  {
  }

  lemma UndisturbedTwice(x: Exec, y: Exec, z: Exec)
    requires Undisturbed(x, y) && Undisturbed(y, z)
    ensures Undisturbed(x, z)
  {
  }

  lemma TrackUndisturbed(x: Exec, h: nat, r: Round)
    ensures Undisturbed(x, x.(mem := x.mem.Track(h, r))) && Undisturbed(x, x)
  {
  }

  lemma StoreUndisturbed(x: Exec, h: nat, r: Round, sidecars: seq<Sidecar>)
    ensures Undisturbed(x, StoreSidecars(x, h, r, sidecars))
  {
    hide StoreSidecars;
    StoreSidecarsEffect(x, h, r, sidecars);
  }

  lemma ProposeQuiet(
    config: Config, x: Exec, h: nat, r: Round, exec: ExecutionHeader, bundle: Bundle,
    payload: Payload)
    ensures var y := Propose(config, x, h, r, exec, bundle, payload);
            Quiet(x, y) && y.disk.decided == x.disk.decided
  {
    hide StoreSidecars, BuildSidecars, Config.IndexOf, Disk.ParentRoot, BundleKeccaks,
         BundleCommitments, New, Do, Quiet, Memory.Track;
    TrackUndisturbed(x, h, r);
    if x.disk.BlockData(h, r).None? {
      var commitments := BundleCommitments(bundle);
      var put := PutProposal(h, r, Proposal(Value(exec, commitments), config.address));
      var x1 := Do(x, put);
      CandidateWrite(x, put);
      var index, parent := config.IndexOf(config.address), x1.disk.ParentRoot(config.crypto, h);
      if parent.Some? {
        var meta := New(
          h, parent.value, commitments, BundleKeccaks(config.crypto, bundle), exec, index);
        CandidateWrite(x1, PutUndecidedMeta(h, r, meta));
        var x2 := Do(x1, PutUndecidedMeta(h, r, meta));
        UndisturbedTwice(x, x1, x2);
        TrackUndisturbed(x2, h, r);
        var x3 := if bundle != [] then x2.(mem := x2.mem.Track(h, r)) else x2;
        UndisturbedTwice(x, x2, x3);
        CandidateWrite(x3, PutBlock(h, r, payload));
        var x4 := Do(x3, PutBlock(h, r, payload));
        UndisturbedTwice(x, x3, x4);
        if index.Some? {
          var header := BeaconHeader(
            h, index.value, parent.value, exec.stateRoot, config.crypto.bodyRoot(commitments, exec));
          var sidecars := BuildSidecars(config.crypto, bundle, header, exec);
          StoreUndisturbed(x4, h, r, sidecars);
          UndisturbedTwice(x, x4, StoreSidecars(x4, h, r, sidecars));
        }
      }
    }
  }

  lemma ReceiveQuiet(
    config: Config, x: Exec, h: nat, r: Round, proposer: Address, exec: ExecutionHeader,
    sidecars: Sidecars, payload: Payload, assembled: bool)
    ensures var y := Receive(config, x, h, r, proposer, exec, sidecars, payload, assembled);
            Quiet(x, y) && y.disk.decided == x.disk.decided
  {
    hide StoreSidecars, Config.IndexOf, Disk.ParentRoot, Keccaks, SidecarsVerified;
    StoreSidecarsEffect(x, h, r, sidecars);
  }

  lemma RestreamQuiet(config: Config, x: Exec, h: nat, r: Round, from: Round)
    ensures var y := Restream(config, x, h, r, from);
            Quiet(x, y) && y.disk.decided == x.disk.decided
  {
    hide StoreSidecars, Listing, RoundBlobs, Rebuild, MetaForRound;
    var d, meta := x.disk, MetaForRound(x.disk, h, from);
    if (h, from) in d.proposals && d.BlockData(h, from).Some? && meta.Some? {
      var x3 := Do(Do(Do(x, PutProposal(h, r, d.proposals[(h, from)].(proposer := config.address))),
                      PutBlock(h, r, d.BlockData(h, from).value)),
                   PutUndecidedMeta(h, r, meta.value));
      var rebuilt := Rebuild(config, meta.value, Listing(RoundBlobs(d.undecided, h, from)));
      StoreSidecarsEffect(x3, h, r, []);
      if rebuilt.Some? { StoreSidecarsEffect(x3, h, r, rebuilt.value); }
    }
  }

  lemma CleanRoundQuiet(x: Exec, h: nat, r: Round)
    ensures Quiet(x, CleanRound(x, h, r)) && CleanRound(x, h, r).mem == x.mem
    ensures CleanRound(x, h, r).disk.decided == x.disk.decided
    ensures CleanRound(x, h, r).disk.undecided
            == if r < 0 then x.disk.undecided else DropRound(x.disk.undecided, h, r)
  {
    hide DropBlobs, DropRound;
    if r >= 0 {
      DropBlobsEffect(
        Do(Do(Do(x, DeleteUndecidedMeta(h, r)), DeleteProposal(h, r)), DeleteBlock(h, r)), h, r);
    }
  }

  lemma {:induction false} CleanRoundsQuiet(x: Exec, h: nat, rounds: seq<Round>)
    ensures Quiet(x, CleanRounds(x, h, rounds)) && CleanRounds(x, h, rounds).mem == x.mem
    ensures CleanRounds(x, h, rounds).disk.decided == x.disk.decided
    decreases |rounds|
  {
    hide CleanRound;
    if rounds != [] {
      CleanRoundQuiet(x, h, rounds[0]);
      CleanRoundsQuiet(CleanRound(x, h, rounds[0]), h, rounds[1..]);
    }
  }

  lemma StartRoundExact(config: Config, x: Exec, h: nat, r: Round)
    requires MemOk(config, x) && h <= x.mem.finalized + 1
    ensures MemOk(config, StartRound(x, h, r))
  {
    hide CleanRounds, InKeyOrder, PruningExact, CacheOk, MaxOrZero;
    CleanRoundsQuiet(x, h, InKeyOrder(StaleRounds(x.mem, h, r)));
  }

  // ----- Synchronisation -----

  /** All metadata offered for one height and round has one header. */
  ghost predicate OneHeader(crypto: Crypto, d: Disk, h: nat, r: Round, m: Metadata) {
    (h, r) in d.undecidedMetas ==> d.undecidedMetas[(h, r)].HeaderRoot(crypto) == m.HeaderRoot(crypto)
  }

  /** After adopting an entry the cache is right if and only if the entry that was promoted, which is
      the first writer's, has the offered header. */
  lemma AdoptedCache(config: Config, x: Exec, h: nat, r: Round, m: Metadata)
    ensures var y := AdoptMeta(config, x, h, r, m);
            CacheOk(config.crypto, y.disk.metas, y.mem.cacheRoot, y.mem.cacheHeight)
            <==> OneHeader(config.crypto, x.disk, h, r, m)
  {
    hide Metadata.HeaderRoot;
  }

  lemma AdoptMetaExact(config: Config, x: Exec, h: nat, r: Round, m: Metadata)
    requires DiskOk(config, x.disk) && MemOk(config, x)
    requires h !in x.disk.metas && m.Fresh() && OneHeader(config.crypto, x.disk, h, r, m)
    ensures MemOk(config, AdoptMeta(config, x, h, r, m))
  {
    hide ChainOk, InlinesOk, PrunedOk, BlocksOk, PruningExact, CacheOk, RecordsOk, MaxOrZero,
         Metadata.HeaderRoot, OneHeader;
    var d := x.disk;
    var m' := if (h, r) in d.undecidedMetas then d.undecidedMetas[(h, r)] else m;
    ExactAfterPromote(config, d.metas, d.records, x.mem.Finality(), x.mem.pendingPrune, h, m');
    AdoptedCache(config, x, h, r, m);
    assert AdoptMeta(config, x, h, r, m).disk.metas == d.metas[h := m'];
  }

  lemma SyncExact(
    config: Config, base: Disk, x: Exec, h: nat, r: Round, proposer: Address, package: Package)
    requires Safe(config, base, x) && MemOk(config, x)
    requires package.Full? || package.payloadOpt.Some? ==> h !in x.disk.metas
    requires var m := SyncedMeta(config, x.disk, h, proposer, package);
             m.Some? ==> OneHeader(config.crypto, x.disk, h, r, m.value)
    ensures MemOk(config, Sync(config, x, h, r, proposer, package).0)
  {
    if package.Full? {
      SyncFullExact(config, base, x, h, r, proposer, package);
    } else {
      SyncMetadataExact(config, base, x, h, r, proposer, package);
    }
  }

  /** Nothing before the adoption of an entry changes what the entry is built from. */
  lemma SyncedMetaFrame(
    config: Config, d: Disk, d': Disk, h: nat, proposer: Address, package: Package)
    requires d'.metas == d.metas && d'.records == d.records
    ensures d'.ParentRoot(config.crypto, h) == d.ParentRoot(config.crypto, h)
    ensures SyncedMeta(config, d', h, proposer, package) == SyncedMeta(config, d, h, proposer, package)
  {
  }

  lemma QuietTransitive(x: Exec, y: Exec, z: Exec)
    requires Quiet(x, y) && Quiet(y, z)
    ensures Quiet(x, z)
  {
  }

  lemma QuietDrop(x: Exec, h: nat, r: Round)
    ensures Quiet(x, DropBlobs(x, h, r))
    ensures Quiet(x, Do(DropBlobs(x, h, r), DeleteUndecidedMeta(h, r)))
  {
    hide DropBlobs, DropRound;
    DropBlobsEffect(x, h, r);
  }

  /** A rejected package leaves decided metadata, decided values, pointer and cache as they were. */
  lemma SyncRejectedQuiet(
    config: Config, x: Exec, h: nat, r: Round, proposer: Address, package: Package)
    requires package.Full? && !Sync(config, x, h, r, proposer, package).1
    ensures Quiet(x, Sync(config, x, h, r, proposer, package).0)
  {
    hide StoreSidecars, PromoteBlobs, DropBlobs, HandleNotices, SidecarsVerified, MatchesValue,
         DistinctIndices, SyncedMeta, AdoptMeta, Disk.ParentRoot, Quiet, Do;
    var Full(value, payload, sidecars, notices) := package;
    var x1 := Do(x, PutBlock(h, r, payload));
    QuietBlock(x, h, r, payload);
    var x2 := StoreSidecars(x1, h, r, sidecars);
    QuietStore(x1, h, r, sidecars);
    QuietTransitive(x, x1, x2);
    var x3 := if sidecars != [] then PromoteBlobs(x2, h, r) else x2;
    QuietPromote(x2, h, r);
    if sidecars != [] { QuietTransitive(x, x2, x3); }
    QuietDrop(x2, h, r);
    QuietTransitive(x, x2, DropBlobs(x2, h, r));
    QuietTransitive(x, x2, Do(DropBlobs(x2, h, r), DeleteUndecidedMeta(h, r)));
    QuietDrop(x3, h, r);
    QuietTransitive(x, x3, Do(DropBlobs(x3, h, r), DeleteUndecidedMeta(h, r)));
  }

  lemma QuietBlock(x: Exec, h: nat, r: Round, payload: Payload)
    ensures Quiet(x, Do(x, PutBlock(h, r, payload)))
  {
  }

  lemma QuietStore(x: Exec, h: nat, r: Round, sidecars: Sidecars)
    ensures Quiet(x, StoreSidecars(x, h, r, sidecars))
  {
    hide StoreSidecars;
    StoreSidecarsEffect(x, h, r, sidecars);
  }

  lemma QuietPromote(x: Exec, h: nat, r: Round)
    ensures Quiet(x, PromoteBlobs(x, h, r))
  {
    hide PromoteBlobs;
    PromoteBlobsFrame(x, h, r);
  }

  lemma PromoteBlobsFrame(x: Exec, h: nat, r: Round)
    ensures OnlyBlobs(x, PromoteBlobs(x, h, r))
  {
    hide MoveEntries, Entries, RoundsToMove;
    MoveEntriesEffect(x, h, Entries(x.disk.undecided, h, RoundsToMove(x.disk.undecided, h, r)));
  }

  /** The state in which an accepted full package is adopted. */
  function BeforeAdoption(x: Exec, h: nat, r: Round, package: Package): Exec
    requires package.Full?
  {
    var x2 := StoreSidecars(Do(x, PutBlock(h, r, package.payload)), h, r, package.sidecars);
    if package.sidecars != [] then PromoteBlobs(x2, h, r) else x2
  }

  lemma BeforeAdoptionFacts(
    config: Config, base: Disk, x: Exec, h: nat, r: Round, package: Package)
    requires package.Full? && Safe(config, base, x) && h !in x.disk.metas
    ensures var y := BeforeAdoption(x, h, r, package);
            && Safe(config, base, y) && Quiet(x, y)
            && y.disk.undecidedMetas == x.disk.undecidedMetas
  {
    hide DiskOk, Extends, StoreSidecars, PromoteBlobs;
    var w := PutBlock(h, r, package.payload);
    DoSafe(config, base, x, w);
    StoreSidecarsSafe(config, base, Do(x, w), h, r, package.sidecars);
    StoreSidecarsEffect(Do(x, w), h, r, package.sidecars);
    PromoteBlobsSafe(config, base, StoreSidecars(Do(x, w), h, r, package.sidecars), h, r);
  }

  lemma SyncFullExact(
    config: Config, base: Disk, x: Exec, h: nat, r: Round, proposer: Address, package: Package)
    requires Safe(config, base, x) && MemOk(config, x) && package.Full? && h !in x.disk.metas
    requires var m := SyncedMeta(config, x.disk, h, proposer, package);
             m.Some? ==> OneHeader(config.crypto, x.disk, h, r, m.value)
    ensures MemOk(config, Sync(config, x, h, r, proposer, package).0)
  {
    hide DiskOk, Extends, MemOk, AdoptMeta, HandleNotices, SyncedMeta, StoreSidecars, PromoteBlobs,
         DropBlobs, Disk.ParentRoot, SidecarsVerified, MatchesValue, DistinctIndices,
         Metadata.HeaderRoot;
    if Sync(config, x, h, r, proposer, package).1 {
      var x3 := BeforeAdoption(x, h, r, package);
      BeforeAdoptionFacts(config, base, x, h, r, package);
      QuietExact(config, x, x3);
      SyncedMetaFrame(config, x.disk, x3.disk, h, proposer, package);
      var m := SyncedMeta(config, x3.disk, h, proposer, package).value;
      AdoptMetaExact(config, x3, h, r, m);
      AdoptMetaSafe(config, base, x3, h, r, m);
      var x4 := AdoptMeta(config, x3, h, r, m);
      var w := PutProposal(h, r, Proposal(package.value, proposer));
      DoSafe(config, base, x4, w);
      QuietExact(config, x4, Do(x4, w));
      HandleNoticesExact(config, base, Do(x4, w), package.notices);
    } else {
      SyncRejectedQuiet(config, x, h, r, proposer, package);
      QuietExact(config, x, Sync(config, x, h, r, proposer, package).0);
    }
  }

  lemma SyncMetadataExact(
    config: Config, base: Disk, x: Exec, h: nat, r: Round, proposer: Address, package: Package)
    requires Safe(config, base, x) && MemOk(config, x) && package.MetadataOnly?
    requires package.payloadOpt.Some? ==> h !in x.disk.metas
    requires var m := SyncedMeta(config, x.disk, h, proposer, package);
             m.Some? ==> OneHeader(config.crypto, x.disk, h, r, m.value)
    ensures MemOk(config, Sync(config, x, h, r, proposer, package).0)
  {
    hide DiskOk, Extends, MemOk, AdoptMeta, HandleNotices, SyncedMeta, Metadata.HeaderRoot,
         Disk.ParentRoot;
    var payload := package.payloadOpt;
    if payload.None? {
      HandleNoticesExact(config, base, x, package.notices);
    } else {
      var w := PutBlock(h, r, payload.value);
      DoSafe(config, base, x, w);
      var x1 := Do(x, w);
      QuietExact(config, x, x1);
      SyncedMetaFrame(config, x.disk, x1.disk, h, proposer, package);
      var m := SyncedMeta(config, x1.disk, h, proposer, package);
      if m.Some? {
        AdoptMetaExact(config, x1, h, r, m.value);
        AdoptMetaSafe(config, base, x1, h, r, m.value);
        var x2 := AdoptMeta(config, x1, h, r, m.value);
        HandleNoticesExact(config, base, x2, package.notices);
        var x3 := HandleNotices(config, x2, package.notices);
        QuietExact(config, x3, Do(x3, PutProposal(h, r, Proposal(package.value, proposer))));
      }
    }
  }

  // ----- Deciding -----

  /** The state at the end of `commit`, where finality advances. */
  lemma FinishExact(config: Config, base: Disk, x: Exec, h: nat)
    requires Safe(config, base, x) && MemOk(config, x) && h in x.disk.values
    ensures MemOk(config, Finish(x, h))
  {
    hide DiskOk, Extends, FlushPrunes, MaxOrZero, Ascending, CacheKept, Metadata.HeaderRoot;
    var x1 := x.(mem := x.mem.(finalized := if h > x.mem.finalized then h else x.mem.finalized));
    SafeMemory(config, base, x, x1);
    FlushPrunesExact(config, base, x1);
    assert FinalityBound(x1);
    var y := FlushPrunes(x1);
    CacheStays(config.crypto, x1.disk.metas, y.disk.metas, x.mem.cacheRoot, x.mem.cacheHeight);
    assert Finish(x, h).mem.Finality() == x1.mem.Finality();
  }

  lemma CacheStays(
    crypto: Crypto, a: map<nat, Metadata>, b: map<nat, Metadata>, root: Hash, height: nat)
    requires CacheOk(crypto, a, root, height) && CacheKept(crypto, a, b)
    ensures CacheOk(crypto, b, root, height)
  {
  }

  /** A decision keeps pruning exact and raises no finality before the end. */
  lemma StoreDecisionExact(config: Config, x: Exec, h: nat, r: Round)
    requires DiskOk(config, x.disk) && MemOk(config, x)
    requires Agreed(x.disk, h, r) && (h, r) in x.disk.proposals
    ensures var p := x.disk.proposals[(h, r)];
            && MemOk(config, StoreDecision(config, x, h, r, p))
            && MemOk(config, Do(Do(x, PutValue(h, DecidedValue(p.value, r))),
                                PutConsensus(h, ConsensusMetadata(r, p.proposer,
                                                                  p.value.exec.blockHash))))
  {
    hide ChainOk, InlinesOk, PrunedOk, BlocksOk, PruningExact, RecordsOk, MaxOrZero,
         Metadata.HeaderRoot;
    var d, p := x.disk, x.disk.proposals[(h, r)];
    MaxMonotone(d.values.Keys, d.values[h := DecidedValue(p.value, r)].Keys);
    if (h, r) in d.undecidedMetas {
      var m := d.undecidedMetas[(h, r)];
      ExactAfterPromote(config, d.metas, d.records, x.mem.Finality(), x.mem.pendingPrune, h, m);
      assert StoreDecision(config, x, h, r, p).disk.metas == d.metas[h := m];
    }
  }

  lemma CachedExact(config: Config, x: Exec, h: nat)
    requires MemOk(config, x) && h in x.disk.metas
    ensures MemOk(config, Cache(config, x, h, x.disk.Meta(h)))
  {
    hide PruningExact, MaxOrZero;
    assert x.disk.Meta(h).HeaderRoot(config.crypto) == x.disk.metas[h].HeaderRoot(config.crypto);
  }

  lemma SameTablesExact(config: Config, x: Exec, y: Exec)
    requires MemOk(config, x)
    requires y.disk.metas == x.disk.metas && y.disk.records == x.disk.records
    requires y.disk.values == x.disk.values
    requires y.mem == x.mem.(blobRounds := y.mem.blobRounds, pendingArchive := y.mem.pendingArchive)
    ensures MemOk(config, y)
  {
  }

  lemma CommitFirstExact(config: Config, base: Disk, x: Exec, h: nat, r: Round)
    requires Safe(config, base, x) && MemOk(config, x)
    requires Agreed(x.disk, h, r) && (h, r) in x.disk.proposals
    ensures MemOk(config, CommitFirst(config, x, h, r).0)
  {
    hide DiskOk, Extends, SettleHeight, FinalityBound, Metadata.HeaderRoot, Finish, CommitFirst,
         MemOk;
    CommitFirstParts(config, x, h, r);
    StoreDecisionSafe(config, base, x, h, r);
    StoreDecisionExact(config, x, h, r);
    var x3 := StoreDecision(config, x, h, r, x.disk.proposals[(h, r)]);
    if h in x3.disk.metas {
      var x4 := Cache(config, x3, h, x3.disk.Meta(h));
      SafeMemory(config, base, x3, x4);
      CachedExact(config, x3, h);
      SettleHeightSafe(config, base, x4, h, r);
      SameTablesExact(config, x4, SettleHeight(config, x4, h, r));
      FinishExact(config, base, SettleHeight(config, x4, h, r), h);
    }
  }

  lemma PromotedExact(config: Config, x: Exec, h: nat, r: Round)
    requires DiskOk(config, x.disk) && MemOk(config, x)
    requires h !in x.disk.metas && (h, r) in x.disk.undecidedMetas
    ensures MemOk(config, Cache(config, Do(x, PromoteMeta(h, r)), h, x.disk.undecidedMetas[(h, r)]))
  {
    hide ChainOk, InlinesOk, PrunedOk, BlocksOk, PruningExact, RecordsOk, MaxOrZero,
         Metadata.HeaderRoot;
    var d, m := x.disk, x.disk.undecidedMetas[(h, r)];
    ExactAfterPromote(config, d.metas, d.records, x.mem.Finality(), x.mem.pendingPrune, h, m);
    assert Do(x, PromoteMeta(h, r)).disk.metas == d.metas[h := m];
  }

  lemma CommitReplayExact(config: Config, base: Disk, x: Exec, h: nat, r: Round)
    requires Safe(config, base, x) && MemOk(config, x) && h in x.disk.values
    ensures MemOk(config, CommitReplay(config, x, h, r).0)
  {
    hide DiskOk, Extends, PromoteBlobs, FinalityBound, Metadata.HeaderRoot, Finish, MemOk;
    var x1 := PromoteBlobs(x, h, r);
    PromoteBlobsSafe(config, base, x, h, r);
    QuietExact(config, x, x1);
    var x2 :=
      if h in x1.disk.metas then Cache(config, x1, h, x1.disk.Meta(h))
      else if (h, r) in x1.disk.undecidedMetas then
        Cache(config, Do(x1, PromoteMeta(h, r)), h, x1.disk.undecidedMetas[(h, r)])
      else x1;
    if h in x1.disk.metas {
      CachedExact(config, x1, h);
      SafeMemory(config, base, x1, x2);
    } else if (h, r) in x1.disk.undecidedMetas {
      PromotedExact(config, x1, h, r);
      DoSafe(config, base, x1, PromoteMeta(h, r));
      SafeMemory(config, base, Do(x1, PromoteMeta(h, r)), x2);
    }
    FinishExact(config, base, x2, h);
  }

  lemma DecideExact(config: Config, base: Disk, x: Exec, h: nat, r: Round, el: ElOutcome)
    requires Safe(config, base, x) && MemOk(config, x) && Agreed(x.disk, h, r)
    ensures MemOk(config, Decide(config, x, h, r, el).0)
  {
    hide Safe, MemOk, PromoteBlobs, CommitFirst, CommitReplay, BlobsBack, AlreadyDecided,
         ExpectedHashes, JobIndices;
    var data := x.disk.BlockData(h, r);
    if data.Some? && data.value.ssz != [] && el != BadPayload {
      var hashes := ExpectedHashes(config.crypto, x.disk, h, r, data.value);
      if BlobsBack(config.crypto, x.disk, h, r, hashes) {
        PromoteBlobsSafe(config, base, x, h, r);
        var x1 := if AlreadyDecided(x.disk, h, r, hashes) then x else PromoteBlobs(x, h, r);
        QuietExact(config, x, x1);
        if (h, r) in x1.disk.proposals {
          CommitFirstExact(config, base, x1, h, r);
        } else if h in x1.disk.values {
          CommitReplayExact(config, base, x1, h, r);
        }
        var y := Commit(config, x1, h, r).0;
        SameTablesExact(
          config, y, y.(mem := y.mem.(pendingArchive := y.mem.pendingArchive + {h})));
      }
    }
  }

  // ----- Start-up -----

  lemma HydratedCache(config: Config, x: Exec)
    requires DiskOk(config, x.disk)
    ensures var y := HydrateCache(config, x);
            && CacheOk(config.crypto, y.disk.metas, y.mem.cacheRoot, y.mem.cacheHeight)
            && y.disk.latest == Some(y.mem.cacheHeight)
  {
    hide DiskOk, Metadata.HeaderRoot, Apply, Disk.Meta;
    LatestIsThere(config, x.disk);
    if x.disk.latest.Some? {
      CachedRoot(config, x.disk, x.disk.latest.value);
    } else {
      SeededGenesis(x.disk, Genesis(config.genesisExec));
    }
  }

  lemma LatestIsThere(config: Config, d: Disk)
    requires DiskOk(config, d)
    ensures if d.latest.Some? then d.latest.value in d.metas else d.metas == map[]
  {
    hide CandidatesOk, RecordsOk, InlinesOk, PrunedOk, BlocksOk, Metadata.HeaderRoot;
    assert ChainOk(config.crypto, d.metas, d.latest);
  }

  lemma SeededGenesis(d: Disk, genesis: Metadata)
    requires d.latest.None? && d.metas == map[]
    ensures var d' := Apply(d, SeedGenesis(genesis));
            d'.latest == Some(0) && 0 in d'.metas && d'.metas[0] == genesis
  {
  }

  lemma CachedRoot(config: Config, d: Disk, h: nat)
    requires h in d.metas
    ensures d.Meta(h).HeaderRoot(config.crypto) == d.metas[h].HeaderRoot(config.crypto)
  {
  }

  /** Before the first height is visited nothing is pending and nothing is pruned too early. */
  lemma RehydrationStarts(config: Config, x: Exec, final: nat)
    requires DiskOk(config, x.disk) && x.mem.pendingPrune == {} && x.mem.pendingArchive == {}
    requires final == MaxOrZero(x.disk.values.Keys)
    ensures Rehydrating(config, x, final, Ascending(x.disk.metas.Keys))
  {
    hide MaxOrZero, Ascending, ChainOk, CandidatesOk, RecordsOk, InlinesOk, BlocksOk;
  }

  lemma RehydrationEnds(config: Config, x: Exec, final: nat)
    requires Rehydrating(config, x, final, [])
    ensures PruningExact(x.disk.metas, x.disk.records, final, x.mem.pendingPrune)
    ensures forall h :: h in x.mem.pendingArchive <==> OwesArchive(config, x.disk, h)
  {
  }

  lemma StartSafe(config: Config, d: Disk)
    requires DiskOk(config, d)
    ensures Safe(config, d, Exec(d, FRESH_MEMORY, []))
  {
    hide DiskOk, Extends;
    ExtendsReflexive(d);
  }

  /** Start-up up to the visits of the decided heights. */
  ghost function Cleaned(config: Config, d: Disk): Exec {
    CleanupStaleMetas(HydrateCache(config, Exec(d, FRESH_MEMORY, [])))
  }

  lemma CleanedFacts(config: Config, d: Disk)
    requires DiskOk(config, d)
    ensures var x := Cleaned(config, d);
            && Safe(config, d, x) && x.disk.values == d.values && x.disk.undecided == d.undecided
            && x.mem.currentHeight == START_HEIGHT && x.mem.finalized == 0
            && x.mem.blobRounds == map[]
            && CacheOk(config.crypto, x.disk.metas, x.mem.cacheRoot, x.mem.cacheHeight)
            && x.disk.latest == Some(x.mem.cacheHeight)
  {
    hide Safe, HydrateCache, DeleteMetas, InKeyOrder, CacheOk, DiskOk;
    var x := Exec(d, FRESH_MEMORY, []);
    StartSafe(config, d);
    HydrateCacheSafe(config, d, x);
    HydratedCache(config, x);
    var x1 := HydrateCache(config, x);
    DeleteMetasSafe(
      config, d, x1, InKeyOrder(set k | k in x1.disk.undecidedMetas && k.0 < START_HEIGHT :: k.1));
  }

  /** The state in which the visits begin. */
  ghost function Prepared(x: Exec): Exec {
    x.(mem := x.mem.(finalized := MaxOrZero(x.disk.values.Keys), pendingArchive := {},
                     pendingPrune := {}))
  }

  lemma PreparedVisits(config: Config, x: Exec)
    requires x.mem.finalized == 0
    ensures Rehydrate(config, x)
            == RehydrateHeights(config, Prepared(x), Ascending(x.disk.metas.Keys))
  {
    hide RehydrateHeights, Ascending, MaxOrZero;
    assert x.disk.values.Keys == {} ==> MaxOrZero(x.disk.values.Keys) == 0;
  }

  /** Start-up from any disk that a crash can leave rebuilds an exact memory. The pending sets are a
      function of the disk, and finality is the highest decided value. */
  lemma RestartExact(config: Config, d: Disk)
    requires DiskOk(config, d)
    ensures var x := Restart(config, d);
            && MemOk(config, x)
            && x.mem.finalized == MaxOrZero(d.values.Keys)
            && x.disk.latest == Some(x.mem.cacheHeight)
            && (forall h :: h in x.mem.pendingArchive <==> OwesArchive(config, x.disk, h))
            && (forall h :: h in x.mem.pendingPrune <==>
                  Waiting(x.disk.metas, x.disk.records, h))
            && x.mem.blobRounds == map[] && x.disk.undecided == d.undecided
  {
    hide DiskOk, Extends, RehydrateHeights, HydrateCache, CleanupStaleMetas, Rehydrate, MaxOrZero,
         Rehydrating, Ascending, CacheKept, OwesArchive, Metadata.HeaderRoot;
    CleanedFacts(config, d);
    var x, top := Prepared(Cleaned(config, d)), MaxOrZero(d.values.Keys);
    PreparedVisits(config, Cleaned(config, d));
    SafeMemory(config, d, Cleaned(config, d), x);
    RehydrationStarts(config, x, top);
    RehydrateHeightsExact(config, d, x, Ascending(x.disk.metas.Keys));
    var y := Restart(config, d);
    RehydrationEnds(config, y, top);
    CacheStays(config.crypto, x.disk.metas, y.disk.metas, y.mem.cacheRoot, y.mem.cacheHeight);
  }
}
