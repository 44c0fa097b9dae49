/** Heights taken over from a peer: what an accepted package leaves, that it can be decided, and that
    what one node serves another takes over. */
module SyncedHeights {

  import opened Types
  import opened Ordering
  import opened BlobMetadata
  import opened BlobFamilies
  import opened DiskState
  import opened DiskInvariant
  import opened Node
  import opened NodeSafety
  import opened NodeBlobs
  import opened NodeOps
  import opened NodeDecide
  import opened NodeMemory
  import opened NodeSteps
  import opened NodeRuns
  import opened SyncSoundness
  import opened DecisionClaims
  import opened BlobReplacement
  import opened Traces
  import opened Commits
  import opened ReadyRounds
  import opened Lifecycle
  import Recovery

  /** A place for the package: nothing of the height is decided and the round is new. */
  ghost predicate Vacant(h: nat, r: Round, d: Disk) {
    && Undone(h, d) && RoundIndices(d.undecided, h, r) == {}
    && (h, r) !in d.proposals && (h, r) !in d.blocks && (h, r) !in d.undecidedMetas
  }

  /** What a full package offers. */
  function SyncedOffer(
    config: Config, d: Disk, h: nat, proposer: Address, package: Package): Offer
    requires package.Full? && d.ParentRoot(config.crypto, h).Some?
    requires |package.value.commitments| == |package.sidecars|
  {
    var value := package.value;
    var entry := New(h, d.ParentRoot(config.crypto, h).value, value.commitments,
                     Keccaks(config.crypto, package.sidecars), value.exec, config.IndexOf(proposer));
    Offer(value, proposer, package.payload, entry, ByIndex(package.sidecars))
  }

  /** The height is taken over as offered: its payload and proposal are in the round, its metadata is
      decided, and its decided blobs are among the offered ones. */
  ghost predicate TakenOver(h: nat, r: Round, offer: Offer, d: Disk) {
    && Has(d.proposals, h, r, Proposal(offer.value, offer.proposer))
    && Has(d.blocks, h, r, offer.payload)
    && h in d.metas && offer.entry.SameBlock(d.metas[h]) && (h, r) !in d.undecidedMetas
    && RoundIndices(d.undecided, h, r) == {}
    && forall i :: (h, i) in d.decided ==> i in offer.blobs && d.decided[(h, i)] == offer.blobs[i]
  }

  // ----- Storing and promoting the sidecars -----

  lemma PromotedSidecars(x: Exec, h: nat, r: Round, sidecars: seq<Sidecar>)
    requires RoundIndices(x.disk.undecided, h, r) == {} && forall i: nat :: (h, i) !in x.disk.decided
    ensures var x2 := StoreSidecars(x, h, r, sidecars);
            var x3 := if sidecars != [] then PromoteBlobs(x2, h, r) else x2;
            && OnlyBlobs(x, x3) && RoundIndices(x3.disk.undecided, h, r) == {}
            && HeightBlobs(x3.disk.decided, h) == ByIndex(sidecars)
  {
    hide StoreSidecars, PromoteBlobs, Stored, RoundIndices, HeightBlobs, ByIndex, MoveRounds,
         PromoteRound, DropRound, RoundBlobs;
    StoreSidecarsEffect(x, h, r, sidecars);
    var x2 := StoreSidecars(x, h, r, sidecars);
    NothingDecided(x.disk.decided, h);
    if sidecars == [] {
      NothingStored(x.disk.undecided, x.disk.decided, h, r);
    } else {
      StoredNonEmpty(x.disk.undecided, h, r, sidecars);
      PromoteBlobsEffect(x2, h, r);
      MoveOneRound(x2.disk.undecided, x2.disk.decided, h, r);
      PromotedListing(x2.disk.undecided, x2.disk.decided, h, r);
      StoredRound(x.disk.undecided, h, r, sidecars);
    }
  }

  lemma NothingDecided(d: Decided, h: nat)
    requires forall i: nat :: (h, i) !in d
    ensures HeightIndices(d, h) == {}
  {
  }

  lemma NothingStored(u: Undecided, d: Decided, h: nat, r: Round)
    requires HeightIndices(d, h) == {}
    ensures Stored(u, h, r, []) == u && HeightBlobs(d, h) == ByIndex([])
  {
  }

  lemma StoredRound(u: Undecided, h: nat, r: Round, sidecars: seq<Sidecar>)
    requires RoundIndices(u, h, r) == {}
    ensures RoundBlobs(Stored(u, h, r, sidecars), h, r) == ByIndex(sidecars)
  {
    hide Stored, ByIndex;
    var v, blobs := Stored(u, h, r, sidecars), ByIndex(sidecars);
    forall i: nat
      ensures i in RoundBlobs(v, h, r) <==> i in blobs
      ensures i in blobs ==> RoundBlobs(v, h, r)[i] == blobs[i]
    {
      StoredByIndex(u, h, r, sidecars, i);
      RoundHolds(u, h, r, i);
      RoundHolds(v, h, r, i);
    }
  }

  // ----- Taking over -----

  lemma {:induction false} NoticesSameBlock(config: Config, x: Exec, notices: seq<Notice>, h: nat)
    requires h in x.disk.metas
    ensures var y := HandleNotices(config, x, notices);
            && h in y.disk.metas && x.disk.metas[h].SameBlock(y.disk.metas[h])
            && y.disk == x.disk.(decided := y.disk.decided, metas := y.disk.metas,
                                 records := y.disk.records)
            && y.mem == x.mem.(pendingArchive := y.mem.pendingArchive,
                               pendingPrune := y.mem.pendingPrune)
    decreases |notices|
  {
    hide HandleNotice, Judge, NoticeMeta;
    if notices != [] {
      HandleNoticeFrame(config, x, notices[0]);
      if Judge(config, x.disk, notices[0]) == Record {
        HandleNoticeEffect(config, x, notices[0]);
      } else {
        RejectedChangesNothing(config, x, notices[0]);
      }
      NoticesSameBlock(config, HandleNotice(config, x, notices[0]), notices[1..], h);
    }
  }

  lemma AdoptedAt(config: Config, x: Exec, h: nat, r: Round, m: Metadata)
    requires (h, r) !in x.disk.undecidedMetas
    ensures var y := AdoptMeta(config, x, h, r, m);
            && y.disk == x.disk.(metas := x.disk.metas[h := m], latest := Some(h))
            && y.mem == x.mem.(cacheRoot := m.HeaderRoot(config.crypto), cacheHeight := h)
  {
    hide Metadata.HeaderRoot;
    assert x.disk.undecidedMetas[(h, r) := m] - {(h, r)} == x.disk.undecidedMetas;
  }

  /** The state before a package is adopted: payload stored, sidecars stored and promoted. */
  function BeforeAdoption(x: Exec, h: nat, r: Round, package: Package): Exec
    requires package.Full?
  {
    var x2 := StoreSidecars(Do(x, PutBlock(h, r, package.payload)), h, r, package.sidecars);
    if package.sidecars != [] then PromoteBlobs(x2, h, r) else x2
  }

  lemma SyncIsAdopt(
    config: Config, x: Exec, h: nat, r: Round, proposer: Address, package: Package)
    requires package.Full? && FullPackageOk(config, x.disk, h, proposer, package)
    ensures var x3 := BeforeAdoption(x, h, r, package);
            var m := SyncedMeta(config, x3.disk, h, proposer, package);
            && x3.disk.ParentRoot(config.crypto, h) == x.disk.ParentRoot(config.crypto, h)
            && m.Some?
            && Sync(config, x, h, r, proposer, package)
               == (Adopt(config, x3, h, r, proposer, package.value, m.value, package.notices), true)
  {
    hide StoreSidecars, PromoteBlobs, DropBlobs, HandleNotices, SidecarsVerified, MatchesValue,
         DistinctIndices, AdoptMeta, Disk.ParentRoot, SyncedMeta;
    StoredFacts(config, x, h, r, proposer, package);
    if package.sidecars != [] {
      VerifiedParent(config, x.disk, h, proposer, package.value, package.sidecars);
    }
  }

  lemma KeptBlobs(a: Disk, b: Disk, h: nat, blobs: map<nat, Sidecar>)
    requires HeightBlobs(a.decided, h) == blobs && DecidedAmong(a.decided, h, b)
    ensures forall i :: (h, i) in b.decided ==> i in blobs && b.decided[(h, i)] == blobs[i]
    ensures (forall i :: (h, i) in a.decided ==> (h, i) in b.decided) ==>
              HeightBlobs(b.decided, h) == blobs
  {
    forall i | (h, i) in b.decided ensures i in blobs && b.decided[(h, i)] == blobs[i] {
      HeightHas(a.decided, h, i);
    }
    if forall i :: (h, i) in a.decided ==> (h, i) in b.decided {
      forall i: nat ensures i in HeightBlobs(b.decided, h) <==> i in blobs {
        HeightHas(a.decided, h, i);
        HeightHas(b.decided, h, i);
      }
    }
  }

  /** An accepted full package is taken over as offered. Above finality all its blobs are decided; the
      cache is on its entry. */
  lemma SyncTakesOver(
    config: Config, x: Exec, h: nat, r: Round, proposer: Address, package: Package)
    requires package.Full? && FullPackageOk(config, x.disk, h, proposer, package)
    requires Vacant(h, r, x.disk)
    ensures var (y, ok) := Sync(config, x, h, r, proposer, package);
            var offer := SyncedOffer(config, x.disk, h, proposer, package);
            && ok && TakenOver(h, r, offer, y.disk)
            && y.disk.values == x.disk.values && y.disk.decidedBlocks == x.disk.decidedBlocks
            && y.mem.cacheHeight == h && y.mem.cacheRoot == offer.entry.HeaderRoot(config.crypto)
            && (h > x.mem.Finality() ==> HeightBlobs(y.disk.decided, h) == offer.blobs)
  {
    hide Sync, BeforeAdoption, HandleNotices, AdoptMeta, SidecarsVerified, MatchesValue,
         DistinctIndices, Disk.ParentRoot, New, Keccaks, Config.IndexOf, ByIndex, RoundIndices,
         HeightBlobs, Metadata.HeaderRoot;
    var offer := SyncedOffer(config, x.disk, h, proposer, package);
    SyncIsAdopt(config, x, h, r, proposer, package);
    BeforeFacts(x, h, r, package);
    var x3 := BeforeAdoption(x, h, r, package);
    AdoptedAt(config, x3, h, r, offer.entry);
    var x5 := Do(AdoptMeta(config, x3, h, r, offer.entry),
                 PutProposal(h, r, Proposal(package.value, proposer)));
    NoticesSameBlock(config, x5, package.notices, h);
    Recovery.NoticesKeepBlobs(config, x5, package.notices, h);
    KeptBlobs(x5.disk, HandleNotices(config, x5, package.notices).disk, h, offer.blobs);
  }

  lemma BeforeFacts(x: Exec, h: nat, r: Round, package: Package)
    requires package.Full? && Vacant(h, r, x.disk)
    ensures var y := BeforeAdoption(x, h, r, package);
            && y.mem == x.mem
            && y.disk == x.disk.(blocks := x.disk.blocks[(h, r) := package.payload],
                                 undecided := y.disk.undecided, decided := y.disk.decided)
            && RoundIndices(y.disk.undecided, h, r) == {}
            && HeightBlobs(y.disk.decided, h) == ByIndex(package.sidecars)
  {
    hide StoreSidecars, PromoteBlobs, RoundIndices, HeightBlobs, ByIndex;
    PromotedSidecars(Do(x, PutBlock(h, r, package.payload)), h, r, package.sidecars);
  }

  // ----- Deciding a height that was taken over -----

  /** The blobs back the block: those taken over are still all there and carry the expected hashes. */
  lemma TakenPromotes(config: Config, h: nat, r: Round, offer: Offer, d: Disk)
    requires TakenOver(h, r, offer, d) && Sufficient(config.crypto, offer)
    requires HeightBlobs(d.decided, h) == offer.blobs
    ensures Promotes(config, d, h, r, Accepted)
    ensures Hashes(config, d, h, r) == OfferHashes(config.crypto, offer)
  {
    hide Listing, HashesOf, SidecarHashes, RoundIndices, HeightBlobs;
    NoRoundListing(d, h, r);
  }

  /** The height is committed as offered: value, consensus metadata, payload and entry. */
  ghost predicate CommittedFrom(h: nat, r: Round, offer: Offer, d: Disk) {
    && h in d.values && d.values[h] == DecidedValue(offer.value, r)
    && h in d.consensus
    && d.consensus[h] == ConsensusMetadata(r, offer.proposer, offer.value.exec.blockHash)
    && h in d.decidedBlocks && d.decidedBlocks[h] == offer.payload
    && h in d.metas && offer.entry.SameBlock(d.metas[h])
  }

  /** What a node takes over it can decide: the accepted decision that follows commits it as offered,
      final, with the cache on its entry. */
  lemma TakenIsDecided(config: Config, x: Exec, h: nat, r: Round, offer: Offer)
    requires DiskOk(config, x.disk) && h !in x.disk.values
    requires TakenOver(h, r, offer, x.disk) && Sufficient(config.crypto, offer)
    requires HeightBlobs(x.disk.decided, h) == offer.blobs
    ensures var (z, ok) := Decide(config, x, h, r, Accepted);
            && ok && CommittedFrom(h, r, offer, z.disk) && h <= z.mem.finalized
            && z.mem.cacheHeight == h && z.mem.cacheRoot == offer.entry.HeaderRoot(config.crypto)
  {
    hide Decide, DiskOk, Promotes, Sufficient, KeepFrom, RetainHeight, Hashes, JobIndices, FirstMove,
         RoundIndices, HeightBlobs, Metadata.HeaderRoot, Metadata.SameBlock;
    TakenPromotes(config, h, r, offer, x.disk);
    DecideEffect(config, x, h, r);
    NoPayloadYet(config, x.disk, h);
    SameBlockRoot(config.crypto, offer.entry, x.disk.metas[h]);
    SameBlockJoin(offer.entry, x.disk.metas[h], Decide(config, x, h, r, Accepted).0.disk.metas[h]);
  }

  lemma SameBlockRoot(crypto: Crypto, a: Metadata, b: Metadata)
    requires a.SameBlock(b)
    ensures a.HeaderRoot(crypto) == b.HeaderRoot(crypto)
  {
  }

  lemma SameBlockJoin(a: Metadata, b: Metadata, c: Metadata)
    requires a.SameBlock(b) && b.SameBlock(c)
    ensures a.SameBlock(c)
  {
  }

  lemma NoPayloadYet(config: Config, d: Disk, h: nat)
    requires DiskOk(config, d) && h !in d.values
    ensures h !in d.decidedBlocks
  {
    assert BlocksOk(d.metas.Keys, d.values, d.blocks, d.decidedBlocks);
  }

  /** Its blobs are then exactly the offered ones, unless it is archived by then. */
  lemma TakenBlobsStay(config: Config, x: Exec, h: nat, r: Round, offer: Offer)
    requires DiskOk(config, x.disk) && MemOk(config, x) && h !in x.disk.values
    requires TakenOver(h, r, offer, x.disk) && Sufficient(config.crypto, offer)
    requires HeightBlobs(x.disk.decided, h) == offer.blobs && OfferHashes(config.crypto, offer) != []
    ensures var z := Decide(config, x, h, r, Accepted).0.disk;
            HeightBlobs(z.decided, h) == offer.blobs || z.Archived(h)
  {
    hide Decide, DiskOk, MemOk, Promotes, RoundIndices, Hashes, OfferHashes, MoveRounds,
         HeightBlobs, Metadata.HeaderRoot;
    TakenPromotes(config, h, r, offer, x.disk);
    SomeListed(config.crypto, offer);
    var z := Decide(config, x, h, r, Accepted).0.disk;
    DecideMoves(config, x, h, r, Accepted);
    TakersNone(config, x.disk, h, r, offer);
    NothingMoved(x.disk.undecided, x.disk.decided, h);
    if h in x.mem.pendingPrune {
      PendingArchived(config, x, h);
      DecidedRecords(config, x, h, r, offer);
    } else {
      var m := x.disk.(decided := Moved(config, x.disk, h, r, Accepted));
      assert m.decided == x.disk.decided;
      forall i | (h, i) in x.disk.decided ensures (h, i) in z.decided {
        assert Spared(x.mem.pendingPrune, m, (h, i).0);
      }
      forall i | (h, i) in z.decided
        ensures (h, i) in x.disk.decided && x.disk.decided[(h, i)] == z.decided[(h, i)] { }
      KeptBlobs(x.disk, z, h, offer.blobs);
    }
  }

  lemma SomeListed(crypto: Crypto, offer: Offer)
    requires Sufficient(crypto, offer) && OfferHashes(crypto, offer) != []
    ensures offer.blobs != map[]
  {
    hide HashesOf, OfferHashes, Listing;
    ListingSize(offer.blobs);
    assert |SidecarHashes(crypto, Listing(offer.blobs))| == |Listing(offer.blobs)|;
  }

  /** The blobs were validated from the decided family, so the decision moves none. */
  lemma TakersNone(config: Config, d: Disk, h: nat, r: Round, offer: Offer)
    requires TakenOver(h, r, offer, d) && Promotes(config, d, h, r, Accepted)
    requires Hashes(config, d, h, r) != [] && HeightBlobs(d.decided, h) == offer.blobs
    requires offer.blobs != map[]
    ensures Takers(config, d, h, r, Accepted) == []
  {
    hide Promotes, RoundIndices, Hashes, InKeyOrder;
    var i :| i in offer.blobs;
    assert i in HeightIndices(d.decided, h);
  }

  lemma PendingArchived(config: Config, x: Exec, h: nat)
    requires MemOk(config, x) && h in x.mem.pendingPrune
    ensures h in x.disk.metas && x.disk.Archived(h)
  {
    assert Waiting(x.disk.metas, x.disk.records, h);
  }

  lemma DecidedRecords(config: Config, x: Exec, h: nat, r: Round, offer: Offer)
    requires TakenOver(h, r, offer, x.disk) && Promotes(config, x.disk, h, r, Accepted)
    requires x.disk.Archived(h)
    ensures Decide(config, x, h, r, Accepted).0.disk.Archived(h)
  {
    hide Decide, Promotes, KeepFrom, RetainHeight, Hashes, JobIndices, FirstMove, RoundIndices,
         Metadata.HeaderRoot;
    DecideEffect(config, x, h, r);
  }

  /** The blobs of an acceptable package back its block. */
  lemma SyncedSuffices(config: Config, d: Disk, h: nat, proposer: Address, package: Package)
    requires package.Full? && FullPackageOk(config, d, h, proposer, package)
    requires ListsHashes(config.crypto, package.payload, package.value.commitments)
    ensures Sufficient(config.crypto, SyncedOffer(config, d, h, proposer, package))
  {
    hide DistinctIndices, Listing, Disk.ParentRoot, Config.IndexOf, New, Keccaks, SidecarHashes,
         ByIndex, SidecarsVerified;
    if package.sidecars == [] {
      assert HashesOf(config.crypto, package.value.commitments) == [];
    } else {
      ListedHashes(config.crypto, package.value, package.sidecars);
    }
  }

  /** What a node synchronises it can decide: an acceptable full package for a vacant height above
      finality, and then an accepted decision, commit the height as the package offers it. */
  lemma SyncedIsDecided(
    config: Config, run: seq<State>, events: seq<Option<Event>>, i: nat, h: nat, r: Round,
    proposer: Address, package: Package)
    requires IsTrace(config, run, events) && i + 2 < |run|
    requires run[i].Running? && run[i + 1].Running? && run[i + 2].Running?
    requires events[i] == Some(Synced(h, r, proposer, package)) && package.Full?
    requires events[i + 1] == Some(Decided(h, r, Accepted))
    requires FullPackageOk(config, run[i].disk, h, proposer, package)
    requires Vacant(h, r, run[i].disk) && h !in run[i].disk.values && h > run[i].mem.Finality()
    requires ListsHashes(config.crypto, package.payload, package.value.commitments)
    ensures CommittedFrom(h, r, SyncedOffer(config, run[i].disk, h, proposer, package),
                          run[i + 2].disk)
    ensures h <= run[i + 2].mem.finalized
  {
    hide FullPackageOk, Sync, Decide, Promised, DiskOk, MemOk, TakenOver, Sufficient, CommittedFrom,
         Vacant, HeightBlobs, Metadata.HeaderRoot, SyncedOffer, ListsHashes, New;
    var x, y := Exec(run[i].disk, run[i].mem, []), Exec(run[i + 1].disk, run[i + 1].mem, []);
    PackageFacts(config, run[i].disk, h, proposer, package);
    assert Step(config, run[i], events[i], run[i + 1]);
    assert Step(config, run[i + 1], events[i + 1], run[i + 1 + 1]);
    TraceIsRun(config, run, events);
    RunSound(config, run, i + 1);
    var offer := SyncedOffer(config, run[i].disk, h, proposer, package);
    SyncTakesOver(config, x, h, r, proposer, package);
    SyncedSuffices(config, run[i].disk, h, proposer, package);
    TakenIsDecided(config, y, h, r, offer);
  }

  lemma PackageFacts(config: Config, d: Disk, h: nat, proposer: Address, package: Package)
    requires package.Full? && FullPackageOk(config, d, h, proposer, package)
    ensures d.ParentRoot(config.crypto, h).Some?
    ensures |package.value.commitments| == |package.sidecars|
  {
    hide SidecarsVerified, DistinctIndices, MatchesValue, Disk.ParentRoot;
  }

  // ----- From one node to another -----

  /** What one node serves another takes over: a full answer with the sidecars of a trusted proposer is
      accepted by every node that has the same parent, and what it offers is what the proposer
      offered. */
  lemma ServedIsAccepted(
    theirs: Config, ours: Config, d: Disk, e: Disk, h: nat, exec: ExecutionHeader, bundle: Bundle,
    payload: Payload, notices: seq<Notice>)
    requires Trusted(theirs, ours) && d.ParentRoot(theirs.crypto, h).Some?
    requires e.ParentRoot(ours.crypto, h) == d.ParentRoot(theirs.crypto, h)
    requires theirs.crypto.kzgValid(ProposedSidecars(theirs, d, h, exec, bundle))
    ensures var offer := OwnOffer(theirs, d, h, exec, bundle, payload);
            var listed := Listing(offer.blobs);
            && listed == ProposedSidecars(theirs, d, h, exec, bundle)
            && var package := Full(offer.value, payload, listed, notices);
            && FullPackageOk(ours, e, h, theirs.address, package)
            && SyncedOffer(ours, e, h, theirs.address, package) == offer
  {
    hide Disk.ParentRoot, Config.IndexOf, New, ProposedSidecars, ByIndex, SidecarsVerified,
         DistinctIndices, Listing, BundleCommitments;
    var sidecars := ProposedSidecars(theirs, d, h, exec, bundle);
    ListingInOrder(Positions(sidecars), sidecars);
    ProposedCommitments(theirs, d, h, exec, bundle);
    SameIndex(theirs, ours, theirs.address, 0);
    SameKeccaks(theirs.crypto, ours.crypto, sidecars);
    if bundle != [] {
      ProposedIsVerified(theirs, ours, d, e, h, exec, bundle);
      VerifiedMatches(ours, e, h, theirs.address, Value(exec, BundleCommitments(bundle)), sidecars);
    }
  }
}
