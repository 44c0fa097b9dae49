/** No orphan blobs: `blob_rounds` knows every round that holds undecided blobs. */
module BlobTracking {

  import opened Types
  import opened Ordering
  import opened BlobMetadata
  import opened BlobFamilies
  import opened DiskState
  import opened DiskInvariant
  import opened Node
  import opened NodeBlobs
  import opened NodeMemory
  import opened NodeOps
  import opened NodeDecide
  import opened NodeSteps
  import opened NodeRuns
  import opened SyncSoundness
  import DecisionClaims

  /** Every undecided blob belongs to a tracked round, and its round is a number. */
  ghost predicate TrackedAll(u: Undecided, mem: Memory) {
    forall k :: k in u ==> k.1 >= 0 && k.1 in mem.Tracked(k.0)
  }

  lemma StoredTracked(u: Undecided, mem: Memory, h: nat, r: Round, sidecars: seq<Sidecar>)
    requires TrackedAll(u, mem) && r >= 0
    requires sidecars != [] ==> r in mem.Tracked(h)
    ensures TrackedAll(Stored(u, h, r, sidecars), mem)
  {
    StoredKeys(u, h, r, sidecars);
  }

  lemma TrackKeeps(u: Undecided, mem: Memory, h: nat, r: Round)
    requires TrackedAll(u, mem)
    ensures TrackedAll(u, mem.Track(h, r)) && r in mem.Track(h, r).Tracked(h)
  {
  }

  lemma ProposeTracked(
    config: Config, x: Exec, h: nat, r: Round, exec: ExecutionHeader, bundle: Bundle,
    payload: Payload)
    requires TrackedAll(x.disk.undecided, x.mem) && r >= 0
    ensures var y := Propose(config, x, h, r, exec, bundle, payload);
            TrackedAll(y.disk.undecided, y.mem)
  {
    hide StoreSidecars, BuildSidecars, Config.IndexOf, Disk.ParentRoot, BundleKeccaks, TrackedAll,
         Memory.Track, Stored, New, BundleCommitments, Do;
    TrackKeeps(x.disk.undecided, x.mem, h, r);
    if x.disk.BlockData(h, r).None? {
      var commitments := BundleCommitments(bundle);
      var put := PutProposal(h, r, Proposal(Value(exec, commitments), config.address));
      CandidateKeeps(x, put);
      var x1 := Do(x, put);
      var index, parent := config.IndexOf(config.address), x1.disk.ParentRoot(config.crypto, h);
      if parent.Some? {
        var meta := New(
          h, parent.value, commitments, BundleKeccaks(config.crypto, bundle), exec, index);
        CandidateKeeps(x1, PutUndecidedMeta(h, r, meta));
        var x2 := Do(x1, PutUndecidedMeta(h, r, meta));
        var x3 := if bundle != [] then x2.(mem := x2.mem.Track(h, r)) else x2;
        CandidateKeeps(x3, PutBlock(h, r, payload));
        if index.Some? {
          var header := BeaconHeader(
            h, index.value, parent.value, exec.stateRoot, config.crypto.bodyRoot(commitments, exec));
          var x4 := Do(x3, PutBlock(h, r, payload));
          var sidecars := BuildSidecars(config.crypto, bundle, header, exec);
          StoreSidecarsEffect(x4, h, r, sidecars);
          StoredTracked(x4.disk.undecided, x4.mem, h, r, sidecars);
        }
      }
    }
  }

  lemma ReceiveTracked(
    config: Config, x: Exec, h: nat, r: Round, proposer: Address, exec: ExecutionHeader,
    sidecars: Sidecars, payload: Payload, assembled: bool)
    requires TrackedAll(x.disk.undecided, x.mem) && r >= 0
    ensures var y := Receive(config, x, h, r, proposer, exec, sidecars, payload, assembled);
            TrackedAll(y.disk.undecided, y.mem)
  {
    hide StoreSidecars, Config.IndexOf, Disk.ParentRoot, Keccaks, SidecarsVerified, TrackedAll,
         Memory.Track;
    StoreSidecarsEffect(x, h, r, sidecars);
    TrackKeeps(x.disk.undecided, x.mem, h, r);
    if sidecars != [] {
      StoredTracked(x.disk.undecided, x.mem.Track(h, r), h, r, sidecars);
    } else {
      StoredTracked(x.disk.undecided, x.mem, h, r, sidecars);
    }
  }

  /** A restream passes all its guards and has blobs to store. */
  ghost predicate RestreamsBlobs(config: Config, d: Disk, h: nat, r: Round, from: Round) {
    var meta, blobs := MetaForRound(d, h, from), Listing(RoundBlobs(d.undecided, h, from));
    && (h, from) in d.proposals && d.BlockData(h, from).Some? && meta.Some? && r != from
    && meta.value.blobCount > 0
    && !(h in d.metas && d.metas[h].pruned && d.metas[h].blobCount > 0)
    && blobs != [] && Rebuild(config, meta.value, blobs).Some?
    && config.crypto.kzgValid(Rebuild(config, meta.value, blobs).value)
  }

  /** Restreaming into a round stores its blobs without tracking the round: tracking stays complete if
      and only if one of the guards fails or the round was tracked already. */
  lemma RestreamTracked(config: Config, x: Exec, h: nat, r: Round, from: Round)
    requires TrackedAll(x.disk.undecided, x.mem)
    ensures var y := Restream(config, x, h, r, from);
            && y.mem == x.mem
            && (TrackedAll(y.disk.undecided, y.mem)
                <==> !RestreamsBlobs(config, x.disk, h, r, from) || (r >= 0 && r in x.mem.Tracked(h)))
  {
    hide Restream, RestreamsBlobs;
    RestreamStores(config, x, h, r, from);
  }

  lemma EmptyRound(u: Undecided, h: nat, r: Round)
    requires RoundIndices(u, h, r) == {}
    ensures forall k :: k in u ==> !(k.0 == h && k.1 == r)
  {
    forall k | k in u ensures !(k.0 == h && k.1 == r) {
      assert k.0 == h && k.1 == r ==> k.2 in RoundIndices(u, h, r);
    }
  }

  lemma CandidateKeeps(x: Exec, w: Write)
    requires w.PutProposal? || w.PutUndecidedMeta? || w.PutBlock?
    ensures var y := Do(x, w); y.mem == x.mem && y.disk.undecided == x.disk.undecided
  {
  }

  lemma CandidatesKeep(x: Exec, p: Write, b: Write, m: Write)
    requires p.PutProposal? && b.PutBlock? && m.PutUndecidedMeta?
    ensures var y := Do(Do(Do(x, p), b), m); y.mem == x.mem && y.disk.undecided == x.disk.undecided
  {
    hide Do;
    CandidateKeeps(x, p);
    CandidateKeeps(Do(x, p), b);
    CandidateKeeps(Do(Do(x, p), b), m);
  }

  lemma RestreamStores(config: Config, x: Exec, h: nat, r: Round, from: Round)
    ensures var y := Restream(config, x, h, r, from);
            && y.mem == x.mem
            && (forall k :: k in x.disk.undecided ==> k in y.disk.undecided)
            && (forall k :: k in y.disk.undecided ==>
                  k in x.disk.undecided || (k.0 == h && k.1 == r))
            && (!RestreamsBlobs(config, x.disk, h, r, from) ==>
                  y.disk.undecided == x.disk.undecided)
            && (RestreamsBlobs(config, x.disk, h, r, from) ==>
                  exists i :: (h, r, i) in y.disk.undecided)
  {
    hide StoreSidecars, Listing, RoundBlobs, Rebuild, MetaForRound, Stored, Do;
    var d, meta := x.disk, MetaForRound(x.disk, h, from);
    if (h, from) in d.proposals && d.BlockData(h, from).Some? && meta.Some? {
      var p := PutProposal(h, r, d.proposals[(h, from)].(proposer := config.address));
      var b, m := PutBlock(h, r, d.BlockData(h, from).value), PutUndecidedMeta(h, r, meta.value);
      CandidatesKeep(x, p, b, m);
      var x3 := Do(Do(Do(x, p), b), m);
      var blobs := Listing(RoundBlobs(d.undecided, h, from));
      var rebuilt := Rebuild(config, meta.value, blobs);
      StoreSidecarsEffect(x3, h, r, []);
      StoredNothing(d.undecided, h, r);
      if rebuilt.Some? {
        StoreSidecarsEffect(x3, h, r, rebuilt.value);
        StoredKeys(d.undecided, h, r, rebuilt.value);
        RebuiltSize(config, meta.value, blobs);
        if blobs != [] {
          StoredNonEmpty(d.undecided, h, r, rebuilt.value);
        }
      }
    }
  }

  lemma RebuiltSize(config: Config, m: Metadata, blobs: seq<Sidecar>)
    ensures var rebuilt := Rebuild(config, m, blobs);
            rebuilt.Some? ==> |rebuilt.value| == |blobs|
  {
  }

  // ----- Round changes -----

  lemma {:induction false} CleanRoundsDrop(x: Exec, h: nat, rounds: seq<Round>)
    ensures var y := CleanRounds(x, h, rounds);
            && (forall k :: k in y.disk.undecided <==>
                  k in x.disk.undecided && !(k.0 == h && k.1 >= 0 && k.1 in rounds))
            && (forall k :: k in y.disk.undecided ==> y.disk.undecided[k] == x.disk.undecided[k])
    decreases |rounds|
  {
    hide CleanRound;
    if rounds != [] {
      CleanRoundQuiet(x, h, rounds[0]);
      CleanRoundsDrop(CleanRound(x, h, rounds[0]), h, rounds[1..]);
      assert forall r :: r in rounds <==> r == rounds[0] || r in rounds[1..];
    }
  }

  /** Entering a round removes exactly the tracked rounds more than three below it, from the store
      and from the tracking, and touches no other blob. */
  lemma CleanupIsExact(x: Exec, h: nat, current: Round)
    requires TrackedAll(x.disk.undecided, x.mem)
    ensures var y := CleanupStale(x, h, current);
            && TrackedAll(y.disk.undecided, y.mem)
            && (forall k :: k in y.disk.undecided <==>
                  && k in x.disk.undecided
                  && !(&& k.0 == h && current > STALE_ROUND_BLOB_RETENTION
                     && k.1 < current - STALE_ROUND_BLOB_RETENTION))
            && (forall k :: k in y.disk.undecided ==> y.disk.undecided[k] == x.disk.undecided[k])
            && (forall g :: y.mem.Tracked(g) ==
                  if g == h && current > STALE_ROUND_BLOB_RETENTION
                  then x.mem.Tracked(h) - StaleRounds(x.mem, h, current)
                  else x.mem.Tracked(g))
  {
    hide CleanRounds, InKeyOrder;
    var stale := StaleRounds(x.mem, h, current);
    CleanRoundsDrop(x, h, InKeyOrder(stale));
    CleanRoundsQuiet(x, h, InKeyOrder(stale));
    forall r ensures r in InKeyOrder(stale) <==> r in stale {
      InKeyOrderIsAll(stale, r);
    }
    assert stale == {} ==> x.mem.Tracked(h) - stale == x.mem.Tracked(h);
    var oldest := current - STALE_ROUND_BLOB_RETENTION;
    assert forall k :: k in x.disk.undecided && k.0 == h && k.1 < oldest ==> k.1 in stale;
  }

  lemma StartRoundTracked(x: Exec, h: nat, r: Round)
    requires TrackedAll(x.disk.undecided, x.mem)
    ensures TrackedAll(StartRound(x, h, r).disk.undecided, StartRound(x, h, r).mem)
  {
    hide CleanupStale;
    CleanupIsExact(x, h, r);
  }

  // ----- Decisions -----

  lemma {:induction false} DropOrphansDrop(x: Exec, h: nat, rounds: seq<Round>)
    ensures var y := DropOrphans(x, h, rounds);
            && (forall k :: k in y.disk.undecided <==>
                  k in x.disk.undecided && !(k.0 == h && k.1 >= 0 && k.1 in rounds))
    decreases |rounds|
  {
    hide DropBlobs;
    if rounds != [] {
      DropBlobsEffect(Do(x, DeleteUndecidedMeta(h, rounds[0])), h, rounds[0]);
      DropOrphansDrop(DropOrphan(x, h, rounds[0]), h, rounds[1..]);
      assert forall r :: r in rounds <==> r == rounds[0] || r in rounds[1..];
    }
  }

  /** Promotion empties the requested round, and every round of the height if that one was empty. */
  lemma PromotionEmpties(x: Exec, h: nat, r: Round)
    ensures var y := PromoteBlobs(x, h, r);
            && OnlyBlobs(x, y)
            && (forall k :: k in y.disk.undecided ==> k in x.disk.undecided)
            && RoundIndices(y.disk.undecided, h, r) == {}
  {
    hide PromoteBlobs, MoveRounds;
    var u, d := x.disk.undecided, x.disk.decided;
    PromoteBlobsEffect(x, h, r);
    RoundsToMoveDistinct(u, h, r);
    PromotedRounds(u, d, h, RoundsToMove(u, h, r));
    forall i: nat ensures (h, r, i) !in PromoteBlobs(x, h, r).disk.undecided {
      if (h, r, i) in u {
        assert i in RoundIndices(u, h, r);
      }
    }
  }

  ghost predicate NoneLeft(u: Undecided, h: nat) {
    forall k :: k in u ==> k.0 != h
  }

  lemma SettledLeavesNone(config: Config, x: Exec, h: nat, r: Round)
    requires TrackedAll(x.disk.undecided, x.mem) && RoundIndices(x.disk.undecided, h, r) == {}
    ensures var y := SettleHeight(config, x, h, r);
            TrackedAll(y.disk.undecided, y.mem) && NoneLeft(y.disk.undecided, h)
  {
    hide DropOrphans, InKeyOrder, RetainHeight;
    var data := x.disk.BlockData(h, r);
    var x5 := if data.Some? then Do(x, PutDecidedBlock(h, data.value)) else x;
    var x6 := Do(x5, PruneBelow(RetainHeight(config, x5.mem, h)));
    var rounds := x6.mem.Tracked(h) - {r};
    DropOrphansDrop(x6, h, InKeyOrder(rounds));
    DropOrphansMemory(x6, h, InKeyOrder(rounds));
    forall s ensures s in InKeyOrder(rounds) <==> s in rounds {
      InKeyOrderIsAll(rounds, s);
    }
    EmptyRound(x.disk.undecided, h, r);
  }

  lemma {:induction false} DropOrphansMemory(x: Exec, h: nat, rounds: seq<Round>)
    ensures DropOrphans(x, h, rounds).mem == x.mem
    decreases |rounds|
  {
    hide DropBlobs;
    if rounds != [] {
      DropBlobsEffect(Do(x, DeleteUndecidedMeta(h, rounds[0])), h, rounds[0]);
      DropOrphansMemory(DropOrphan(x, h, rounds[0]), h, rounds[1..]);
    }
  }

  lemma {:induction false} FlushKeepsUndecided(x: Exec, heights: seq<nat>)
    ensures var y := FlushHeights(x, heights);
            y.disk.undecided == x.disk.undecided && y.mem.blobRounds == x.mem.blobRounds
    decreases |heights|
  {
    hide PruneHeight;
    if heights != [] {
      var h := heights[0];
      var x1 := x.(mem := x.mem.(pendingPrune := x.mem.pendingPrune - {h}));
      if h in x1.disk.metas { PruneHeightEffect(x1, h, x1.disk.Meta(h)); }
      FlushKeepsUndecided(FlushHeight(x, h), heights[1..]);
    }
  }

  lemma FinishKeepsUndecided(x: Exec, h: nat)
    ensures Finish(x, h).disk.undecided == x.disk.undecided
    ensures Finish(x, h).mem.blobRounds == x.mem.blobRounds
  {
    hide FlushHeights, ReadyHeights;
    var x1 := x.(mem := x.mem.(finalized := if h > x.mem.finalized then h else x.mem.finalized));
    FlushKeepsUndecided(x1, ReadyHeights(x1.mem));
  }

  lemma CommitFirstTracked(config: Config, x: Exec, h: nat, r: Round)
    requires (h, r) in x.disk.proposals
    requires TrackedAll(x.disk.undecided, x.mem) && RoundIndices(x.disk.undecided, h, r) == {}
    ensures var (y, ok) := CommitFirst(config, x, h, r);
            && TrackedAll(y.disk.undecided, y.mem)
            && (ok ==> NoneLeft(y.disk.undecided, h))
  {
    hide SettleHeight, Metadata.HeaderRoot, Finish, CommitFirst, RoundIndices;
    CommitFirstParts(config, x, h, r);
    var x3 := StoreDecision(config, x, h, r, x.disk.proposals[(h, r)]);
    if h in x3.disk.metas {
      var x4 := Cache(config, x3, h, x3.disk.Meta(h));
      SettledLeavesNone(config, x4, h, r);
      FinishKeepsUndecided(SettleHeight(config, x4, h, r), h);
    }
  }

  lemma CommitReplayTracked(config: Config, x: Exec, h: nat, r: Round)
    requires TrackedAll(x.disk.undecided, x.mem)
    ensures var y := CommitReplay(config, x, h, r).0;
            TrackedAll(y.disk.undecided, y.mem)
  {
    hide PromoteBlobs, Metadata.HeaderRoot, Finish, RoundIndices;
    PromotionEmpties(x, h, r);
    var x1 := PromoteBlobs(x, h, r);
    var x2 :=
      if h in x1.disk.metas then Cache(config, x1, h, x1.disk.Meta(h))
      else if (h, r) in x1.disk.undecidedMetas then
        Cache(config, Do(x1, PromoteMeta(h, r)), h, x1.disk.undecidedMetas[(h, r)])
      else x1;
    FinishKeepsUndecided(x2, h);
  }

  lemma TrackedFewer(x: Exec, y: Exec)
    requires TrackedAll(x.disk.undecided, x.mem) && y.mem == x.mem
    requires forall k :: k in y.disk.undecided ==> k in x.disk.undecided
    ensures TrackedAll(y.disk.undecided, y.mem)
  {
  }

  /** A decision keeps tracking complete, and once it commits a proposal for the first time no
      undecided blob of the height remains. */
  lemma DecideTracked(config: Config, x: Exec, h: nat, r: Round, el: ElOutcome)
    requires TrackedAll(x.disk.undecided, x.mem)
    ensures var (y, ok) := Decide(config, x, h, r, el);
            && TrackedAll(y.disk.undecided, y.mem)
            && (ok && (h, r) in x.disk.proposals ==> NoneLeft(y.disk.undecided, h))
  {
    hide PromoteBlobs, CommitFirst, CommitReplay, BlobsBack, ExpectedHashes, JobIndices,
         RoundIndices, HeightIndices, TrackedAll, NoneLeft;
    var data := x.disk.BlockData(h, r);
    if data.Some? && data.value.ssz != [] && el != BadPayload {
      var hashes := ExpectedHashes(config.crypto, x.disk, h, r, data.value);
      PromotionEmpties(x, h, r);
      var x1 := if AlreadyDecided(x.disk, h, r, hashes) then x else PromoteBlobs(x, h, r);
      TrackedFewer(x, x1);
      if (h, r) in x1.disk.proposals {
        CommitFirstTracked(config, x1, h, r);
      } else {
        CommitReplayTracked(config, x1, h, r);
      }
      var y := Commit(config, x1, h, r).0;
      TrackedFrame(y, y.(mem := y.mem.(pendingArchive := y.mem.pendingArchive + {h})));
    }
  }

  // ----- Synchronisation and notices -----

  lemma {:induction false} NoticesKeepUndecided(config: Config, x: Exec, notices: seq<Notice>)
    ensures var y := HandleNotices(config, x, notices);
            y.disk.undecided == x.disk.undecided && y.mem.blobRounds == x.mem.blobRounds
    decreases |notices|
  {
    hide HandleNotice;
    if notices != [] {
      HandleNoticeFrame(config, x, notices[0]);
      NoticesKeepUndecided(config, HandleNotice(config, x, notices[0]), notices[1..]);
    }
  }

  lemma DropStoredTracked(u: Undecided, mem: Memory, h: nat, r: Round, sidecars: seq<Sidecar>)
    requires TrackedAll(u, mem)
    ensures TrackedAll(DropRound(Stored(u, h, r, sidecars), h, r), mem)
  {
    StoredKeys(u, h, r, sidecars);
  }

  lemma SyncTracked(
    config: Config, x: Exec, h: nat, r: Round, proposer: Address, package: Package)
    requires TrackedAll(x.disk.undecided, x.mem)
    ensures var y := Sync(config, x, h, r, proposer, package).0;
            TrackedAll(y.disk.undecided, y.mem)
  {
    if package.Full? {
      SyncFullTracked(config, x, h, r, proposer, package);
    } else {
      hide SyncedMeta, HandleNotices, AdoptMeta;
      NoticesKeepUndecided(config, x, package.notices);
      if package.payloadOpt.Some? {
        var x1 := Do(x, PutBlock(h, r, package.payloadOpt.value));
        var m := SyncedMeta(config, x1.disk, h, proposer, package);
        if m.Some? {
          AdoptMetaFrame(config, x1, h, r, m.value);
          NoticesKeepUndecided(config, AdoptMeta(config, x1, h, r, m.value), package.notices);
        }
      }
    }
  }

  /** Whatever a full package stores in its round is promoted or dropped again. */
  lemma SyncFullTracked(
    config: Config, x: Exec, h: nat, r: Round, proposer: Address, package: Package)
    requires TrackedAll(x.disk.undecided, x.mem) && package.Full?
    ensures var y := Sync(config, x, h, r, proposer, package).0;
            TrackedAll(y.disk.undecided, y.mem)
  {
    hide StoreSidecars, PromoteBlobs, DropBlobs, HandleNotices, SidecarsVerified, MatchesValue,
         DistinctIndices, SyncedMeta, AdoptMeta, Disk.ParentRoot, TrackedAll, Do;
    var Full(value, payload, sidecars, notices) := package;
    var x1 := Do(x, PutBlock(h, r, payload));
    var x2 := StoreSidecars(x1, h, r, sidecars);
    var x3 := if sidecars != [] then PromoteBlobs(x2, h, r) else x2;
    BlockTracked(x, h, r, payload);
    StoredThenGone(x1, h, r, sidecars);
    DropTracked(x3, h, r);
    var m := SyncedMeta(config, x3.disk, h, proposer, package);
    if m.Some? {
      AdoptTracked(config, x3, h, r, proposer, value, m.value, notices);
    }
  }

  lemma BlockTracked(x: Exec, h: nat, r: Round, payload: Payload)
    requires TrackedAll(x.disk.undecided, x.mem)
    ensures var y := Do(x, PutBlock(h, r, payload));
            TrackedAll(y.disk.undecided, y.mem)
  {
  }

  lemma StoredThenGone(x: Exec, h: nat, r: Round, sidecars: seq<Sidecar>)
    requires TrackedAll(x.disk.undecided, x.mem)
    ensures var x2 := StoreSidecars(x, h, r, sidecars);
            var x3 := if sidecars != [] then PromoteBlobs(x2, h, r) else x2;
            && TrackedAll(x3.disk.undecided, x3.mem)
            && TrackedAll(DropBlobs(x2, h, r).disk.undecided, DropBlobs(x2, h, r).mem)
            && var y := Do(DropBlobs(x2, h, r), DeleteUndecidedMeta(h, r));
               TrackedAll(y.disk.undecided, y.mem)
  {
    hide StoreSidecars, PromoteBlobs, DropBlobs, Stored, TrackedAll, DropRound, RoundIndices,
         PromoteRound;
    StoreSidecarsEffect(x, h, r, sidecars);
    var x2 := StoreSidecars(x, h, r, sidecars);
    DropBlobsEffect(x2, h, r);
    DropStoredTracked(x.disk.undecided, x.mem, h, r, sidecars);
    if sidecars != [] {
      StoredNonEmpty(x.disk.undecided, h, r, sidecars);
      PromoteWholeRound(x2, h, r);
    } else {
      StoredNothing(x.disk.undecided, h, r);
    }
  }

  lemma AdoptTracked(
    config: Config, x: Exec, h: nat, r: Round, proposer: Address, value: Value, m: Metadata,
    notices: seq<Notice>)
    requires TrackedAll(x.disk.undecided, x.mem)
    ensures var y := Adopt(config, x, h, r, proposer, value, m, notices);
            TrackedAll(y.disk.undecided, y.mem)
  {
    hide AdoptMeta, HandleNotices, TrackedAll;
    AdoptMetaFrame(config, x, h, r, m);
    var x5 := Do(AdoptMeta(config, x, h, r, m), PutProposal(h, r, Proposal(value, proposer)));
    NoticesKeepUndecided(config, x5, notices);
    TrackedFrame(x, HandleNotices(config, x5, notices));
  }

  lemma TrackedFrame(x: Exec, y: Exec)
    requires TrackedAll(x.disk.undecided, x.mem)
    requires y.disk.undecided == x.disk.undecided && y.mem.blobRounds == x.mem.blobRounds
    ensures TrackedAll(y.disk.undecided, y.mem)
  {
  }

  lemma DropTracked(x: Exec, h: nat, r: Round)
    requires TrackedAll(x.disk.undecided, x.mem)
    ensures var y := Do(DropBlobs(x, h, r), DeleteUndecidedMeta(h, r));
            TrackedAll(y.disk.undecided, y.mem)
  {
    hide DropBlobs;
    DropBlobsEffect(x, h, r);
  }

  lemma StoredNothing(u: Undecided, h: nat, r: Round)
    ensures Stored(u, h, r, []) == u
  {
  }

  lemma PromoteWholeRound(x: Exec, h: nat, r: Round)
    requires RoundIndices(x.disk.undecided, h, r) != {}
    ensures var y := PromoteBlobs(x, h, r);
            && OnlyBlobs(x, y)
            && y.disk.undecided == DropRound(x.disk.undecided, h, r)
            && y.disk.decided == PromoteRound(x.disk.undecided, x.disk.decided, h, r)
  {
    hide PromoteBlobs, DropRound, PromoteRound, RoundIndices;
    PromoteBlobsEffect(x, h, r);
    DecisionClaims.MoveOneRound(x.disk.undecided, x.disk.decided, h, r);
  }

  // ----- Runs -----

  /** Candidates come in numbered rounds, and blobs are restreamed into tracked rounds only. */
  ghost predicate Tracks(config: Config, x: Exec, e: Event) {
    match e
    case Proposed(_, r, _, _, _) => r >= 0
    case Received(_, r, _, _, _, _, _) => r >= 0
    case Restreamed(h, r, from) =>
      !RestreamsBlobs(config, x.disk, h, r, from) || (r >= 0 && r in x.mem.Tracked(h))
    case _ => true
  }

  ghost predicate StateTracked(s: State) {
    s.Running? ==> TrackedAll(s.disk.undecided, s.mem)
  }

  /** A start-up, with a crash or without, finds no undecided blob; an event keeps to its rounds. */
  ghost predicate StepTracks(config: Config, s: State, e: Option<Event>) {
    if s.Running? then e.Some? ==> Tracks(config, Exec(s.disk, s.mem, []), e.value)
    else s.disk.undecided == map[]
  }

  lemma StepTracked(config: Config, s: State, e: Option<Event>, t: State)
    requires StateOk(config, s) && StateTracked(s)
    requires Step(config, s, e, t) && StepTracks(config, s, e)
    ensures StateTracked(t)
  {
    hide StateOk, TrackedAll, Tracks, Handle, Restart, Promised;
    if s.Running? {
      EventTracked(config, Exec(s.disk, s.mem, []), e.value);
    } else {
      assert DiskOk(config, s.disk) by { OkDisk(config, s); }
      RestartTracked(config, s.disk);
    }
  }

  lemma OkDisk(config: Config, s: State)
    requires StateOk(config, s)
    ensures DiskOk(config, s.disk)
  {
  }

  /** In every run, with crashes and restarts, every round with undecided blobs is tracked as long as
      no step restreams blobs into an untracked round and no start-up finds undecided blobs. */
  lemma {:induction false} RunTracked(
    config: Config, run: seq<State>, events: seq<Option<Event>>, j: nat)
    requires IsTrace(config, run, events) && j < |run|
    requires forall i :: 0 <= i < j ==> StepTracks(config, run[i], events[i])
    ensures StateTracked(run[j])
  {
    hide StateTracked, StepTracks, Step, StateOk;
    if j == 0 {
      DownTracked(run[0]);
    } else {
      RunTracked(config, run, events, j - 1);
      TraceIsRun(config, run, events);
      RunSound(config, run, j - 1);
      assert Step(config, run[j - 1], events[j - 1], run[j - 1 + 1]);
      StepTracked(config, run[j - 1], events[j - 1], run[j]);
    }
  }

  lemma DownTracked(s: State)
    requires s.Down?
    ensures StateTracked(s)
  {
  }

  /** Tracking is kept in memory only: after a restart it is complete if and only if the crash left no
      undecided blob, so undecided blobs of earlier rounds then escape the clean-up of stale rounds. */
  lemma RestartTracked(config: Config, d: Disk)
    requires DiskOk(config, d)
    ensures var x := Restart(config, d);
            TrackedAll(x.disk.undecided, x.mem) <==> d.undecided == map[]
  {
    hide DiskOk, Restart, MemOk, OwesArchive, Waiting, MaxOrZero;
    RestartExact(config, d);
  }

  lemma EventTracked(config: Config, x: Exec, e: Event)
    requires TrackedAll(x.disk.undecided, x.mem) && Tracks(config, x, e)
    ensures var y := Handle(config, x, e);
            TrackedAll(y.disk.undecided, y.mem)
  {
    hide TrackedAll, Propose, Receive, Restream, RestreamsBlobs, Sync, Decide, StartRound,
         HandleNotice;
    match e
    case Proposed(h, r, exec, bundle, payload) =>
      ProposeTracked(config, x, h, r, exec, bundle, payload);
    case Received(h, r, proposer, exec, sidecars, payload, assembled) =>
      ReceiveTracked(config, x, h, r, proposer, exec, sidecars, payload, assembled);
    case Restreamed(h, r, from) => RestreamTracked(config, x, h, r, from);
    case Synced(h, r, proposer, package) => SyncTracked(config, x, h, r, proposer, package);
    case Decided(h, r, el) => DecideTracked(config, x, h, r, el);
    case Started(h, r) => StartRoundTracked(x, h, r);
    case Noticed(n) =>
      HandleNoticeFrame(config, x, n);
      TrackedFrame(x, HandleNotice(config, x, n));
  }
}
