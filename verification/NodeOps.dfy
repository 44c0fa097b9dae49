/** Safety of each operation: from a safe start, under the environment's promises, it stays safe. */
module NodeOps {

  import opened Types
  import opened Ordering
  import opened BlobMetadata
  import opened BlobFamilies
  import opened DiskState
  import opened DiskInvariant
  import opened Node
  import opened NodeSafety
  import opened NodeBlobs

  // ----- Pruning -----

  /** Pruning one height changes its decided blobs and its entry, and no other durable table. */
  lemma PruneHeightEffect(x: Exec, h: nat, m: Metadata)
    ensures var y := PruneHeight(x, h, m);
            && y.disk == x.disk.(decided := y.disk.decided, metas := y.disk.metas)
            && y.mem == x.mem.(pendingArchive := y.mem.pendingArchive,
                               pendingPrune := y.mem.pendingPrune)
            && (m.pruned || m.blobCount == 0 ==> y == x)
            && (!m.pruned && m.blobCount > 0 ==>
                  && y.disk.metas == x.disk.metas[h := m.MarkPruned()]
                  && y.mem.pendingArchive == x.mem.pendingArchive - {h}
                  && y.mem.pendingPrune == x.mem.pendingPrune - {h}
                  && forall k :: k in y.disk.decided <==>
                       k in x.disk.decided && !(k.0 == h && k.1 < m.blobCount))
  {
    hide DeleteBlobs;
    DeleteBlobsEffect(x, h, 0, m.blobCount);
  }

  lemma FlushHeightSafe(config: Config, base: Disk, x: Exec, h: nat)
    requires Safe(config, base, x) && h <= MaxOrZero(x.disk.values.Keys)
    ensures Safe(config, base, FlushHeight(x, h))
    ensures FlushHeight(x, h).disk.values == x.disk.values
  {
    hide DiskOk, Extends, PruneHeight, MaxOrZero, Ascending, UpdateOk;
    var x1 := x.(mem := x.mem.(pendingPrune := x.mem.pendingPrune - {h}));
    SafeMemory(config, base, x, x1);
    if h in x1.disk.metas && x1.disk.Meta(h).AllArchived() {
      HydratedPrunable(config, x1.disk, h);
      PruneHeightSafe(config, base, x1, h, x1.disk.Meta(h));
      PruneHeightEffect(x1, h, x1.disk.Meta(h));
    }
  }

  lemma {:induction false} FlushHeightsSafe(config: Config, base: Disk, x: Exec, heights: seq<nat>)
    requires Safe(config, base, x)
    requires forall h :: h in heights ==> h <= MaxOrZero(x.disk.values.Keys)
    ensures Safe(config, base, FlushHeights(x, heights))
    ensures FlushHeights(x, heights).disk.values == x.disk.values
    decreases |heights|
  {
    hide Safe, FlushHeight, MaxOrZero, Ascending;
    if heights != [] {
      assert heights[0] in heights && forall h :: h in heights[1..] ==> h in heights;
      FlushHeightSafe(config, base, x, heights[0]);
      FlushHeightsSafe(config, base, FlushHeight(x, heights[0]), heights[1..]);
    }
  }

  lemma FlushPrunesSafe(config: Config, base: Disk, x: Exec)
    requires Safe(config, base, x) && FinalityBound(x)
    ensures Safe(config, base, FlushPrunes(x)) && FlushPrunes(x).disk.values == x.disk.values
  {
    hide Safe, FlushHeights, MaxOrZero, Ascending;
    FlushHeightsSafe(config, base, x, ReadyHeights(x.mem));
  }

  lemma RehydrateHeightSafe(config: Config, base: Disk, x: Exec, h: nat)
    requires Safe(config, base, x) && FinalityBound(x)
    ensures var y := RehydrateHeight(config, x, h);
            && Safe(config, base, y) && FinalityBound(y)
            && y.mem.finalized == x.mem.finalized && y.mem.currentHeight == x.mem.currentHeight
  {
    hide DiskOk, Extends, PruneHeight, MaxOrZero, Ascending, UpdateOk;
    var y := RehydrateHeight(config, x, h);
    if h in x.disk.metas && x.disk.Meta(h).AllArchived() && h <= x.mem.Finality() {
      HydratedPrunable(config, x.disk, h);
      PruneHeightSafe(config, base, x, h, x.disk.Meta(h));
      PruneHeightEffect(x, h, x.disk.Meta(h));
    } else {
      SafeMemory(config, base, x, y);
    }
  }

  lemma {:induction false} RehydrateHeightsSafe(
    config: Config, base: Disk, x: Exec, heights: seq<nat>)
    requires Safe(config, base, x) && FinalityBound(x)
    ensures Safe(config, base, RehydrateHeights(config, x, heights))
    ensures FinalityBound(RehydrateHeights(config, x, heights))
    decreases |heights|
  {
    hide Safe, RehydrateHeight, FinalityBound;
    if heights != [] {
      RehydrateHeightSafe(config, base, x, heights[0]);
      RehydrateHeightsSafe(config, base, RehydrateHeight(config, x, heights[0]), heights[1..]);
    }
  }

  lemma {:induction false} HandleNoticesSafe(
    config: Config, base: Disk, x: Exec, notices: seq<Notice>)
    requires Safe(config, base, x) && FinalityBound(x)
    ensures Safe(config, base, HandleNotices(config, x, notices))
    ensures FinalityBound(HandleNotices(config, x, notices))
    decreases |notices|
  {
    hide Safe, HandleNotice, FinalityBound;
    if notices != [] {
      HandleNoticeSafe(config, base, x, notices[0]);
      HandleNoticeFrame(config, x, notices[0]);
      HandleNoticesSafe(config, base, HandleNotice(config, x, notices[0]), notices[1..]);
    }
  }

  lemma RecordNoticeEffect(x: Exec, n: Notice)
    requires n.body.height in x.disk.metas
    requires n.body.index < |x.disk.metas[n.body.height].records|
    ensures var h, y := n.body.height, RecordNotice(x, n);
            && y.mem == x.mem
            && y.disk == x.disk.(records := x.disk.records[(h, n.body.index) := n],
                                 metas := x.disk.metas[h := NoticeMeta(x.disk, n)])
  {
    hide NoticeMeta;
  }

  /** The height is pruned along with the notice. */
  predicate Prunes(x: Exec, n: Notice)
    requires n.body.height in x.disk.metas
    requires n.body.index < |x.disk.metas[n.body.height].records|
  {
    var m := NoticeMeta(x.disk, n);
    m.AllArchived() && m.blobCount > 0 && n.body.height <= x.mem.Finality() && !m.pruned
  }

  /** A recorded notice changes the record table, one entry, the height's decided blobs and the two
      pending sets, nothing else. */
  lemma HandleNoticeEffect(config: Config, x: Exec, n: Notice)
    requires Judge(config, x.disk, n) == Record
    ensures var h, m, y := n.body.height, NoticeMeta(x.disk, n), HandleNotice(config, x, n);
            && y.disk == x.disk.(decided := y.disk.decided, metas := y.disk.metas,
                                 records := x.disk.records[(h, n.body.index) := n])
            && y.disk.metas == x.disk.metas[h := if Prunes(x, n) then m.MarkPruned() else m]
            && (forall k :: k in y.disk.decided ==> k in x.disk.decided)
            && y.mem == x.mem.(pendingArchive := y.mem.pendingArchive,
                               pendingPrune := y.mem.pendingPrune)
  {
    hide PruneHeight, Judge, NoticeMeta, RecordNotice;
    RecordNoticeEffect(x, n);
    var h, m, x2 := n.body.height, NoticeMeta(x.disk, n), RecordNotice(x, n);
    PruneHeightEffect(x2.(mem := x2.mem.(pendingArchive := x2.mem.pendingArchive - {h})), h, m);
  }

  lemma HandleNoticeFrame(config: Config, x: Exec, n: Notice)
    ensures var y := HandleNotice(config, x, n);
            && y.disk == x.disk.(decided := y.disk.decided, metas := y.disk.metas,
                                 records := y.disk.records)
            && y.mem == x.mem.(pendingArchive := y.mem.pendingArchive,
                               pendingPrune := y.mem.pendingPrune)
            && (forall k :: k in y.disk.decided ==> k in x.disk.decided)
            && (FinalityBound(x) ==> FinalityBound(y))
  {
    hide MaxOrZero, Ascending, HandleNotice, NoticeMeta, Judge;
    if Judge(config, x.disk, n) == Record {
      HandleNoticeEffect(config, x, n);
    } else {
      RejectedChangesNothing(config, x, n);
    }
  }

  lemma RejectedChangesNothing(config: Config, x: Exec, n: Notice)
    requires Judge(config, x.disk, n) != Record
    ensures HandleNotice(config, x, n) == x
  {
  }

  // ----- Round changes -----

  lemma CleanRoundSafe(config: Config, base: Disk, x: Exec, h: nat, r: Round)
    requires Safe(config, base, x)
    ensures Safe(config, base, CleanRound(x, h, r))
  {
    hide Safe, DropEntries, RoundEntries;
    if r >= 0 {
      var x1 := Do(x, DeleteUndecidedMeta(h, r));
      DoSafe(config, base, x, DeleteUndecidedMeta(h, r));
      var x2 := Do(x1, DeleteProposal(h, r));
      DoSafe(config, base, x1, DeleteProposal(h, r));
      DoSafe(config, base, x2, DeleteBlock(h, r));
      var x3 := Do(x2, DeleteBlock(h, r));
      DropEntriesSafe(config, base, x3, h, RoundEntries(x3.disk.undecided, h, r));
    }
  }

  lemma {:induction false} CleanRoundsSafe(
    config: Config, base: Disk, x: Exec, h: nat, rounds: seq<Round>)
    requires Safe(config, base, x)
    ensures Safe(config, base, CleanRounds(x, h, rounds))
    decreases |rounds|
  {
    hide Safe, CleanRound;
    if rounds != [] {
      CleanRoundSafe(config, base, x, h, rounds[0]);
      CleanRoundsSafe(config, base, CleanRound(x, h, rounds[0]), h, rounds[1..]);
    }
  }

  lemma StartRoundSafe(config: Config, base: Disk, x: Exec, h: nat, r: Round)
    requires Safe(config, base, x)
    ensures Safe(config, base, StartRound(x, h, r))
  {
    hide Safe, CleanRounds, InKeyOrder;
    if r > 0 && r > STALE_ROUND_BLOB_RETENTION && StaleRounds(x.mem, h, r) != {} {
      CleanRoundsSafe(config, base, x, h, InKeyOrder(StaleRounds(x.mem, h, r)));
      SafeMemory(
        config, base, CleanRounds(x, h, InKeyOrder(StaleRounds(x.mem, h, r))), StartRound(x, h, r));
    } else {
      SafeMemory(config, base, x, StartRound(x, h, r));
    }
  }

  // ----- The five producers -----

  /** A candidate built on the resolved parent root extends the decided chain. */
  lemma ResolvedParentOk(config: Config, d: Disk, h: nat, r: Round, m: Metadata)
    requires m.height == h && m.Valid() && m.Fresh()
    requires d.ParentRoot(config.crypto, h) == Some(m.parentRoot)
    ensures Guard(config, d, PutUndecidedMeta(h, r, m))
  {
    if h > 0 {
      assert d.Meta(h - 1).HeaderRoot(config.crypto) == d.metas[h - 1].HeaderRoot(config.crypto);
    }
  }

  lemma ProposeSafe(
    config: Config, base: Disk, x: Exec, h: nat, r: Round, exec: ExecutionHeader, bundle: Bundle,
    payload: Payload)
    requires Safe(config, base, x) && !Committed(x.disk, h)
    ensures Safe(config, base, Propose(config, x, h, r, exec, bundle, payload))
  {
    hide DiskOk, Extends, StoreSidecars, Config.IndexOf, BuildSidecars, BundleKeccaks;
    if x.disk.BlockData(h, r).None? {
      var commitments := BundleCommitments(bundle);
      var w1 := PutProposal(h, r, Proposal(Value(exec, commitments), config.address));
      var x1 := Do(x, w1);
      DoSafe(config, base, x, w1);
      var index := config.IndexOf(config.address);
      var parent := x1.disk.ParentRoot(config.crypto, h);
      if parent.Some? {
        var meta := New(
          h, parent.value, commitments, BundleKeccaks(config.crypto, bundle), exec, index);
        ResolvedParentOk(config, x1.disk, h, r, meta);
        DoSafe(config, base, x1, PutUndecidedMeta(h, r, meta));
        var x2 := Do(x1, PutUndecidedMeta(h, r, meta));
        var x3 := if bundle != [] then x2.(mem := x2.mem.Track(h, r)) else x2;
        SafeMemory(config, base, x2, x3);
        DoSafe(config, base, x3, PutBlock(h, r, payload));
        var x4 := Do(x3, PutBlock(h, r, payload));
        if index.Some? {
          var header := BeaconHeader(
            h, index.value, parent.value, exec.stateRoot, config.crypto.bodyRoot(commitments, exec));
          StoreSidecarsSafe(
            config, base, x4, h, r, BuildSidecars(config.crypto, bundle, header, exec));
        }
      }
    }
  }

  lemma ReceiveSafe(
    config: Config, base: Disk, x: Exec, h: nat, r: Round, proposer: Address, exec: ExecutionHeader,
    sidecars: Sidecars, payload: Payload, assembled: bool)
    requires Safe(config, base, x) && !Committed(x.disk, h)
    ensures Safe(config, base,
                 Receive(config, x, h, r, proposer, exec, sidecars, payload, assembled))
  {
    hide DiskOk, Extends, StoreSidecars, Config.IndexOf, Keccaks;
    var value := Value(exec, CommitmentsOf(sidecars));
    var hint := config.IndexOf(proposer);
    var parent := x.disk.ParentRoot(config.crypto, h);
    if h < x.mem.currentHeight || !assembled {
    } else if sidecars != []
              && !(SidecarsVerified(config, x.disk, h, proposer, value, sidecars)
                   && config.crypto.kzgValid(sidecars)) {
    } else if parent.Some? {
      var x1 := StoreSidecars(x, h, r, sidecars);
      StoreSidecarsSafe(config, base, x, h, r, sidecars);
      StoreSidecarsEffect(x, h, r, sidecars);
      var meta := New(
        h, if sidecars != [] then sidecars[0].header.parentRoot else parent.value,
        value.commitments, Keccaks(config.crypto, sidecars), exec, hint);
      ResolvedParentOk(config, x1.disk, h, r, meta);
      var x2 := Do(x1, PutUndecidedMeta(h, r, meta));
      DoSafe(config, base, x1, PutUndecidedMeta(h, r, meta));
      var x3 := if sidecars != [] then x2.(mem := x2.mem.Track(h, r)) else x2;
      SafeMemory(config, base, x2, x3);
      var w := PutProposal(h, r, Proposal(value, proposer));
      DoSafe(config, base, x3, w);
      DoSafe(config, base, Do(x3, w), PutBlock(h, r, payload));
    }
  }

  lemma RestreamSafe(config: Config, base: Disk, x: Exec, h: nat, r: Round, from: Round)
    requires Safe(config, base, x) && !Committed(x.disk, h)
    ensures Safe(config, base, Restream(config, x, h, r, from))
  {
    hide DiskOk, Extends, StoreSidecars, Listing, RoundBlobs, Rebuild, MetaForRound;
    var d, meta := x.disk, MetaForRound(x.disk, h, from);
    if Restream(config, x, h, r, from) != x {
      var p := d.proposals[(h, from)];
      var w1 := PutProposal(h, r, p.(proposer := config.address));
      var x1 := Do(x, w1);
      DoSafe(config, base, x, w1);
      var w2 := PutBlock(h, r, d.BlockData(h, from).value);
      var x2 := Do(x1, w2);
      DoSafe(config, base, x1, w2);
      CandidateGuard(config, d, h, from, r);
      var w3 := PutUndecidedMeta(h, r, meta.value);
      var x3 := Do(x2, w3);
      DoSafe(config, base, x2, w3);
      var y := Restream(config, x, h, r, from);
      if y != x3 {
        var blobs := Listing(RoundBlobs(d.undecided, h, from));
        var noBlobs: Sidecars := [];
        var pruned := h in d.metas && d.metas[h].pruned && d.metas[h].blobCount > 0;
        var rebuilt :=
          if meta.value.blobCount == 0 || pruned then Some(noBlobs)
          else Rebuild(config, meta.value, blobs);
        assert y == StoreSidecars(x3, h, r, rebuilt.value);
        StoreSidecarsSafe(config, base, x3, h, r, rebuilt.value);
      }
    }
  }

  /** The entry a restream starts from, a candidate of a round or the decided one, may be offered for
      another round. */
  lemma CandidateGuard(config: Config, d: Disk, h: nat, from: Round, r: Round)
    requires DiskOk(config, d) && MetaForRound(d, h, from).Some?
    ensures var m := MetaForRound(d, h, from).value;
            ParentOk(config.crypto, d.metas, h, m) && m.Valid() && (h in d.metas || m.Fresh())
  {
    hide RecordsOk, InlinesOk, PrunedOk, BlocksOk, MaxOrZero, Metadata.HeaderRoot;
    if (h, from) !in d.undecidedMetas {
      HydratedFacts(config, d, h);
      assert ParentOk(config.crypto, d.metas, h, d.metas[h]);
    }
  }
}
