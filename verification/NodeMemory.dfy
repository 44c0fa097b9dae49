/** What the memory of a running node says about its disk between two operations: pruning is exact,
    the pending sets are exact and the cached parent root is the one in the table. */
module NodeMemory {

  import opened Types
  import opened Ordering
  import opened BlobMetadata
  import opened BlobFamilies
  import opened DiskState
  import opened DiskInvariant
  import opened Node
  import opened NodeSafety
  import opened NodeBlobs
  import opened NodeOps
  import opened NodeDecide

  type Records = map<(nat, nat), ArchiveRecord>

  /** Fully archived, not yet pruned. */
  ghost predicate Waiting(metas: map<nat, Metadata>, records: Records, h: nat) {
    h in metas && metas[h].blobCount > 0 && AllRecorded(h, metas[h], records) && !metas[h].pruned
  }

  /** A pruned height with blobs is fully archived and final. */
  ghost predicate PrunedSafely(metas: map<nat, Metadata>, records: Records, final: nat) {
    forall h :: h in metas && metas[h].blobCount > 0 && metas[h].pruned ==>
      AllRecorded(h, metas[h], records) && h <= final
  }

  ghost predicate PendingExact(metas: map<nat, Metadata>, records: Records, pending: set<nat>) {
    forall h :: h in pending <==> Waiting(metas, records, h)
  }

  ghost predicate NothingOverdue(metas: map<nat, Metadata>, records: Records, final: nat) {
    forall h :: Waiting(metas, records, h) ==> final < h
  }

  /** The pruning state is exact: heights waiting are exactly the pending ones, all above finality,
      and what is pruned is archived and at or below finality. */
  ghost predicate PruningExact(
    metas: map<nat, Metadata>, records: Records, final: nat, pending: set<nat>)
  {
    && PendingExact(metas, records, pending)
    && PrunedSafely(metas, records, final)
    && NothingOverdue(metas, records, final)
  }

  /** Said height by height: pruned if and only if archived and final; pending if and only if
      archived and not pruned. */
  lemma PruningExactly(
    metas: map<nat, Metadata>, records: Records, final: nat, pending: set<nat>, h: nat)
    requires PruningExact(metas, records, final, pending) && h in metas && metas[h].blobCount > 0
    ensures metas[h].pruned <==> AllRecorded(h, metas[h], records) && h <= final
    ensures h in pending <==> AllRecorded(h, metas[h], records) && !metas[h].pruned
    ensures h in pending <==> AllRecorded(h, metas[h], records) && final < h
  {
    assert h in pending <==> Waiting(metas, records, h);
  }

  ghost predicate CacheOk(crypto: Crypto, metas: map<nat, Metadata>, root: Hash, height: nat) {
    height in metas && root == metas[height].HeaderRoot(crypto)
  }

  ghost predicate MemOk(config: Config, x: Exec) {
    && x.mem.currentHeight <= x.mem.finalized + 1
    && FinalityBound(x)
    && PruningExact(x.disk.metas, x.disk.records, x.mem.Finality(), x.mem.pendingPrune)
    && CacheOk(config.crypto, x.disk.metas, x.mem.cacheRoot, x.mem.cacheHeight)
  }

  // ----- Steps on the tables -----

  lemma ExactAfterPromote(
    config: Config, metas: map<nat, Metadata>, records: Records, final: nat, pending: set<nat>,
    h: nat, m: Metadata)
    requires PruningExact(metas, records, final, pending) && RecordsOk(config, metas, records)
    requires h !in metas && m.Fresh()
    ensures PruningExact(metas[h := m], records, final, pending)
  {
    assert m.blobCount > 0 ==> (h, 0) !in records;
    forall k ensures k in pending <==> Waiting(metas[h := m], records, k) {
      if k != h { assert k in pending <==> Waiting(metas, records, k); }
    }
  }

  /** A right cache stays right. */
  ghost predicate CacheKept(crypto: Crypto, a: map<nat, Metadata>, b: map<nat, Metadata>) {
    forall h :: h in a ==> h in b && b[h].HeaderRoot(crypto) == a[h].HeaderRoot(crypto)
  }

  lemma CacheKeptAfter(crypto: Crypto, metas: map<nat, Metadata>, h: nat, m: Metadata)
    requires h in metas ==> metas[h].SameBlock(m)
    ensures CacheKept(crypto, metas, metas[h := m])
  {
  }

  /** Marking one waiting height pruned takes it out of the pending set and changes nothing else. */
  lemma PendingAfterPrune(
    metas: map<nat, Metadata>, records: Records, pending: set<nat>, h: nat, m: Metadata)
    requires PendingExact(metas, records, pending) && h in metas && m.pruned
    ensures PendingExact(metas[h := m], records, pending - {h})
  {
    forall k ensures k in pending - {h} <==> Waiting(metas[h := m], records, k) {
      assert k in pending <==> Waiting(metas, records, k);
    }
  }

  lemma PrunedAfterPrune(
    metas: map<nat, Metadata>, records: Records, final: nat, h: nat, m: Metadata)
    requires PrunedSafely(metas, records, final)
    requires m.pruned ==> AllRecorded(h, m, records) && h <= final
    ensures PrunedSafely(metas[h := m], records, final)
  {
  }

  /** Storing one more record of a height that was not complete. */
  lemma ExactAfterRecord(
    metas: map<nat, Metadata>, records: Records, final: nat, pending: set<nat>,
    h: nat, i: nat, record: ArchiveRecord, m: Metadata)
    requires PruningExact(metas, records, final, pending)
    requires h in metas && metas[h].SameBlock(m) && m.pruned == metas[h].pruned
    requires (h, i) !in records && i < m.blobCount
    ensures var metas', records' := metas[h := m], records[(h, i) := record];
            && !m.pruned && h !in pending
            && PrunedSafely(metas', records', final)
            && (!AllRecorded(h, m, records') ==> PruningExact(metas', records', final, pending))
            && (AllRecorded(h, m, records') ==>
                  && PendingExact(metas', records', pending + {h})
                  && forall k :: Waiting(metas', records', k) && k != h ==> final < k)
  {
    assert !AllRecorded(h, metas[h], records);
    var metas', records' := metas[h := m], records[(h, i) := record];
    forall k | k != h ensures Waiting(metas', records', k) <==> Waiting(metas, records, k) {
      if k in metas {
        assert AllRecorded(k, metas[k], records') <==> AllRecorded(k, metas[k], records) by {
          assert forall j: nat :: (k, j) in records' <==> (k, j) in records;
        }
      }
    }
  }

  // ----- Notices -----

  lemma HandleNoticeExact(config: Config, x: Exec, n: Notice)
    requires DiskOk(config, x.disk) && MemOk(config, x)
    ensures MemOk(config, HandleNotice(config, x, n))
  {
    hide DiskOk, MaxOrZero, Ascending, PruningExact, PendingExact, PrunedSafely, NothingOverdue,
         Judge, PruneHeight, UpdateOk, AllRecorded, Metadata.HeaderRoot, NoticeMeta, RecordNotice;
    if Judge(config, x.disk, n) == Record {
      var h, i, d, m := n.body.height, n.body.index, x.disk, NoticeMeta(x.disk, n);
      NoticeFacts(config, d, n);
      JudgedBlock(config, d, n);
      CacheKeptAfter(config.crypto, d.metas, h, m);
      ExactAfterRecord(d.metas, d.records, x.mem.Finality(), x.mem.pendingPrune, h, i, n, m);
      RecordNoticeEffect(x, n);
      var x2 := RecordNotice(x, n);
      ArchivedIsRecorded(d.(records := d.records[(h, i) := n]), h, m);
      var x3 := x2.(mem := x2.mem.(pendingArchive := x2.mem.pendingArchive - {h}));
      if m.AllArchived() && h <= x.mem.Finality() {
        PruneHeightEffect(x3, h, m);
        PruneLast(x2.disk.metas, x2.disk.records, x.mem.Finality(), x.mem.pendingPrune, h, m);
        CacheKeptAfter(config.crypto, x2.disk.metas, h, m.MarkPruned());
      } else if m.AllArchived() {
        NotOverdue(x2.disk.metas, x2.disk.records, x.mem.Finality(), x.mem.pendingPrune, h);
      }
    }
  }

  lemma JudgedBlock(config: Config, d: Disk, n: Notice)
    requires DiskOk(config, d) && Judge(config, d, n) == Record
    ensures n.body.index < d.metas[n.body.height].blobCount
    ensures (n.body.height, n.body.index) !in d.records
  {
    hide DiskOk;
    HydratedFacts(config, d, n.body.height);
  }

  lemma ArchivedIsRecorded(d: Disk, h: nat, m: Metadata)
    requires h in d.metas && d.metas[h].blobCount == m.blobCount
    ensures d.Archived(h) <==> AllRecorded(h, m, d.records)
  {
  }

  /** The last waiting height at or below finality is pruned. */
  lemma PruneLast(
    metas: map<nat, Metadata>, records: Records, final: nat, pending: set<nat>,
    h: nat, m: Metadata)
    requires h in metas && metas[h] == m && AllRecorded(h, m, records) && h <= final
    requires PrunedSafely(metas, records, final) && PendingExact(metas, records, pending + {h})
    requires forall k :: Waiting(metas, records, k) && k != h ==> final < k
    ensures PruningExact(metas[h := m.MarkPruned()], records, final, pending - {h})
  {
    var m' := m.MarkPruned();
    PendingAfterPrune(metas, records, pending + {h}, h, m');
    assert pending + {h} - {h} == pending - {h};
    PrunedAfterPrune(metas, records, final, h, m');
    var metas' := metas[h := m'];
    forall k | Waiting(metas', records, k) ensures final < k {
      assert Waiting(metas, records, k);
    }
  }

  lemma NotOverdue(
    metas: map<nat, Metadata>, records: Records, final: nat, pending: set<nat>, h: nat)
    requires PrunedSafely(metas, records, final) && PendingExact(metas, records, pending + {h})
    requires forall k :: Waiting(metas, records, k) && k != h ==> final < k
    requires final < h
    ensures PruningExact(metas, records, final, pending + {h})
  {
  }

  lemma {:induction false} HandleNoticesExact(
    config: Config, base: Disk, x: Exec, notices: seq<Notice>)
    requires Safe(config, base, x) && MemOk(config, x)
    ensures Safe(config, base, HandleNotices(config, x, notices))
    ensures MemOk(config, HandleNotices(config, x, notices))
    decreases |notices|
  {
    hide DiskOk, Extends, HandleNotice, PruningExact, CacheOk, FinalityBound;
    if notices != [] {
      HandleNoticeSafe(config, base, x, notices[0]);
      HandleNoticeExact(config, x, notices[0]);
      HandleNoticesExact(config, base, HandleNotice(config, x, notices[0]), notices[1..]);
    }
  }

  // ----- Flushing -----

  /** In the middle of a flush: only heights still to come may be overdue. */
  ghost predicate Flushing(
    metas: map<nat, Metadata>, records: Records, final: nat, pending: set<nat>, rest: seq<nat>)
  {
    && PendingExact(metas, records, pending)
    && PrunedSafely(metas, records, final)
    && OverdueIn(metas, records, final, rest)
  }

  ghost predicate OverdueIn(metas: map<nat, Metadata>, records: Records, final: nat, rest: seq<nat>) {
    forall h: nat :: Waiting(metas, records, h) && h <= final ==> h in rest
  }

  lemma FlushHeightExact(
    config: Config, x: Exec, h: nat, rest: seq<nat>, final: nat)
    requires DiskOk(config, x.disk) && h <= final
    requires Flushing(x.disk.metas, x.disk.records, final, x.mem.pendingPrune, [h] + rest)
    ensures var y := FlushHeight(x, h);
            && Flushing(y.disk.metas, y.disk.records, final, y.mem.pendingPrune, rest)
            && y.mem == x.mem.(pendingArchive := y.mem.pendingArchive,
                               pendingPrune := y.mem.pendingPrune)
            && y.disk == x.disk.(decided := y.disk.decided, metas := y.disk.metas)
            && CacheKept(config.crypto, x.disk.metas, y.disk.metas)
  {
    hide DiskOk, PruneHeight, Metadata.HeaderRoot;
    var metas, records, pending := x.disk.metas, x.disk.records, x.mem.pendingPrune;
    var x1 := x.(mem := x.mem.(pendingPrune := pending - {h}));
    if Waiting(metas, records, h) {
      HydratedFacts(config, x.disk, h);
      var m := x.disk.Meta(h);
      PruneHeightEffect(x1, h, m);
      PendingAfterPrune(metas, records, pending, h, m.MarkPruned());
      assert pending - {h} - {h} == pending - {h};
      PrunedAfterPrune(metas, records, final, h, m.MarkPruned());
      CacheKeptAfter(config.crypto, metas, h, m.MarkPruned());
    } else {
      assert h !in pending;
      assert pending - {h} == pending;
      if h in metas {
        HydratedFacts(config, x.disk, h);
        PruneHeightEffect(x1, h, x.disk.Meta(h));
      }
    }
  }

  lemma {:induction false} FlushHeightsExact(
    config: Config, base: Disk, x: Exec, heights: seq<nat>, final: nat)
    requires Safe(config, base, x)
    requires forall h :: h in heights ==> h <= final <= MaxOrZero(x.disk.values.Keys)
    requires Flushing(x.disk.metas, x.disk.records, final, x.mem.pendingPrune, heights)
    ensures var y := FlushHeights(x, heights);
            && Flushing(y.disk.metas, y.disk.records, final, y.mem.pendingPrune, [])
            && y.mem == x.mem.(pendingArchive := y.mem.pendingArchive,
                               pendingPrune := y.mem.pendingPrune)
            && y.disk == x.disk.(decided := y.disk.decided, metas := y.disk.metas)
            && CacheKept(config.crypto, x.disk.metas, y.disk.metas)
    decreases |heights|
  {
    hide DiskOk, Extends, FlushHeight, Flushing, MaxOrZero, Metadata.HeaderRoot;
    if heights != [] {
      assert heights[0] in heights && forall h :: h in heights[1..] ==> h in heights;
      assert heights == [heights[0]] + heights[1..];
      FlushHeightExact(config, x, heights[0], heights[1..], final);
      FlushHeightSafe(config, base, x, heights[0]);
      FlushHeightsExact(config, base, FlushHeight(x, heights[0]), heights[1..], final);
    }
  }

  /** A flush prunes exactly the pending heights at or below finality. */
  lemma FlushPrunesExact(config: Config, base: Disk, x: Exec)
    requires Safe(config, base, x) && FinalityBound(x)
    requires PendingExact(x.disk.metas, x.disk.records, x.mem.pendingPrune)
    requires PrunedSafely(x.disk.metas, x.disk.records, x.mem.Finality())
    ensures var y := FlushPrunes(x);
            && PruningExact(y.disk.metas, y.disk.records, x.mem.Finality(), y.mem.pendingPrune)
            && y.mem == x.mem.(pendingArchive := y.mem.pendingArchive,
                               pendingPrune := y.mem.pendingPrune)
            && y.disk == x.disk.(decided := y.disk.decided, metas := y.disk.metas)
            && CacheKept(config.crypto, x.disk.metas, y.disk.metas)
  {
    hide DiskOk, Extends, FlushHeights, CacheKept, MaxOrZero, Ascending;
    FlushHeightsExact(config, base, x, ReadyHeights(x.mem), x.mem.Finality());
  }

  // ----- Rehydration -----

  /** This node proposed the height and its blobs still wait for archive notices. */
  ghost predicate OwesArchive(config: Config, d: Disk, h: nat) {
    && h in d.metas && d.metas[h].blobCount > 0 && !AllRecorded(h, d.metas[h], d.records)
    && config.archiverEnabled
    && d.ProposerAt(config, h, d.metas[h].proposerHint) == Some(config.address)
  }

  ghost predicate OwesNow(config: Config, d: Disk, h: nat) {
    OwesArchive(config, d, h) && !d.metas[h].pruned
  }

  ghost predicate PruneVisited(
    metas: map<nat, Metadata>, records: Records, pending: set<nat>, rest: seq<nat>)
  {
    forall h: nat :: h in pending <==> Waiting(metas, records, h) && h !in rest
  }

  ghost predicate ArchiveVisited(config: Config, d: Disk, pending: set<nat>, rest: seq<nat>) {
    forall h: nat :: h in pending <==> OwesArchive(config, d, h) && h !in rest
  }

  /** In the middle of rehydration: the pending sets are exact on the heights already visited. */
  ghost predicate Rehydrating(config: Config, x: Exec, final: nat, rest: seq<nat>) {
    && PruneVisited(x.disk.metas, x.disk.records, x.mem.pendingPrune, rest)
    && ArchiveVisited(config, x.disk, x.mem.pendingArchive, rest)
    && PrunedSafely(x.disk.metas, x.disk.records, final)
    && OverdueIn(x.disk.metas, x.disk.records, final, rest)
  }

  /** The three things that can happen to a height during rehydration. */
  lemma RehydrateHeightCases(config: Config, x: Exec, h: nat)
    requires DiskOk(config, x.disk)
    ensures var y, d := RehydrateHeight(config, x, h), x.disk;
            && y.disk == d.(decided := y.disk.decided, metas := y.disk.metas)
            && (Waiting(d.metas, d.records, h) && h <= x.mem.Finality() ==>
                  && y.disk.metas == d.metas[h := d.Meta(h).MarkPruned()]
                  && y.mem == x.mem.(pendingArchive := x.mem.pendingArchive - {h},
                                     pendingPrune := x.mem.pendingPrune - {h}))
            && (Waiting(d.metas, d.records, h) && h > x.mem.Finality() ==>
                  && y.disk == d
                  && y.mem == x.mem.(pendingPrune := x.mem.pendingPrune + {h}))
            && (OwesNow(config, d, h) ==>
                  && y.disk == d
                  && y.mem == x.mem.(pendingArchive := x.mem.pendingArchive + {h}))
            && (!Waiting(d.metas, d.records, h) && !OwesNow(config, d, h) ==> y == x)
  {
    hide DiskOk, PruneHeight;
    if h in x.disk.metas {
      HydratedFacts(config, x.disk, h);
      PruneHeightEffect(x, h, x.disk.Meta(h));
    }
  }

  lemma OwesAfterPrune(config: Config, d: Disk, decided: Decided, h: nat, m: Metadata, k: nat)
    requires h in d.metas && d.metas[h].SameBlock(m)
    ensures OwesArchive(config, d.(decided := decided, metas := d.metas[h := m]), k)
            <==> OwesArchive(config, d, k)
  {
  }

  lemma VisitedAfterPrune(
    metas: map<nat, Metadata>, records: Records, pending: set<nat>, final: nat,
    h: nat, rest: seq<nat>, m: Metadata)
    requires PruneVisited(metas, records, pending, [h] + rest) && h in metas && m.pruned
    requires OverdueIn(metas, records, final, [h] + rest)
    ensures PruneVisited(metas[h := m], records, pending - {h}, rest)
    ensures OverdueIn(metas[h := m], records, final, rest)
  {
    var metas' := metas[h := m];
    forall k: nat ensures k in pending - {h} <==> Waiting(metas', records, k) && k !in rest {
      assert k in pending <==> Waiting(metas, records, k) && k !in [h] + rest;
    }
  }

  lemma RehydrateHeightExact(config: Config, x: Exec, h: nat, rest: seq<nat>)
    requires DiskOk(config, x.disk) && h !in rest
    requires Rehydrating(config, x, x.mem.Finality(), [h] + rest)
    ensures var y := RehydrateHeight(config, x, h);
            && Rehydrating(config, y, x.mem.Finality(), rest)
            && y.mem == x.mem.(pendingArchive := y.mem.pendingArchive,
                               pendingPrune := y.mem.pendingPrune)
            && y.disk == x.disk.(decided := y.disk.decided, metas := y.disk.metas)
            && CacheKept(config.crypto, x.disk.metas, y.disk.metas)
            && (forall k :: OwesArchive(config, y.disk, k) <==> OwesArchive(config, x.disk, k))
  {
    hide DiskOk, RehydrateHeight, Metadata.HeaderRoot;
    var metas, records, final := x.disk.metas, x.disk.records, x.mem.Finality();
    var y := RehydrateHeight(config, x, h);
    RehydrateHeightCases(config, x, h);
    if Waiting(metas, records, h) && h <= final {
      PrunedVisitExact(config, x, y, h, rest);
    } else {
      UnprunedVisitExact(config, x, y, h, rest);
    }
  }

  lemma PrunedVisitExact(config: Config, x: Exec, y: Exec, h: nat, rest: seq<nat>)
    requires h in x.disk.metas && Waiting(x.disk.metas, x.disk.records, h)
    requires h <= x.mem.Finality() && h !in rest
    requires Rehydrating(config, x, x.mem.Finality(), [h] + rest)
    requires y.disk == x.disk.(decided := y.disk.decided,
                               metas := x.disk.metas[h := x.disk.Meta(h).MarkPruned()])
    requires y.mem == x.mem.(pendingArchive := x.mem.pendingArchive - {h},
                             pendingPrune := x.mem.pendingPrune - {h})
    ensures Rehydrating(config, y, x.mem.Finality(), rest)
    ensures CacheKept(config.crypto, x.disk.metas, y.disk.metas)
    ensures forall k :: OwesArchive(config, y.disk, k) <==> OwesArchive(config, x.disk, k)
  {
    hide Metadata.HeaderRoot, OwesArchive, PrunedSafely, PruneVisited, OverdueIn;
    var m := x.disk.Meta(h).MarkPruned();
    var metas, records, final := x.disk.metas, x.disk.records, x.mem.Finality();
    VisitedAfterPrune(metas, records, x.mem.pendingPrune, final, h, rest, m);
    PrunedAfterPrune(metas, records, final, h, m);
    forall k ensures OwesArchive(config, y.disk, k) <==> OwesArchive(config, x.disk, k) {
      OwesAfterPrune(config, x.disk, y.disk.decided, h, m, k);
    }
    WaitingOwesNothing(config, x.disk, h);
    forall k: nat
      ensures k in y.mem.pendingArchive <==> OwesArchive(config, y.disk, k) && k !in rest
    {
      assert k in x.mem.pendingArchive <==> OwesArchive(config, x.disk, k) && k !in [h] + rest;
    }
    CacheKeptAfter(config.crypto, metas, h, m);
  }

  lemma WaitingOwesNothing(config: Config, d: Disk, h: nat)
    requires Waiting(d.metas, d.records, h)
    ensures !OwesArchive(config, d, h)
  {
  }

  lemma UnprunedVisitExact(config: Config, x: Exec, y: Exec, h: nat, rest: seq<nat>)
    requires Rehydrating(config, x, x.mem.Finality(), [h] + rest) && h !in rest
    requires y.disk == x.disk
    requires var d := x.disk;
             && (Waiting(d.metas, d.records, h) ==>
                   && h > x.mem.Finality()
                   && y.mem == x.mem.(pendingPrune := x.mem.pendingPrune + {h}))
             && (OwesNow(config, d, h) ==>
                   y.mem == x.mem.(pendingArchive := x.mem.pendingArchive + {h}))
             && (!Waiting(d.metas, d.records, h) && !OwesNow(config, d, h) ==> y == x)
    ensures Rehydrating(config, y, x.mem.Finality(), rest)
  {
    var d := x.disk;
    forall k: nat
      ensures k in y.mem.pendingArchive <==> OwesArchive(config, d, k) && k !in rest
      ensures k in y.mem.pendingPrune <==> Waiting(d.metas, d.records, k) && k !in rest
    {
      hide AllRecorded;
      assert k in x.mem.pendingArchive <==> OwesArchive(config, x.disk, k) && k !in [h] + rest;
      assert k in x.mem.pendingPrune <==> Waiting(d.metas, d.records, k) && k !in [h] + rest;
    }
  }

  lemma {:induction false} RehydrateHeightsExact(
    config: Config, base: Disk, x: Exec, heights: seq<nat>)
    requires Safe(config, base, x) && FinalityBound(x) && StrictlyIncreasing(heights)
    requires Rehydrating(config, x, x.mem.Finality(), heights)
    ensures var y := RehydrateHeights(config, x, heights);
            && Rehydrating(config, y, x.mem.Finality(), [])
            && y.mem == x.mem.(pendingArchive := y.mem.pendingArchive,
                               pendingPrune := y.mem.pendingPrune)
            && y.disk == x.disk.(decided := y.disk.decided, metas := y.disk.metas)
            && CacheKept(config.crypto, x.disk.metas, y.disk.metas)
            && (forall k :: OwesArchive(config, y.disk, k) <==> OwesArchive(config, x.disk, k))
    decreases |heights|
  {
    hide DiskOk, Extends, RehydrateHeight, Rehydrating, OwesArchive, FinalityBound, Metadata.HeaderRoot;
    if heights != [] {
      var h, rest := heights[0], heights[1..];
      assert heights == [h] + rest && h !in rest;
      RehydrateHeightExact(config, x, h, rest);
      RehydrateHeightSafe(config, base, x, h);
      RehydrateHeightsExact(config, base, RehydrateHeight(config, x, h), rest);
    }
  }
}
