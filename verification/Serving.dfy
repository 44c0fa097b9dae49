/** Answering a peer that asks for a decided height, and what a pruned answer does there. */
module Serving {

  import opened Types
  import opened Ordering
  import opened BlobMetadata
  import opened BlobFamilies
  import opened DiskState
  import opened DiskInvariant
  import opened Node
  import opened NodeSafety
  import NodeOps
  import opened NodeDecide
  import opened NodeMemory
  import opened NodeSteps
  import opened NodeRuns
  import opened ArchiveCompletion
  import opened ReadyRounds
  import Streaming

  function RecordedIndices(d: Disk, h: nat): set<nat> {
    set k | k in d.records && k.0 == h :: k.1
  }

  /** `load_archive_notices`: the records of the height in index order, as notices. */
  function ArchiveNotices(d: Disk, h: nat): seq<Notice> {
    var a := Ascending(RecordedIndices(d, h));
    seq(|a|, i requires 0 <= i < |a| => assert a[i] in a; d.records[(h, a[i])])
  }

  /** What a node sends for a decided height. */
  datatype Reply =
    | FullReply(value: Value, payload: Payload, blobs: seq<Sidecar>, notices: seq<Notice>)
    | MetadataReply(value: Value, notices: seq<Notice>, payloadOpt: Option<Payload>)

  /** The `GetDecidedValue` handler with `get_blobs_with_status_check`. */
  function Serve(d: Disk, h: nat): Option<Reply> {
    if h !in d.values then None
    else
      var value := d.values[h].value;
      var payload := d.BlockData(h, d.values[h].round);
      var notices := ArchiveNotices(d, h);
      if payload.None? then Some(MetadataReply(value, notices, None))
      else if h in d.metas && d.metas[h].pruned then Some(MetadataReply(value, notices, payload))
      else Some(FullReply(value, payload.value, Listing(HeightBlobs(d.decided, h)), notices))
  }

  lemma NoticeAt(d: Disk, h: nat, k: nat)
    requires k < |RecordedIndices(d, h)|
    ensures |ArchiveNotices(d, h)| == |RecordedIndices(d, h)| == |Ascending(RecordedIndices(d, h))|
    ensures var i := Ascending(RecordedIndices(d, h))[k];
            (h, i) in d.records && ArchiveNotices(d, h)[k] == d.records[(h, i)]
  {
    hide Ascending;
    var a := Ascending(RecordedIndices(d, h));
    assert a[k] in a;
  }

  lemma NoNotices(d: Disk, h: nat)
    requires RecordedIndices(d, h) == {}
    ensures ArchiveNotices(d, h) == []
  {
  }

  /** The notices of a fully archived height: one per blob, in index order. */
  lemma NoticesOfArchived(config: Config, d: Disk, h: nat)
    requires DiskOk(config, d) && d.Archived(h)
    ensures |ArchiveNotices(d, h)| == d.metas[h].blobCount
    ensures forall k :: 0 <= k < d.metas[h].blobCount ==>
      (h, k) in d.records && ArchiveNotices(d, h)[k] == d.records[(h, k)]
  {
    hide Ascending, DiskOk, ArchiveNotices, RecordedIndices, Streaming.UpTo;
    var n := d.metas[h].blobCount;
    RecordedBelow(config, d, h);
    if n == 0 {
      NoNotices(d, h);
    } else {
      assert RecordedIndices(d, h) == Streaming.UpTo(n - 1);
      NoticeAt(d, h, 0);
      forall k | 0 <= k < n ensures ArchiveNotices(d, h)[k] == d.records[(h, k)] {
        Streaming.AscendingUpTo(n - 1, k);
        NoticeAt(d, h, k);
      }
    }
  }

  lemma RecordedBelow(config: Config, d: Disk, h: nat)
    requires DiskOk(config, d) && d.Archived(h)
    ensures forall i: nat :: i in RecordedIndices(d, h) <==> i < d.metas[h].blobCount
  {
    hide CandidatesOk, InlinesOk, PrunedOk, BlocksOk, MaxOrZero;
    assert d.metas[h].Valid() by { assert ChainOk(config.crypto, d.metas, d.latest); }
    forall i: nat ensures i in RecordedIndices(d, h) <==> i < d.metas[h].blobCount {
      assert i in RecordedIndices(d, h) <==> (h, i) in d.records;
      if (h, i) in d.records {
        assert RecordOk(config, h, i, d.metas[h], d.records[(h, i)]);
      }
    }
  }

  /** In every run, a height with a decided value is answered without its blobs exactly when it is
      pruned or its payload cannot be read, which the decided copy rules out; and a pruned one is
      answered with the records of all its blobs in index order. */
  lemma PrunedIsServedFromRecords(config: Config, run: seq<State>, i: nat, h: nat)
    requires IsRun(config, run) && i < |run| && h in run[i].disk.values
    ensures var d := run[i].disk;
            var reply, payload := Serve(d, h), d.BlockData(h, d.values[h].round);
            && reply.Some? && reply.value.value == d.values[h].value
            && (reply.value.MetadataReply? <==>
                payload.None? || (h in d.metas && d.metas[h].pruned))
            && (reply.value.MetadataReply? ==> reply.value.payloadOpt == payload)
            && (h in d.decidedBlocks ==> payload == Some(d.decidedBlocks[h]))
            && (h in d.metas && d.metas[h].pruned ==>
                  && |reply.value.notices| == d.metas[h].blobCount
                  && forall k :: 0 <= k < d.metas[h].blobCount ==>
                       (h, k) in d.records && reply.value.notices[k] == d.records[(h, k)])
  {
    hide IsRun, DiskOk, MemOk, ArchiveNotices, Listing;
    RunSound(config, run, i);
    var d := run[i].disk;
    if h in d.decidedBlocks {
      CommittedPayload(config, d, h);
    }
    if h in d.metas && d.metas[h].pruned {
      PrunedIsArchived(config, d, h);
      NoticesOfArchived(config, d, h);
    }
  }

  /** In every run, a settled height that is neither pruned nor archived is answered in full: with its
      value, its payload and exactly its blobs in index order. */
  lemma ServedInFull(
    config: Config, run: seq<State>, i: nat, k: nat, h: nat, r: Round, offer: Offer)
    requires IsRun(config, run) && i <= k < |run| && CommittedAs(h, r, offer, run[i].disk)
    requires Settled(run[i].disk, h) && HeightBlobs(run[i].disk.decided, h) == offer.blobs
    requires h in run[k].disk.metas && !run[k].disk.metas[h].pruned
    requires offer.blobs != map[] ==> !run[k].disk.Archived(h)
    ensures Serve(run[k].disk, h)
            == Some(FullReply(offer.value, offer.payload, Listing(offer.blobs),
                              ArchiveNotices(run[k].disk, h)))
  {
    hide IsRun, ArchiveNotices, Listing, Extends, HeightBlobs;
    var a, b := run[i].disk, run[k].disk;
    CommittedPayloadStable(config, run, i, k, h);
    RunExtends(config, run, i, k);
    SettledKeeps(a, b, h);
    forall j: nat | (h, j) in a.decided ensures (h, j) in b.decided {
      if offer.blobs == map[] { HasNone(a.decided, h, j); }
      SettledBlobsStay(config, run, i, k, h, j);
    }
    SameHeightBlobs(a.decided, b.decided, h);
  }

  lemma SettledKeeps(a: Disk, b: Disk, h: nat)
    requires Extends(a, b) && Settled(a, h)
    ensures forall i :: (h, i) in b.decided ==>
      (h, i) in a.decided && a.decided[(h, i)] == b.decided[(h, i)]
  {
    hide MetasExtend, BlobsKept, CommittedKept, PrunedGone, PayloadKept, HashesKept;
    SettledStays(a, b, h);
  }

  lemma HasNone(d: Decided, h: nat, j: nat)
    requires HeightBlobs(d, h) == map[]
    ensures (h, j) !in d
  {
    assert j in HeightBlobs(d, h) <==> (h, j) in d;
  }

  lemma SameHeightBlobs(a: Decided, b: Decided, h: nat)
    requires forall i: nat :: (h, i) in a <==> (h, i) in b
    requires forall i: nat :: (h, i) in b ==> a[(h, i)] == b[(h, i)]
    ensures HeightBlobs(a, h) == HeightBlobs(b, h)
  {
    forall i: nat ensures i in HeightBlobs(a, h) <==> i in HeightBlobs(b, h) {
      assert i in HeightBlobs(a, h) <==> (h, i) in a;
      assert i in HeightBlobs(b, h) <==> (h, i) in b;
    }
  }

  // ----- Taking over a pruned height -----

  /** The notices are those of blobs 0..n-1 in order. */
  ghost predicate InOrder(notices: seq<Notice>, h: nat) {
    forall k :: 0 <= k < |notices| ==> notices[k].body.height == h && notices[k].body.index == k
  }

  /** Each of the notices sets the hash of its own index, and nothing else is set. */
  lemma {:induction false} KeccaksFrom(hashes: seq<Hash>, notices: seq<Notice>, from: nat)
    requires from + |notices| <= |hashes|
    requires forall k :: 0 <= k < |notices| ==> notices[k].body.index == from + k
    ensures var r := NoticeKeccaks(hashes, notices);
            && (forall i :: 0 <= i < from ==> r[i] == hashes[i])
            && (forall k :: 0 <= k < |notices| ==> r[from + k] == notices[k].body.keccak)
    decreases |notices|
  {
    if notices != [] {
      var first, rest := notices[0].body, notices[1..];
      forall k | 0 <= k < |rest| ensures rest[k].body.index == from + 1 + k {
        assert rest[k] == notices[k + 1];
      }
      assert first.index == from;
      var learned := hashes[from := first.keccak];
      KeccaksFrom(learned, rest, from + 1);
      var r := NoticeKeccaks(hashes, notices);
      assert r == NoticeKeccaks(learned, rest);
      assert r[from] == learned[from];
      forall k | 0 <= k < |notices| ensures r[from + k] == notices[k].body.keccak {
        if k > 0 {
          assert notices[k] == rest[k - 1];
          assert r[from + 1 + (k - 1)] == rest[k - 1].body.keccak;
        }
      }
    }
  }

  /** A package as a peer makes it from a fully archived height of its own. */
  ghost predicate FromPeer(config: Config, peer: Disk, h: nat, proposer: Address, package: Package) {
    && DiskOk(config, peer) && peer.Archived(h)
    && package.MetadataOnly? && package.payloadOpt.Some?
    && package.value.commitments == peer.metas[h].commitments
    && package.notices == ArchiveNotices(peer, h)
    && config.IndexOf(proposer).Some?
    && forall k :: 0 <= k < |package.notices| ==> package.notices[k].body.archivedBy == proposer
  }

  /** What is known of the notices of such a package. */
  lemma PeerNotices(config: Config, peer: Disk, h: nat, proposer: Address, package: Package)
    requires FromPeer(config, peer, h, proposer, package)
    ensures InOrder(package.notices, h)
    ensures |package.notices| == |package.value.commitments| == peer.metas[h].blobCount
    ensures forall k :: 0 <= k < |package.notices| ==>
      config.KnowsSigner(package.notices[k])
      && package.notices[k].body.commitment == package.value.commitments[k]
  {
    hide Config.KnowsSigner, ArchiveNotices, Config.IndexOf, DiskOk;
    NoticesOfArchived(config, peer, h);
    PeerRecords(config, peer, h);
  }

  lemma PeerRecords(config: Config, d: Disk, h: nat)
    requires DiskOk(config, d) && h in d.metas
    ensures |d.metas[h].commitments| == d.metas[h].blobCount
    ensures forall k :: (h, k) in d.records ==> RecordOk(config, h, k, d.metas[h], d.records[(h, k)])
  {
    hide CandidatesOk, InlinesOk, PrunedOk, BlocksOk, MaxOrZero, RecordOk;
    assert d.metas[h].Valid() by { assert ChainOk(config.crypto, d.metas, d.latest); }
  }

  /** The adopted entry welcomes every notice of the package. */
  lemma AdoptedWelcomes(
    config: Config, d: Disk, h: nat, proposer: Address, package: Package, m: Metadata, k: nat)
    requires package.MetadataOnly? && InOrder(package.notices, h) && k < |package.notices|
    requires |package.notices| == |package.value.commitments|
    requires config.KnowsSigner(package.notices[k])
    requires package.notices[k].body.commitment == package.value.commitments[k]
    requires package.notices[k].body.archivedBy == proposer && config.IndexOf(proposer).Some?
    requires h in d.metas && d.metas[h] == m
    requires m.commitments == package.value.commitments && m.blobCount == |m.commitments|
    requires |m.records| == |m.commitments| && m.proposerHint == config.IndexOf(proposer)
    requires m.keccaks
             == NoticeKeccaks(seq(|m.commitments|, _ => ZERO_HASH), package.notices)
    ensures Welcome(config, d, package.notices[k])
  {
    hide Config.KnowsSigner, NoticeKeccaks;
    KeccaksFrom(seq(|m.commitments|, _ => ZERO_HASH), package.notices, 0);
  }

  lemma AdoptedEntry(config: Config, x: Exec, h: nat, r: Round, m: Metadata)
    requires (h, r) !in x.disk.undecidedMetas
    ensures var y := AdoptMeta(config, x, h, r, m); h in y.disk.metas && y.disk.metas[h] == m
  {
  }

  /** A height taken over from a peer that has archived it is fully archived here too: pruned at once
      if it is final, and otherwise waiting to be. */
  lemma PrunedPackagePrunes(
    config: Config, base: Disk, x: Exec, peer: Disk, h: nat, r: Round, proposer: Address,
    package: Package)
    requires FromPeer(config, peer, h, proposer, package) && peer.metas[h].blobCount > 0
    requires Safe(config, base, x) && MemOk(config, x)
    requires h !in x.disk.metas && (h, r) !in x.disk.undecidedMetas
    requires Sync(config, x, h, r, proposer, package).1
    ensures var y := Sync(config, x, h, r, proposer, package).0;
            && y.disk.Archived(h)
            && (y.disk.metas[h].pruned <==> h <= y.mem.Finality())
            && (h in y.mem.pendingPrune <==> h > y.mem.Finality())
            && (y.disk.metas[h].pruned ==> Gone(y.disk, h))
  {
    hide Safe, FinalityBound, PruningExact, CacheOk, HandleNotices, AdoptMeta, DiskOk,
         Disk.ParentRoot, ArchiveNotices, NoticeKeccaks, Config.KnowsSigner, Config.IndexOf,
         Metadata.HeaderRoot, Welcome;
    PeerNotices(config, peer, h, proposer, package);
    var x1 := Do(x, PutBlock(h, r, package.payloadOpt.value));
    var m := SyncedMeta(config, x1.disk, h, proposer, package).value;
    var x2 := AdoptMeta(config, x1, h, r, m);
    AdoptedEntry(config, x1, h, r, m);
    AdoptedSafe(config, base, x, h, r, package.payloadOpt.value, m);
    BlockStays(config, base, x2, package.notices, h);
    var y := Sync(config, x, h, r, proposer, package).0;
    forall k: nat | k < m.blobCount ensures (h, k) in y.disk.records {
      AdoptedWelcomes(config, x2.disk, h, proposer, package, m, k);
      assert package.notices[k] in package.notices;
      assert Covered(config, x2.disk, h, k, package.notices);
      CoveredIsRecorded(config, base, x2, package.notices, h, k);
    }
    NoticesTakeBytes(config, x2, package.notices, h);
    SyncedFrame(config, x, x1.disk, h, proposer, package);
    SyncExact(config, base, x, h, r, proposer, package);
    PruningExactly(y.disk.metas, y.disk.records, y.mem.Finality(), y.mem.pendingPrune, h);
    ArchivedIsRecorded(y.disk, h, y.disk.metas[h]);
  }

  lemma AdoptedSafe(
    config: Config, base: Disk, x: Exec, h: nat, r: Round, payload: Payload, m: Metadata)
    requires Safe(config, base, x) && FinalityBound(x) && h !in x.disk.metas
    requires m.height == h && m.Valid() && m.Fresh()
    requires Do(x, PutBlock(h, r, payload)).disk.ParentRoot(config.crypto, h) == Some(m.parentRoot)
    ensures var y := AdoptMeta(config, Do(x, PutBlock(h, r, payload)), h, r, m);
            Safe(config, base, y) && FinalityBound(y)
  {
    hide DiskOk, Extends, FinalityBound, AdoptMeta, Disk.ParentRoot;
    DoSafe(config, base, x, PutBlock(h, r, payload));
    var x1 := Do(x, PutBlock(h, r, payload));
    AdoptMetaSafe(config, base, x1, h, r, m);
    AdoptMetaFrame(config, x1, h, r, m);
    FinalityFrame(x, AdoptMeta(config, x1, h, r, m));
  }

  /** The entry built for a package depends on the decided metadata only. */
  lemma SyncedFrame(
    config: Config, x: Exec, d: Disk, h: nat, proposer: Address, package: Package)
    requires d.metas == x.disk.metas && d.records == x.disk.records
    ensures SyncedMeta(config, d, h, proposer, package)
            == SyncedMeta(config, x.disk, h, proposer, package)
  {
    assert d.ParentRoot(config.crypto, h) == x.disk.ParentRoot(config.crypto, h);
  }
}
