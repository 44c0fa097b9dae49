/** When a synchronisation package is accepted, and what that gives. */
module SyncSoundness {

  import opened Types
  import opened Ordering
  import opened BlobMetadata
  import opened BlobFamilies
  import opened DiskState
  import opened DiskInvariant
  import opened Node
  import opened NodeBlobs
  import opened NodeDecide
  import opened NodeSteps

  /** The conditions a full package must meet, on the disk it arrives at. */
  ghost predicate FullPackageOk(config: Config, d: Disk, h: nat, proposer: Address, package: Package)
    requires package.Full?
  {
    var Full(value, payload, sidecars, notices) := package;
    && |value.commitments| == |sidecars|
    && d.ParentRoot(config.crypto, h).Some?
    && (sidecars != [] ==>
          && config.crypto.kzgValid(sidecars) && DistinctIndices(sidecars)
          && MatchesValue(value, sidecars)
          && SidecarsVerified(config, d, h, proposer, value, sidecars))
  }

  /** Verification reads only the parent's entry. */
  lemma VerifiedFrame(
    config: Config, d: Disk, d': Disk, h: nat, proposer: Address, value: Value, sidecars: Sidecars)
    requires d'.metas == d.metas && d'.records == d.records
    ensures SidecarsVerified(config, d', h, proposer, value, sidecars)
            <==> SidecarsVerified(config, d, h, proposer, value, sidecars)
    ensures d'.ParentRoot(config.crypto, h) == d.ParentRoot(config.crypto, h)
  {
  }

  /** What is known once the sidecars are stored. */
  lemma StoredFacts(
    config: Config, x: Exec, h: nat, r: Round, proposer: Address, package: Package)
    requires package.Full?
    ensures var x2 := StoreSidecars(Do(x, PutBlock(h, r, package.payload)), h, r, package.sidecars);
            var x3 := if package.sidecars != [] then PromoteBlobs(x2, h, r) else x2;
            && x2.disk.decided == x.disk.decided
            && (SidecarsVerified(config, x2.disk, h, proposer, package.value, package.sidecars)
                <==> SidecarsVerified(config, x.disk, h, proposer, package.value, package.sidecars))
            && x3.disk.ParentRoot(config.crypto, h) == x.disk.ParentRoot(config.crypto, h)
            && (SyncedMeta(config, x3.disk, h, proposer, package).Some?
                <==> x.disk.ParentRoot(config.crypto, h).Some?
                     && |package.value.commitments| == |package.sidecars|)
  {
    hide StoreSidecars, PromoteBlobs, SidecarsVerified, Disk.ParentRoot;
    var x1 := Do(x, PutBlock(h, r, package.payload));
    StoreSidecarsEffect(x1, h, r, package.sidecars);
    var x2 := StoreSidecars(x1, h, r, package.sidecars);
    PromoteBlobsFrame(x2, h, r);
    VerifiedFrame(config, x.disk, x2.disk, h, proposer, package.value, package.sidecars);
    var x3 := if package.sidecars != [] then PromoteBlobs(x2, h, r) else x2;
    VerifiedFrame(config, x.disk, x3.disk, h, proposer, package.value, package.sidecars);
  }

  lemma VerifiedParent(
    config: Config, d: Disk, h: nat, proposer: Address, value: Value, sidecars: Sidecars)
    requires SidecarsVerified(config, d, h, proposer, value, sidecars)
    ensures sidecars != [] && |value.commitments| == |sidecars|
    ensures d.ParentRoot(config.crypto, h) == Some(sidecars[0].header.parentRoot)
  {
  }

  /** A full package is accepted if and only if it meets the conditions. In particular the later
      comparison of the validated header with the stored parent root can never fail. A rejected
      package leaves the decided blobs as they were, besides metadata, pointer and cache. */
  lemma FullPackageAccepted(
    config: Config, x: Exec, h: nat, r: Round, proposer: Address, package: Package)
    requires package.Full?
    ensures var (y, ok) := Sync(config, x, h, r, proposer, package);
            && (ok <==> FullPackageOk(config, x.disk, h, proposer, package))
            && (!ok ==> y.disk.decided == x.disk.decided && Quiet(x, y))
  {
    hide StoreSidecars, PromoteBlobs, DropBlobs, HandleNotices, SidecarsVerified, MatchesValue,
         DistinctIndices, SyncedMeta, AdoptMeta, Disk.ParentRoot, Quiet;
    StoredFacts(config, x, h, r, proposer, package);
    var x2 := StoreSidecars(Do(x, PutBlock(h, r, package.payload)), h, r, package.sidecars);
    DropBlobsEffect(x2, h, r);
    if SidecarsVerified(config, x.disk, h, proposer, package.value, package.sidecars) {
      VerifiedParent(config, x.disk, h, proposer, package.value, package.sidecars);
    }
    if !Sync(config, x, h, r, proposer, package).1 {
      SyncRejectedQuiet(config, x, h, r, proposer, package);
    }
  }

  function IndexSet(sidecars: seq<Sidecar>): set<nat> {
    set s | s in sidecars :: s.index
  }

  lemma {:induction false} DistinctCount(sidecars: seq<Sidecar>)
    requires DistinctIndices(sidecars)
    ensures |IndexSet(sidecars)| == |sidecars|
  {
    if sidecars != [] {
      var n := |sidecars| - 1;
      var front := sidecars[..n];
      assert DistinctIndices(front);
      DistinctCount(front);
      assert IndexSet(sidecars) == IndexSet(front) + {sidecars[n].index};
      assert sidecars[n].index !in IndexSet(front) by {
        forall s | s in front ensures s.index != sidecars[n].index {
          var j :| 0 <= j < n && sidecars[j] == s;
        }
      }
    }
  }

  lemma {:induction false} FullRange(s: set<nat>, n: nat)
    requires |s| == n && forall i :: i in s ==> i < n
    ensures forall i: nat :: i < n ==> i in s
  {
    if n > 0 {
      if n - 1 !in s {
        SubsetCard(s, n - 1);
      }
      FullRange(s - {n - 1}, n - 1);
    }
  }

  lemma {:induction false} SubsetCard(s: set<nat>, n: nat)
    requires forall i :: i in s ==> i < n
    ensures |s| <= n
  {
    if n > 0 {
      SubsetCard(s - {n - 1}, n - 1);
      assert |s - {n - 1}| >= |s| - 1;
    } else {
      assert s == {} by { forall i | i in s ensures false { } }
    }
  }

  /** The sidecars of an accepted package carry exactly the indices 0..n-1, and each carries the
      value's commitment of its index. */
  lemma AcceptedSidecars(
    config: Config, x: Exec, h: nat, r: Round, proposer: Address, package: Package)
    requires package.Full? && Sync(config, x, h, r, proposer, package).1
    ensures var sidecars, value := package.sidecars, package.value;
            && |value.commitments| == |sidecars|
            && (forall i: nat :: i in IndexSet(sidecars) <==> i < |sidecars|)
            && MatchesValue(value, sidecars)
  {
    hide Sync, SidecarsVerified, Disk.ParentRoot;
    FullPackageAccepted(config, x, h, r, proposer, package);
    var sidecars := package.sidecars;
    if sidecars != [] {
      DistinctRange(package.value, sidecars);
    }
  }

  lemma DistinctRange(value: Value, sidecars: seq<Sidecar>)
    requires DistinctIndices(sidecars) && MatchesValue(value, sidecars)
    requires |value.commitments| == |sidecars|
    ensures (forall i: nat :: i in IndexSet(sidecars) <==> i < |sidecars|)
  {
    DistinctCount(sidecars);
    FullRange(IndexSet(sidecars), |sidecars|);
  }
}

/** Deciding a height: blobs are validated before they are promoted, and a retry is safe. */
module DecisionClaims {

  import opened Types
  import opened Ordering
  import opened BlobMetadata
  import opened BlobFamilies
  import opened DiskState
  import opened DiskInvariant
  import opened Node
  import opened NodeBlobs
  import opened NodeDecide
  import opened NodeSteps
  import opened RoundMoves

  lemma ListingSize(m: map<nat, Sidecar>)
    ensures |Listing(m)| == |m.Keys|
    ensures Listing(m) == [] <==> m.Keys == {}
  {
  }

  /** A promoted round is what the decided family then holds, if it held no other index before. */
  lemma PromotedListing(u: Undecided, d: Decided, h: nat, r: Round)
    requires HeightIndices(d, h) <= RoundIndices(u, h, r)
    ensures HeightBlobs(PromoteRound(u, d, h, r), h) == RoundBlobs(u, h, r)
    ensures RoundIndices(DropRound(u, h, r), h, r) == {}
  {
    hide PromoteRound;
    PromoteRoundAt(u, d, h, r);
    var p := PromoteRound(u, d, h, r);
    assert forall i: nat :: i in HeightIndices(p, h) <==> (h, i) in p;
    assert forall i: nat :: (h, i) in d <==> i in HeightIndices(d, h);
    assert forall i: nat :: (h, r, i) in u <==> i in RoundIndices(u, h, r);
    assert HeightIndices(p, h) == RoundIndices(u, h, r);
  }

  lemma PromotedCandidates(u: Undecided, d: Decided, h: nat, r: Round)
    requires RoundIndices(u, h, r) != {} && HeightIndices(d, h) <= RoundIndices(u, h, r)
    ensures var v, p := DropRound(u, h, r), PromoteRound(u, d, h, r);
            && RoundIndices(v, h, r) == {} && HeightIndices(p, h) == RoundIndices(u, h, r)
            && Listing(RoundBlobs(v, h, r)) == [] && Listing(RoundBlobs(u, h, r)) != []
            && Listing(HeightBlobs(p, h)) == Listing(RoundBlobs(u, h, r))
  {
    hide Listing, PromoteRound, DropRound, Ascending;
    PromotedListing(u, d, h, r);
    var v, p := DropRound(u, h, r), PromoteRound(u, d, h, r);
    ListingSize(RoundBlobs(u, h, r));
    ListingSize(RoundBlobs(v, h, r));
    assert RoundBlobs(v, h, r).Keys == RoundIndices(v, h, r);
    assert RoundBlobs(u, h, r).Keys == RoundIndices(u, h, r);
    assert HeightBlobs(p, h).Keys == HeightIndices(p, h);
  }

  /** The blobs offered for a decision before promotion are the ones offered after it. */
  lemma PromotionKeepsCandidates(x: Exec, h: nat, r: Round)
    requires RoundIndices(x.disk.undecided, h, r) != {}
    requires HeightIndices(x.disk.decided, h) <= RoundIndices(x.disk.undecided, h, r)
    ensures var y := PromoteBlobs(x, h, r);
            && OnlyBlobs(x, y)
            && RoundIndices(y.disk.undecided, h, r) == {}
            && Listing(HeightBlobs(y.disk.decided, h)) == CandidateBlobs(x.disk, h, r)
            && CandidateBlobs(y.disk, h, r) == CandidateBlobs(x.disk, h, r)
            && HeightIndices(y.disk.decided, h) == RoundIndices(x.disk.undecided, h, r)
  {
    hide PromoteBlobs, Ascending, Listing, RoundBlobs, HeightBlobs, RoundIndices, HeightIndices,
         PromoteRound, DropRound, MoveRounds, InKeyOrder;
    var u, d := x.disk.undecided, x.disk.decided;
    PromoteBlobsEffect(x, h, r);
    MoveOneRound(u, d, h, r);
    PromotedCandidates(u, d, h, r);
  }

  lemma MoveOneRound(u: Undecided, d: Decided, h: nat, r: Round)
    ensures MoveRounds(u, d, h, [r]) == (DropRound(u, h, r), PromoteRound(u, d, h, r))
  {
    hide DropRound, PromoteRound;
    var u', d' := DropRound(u, h, r), PromoteRound(u, d, h, r);
    assert MoveRounds(u', d', h, []) == (u', d');
    assert [r][1..] == [];
  }

  /** The part of a decision in front of the blob checks. */
  ghost predicate HasPayload(x: Exec, h: nat, r: Round) {
    x.disk.BlockData(h, r).Some? && x.disk.BlockData(h, r).value.ssz != []
  }

  function Hashes(config: Config, d: Disk, h: nat, r: Round): seq<Hash>
    requires d.BlockData(h, r).Some?
  {
    ExpectedHashes(config.crypto, d, h, r, d.BlockData(h, r).value)
  }

  /** The decided family holds no index that the round does not overwrite. */
  ghost predicate Covers(d: Disk, h: nat, r: Round) {
    HeightIndices(d.decided, h) <= RoundIndices(d.undecided, h, r)
  }

  /** Promoting a whole round over leftovers keeps the leftovers, and the listing is too long. */
  lemma LeftoversStay(x: Exec, h: nat, r: Round)
    requires RoundIndices(x.disk.undecided, h, r) != {} && !Covers(x.disk, h, r)
    ensures var y := PromoteBlobs(x, h, r);
            && OnlyBlobs(x, y)
            && RoundIndices(y.disk.undecided, h, r) == {}
            && |CandidateBlobs(y.disk, h, r)| > |CandidateBlobs(x.disk, h, r)|
            && CandidateBlobs(y.disk, h, r) == Listing(HeightBlobs(y.disk.decided, h))
  {
    hide PromoteBlobs, Listing, RoundBlobs, HeightBlobs, RoundIndices, HeightIndices,
         PromoteRound, DropRound, MoveRounds, InKeyOrder;
    var u, d := x.disk.undecided, x.disk.decided;
    PromoteBlobsEffect(x, h, r);
    MoveOneRound(u, d, h, r);
    LongerListing(u, d, h, r);
  }

  lemma LongerListing(u: Undecided, d: Decided, h: nat, r: Round)
    requires RoundIndices(u, h, r) != {} && !(HeightIndices(d, h) <= RoundIndices(u, h, r))
    ensures var v, p := DropRound(u, h, r), PromoteRound(u, d, h, r);
            && RoundIndices(v, h, r) == {} && Listing(RoundBlobs(v, h, r)) == []
            && Listing(RoundBlobs(u, h, r)) != []
            && |Listing(HeightBlobs(p, h))| > |Listing(RoundBlobs(u, h, r))|
  {
    hide Listing, PromoteRound, DropRound, Ascending;
    var v, p := DropRound(u, h, r), PromoteRound(u, d, h, r);
    MoreIndices(u, d, h, r);
    EmptyAfterDrop(u, h, r);
    ListingSize(RoundBlobs(u, h, r));
    ListingSize(RoundBlobs(v, h, r));
    ListingSize(HeightBlobs(p, h));
    assert RoundBlobs(v, h, r).Keys == RoundIndices(v, h, r);
    assert RoundBlobs(u, h, r).Keys == RoundIndices(u, h, r);
    assert HeightBlobs(p, h).Keys == HeightIndices(p, h);
  }

  lemma EmptyAfterDrop(u: Undecided, h: nat, r: Round)
    ensures RoundIndices(DropRound(u, h, r), h, r) == {}
  {
  }

  lemma MoreIndices(u: Undecided, d: Decided, h: nat, r: Round)
    requires !(HeightIndices(d, h) <= RoundIndices(u, h, r))
    ensures |HeightIndices(PromoteRound(u, d, h, r), h)| > |RoundIndices(u, h, r)|
  {
    hide PromoteRound;
    var p := PromoteRound(u, d, h, r);
    PromoteRoundAt(u, d, h, r);
    var i :| i in HeightIndices(d, h) && i !in RoundIndices(u, h, r);
    forall j | j in RoundIndices(u, h, r) + {i} ensures j in HeightIndices(p, h) {
      assert j in RoundIndices(u, h, r) ==> (h, r, j) in u;
      assert (h, j) in p;
    }
    Smaller(RoundIndices(u, h, r) + {i}, HeightIndices(p, h));
  }

  lemma {:induction false} Smaller(a: set<nat>, b: set<nat>)
    requires a <= b
    ensures |a| <= |b|
  {
    if a != {} {
      var i :| i in a;
      Smaller(a - {i}, b - {i});
    }
  }

  /** Once the blobs back the block, a promotion that the execution layer then refuses leaves
      `get_for_import` with the block's blobs, in order, if and only if the decided family held no
      other index of the height; and exactly then a retry passes the same validation. */
  lemma PromotionBacksBlock(config: Config, x: Exec, h: nat, r: Round)
    requires HasPayload(x, h, r) && Hashes(config, x.disk, h, r) != []
    requires BlobsBack(config.crypto, x.disk, h, r, Hashes(config, x.disk, h, r))
    ensures var hashes := Hashes(config, x.disk, h, r);
            var clean := RoundIndices(x.disk.undecided, h, r) == {} || Covers(x.disk, h, r);
            var y := Decide(config, x, h, r, Refused).0;
            && y.disk.BlockData(h, r) == x.disk.BlockData(h, r)
            && Hashes(config, y.disk, h, r) == hashes
            && (SidecarHashes(config.crypto, Listing(HeightBlobs(y.disk.decided, h))) == hashes
                <==> clean)
            && (BlobsBack(config.crypto, y.disk, h, r, hashes) <==> clean)
            && Decide(config, y, h, r, Refused) == (y, false)
  {
    hide PromoteBlobs, Ascending, Listing, HeightIndices, RoundIndices, ExpectedHashes, SidecarHashes,
         RoundBlobs, HeightBlobs;
    var hashes := Hashes(config, x.disk, h, r);
    CandidatesNeeded(config, x.disk, h, r, hashes);
    var y := Decide(config, x, h, r, Refused).0;
    if RoundIndices(x.disk.undecided, h, r) == {} {
      NoRoundListing(x.disk, h, r);
    } else {
      assert y == PromoteBlobs(x, h, r);
      if Covers(x.disk, h, r) {
        PromotionKeepsCandidates(x, h, r);
      } else {
        LeftoversStay(x, h, r);
        assert |SidecarHashes(config.crypto, CandidateBlobs(y.disk, h, r))| > |hashes|;
      }
    }
    HashesFrame(config, x.disk, y.disk, h, r);
  }

  lemma NoRoundListing(d: Disk, h: nat, r: Round)
    requires RoundIndices(d.undecided, h, r) == {}
    ensures CandidateBlobs(d, h, r) == Listing(HeightBlobs(d.decided, h))
  {
    hide Listing;
    ListingSize(RoundBlobs(d.undecided, h, r));
    assert RoundBlobs(d.undecided, h, r).Keys == RoundIndices(d.undecided, h, r);
  }

  lemma HashesFrame(config: Config, d: Disk, d': Disk, h: nat, r: Round)
    requires d.BlockData(h, r).Some? && d'.blocks == d.blocks
    requires d'.decidedBlocks == d.decidedBlocks && d'.proposals == d.proposals
    ensures d'.BlockData(h, r) == d.BlockData(h, r)
    ensures Hashes(config, d', h, r) == Hashes(config, d, h, r)
  {
  }

  lemma CandidatesNeeded(config: Config, d: Disk, h: nat, r: Round, hashes: seq<Hash>)
    requires hashes != [] && BlobsBack(config.crypto, d, h, r, hashes)
    ensures RoundIndices(d.undecided, h, r) != {} || HeightIndices(d.decided, h) != {}
  {
    hide Ascending;
    var round, height := RoundBlobs(d.undecided, h, r), HeightBlobs(d.decided, h);
    ListingSize(round);
    ListingSize(height);
    assert round.Keys == RoundIndices(d.undecided, h, r);
    assert height.Keys == HeightIndices(d.decided, h);
  }

  // ----- A crash inside the promotion -----

  function Elements(a: seq<nat>): set<nat> {
    set i | i in a
  }

  lemma {:induction false} IncreasingCount(a: seq<nat>)
    requires StrictlyIncreasing(a)
    ensures |Elements(a)| == |a|
  {
    if a != [] {
      IncreasingCount(a[1..]);
      assert a[0] !in a[1..];
      assert Elements(a) == {a[0]} + Elements(a[1..]);
    }
  }

  /** The first k entries of a round name its first k indices. */
  lemma NamedPrefix(u: Undecided, h: nat, r: Round, k: nat, i: nat)
    requires k <= |RoundEntries(u, h, r)|
    ensures Named(RoundEntries(u, h, r)[..k], r, i)
            <==> i in Ascending(RoundIndices(u, h, r))[..k]
  {
    hide Ascending;
    var a, entries := Ascending(RoundIndices(u, h, r)), RoundEntries(u, h, r);
    if i in a[..k] {
      var j :| 0 <= j < k && a[j] == i;
      assert entries[..k][j].0 == r && entries[..k][j].1 == i;
    }
    if Named(entries[..k], r, i) {
      var e :| e in entries[..k] && e.0 == r && e.1 == i;
      var j :| 0 <= j < k && entries[j] == e;
      assert a[j] == i;
    }
  }

  lemma RemainingIndices(u: Undecided, v: Undecided, h: nat, r: Round, k: nat)
    requires k <= |RoundEntries(u, h, r)|
    requires forall i: nat :: (h, r, i) in v <==>
      (h, r, i) in u && !Named(RoundEntries(u, h, r)[..k], r, i)
    ensures |RoundIndices(v, h, r)| == |RoundEntries(u, h, r)| - k
  {
    hide Ascending, Named;
    var a := Ascending(RoundIndices(u, h, r));
    forall i: nat ensures i in RoundIndices(v, h, r) <==> i in Elements(a[k..]) {
      NamedPrefix(u, h, r, k, i);
      assert i in RoundIndices(u, h, r) <==> (h, r, i) in u;
      assert i in RoundIndices(v, h, r) <==> (h, r, i) in v;
      assert a == a[..k] + a[k..];
    }
    assert RoundIndices(v, h, r) == Elements(a[k..]);
    IncreasingCount(a[k..]);
  }

  /** What is left of a round after its first k blobs were moved. */
  lemma PartlyMoved(x: Exec, h: nat, r: Round, k: nat)
    requires k <= |RoundEntries(x.disk.undecided, h, r)|
    ensures var entries := RoundEntries(x.disk.undecided, h, r);
            var y := MoveEntries(x, h, entries[..k]);
            OnlyBlobs(x, y) && |RoundIndices(y.disk.undecided, h, r)| == |entries| - k
  {
    hide RoundEntries, MoveEntries, RoundIndices;
    var u := x.disk.undecided;
    var entries := RoundEntries(u, h, r);
    MoveEntriesEffect(x, h, entries[..k]);
    RemainingIndices(u, MoveEntries(x, h, entries[..k]).disk.undecided, h, r, k);
  }

  /** The disks between the writes of a move: after the put of entry k, and after its delete. */
  lemma {:induction false} MovePoints(
    x: Exec, h: nat, entries: seq<(Round, nat, Sidecar)>, k: nat)
    requires k < |entries|
    ensures var y, n := MoveEntries(x, h, entries), |x.points|;
            && |y.points| == n + 2 * |entries|
            && y.points[n + 2 * k]
               == Apply(MoveEntries(x, h, entries[..k]).disk,
                        PutDecidedBlob(h, entries[k].1, entries[k].2))
            && y.points[n + 2 * k + 1] == MoveEntries(x, h, entries[..k + 1]).disk
    decreases |entries|
  {
    hide Do, Apply;
    var e, rest := entries[0], entries[1..];
    var x1 := MoveOne(x, h, e);
    assert MoveEntries(x, h, entries) == MoveEntries(x1, h, rest);
    OnePoints(x, h, e);
    MovePrefix(x1, h, rest);
    assert MoveEntries(x, h, entries[..0]) == x by { assert entries[..0] == []; }
    assert MoveEntries(x, h, entries[..1]) == x1 by {
      assert entries[..1] == [e] && entries[..1][1..] == [];
      MoveNothing(x1, h);
    }
    if k > 0 {
      MovePoints(x1, h, rest, k - 1);
      MoveTail(x, h, entries, k);
      MoveTail(x, h, entries, k + 1);
    }
  }

  lemma MoveTail(x: Exec, h: nat, entries: seq<(Round, nat, Sidecar)>, k: nat)
    requires 0 < k <= |entries|
    ensures MoveEntries(x, h, entries[..k])
            == MoveEntries(MoveOne(x, h, entries[0]), h, entries[1..][..k - 1])
  {
    hide Do;
    assert entries[..k][0] == entries[0] && entries[..k][1..] == entries[1..][..k - 1];
  }

  lemma OnePoints(x: Exec, h: nat, e: (Round, nat, Sidecar))
    ensures var y := MoveOne(x, h, e);
            y.points == x.points + [Apply(x.disk, PutDecidedBlob(h, e.1, e.2)), y.disk]
  {
    hide Apply;
  }

  lemma {:induction false} MovePrefix(x: Exec, h: nat, entries: seq<(Round, nat, Sidecar)>)
    ensures var y := MoveEntries(x, h, entries);
            |y.points| == |x.points| + 2 * |entries| && x.points <= y.points
    decreases |entries|
  {
    hide Do, Apply;
    if entries != [] {
      OnePoints(x, h, entries[0]);
      assert MoveEntries(x, h, entries) == MoveEntries(MoveOne(x, h, entries[0]), h, entries[1..]);
      MovePrefix(MoveOne(x, h, entries[0]), h, entries[1..]);
    }
  }

  /** After k whole moves, fewer than all, validation passes only if nothing was moved. */
  lemma PartlyMovedBacks(config: Config, x: Exec, d: Disk, h: nat, r: Round, k: nat)
    requires HasPayload(x, h, r) && Hashes(config, x.disk, h, r) != []
    requires RoundIndices(x.disk.undecided, h, r) != {}
    requires BlobsBack(config.crypto, x.disk, h, r, Hashes(config, x.disk, h, r))
    requires k < |RoundEntries(x.disk.undecided, h, r)|
    requires d.undecided
             == MoveEntries(x, h, RoundEntries(x.disk.undecided, h, r)[..k]).disk.undecided
    ensures BlobsBack(config.crypto, d, h, r, Hashes(config, x.disk, h, r)) <==> k == 0
  {
    hide Ascending, ExpectedHashes, HeightIndices, MoveEntries, RoundEntries, Listing, RoundIndices,
         RoundBlobs, HeightBlobs;
    var entries := RoundEntries(x.disk.undecided, h, r);
    PartlyMoved(x, h, r, k);
    PartlyMoved(x, h, r, 0);
    assert entries[..0] == [];
    MoveNothing(x, h);
    CandidateCount(x.disk, h, r);
    CandidateCount(d, h, r);
    if k == 0 {
      SameRound(x.disk, d, h, r);
    }
  }

  lemma SameRound(a: Disk, b: Disk, h: nat, r: Round)
    requires a.undecided == b.undecided && RoundIndices(a.undecided, h, r) != {}
    ensures CandidateBlobs(a, h, r) == CandidateBlobs(b, h, r)
  {
    hide Listing;
    ListingSize(RoundBlobs(a.undecided, h, r));
    assert RoundBlobs(a.undecided, h, r).Keys == RoundIndices(a.undecided, h, r);
  }

  /** A crash inside `mark_decided` can leave a height that no retry will decide. Of the 2n points of
      the promotion of n blobs, validation passes again at the first, where one blob is copied and
      none deleted, and at the last, if the decided family held no other index; and at no other. */
  lemma PartialPromotionBlocksRetry(config: Config, x: Exec, h: nat, r: Round, j: nat)
    requires HasPayload(x, h, r) && Hashes(config, x.disk, h, r) != [] && x.points == []
    requires RoundIndices(x.disk.undecided, h, r) != {}
    requires BlobsBack(config.crypto, x.disk, h, r, Hashes(config, x.disk, h, r))
    requires j < |PromoteBlobs(x, h, r).points|
    ensures var points, n := PromoteBlobs(x, h, r).points, |RoundIndices(x.disk.undecided, h, r)|;
            && |points| == 2 * n
            && points[j].BlockData(h, r) == x.disk.BlockData(h, r)
            && Hashes(config, points[j], h, r) == Hashes(config, x.disk, h, r)
            && (BlobsBack(config.crypto, points[j], h, r, Hashes(config, points[j], h, r))
                <==> j == 0 || (j == 2 * n - 1 && Covers(x.disk, h, r)))
  {
    hide PromoteBlobs, Ascending, ExpectedHashes, HeightIndices, MoveEntries, RoundEntries, Listing,
         RoundIndices, BlobsBack, Apply, Covers, OnlyBlobs;
    var entries := RoundEntries(x.disk.undecided, h, r);
    var y := PromoteBlobs(x, h, r);
    PromoteIsMove(x, h, r);
    MovePrefix(x, h, entries);
    EntryCount(x.disk.undecided, h, r);
    var k := j / 2;
    MovePoints(x, h, entries, k);
    if j % 2 == 0 {
      var before := MoveEntries(x, h, entries[..k]);
      PutOnly(x, before, h, r, entries[k], entries[..k]);
      HashesFrame(config, x.disk, y.points[j], h, r);
      PartlyMovedBacks(config, x, y.points[j], h, r, k);
    } else {
      MovedOnly(x, h, entries[..k + 1]);
      HashesFrame(config, x.disk, y.points[j], h, r);
      if k + 1 < |entries| {
        PartlyMovedBacks(config, x, y.points[j], h, r, k + 1);
      } else {
        assert entries[..k + 1] == entries;
        FullyMovedBacks(config, x, h, r);
      }
    }
  }

  lemma EntryCount(u: Undecided, h: nat, r: Round)
    ensures |RoundEntries(u, h, r)| == |RoundIndices(u, h, r)|
  {
    hide Ascending;
  }

  lemma MovedOnly(x: Exec, h: nat, entries: seq<(Round, nat, Sidecar)>)
    ensures var d := MoveEntries(x, h, entries).disk;
            d.blocks == x.disk.blocks && d.decidedBlocks == x.disk.decidedBlocks
            && d.proposals == x.disk.proposals
  {
    hide MoveEntries;
    MoveEntriesEffect(x, h, entries);
  }

  lemma PutOnly(
    x: Exec, before: Exec, h: nat, r: Round, e: (Round, nat, Sidecar),
    entries: seq<(Round, nat, Sidecar)>)
    requires before == MoveEntries(x, h, entries)
    ensures var d := Apply(before.disk, PutDecidedBlob(h, e.1, e.2));
            && d.undecided == before.disk.undecided && d.blocks == x.disk.blocks
            && d.decidedBlocks == x.disk.decidedBlocks && d.proposals == x.disk.proposals
  {
    hide MoveEntries;
    MovedOnly(x, h, entries);
  }

  lemma FullyMovedBacks(config: Config, x: Exec, h: nat, r: Round)
    requires HasPayload(x, h, r) && Hashes(config, x.disk, h, r) != []
    requires RoundIndices(x.disk.undecided, h, r) != {}
    requires BlobsBack(config.crypto, x.disk, h, r, Hashes(config, x.disk, h, r))
    ensures BlobsBack(config.crypto, PromoteBlobs(x, h, r).disk, h, r, Hashes(config, x.disk, h, r))
            <==> Covers(x.disk, h, r)
  {
    hide Decide, ExpectedHashes, RoundIndices, Covers, BlobsBack, Listing, HeightBlobs, PromoteBlobs;
    PromotionBacksBlock(config, x, h, r);
    RefusedPromotes(config, x, h, r);
  }

  lemma RefusedPromotes(config: Config, x: Exec, h: nat, r: Round)
    requires HasPayload(x, h, r) && RoundIndices(x.disk.undecided, h, r) != {}
    requires BlobsBack(config.crypto, x.disk, h, r, Hashes(config, x.disk, h, r))
    ensures Decide(config, x, h, r, Refused) == (PromoteBlobs(x, h, r), false)
  {
    hide PromoteBlobs, BlobsBack, ExpectedHashes;
  }

  lemma MoveNothing(x: Exec, h: nat)
    ensures MoveEntries(x, h, []) == x
  {
  }

  lemma PromoteIsMove(x: Exec, h: nat, r: Round)
    requires RoundIndices(x.disk.undecided, h, r) != {}
    ensures PromoteBlobs(x, h, r) == MoveEntries(x, h, RoundEntries(x.disk.undecided, h, r))
  {
    hide RoundEntries, MoveEntries, RoundIndices;
    var u := x.disk.undecided;
    OneRoundEntries(u, h, r);
  }

  lemma OneRoundEntries(u: Undecided, h: nat, r: Round)
    ensures Entries(u, h, [r]) == RoundEntries(u, h, r)
  {
    hide RoundEntries;
    assert [r][1..] == [];
    assert Entries(u, h, []) == [];
    assert Entries(u, h, [r]) == RoundEntries(u, h, r) + [];
  }

  lemma CandidateCount(d: Disk, h: nat, r: Round)
    ensures RoundIndices(d.undecided, h, r) != {} ==>
      |CandidateBlobs(d, h, r)| == |RoundIndices(d.undecided, h, r)|
  {
    hide Ascending, Listing;
    ListingSize(RoundBlobs(d.undecided, h, r));
    assert RoundBlobs(d.undecided, h, r).Keys == RoundIndices(d.undecided, h, r);
  }
}
