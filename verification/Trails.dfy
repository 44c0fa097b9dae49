/** Which writes an operation performs. Every operation is a sequence of writes of its own scope, and
    the points where a crash can fall are the disks in between. */
module Trails {

  import opened Types
  import opened Ordering
  import opened BlobMetadata
  import opened BlobFamilies
  import opened DiskState
  import opened Node
  import opened NodeSafety
  import opened NodeBlobs
  import opened NodeOps
  import opened NodeDecide

  function Replay(d: Disk, ws: seq<Write>): Disk
    decreases |ws|
  {
    if ws == [] then d else Replay(Apply(d, ws[0]), ws[1..])
  }

  function PointsOf(d: Disk, ws: seq<Write>): seq<Disk>
    decreases |ws|
  {
    if ws == [] then [] else [Apply(d, ws[0])] + PointsOf(Apply(d, ws[0]), ws[1..])
  }

  lemma UndecidedAfter(d: Disk, w: Write)
    ensures Apply(d, w).undecided ==
            match w
            case PutBlob(h, r, b) => d.undecided[(h, r, b.index) := b]
            case DeleteBlob(h, r, i) => d.undecided - {(h, r, i)}
            case _ => d.undecided
  {
  }

  /** What an operation may write. */
  datatype Scope =
    | CandidateScope(h: nat, r: Round)
    | ArchiveScope
    | RoundScope(h: nat, r: Round)
    | DecisionScope(h: nat, r: Round)
    | SyncScope(h: nat, r: Round)
    | StartScope

  ghost predicate Trims(d: Disk, w: Write) {
    (w.UpdateMeta? && w.h in d.metas) || w.DeleteDecidedBlob?
  }

  ghost predicate Archives(d: Disk, w: Write) {
    (w.PutRecord? && w.h in d.metas) || Trims(d, w)
  }

  /** A decided blob is written only from a round that holds it under this index. */
  ghost predicate Moves(d: Disk, w: Write) {
    w.PutDecidedBlob?
    && exists r: Round :: (w.h, r, w.i) in d.undecided && d.undecided[(w.h, r, w.i)] == w.sidecar
  }

  ghost predicate Allowed(s: Scope, d: Disk, w: Write) {
    match s
    case CandidateScope(h, r) =>
      (w.PutProposal? || w.PutBlock? || w.PutUndecidedMeta? || w.PutBlob?) && w.h == h && w.r == r
    case ArchiveScope => Archives(d, w)
    case RoundScope(h, r) =>
      && (w.DeleteUndecidedMeta? || w.DeleteProposal? || w.DeleteBlock? || w.DeleteBlob?)
      && w.h == h && 0 <= w.r < r - STALE_ROUND_BLOB_RETENTION
    case DecisionScope(h, r) =>
      || Trims(d, w)
      || ((Moves(d, w) || w.DeleteBlob? || w.PutConsensus?) && w.h == h)
      || (w.PutValue? && w.h == h && (h, r) in d.proposals)
      || (w.PutDecidedBlock? && w.h == h && d.BlockData(h, r) == Some(w.payload))
      || (w.PromoteMeta? && w.h == h && w.r == r)
      || (w.DeleteUndecidedMeta? && w.h == h && w.r != r)
      || (w.PruneBelow? && w.retain <= h)
    case SyncScope(h, r) =>
      || Archives(d, w)
      || ((w.PutBlock? || w.PutBlob? || w.DeleteBlob? || w.PutUndecidedMeta? || w.DeleteUndecidedMeta?
           || w.PromoteMeta? || w.PutProposal?) && w.h == h && w.r == r)
      || (Moves(d, w) && w.h == h)
    case StartScope =>
      || Trims(d, w) || w.SeedGenesis?
      || (w.DeleteUndecidedMeta? && w.h == 0)
  }

  ghost predicate AllAllowed(s: Scope, d: Disk, ws: seq<Write>)
    decreases |ws|
  {
    ws != [] ==> Allowed(s, d, ws[0]) && AllAllowed(s, Apply(d, ws[0]), ws[1..])
  }

  ghost predicate Trail(s: Scope, x: Exec, ws: seq<Write>, y: Exec) {
    && y.disk == Replay(x.disk, ws) && y.points == x.points + PointsOf(x.disk, ws)
    && AllAllowed(s, x.disk, ws)
  }

  /** From `x` to `y` by writes of the scope. */
  ghost predicate Within(s: Scope, x: Exec, y: Exec) {
    exists ws :: Trail(s, x, ws, y)
  }

  lemma {:induction false} ReplayJoin(s: Scope, d: Disk, a: seq<Write>, b: seq<Write>)
    ensures Replay(d, a + b) == Replay(Replay(d, a), b)
    ensures PointsOf(d, a + b) == PointsOf(d, a) + PointsOf(Replay(d, a), b)
    ensures AllAllowed(s, d, a) && AllAllowed(s, Replay(d, a), b) ==> AllAllowed(s, d, a + b)
    decreases |a|
  {
    hide Allowed, Apply;
    if a == [] {
      assert a + b == b;
    } else {
      assert (a + b)[0] == a[0] && (a + b)[1..] == a[1..] + b;
      ReplayJoin(s, Apply(d, a[0]), a[1..], b);
    }
  }

  lemma WithinJoin(s: Scope, x: Exec, y: Exec, z: Exec)
    requires Within(s, x, y) && Within(s, y, z)
    ensures Within(s, x, z)
  {
    hide Replay, PointsOf, AllAllowed;
    var a :| Trail(s, x, a, y);
    var b :| Trail(s, y, b, z);
    ReplayJoin(s, x.disk, a, b);
    assert Trail(s, x, a + b, z);
  }

  lemma WithinOne(s: Scope, x: Exec, w: Write)
    requires Allowed(s, x.disk, w)
    ensures Within(s, x, Do(x, w))
  {
    hide Apply, Allowed;
    assert [w][1..] == [];
    var d := Apply(x.disk, w);
    assert Replay(d, []) == d && PointsOf(d, []) == [] && AllAllowed(s, d, []);
    assert PointsOf(x.disk, [w]) == [d];
    assert Trail(s, x, [w], Do(x, w));
  }

  lemma WithinNothing(s: Scope, x: Exec, y: Exec)
    requires y.disk == x.disk && y.points == x.points
    ensures Within(s, x, y)
  {
    assert Trail(s, x, [], y);
  }

  /** One more write. */
  lemma WithinDo(s: Scope, x: Exec, y: Exec, w: Write)
    requires Within(s, x, y) && Allowed(s, y.disk, w)
    ensures Within(s, x, Do(y, w))
  {
    hide Within, Allowed, Do;
    WithinOne(s, y, w);
    WithinJoin(s, x, y, Do(y, w));
  }

  lemma WithinMemory(s: Scope, x: Exec, y: Exec, z: Exec)
    requires Within(s, x, y) && z.disk == y.disk && z.points == y.points
    ensures Within(s, x, z)
  {
    var ws :| Trail(s, x, ws, y);
    assert Trail(s, x, ws, z);
  }

  // ----- Archiving and pruning -----

  ghost predicate MayPrune(s: Scope) {
    !s.CandidateScope? && !s.RoundScope?
  }

  lemma {:induction false} DeleteBlobsWithin(s: Scope, x: Exec, h: nat, i: nat, n: nat)
    requires MayPrune(s)
    ensures Within(s, x, DeleteBlobs(x, h, i, n))
    decreases n - i
  {
    hide Within, Do;
    if i >= n {
      WithinNothing(s, x, x);
    } else {
      var y := Do(x, DeleteDecidedBlob(h, i));
      WithinOne(s, x, DeleteDecidedBlob(h, i));
      DeleteBlobsWithin(s, y, h, i + 1, n);
      WithinJoin(s, x, y, DeleteBlobs(y, h, i + 1, n));
    }
  }

  lemma PruneHeightWithin(s: Scope, x: Exec, h: nat, m: Metadata)
    requires MayPrune(s) && h in x.disk.metas
    ensures Within(s, x, PruneHeight(x, h, m))
  {
    hide Within, DeleteBlobs;
    WithinNothing(s, x, x);
    if !m.pruned && m.blobCount != 0 {
      var y := DeleteBlobs(x, h, 0, m.blobCount);
      DeleteBlobsWithin(s, x, h, 0, m.blobCount);
      DeleteBlobsEffect(x, h, 0, m.blobCount);
      WithinDo(s, x, y, UpdateMeta(h, m.MarkPruned()));
      WithinMemory(s, x, Do(y, UpdateMeta(h, m.MarkPruned())), PruneHeight(x, h, m));
    }
  }

  lemma FlushHeightWithin(s: Scope, x: Exec, h: nat)
    requires MayPrune(s)
    ensures Within(s, x, FlushHeight(x, h))
  {
    hide Within, PruneHeight, Disk.Meta;
    var x1 := x.(mem := x.mem.(pendingPrune := x.mem.pendingPrune - {h}));
    WithinNothing(s, x, x);
    WithinNothing(s, x, x1);
    if h in x1.disk.metas {
      PruneHeightWithin(s, x1, h, x1.disk.Meta(h));
      WithinJoin(s, x, x1, PruneHeight(x1, h, x1.disk.Meta(h)));
    }
  }

  lemma {:induction false} FlushHeightsWithin(s: Scope, x: Exec, heights: seq<nat>)
    requires MayPrune(s)
    ensures Within(s, x, FlushHeights(x, heights))
    decreases |heights|
  {
    hide Within, FlushHeight;
    if heights == [] {
      WithinNothing(s, x, x);
    } else {
      var y := FlushHeight(x, heights[0]);
      FlushHeightWithin(s, x, heights[0]);
      FlushHeightsWithin(s, y, heights[1..]);
      WithinJoin(s, x, y, FlushHeights(y, heights[1..]));
    }
  }

  lemma FinishWithin(s: Scope, x: Exec, h: nat)
    requires MayPrune(s)
    ensures Within(s, x, Finish(x, h))
  {
    hide Within, FlushHeights, ReadyHeights;
    var x1 := x.(mem := x.mem.(finalized := if h > x.mem.finalized then h else x.mem.finalized));
    WithinNothing(s, x, x1);
    FlushHeightsWithin(s, x1, ReadyHeights(x1.mem));
    WithinJoin(s, x, x1, FlushPrunes(x1));
    WithinMemory(s, x, FlushPrunes(x1), Finish(x, h));
  }

  lemma RehydrateHeightWithin(config: Config, s: Scope, x: Exec, h: nat)
    requires MayPrune(s)
    ensures Within(s, x, RehydrateHeight(config, x, h))
  {
    hide Within, PruneHeight, Disk.Meta, Disk.ProposerAt, Metadata.AllArchived;
    var y := RehydrateHeight(config, x, h);
    if h in x.disk.metas {
      PruneHeightWithin(s, x, h, x.disk.Meta(h));
    }
    if y.disk == x.disk && y.points == x.points {
      WithinNothing(s, x, y);
    }
  }

  lemma {:induction false} RehydrateHeightsWithin(
    config: Config, s: Scope, x: Exec, heights: seq<nat>)
    requires MayPrune(s)
    ensures Within(s, x, RehydrateHeights(config, x, heights))
    decreases |heights|
  {
    hide Within, RehydrateHeight;
    if heights == [] {
      WithinNothing(s, x, x);
    } else {
      var y := RehydrateHeight(config, x, heights[0]);
      RehydrateHeightWithin(config, s, x, heights[0]);
      RehydrateHeightsWithin(config, s, y, heights[1..]);
      WithinJoin(s, x, y, RehydrateHeights(config, y, heights[1..]));
    }
  }

  lemma HandleNoticeWithin(config: Config, s: Scope, x: Exec, n: Notice)
    requires s.ArchiveScope? || s.SyncScope?
    ensures Within(s, x, HandleNotice(config, x, n))
  {
    hide Within, PruneHeight, Judge, NoticeMeta, Metadata.AllArchived;
    WithinNothing(s, x, x);
    if Judge(config, x.disk, n) == Record {
      var h, m := n.body.height, NoticeMeta(x.disk, n);
      var x1 := Do(x, PutRecord(h, n.body.index, n));
      WithinOne(s, x, PutRecord(h, n.body.index, n));
      WithinDo(s, x, x1, UpdateMeta(h, m));
      var x2 := RecordNotice(x, n);
      var x3 := x2.(mem := x2.mem.(pendingArchive := x2.mem.pendingArchive - {h}));
      WithinMemory(s, x, x2, x3);
      PruneHeightWithin(s, x3, h, m);
      WithinJoin(s, x, x3, PruneHeight(x3, h, m));
      WithinMemory(s, x, x3, x3.(mem := x3.mem.(pendingPrune := x3.mem.pendingPrune + {h})));
    }
  }

  lemma {:induction false} HandleNoticesWithin(
    config: Config, s: Scope, x: Exec, notices: seq<Notice>)
    requires s.ArchiveScope? || s.SyncScope?
    ensures Within(s, x, HandleNotices(config, x, notices))
    decreases |notices|
  {
    hide Within, HandleNotice;
    if notices == [] {
      WithinNothing(s, x, x);
    } else {
      var y := HandleNotice(config, x, notices[0]);
      HandleNoticeWithin(config, s, x, notices[0]);
      HandleNoticesWithin(config, s, y, notices[1..]);
      WithinJoin(s, x, y, HandleNotices(config, y, notices[1..]));
    }
  }

  // ----- Blob engine -----

  lemma {:induction false} StoreSidecarsWithin(
    s: Scope, x: Exec, h: nat, r: Round, sidecars: seq<Sidecar>)
    requires s in {CandidateScope(h, r), SyncScope(h, r)}
    ensures Within(s, x, StoreSidecars(x, h, r, sidecars))
    decreases |sidecars|
  {
    hide Within, Do;
    if sidecars == [] {
      WithinNothing(s, x, x);
    } else {
      var y := Do(x, PutBlob(h, r, sidecars[0]));
      WithinOne(s, x, PutBlob(h, r, sidecars[0]));
      StoreSidecarsWithin(s, y, h, r, sidecars[1..]);
      WithinJoin(s, x, y, StoreSidecars(y, h, r, sidecars[1..]));
    }
  }

  lemma {:induction false} MoveEntriesWithin(
    s: Scope, x: Exec, h: nat, entries: seq<(Round, nat, Sidecar)>)
    requires (s.DecisionScope? || s.SyncScope?) && s.h == h && Collected(x.disk.undecided, h, entries)
    requires s.SyncScope? ==> forall e :: e in entries ==> e.0 == s.r
    ensures Within(s, x, MoveEntries(x, h, entries))
    decreases |entries|
  {
    hide Within, Do;
    if entries == [] {
      WithinNothing(s, x, x);
    } else {
      var e := entries[0];
      assert entries[0] in entries && forall e :: e in entries[1..] ==> e in entries;
      var x1 := Do(x, PutDecidedBlob(h, e.1, e.2));
      assert Moves(x.disk, PutDecidedBlob(h, e.1, e.2));
      WithinOne(s, x, PutDecidedBlob(h, e.1, e.2));
      WithinDo(s, x, x1, DeleteBlob(h, e.0, e.1));
      var y := MoveOne(x, h, e);
      CollectedRest(x, h, entries);
      MoveEntriesWithin(s, y, h, entries[1..]);
      WithinJoin(s, x, y, MoveEntries(y, h, entries[1..]));
    }
  }

  lemma CollectedRest(x: Exec, h: nat, entries: seq<(Round, nat, Sidecar)>)
    requires entries != [] && Collected(x.disk.undecided, h, entries)
    ensures Collected(MoveOne(x, h, entries[0]).disk.undecided, h, entries[1..])
  {
    hide Do;
    MoveOneEffect(x, h, entries[0]);
    var rest := entries[1..];
    assert forall k :: 0 <= k < |rest| ==> rest[k] == entries[k + 1];
  }

  lemma PromoteBlobsWithin(s: Scope, x: Exec, h: nat, r: Round)
    requires (s.DecisionScope? && s.h == h)
             || (s == SyncScope(h, r) && RoundIndices(x.disk.undecided, h, r) != {})
    ensures Within(s, x, PromoteBlobs(x, h, r))
  {
    hide Within, MoveEntries, Entries, RoundIndices, InKeyOrder, Collected;
    var u := x.disk.undecided;
    RoundsToMoveDistinct(u, h, r);
    EntriesCollected(u, h, RoundsToMove(u, h, r));
    MoveEntriesWithin(s, x, h, Entries(u, h, RoundsToMove(u, h, r)));
  }

  lemma {:induction false} DropEntriesWithin(
    s: Scope, x: Exec, h: nat, entries: seq<(Round, nat, Sidecar)>)
    requires forall d, e :: e in entries ==> Allowed(s, d, DeleteBlob(h, e.0, e.1))
    ensures Within(s, x, DropEntries(x, h, entries))
    decreases |entries|
  {
    hide Within, Do, Allowed;
    if entries == [] {
      WithinNothing(s, x, x);
    } else {
      assert entries[0] in entries && forall e :: e in entries[1..] ==> e in entries;
      var w := DeleteBlob(h, entries[0].0, entries[0].1);
      WithinOne(s, x, w);
      DropEntriesWithin(s, Do(x, w), h, entries[1..]);
      WithinJoin(s, x, Do(x, w), DropEntries(Do(x, w), h, entries[1..]));
    }
  }

  lemma DropBlobsWithin(s: Scope, x: Exec, h: nat, r: Round)
    requires forall d, i: nat :: Allowed(s, d, DeleteBlob(h, r, i))
    ensures Within(s, x, DropBlobs(x, h, r))
  {
    hide Within, DropEntries, RoundEntries, Allowed, Collected;
    RoundEntriesCollected(x.disk.undecided, h, r);
    DropEntriesWithin(s, x, h, RoundEntries(x.disk.undecided, h, r));
  }

  // ----- Round changes -----

  lemma CleanRoundWithin(s: Scope, x: Exec, h: nat, r: Round)
    requires s.RoundScope? && s.h == h && r < s.r - STALE_ROUND_BLOB_RETENTION
    ensures Within(s, x, CleanRound(x, h, r))
  {
    hide Within, DropBlobs, Do;
    WithinNothing(s, x, x);
    if r >= 0 {
      var x1 := Do(x, DeleteUndecidedMeta(h, r));
      WithinOne(s, x, DeleteUndecidedMeta(h, r));
      var x2 := Do(x1, DeleteProposal(h, r));
      WithinDo(s, x, x1, DeleteProposal(h, r));
      var x3 := Do(x2, DeleteBlock(h, r));
      WithinDo(s, x, x2, DeleteBlock(h, r));
      DropBlobsWithin(s, x3, h, r);
      WithinJoin(s, x, x3, DropBlobs(x3, h, r));
    }
  }

  lemma {:induction false} CleanRoundsWithin(s: Scope, x: Exec, h: nat, rounds: seq<Round>)
    requires s.RoundScope? && s.h == h
    requires forall r :: r in rounds ==> r < s.r - STALE_ROUND_BLOB_RETENTION
    ensures Within(s, x, CleanRounds(x, h, rounds))
    decreases |rounds|
  {
    hide Within, CleanRound;
    if rounds == [] {
      WithinNothing(s, x, x);
    } else {
      var y := CleanRound(x, h, rounds[0]);
      assert rounds[0] in rounds && forall r :: r in rounds[1..] ==> r in rounds;
      CleanRoundWithin(s, x, h, rounds[0]);
      CleanRoundsWithin(s, y, h, rounds[1..]);
      WithinJoin(s, x, y, CleanRounds(y, h, rounds[1..]));
    }
  }

  lemma StartRoundWithin(x: Exec, h: nat, r: Round)
    ensures Within(RoundScope(h, r), x, StartRound(x, h, r))
  {
    hide Within, CleanRounds, InKeyOrder;
    var s, stale := RoundScope(h, r), StaleRounds(x.mem, h, r);
    forall q | q in InKeyOrder(stale) ensures q < r - STALE_ROUND_BLOB_RETENTION {
      InKeyOrderIsAll(stale, q);
    }
    CleanRoundsWithin(s, x, h, InKeyOrder(stale));
    var y := StartRound(x, h, r);
    if y.disk == x.disk && y.points == x.points {
      WithinNothing(s, x, y);
    } else {
      WithinMemory(s, x, CleanRounds(x, h, InKeyOrder(stale)), y);
    }
  }

  // ----- Candidates -----

  lemma ProposeWithin(
    config: Config, x: Exec, h: nat, r: Round, exec: ExecutionHeader, bundle: Bundle,
    payload: Payload)
    ensures Within(CandidateScope(h, r), x, Propose(config, x, h, r, exec, bundle, payload))
  {
    hide Within, StoreSidecars, BuildSidecars, Config.IndexOf, Disk.ParentRoot, BundleKeccaks,
         New, BundleCommitments, Do, Memory.Track;
    var s := CandidateScope(h, r);
    WithinNothing(s, x, x);
    if x.disk.BlockData(h, r).None? {
      var commitments := BundleCommitments(bundle);
      var put := PutProposal(h, r, Proposal(Value(exec, commitments), config.address));
      var x1 := Do(x, put);
      WithinOne(s, x, put);
      var index, parent := config.IndexOf(config.address), x1.disk.ParentRoot(config.crypto, h);
      if parent.Some? {
        var meta := New(
          h, parent.value, commitments, BundleKeccaks(config.crypto, bundle), exec, index);
        var x2 := Do(x1, PutUndecidedMeta(h, r, meta));
        WithinDo(s, x, x1, PutUndecidedMeta(h, r, meta));
        var x3 := if bundle != [] then x2.(mem := x2.mem.Track(h, r)) else x2;
        WithinMemory(s, x, x2, x3);
        var x4 := Do(x3, PutBlock(h, r, payload));
        WithinDo(s, x, x3, PutBlock(h, r, payload));
        if index.Some? {
          var header := BeaconHeader(
            h, index.value, parent.value, exec.stateRoot, config.crypto.bodyRoot(commitments, exec));
          var sidecars := BuildSidecars(config.crypto, bundle, header, exec);
          StoreSidecarsWithin(s, x4, h, r, sidecars);
          WithinJoin(s, x, x4, StoreSidecars(x4, h, r, sidecars));
        }
      }
    }
  }

  lemma ReceiveWithin(
    config: Config, x: Exec, h: nat, r: Round, proposer: Address, exec: ExecutionHeader,
    sidecars: Sidecars, payload: Payload, assembled: bool)
    ensures Within(CandidateScope(h, r), x,
                   Receive(config, x, h, r, proposer, exec, sidecars, payload, assembled))
  {
    hide Within, StoreSidecars, Config.IndexOf, Disk.ParentRoot, Keccaks, SidecarsVerified, New,
         CommitmentsOf, Do, Memory.Track;
    var s := CandidateScope(h, r);
    var value := Value(exec, CommitmentsOf(sidecars));
    var parent := x.disk.ParentRoot(config.crypto, h);
    WithinNothing(s, x, x);
    if parent.Some? {
      var x1 := StoreSidecars(x, h, r, sidecars);
      StoreSidecarsWithin(s, x, h, r, sidecars);
      var meta := New(
        h, if sidecars != [] then sidecars[0].header.parentRoot else parent.value,
        value.commitments, Keccaks(config.crypto, sidecars), exec, config.IndexOf(proposer));
      var x2 := Do(x1, PutUndecidedMeta(h, r, meta));
      WithinDo(s, x, x1, PutUndecidedMeta(h, r, meta));
      var x3 := if sidecars != [] then x2.(mem := x2.mem.Track(h, r)) else x2;
      WithinMemory(s, x, x2, x3);
      var put := PutProposal(h, r, Proposal(value, proposer));
      WithinDo(s, x, x3, put);
      WithinDo(s, x, Do(x3, put), PutBlock(h, r, payload));
    }
  }

  lemma RestreamWithin(config: Config, x: Exec, h: nat, r: Round, from: Round)
    ensures Within(CandidateScope(h, r), x, Restream(config, x, h, r, from))
  {
    hide Within, StoreSidecars, Listing, RoundBlobs, Rebuild, MetaForRound, Do;
    var s := CandidateScope(h, r);
    WithinNothing(s, x, x);
    var d, meta := x.disk, MetaForRound(x.disk, h, from);
    if (h, from) in d.proposals && d.BlockData(h, from).Some? && meta.Some? {
      var p := PutProposal(h, r, d.proposals[(h, from)].(proposer := config.address));
      var b, m := PutBlock(h, r, d.BlockData(h, from).value), PutUndecidedMeta(h, r, meta.value);
      WithinOne(s, x, p);
      WithinDo(s, x, Do(x, p), b);
      WithinDo(s, x, Do(Do(x, p), b), m);
      var x3 := Do(Do(Do(x, p), b), m);
      var noBlobs: Sidecars := [];
      StoreSidecarsWithin(s, x3, h, r, noBlobs);
      WithinJoin(s, x, x3, StoreSidecars(x3, h, r, noBlobs));
      var rebuilt := Rebuild(config, meta.value, Listing(RoundBlobs(d.undecided, h, from)));
      if rebuilt.Some? {
        StoreSidecarsWithin(s, x3, h, r, rebuilt.value);
        WithinJoin(s, x, x3, StoreSidecars(x3, h, r, rebuilt.value));
      }
    }
  }

  // ----- Synchronisation -----

  lemma AdoptMetaWithin(config: Config, x: Exec, h: nat, r: Round, m: Metadata)
    ensures Within(SyncScope(h, r), x, AdoptMeta(config, x, h, r, m))
  {
    hide Within, Do, Metadata.HeaderRoot;
    var s := SyncScope(h, r);
    var x1 := Do(x, PutUndecidedMeta(h, r, m));
    WithinOne(s, x, PutUndecidedMeta(h, r, m));
    WithinDo(s, x, x1, PromoteMeta(h, r));
    WithinMemory(s, x, Do(x1, PromoteMeta(h, r)), AdoptMeta(config, x, h, r, m));
  }

  lemma SyncMetadataWithin(
    config: Config, x: Exec, h: nat, r: Round, proposer: Address, package: Package)
    requires package.MetadataOnly?
    ensures Within(SyncScope(h, r), x, Sync(config, x, h, r, proposer, package).0)
  {
    hide Within, SyncedMeta, HandleNotices, AdoptMeta, Do;
    var s := SyncScope(h, r);
    HandleNoticesWithin(config, s, x, package.notices);
    if package.payloadOpt.Some? {
      var x1 := Do(x, PutBlock(h, r, package.payloadOpt.value));
      WithinOne(s, x, PutBlock(h, r, package.payloadOpt.value));
      var m := SyncedMeta(config, x1.disk, h, proposer, package);
      if m.Some? {
        var x2 := AdoptMeta(config, x1, h, r, m.value);
        AdoptMetaWithin(config, x1, h, r, m.value);
        WithinJoin(s, x, x1, x2);
        HandleNoticesWithin(config, s, x2, package.notices);
        WithinJoin(s, x, x2, HandleNotices(config, x2, package.notices));
        WithinDo(s, x, HandleNotices(config, x2, package.notices),
                 PutProposal(h, r, Proposal(package.value, proposer)));
      }
    }
  }

  /** Storing a package's blobs and dropping or promoting them again. */
  lemma SyncBlobsWithin(x: Exec, h: nat, r: Round, sidecars: seq<Sidecar>)
    ensures var s, x2 := SyncScope(h, r), StoreSidecars(x, h, r, sidecars);
            && Within(s, x, x2) && Within(s, x, DropBlobs(x2, h, r))
            && Within(s, x, Do(DropBlobs(x2, h, r), DeleteUndecidedMeta(h, r)))
            && (sidecars != [] ==> Within(s, x, PromoteBlobs(x2, h, r)))
  {
    hide Within, StoreSidecars, DropBlobs, PromoteBlobs, Do, RoundIndices, Stored;
    var s, x2 := SyncScope(h, r), StoreSidecars(x, h, r, sidecars);
    StoreSidecarsWithin(s, x, h, r, sidecars);
    DropBlobsWithin(s, x2, h, r);
    WithinJoin(s, x, x2, DropBlobs(x2, h, r));
    WithinDo(s, x, DropBlobs(x2, h, r), DeleteUndecidedMeta(h, r));
    if sidecars != [] {
      StoreSidecarsEffect(x, h, r, sidecars);
      StoredNonEmpty(x.disk.undecided, h, r, sidecars);
      PromoteBlobsWithin(s, x2, h, r);
      WithinJoin(s, x, x2, PromoteBlobs(x2, h, r));
    }
  }

  lemma AdoptWithin(
    config: Config, x: Exec, h: nat, r: Round, m: Metadata, p: Proposal, notices: seq<Notice>)
    ensures var x5 := Do(AdoptMeta(config, x, h, r, m), PutProposal(h, r, p));
            Within(SyncScope(h, r), x, HandleNotices(config, x5, notices))
  {
    hide Within, HandleNotices, AdoptMeta, Do;
    var s, x4 := SyncScope(h, r), AdoptMeta(config, x, h, r, m);
    AdoptMetaWithin(config, x, h, r, m);
    WithinDo(s, x, x4, PutProposal(h, r, p));
    var x5 := Do(x4, PutProposal(h, r, p));
    HandleNoticesWithin(config, s, x5, notices);
    WithinJoin(s, x, x5, HandleNotices(config, x5, notices));
  }

  lemma SyncFullWithin(
    config: Config, x: Exec, h: nat, r: Round, proposer: Address, package: Package)
    requires package.Full?
    ensures Within(SyncScope(h, r), x, Sync(config, x, h, r, proposer, package).0)
  {
    hide Within, StoreSidecars, PromoteBlobs, DropBlobs, HandleNotices, SidecarsVerified,
         MatchesValue, DistinctIndices, SyncedMeta, AdoptMeta, Disk.ParentRoot, Do;
    var Full(value, payload, sidecars, notices) := package;
    var s := SyncScope(h, r);
    var x1 := Do(x, PutBlock(h, r, payload));
    WithinOne(s, x, PutBlock(h, r, payload));
    SyncBlobsWithin(x1, h, r, sidecars);
    var x2 := StoreSidecars(x1, h, r, sidecars);
    WithinJoin(s, x, x1, x2);
    WithinJoin(s, x, x1, DropBlobs(x2, h, r));
    WithinJoin(s, x, x1, Do(DropBlobs(x2, h, r), DeleteUndecidedMeta(h, r)));
    var x3 := if sidecars != [] then PromoteBlobs(x2, h, r) else x2;
    WithinJoin(s, x, x1, x3);
    DropBlobsWithin(s, x3, h, r);
    WithinJoin(s, x, x3, DropBlobs(x3, h, r));
    WithinDo(s, x, DropBlobs(x3, h, r), DeleteUndecidedMeta(h, r));
    var m := SyncedMeta(config, x3.disk, h, proposer, package);
    if m.Some? {
      AdoptWithin(config, x3, h, r, m.value, Proposal(value, proposer), notices);
      var x5 := Do(AdoptMeta(config, x3, h, r, m.value), PutProposal(h, r, Proposal(value, proposer)));
      WithinJoin(s, x, x3, HandleNotices(config, x5, notices));
    }
  }

  // ----- Decisions -----

  lemma DropOrphanWithin(s: Scope, x: Exec, h: nat, r: Round)
    requires s.DecisionScope? && s.h == h && r != s.r
    ensures Within(s, x, DropOrphan(x, h, r))
  {
    hide Within, DropBlobs, Do;
    WithinNothing(s, x, x);
    if r >= 0 {
      var x1 := Do(x, DeleteUndecidedMeta(h, r));
      WithinOne(s, x, DeleteUndecidedMeta(h, r));
      DropBlobsWithin(s, x1, h, r);
      WithinJoin(s, x, x1, DropBlobs(x1, h, r));
    }
  }

  lemma {:induction false} DropOrphansWithin(s: Scope, x: Exec, h: nat, rounds: seq<Round>)
    requires s.DecisionScope? && s.h == h && s.r !in rounds
    ensures Within(s, x, DropOrphans(x, h, rounds))
    decreases |rounds|
  {
    hide Within, DropOrphan;
    if rounds == [] {
      WithinNothing(s, x, x);
    } else {
      var y := DropOrphan(x, h, rounds[0]);
      assert rounds[0] in rounds && forall r :: r in rounds[1..] ==> r in rounds;
      DropOrphanWithin(s, x, h, rounds[0]);
      DropOrphansWithin(s, y, h, rounds[1..]);
      WithinJoin(s, x, y, DropOrphans(y, h, rounds[1..]));
    }
  }

  lemma SettleHeightWithin(config: Config, x: Exec, h: nat, r: Round)
    ensures Within(DecisionScope(h, r), x, SettleHeight(config, x, h, r))
  {
    hide Within, DropOrphans, InKeyOrder, RetainHeight, Do;
    var s, data := DecisionScope(h, r), x.disk.BlockData(h, r);
    WithinNothing(s, x, x);
    if data.Some? { WithinOne(s, x, PutDecidedBlock(h, data.value)); }
    var x5 := if data.Some? then Do(x, PutDecidedBlock(h, data.value)) else x;
    var prune := PruneBelow(RetainHeight(config, x5.mem, h));
    RetainBelow(config, x5.mem, h);
    var x6 := Do(x5, prune);
    WithinDo(s, x, x5, prune);
    var others := x6.mem.Tracked(h) - {r};
    InKeyOrderIsAll(others, r);
    DropOrphansWithin(s, x6, h, InKeyOrder(others));
    WithinJoin(s, x, x6, DropOrphans(x6, h, InKeyOrder(others)));
    WithinMemory(s, x, DropOrphans(x6, h, InKeyOrder(others)), SettleHeight(config, x, h, r));
  }

  lemma RetainBelow(config: Config, mem: Memory, h: nat)
    ensures RetainHeight(config, mem, h) <= h
  {
    hide Ascending;
  }

  lemma CommitFirstWithin(config: Config, x: Exec, h: nat, r: Round)
    requires (h, r) in x.disk.proposals
    ensures Within(DecisionScope(h, r), x, CommitFirst(config, x, h, r).0)
  {
    hide Within, SettleHeight, Metadata.HeaderRoot, Finish, CommitFirst, Do;
    CommitFirstParts(config, x, h, r);
    var s, p := DecisionScope(h, r), x.disk.proposals[(h, r)];
    var put := PutValue(h, DecidedValue(p.value, r));
    var note := PutConsensus(h, ConsensusMetadata(r, p.proposer, p.value.exec.blockHash));
    WithinOne(s, x, put);
    WithinDo(s, x, Do(x, put), note);
    WithinDo(s, x, Do(Do(x, put), note), PromoteMeta(h, r));
    var x3 := StoreDecision(config, x, h, r, p);
    if h in x3.disk.metas {
      var x4 := Cache(config, x3, h, x3.disk.Meta(h));
      WithinMemory(s, x, x3, x4);
      SettleHeightWithin(config, x4, h, r);
      var x7 := SettleHeight(config, x4, h, r);
      WithinJoin(s, x, x4, x7);
      FinishWithin(s, x7, h);
      WithinJoin(s, x, x7, Finish(x7, h));
    }
  }

  lemma CommitReplayWithin(config: Config, x: Exec, h: nat, r: Round)
    ensures Within(DecisionScope(h, r), x, CommitReplay(config, x, h, r).0)
  {
    hide Within, PromoteBlobs, Metadata.HeaderRoot, Finish, Do;
    var s, x1 := DecisionScope(h, r), PromoteBlobs(x, h, r);
    PromoteBlobsWithin(s, x, h, r);
    WithinDo(s, x, x1, PromoteMeta(h, r));
    var x2 :=
      if h in x1.disk.metas then Cache(config, x1, h, x1.disk.Meta(h))
      else if (h, r) in x1.disk.undecidedMetas then
        Cache(config, Do(x1, PromoteMeta(h, r)), h, x1.disk.undecidedMetas[(h, r)])
      else x1;
    if h in x1.disk.metas {
      WithinMemory(s, x, x1, x2);
    } else if (h, r) in x1.disk.undecidedMetas {
      WithinMemory(s, x, Do(x1, PromoteMeta(h, r)), x2);
    }
    FinishWithin(s, x2, h);
    WithinJoin(s, x, x2, Finish(x2, h));
  }

  lemma DecideWithin(config: Config, x: Exec, h: nat, r: Round, el: ElOutcome)
    ensures Within(DecisionScope(h, r), x, Decide(config, x, h, r, el).0)
  {
    hide Within, PromoteBlobs, CommitFirst, CommitReplay, BlobsBack, ExpectedHashes, JobIndices,
         AlreadyDecided;
    var s := DecisionScope(h, r);
    WithinNothing(s, x, x);
    PromoteBlobsWithin(s, x, h, r);
    var data := x.disk.BlockData(h, r);
    if data.Some? && data.value.ssz != [] && el != BadPayload {
      var hashes := ExpectedHashes(config.crypto, x.disk, h, r, data.value);
      var x1 := if AlreadyDecided(x.disk, h, r, hashes) then x else PromoteBlobs(x, h, r);
      WithinNothing(s, x1, x1);
      if (h, r) in x1.disk.proposals {
        CommitFirstWithin(config, x1, h, r);
      } else {
        CommitReplayWithin(config, x1, h, r);
      }
      var x2 := Commit(config, x1, h, r).0;
      WithinJoin(s, x, x1, x2);
      WithinMemory(s, x, x2, x2.(mem := x2.mem.(pendingArchive := x2.mem.pendingArchive + {h})));
    }
  }

  // ----- Start-up -----

  lemma {:induction false} DeleteMetasWithin(x: Exec, keys: seq<Round>)
    ensures Within(StartScope, x, DeleteMetas(x, keys))
    decreases |keys|
  {
    hide Within, Do;
    if keys == [] {
      WithinNothing(StartScope, x, x);
    } else {
      var y := Do(x, DeleteUndecidedMeta(0, keys[0]));
      WithinOne(StartScope, x, DeleteUndecidedMeta(0, keys[0]));
      DeleteMetasWithin(y, keys[1..]);
      WithinJoin(StartScope, x, y, DeleteMetas(y, keys[1..]));
    }
  }

  lemma RestartWithin(config: Config, d: Disk)
    ensures Within(StartScope, Exec(d, FRESH_MEMORY, []), Restart(config, d))
  {
    hide Within, Do, DeleteMetas, InKeyOrder, RehydrateHeights, Ascending, Metadata.HeaderRoot;
    var s, x := StartScope, Exec(d, FRESH_MEMORY, []);
    var genesis := Genesis(config.genesisExec);
    WithinNothing(s, x, x);
    WithinOne(s, x, SeedGenesis(genesis));
    var x1 := HydrateCache(config, x);
    if d.latest.Some? && d.latest.value in d.metas {
      WithinMemory(s, x, x, x1);
    } else {
      WithinMemory(s, x, Do(x, SeedGenesis(genesis)), x1);
    }
    var keys := InKeyOrder(set k | k in x1.disk.undecidedMetas && k.0 < START_HEIGHT :: k.1);
    var x2 := DeleteMetas(x1, keys);
    DeleteMetasWithin(x1, keys);
    WithinJoin(s, x, x1, x2);
    var finalized :=
      if x2.disk.values.Keys == {} then x2.mem.finalized else MaxOrZero(x2.disk.values.Keys);
    var x3 := x2.(mem := x2.mem.(finalized := finalized, pendingArchive := {}, pendingPrune := {}));
    WithinMemory(s, x, x2, x3);
    RehydrateHeightsWithin(config, s, x3, Ascending(x3.disk.metas.Keys));
    WithinJoin(s, x, x3, RehydrateHeights(config, x3, Ascending(x3.disk.metas.Keys)));
  }
}
