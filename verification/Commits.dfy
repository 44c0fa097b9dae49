/** What a commit leaves behind, table by table, and what it does to the heights that wait for their
    archive. */
module Commits {

  import opened Types
  import opened Ordering
  import opened BlobMetadata
  import opened BlobFamilies
  import opened DiskState
  import opened DiskInvariant
  import opened Node
  import opened NodeSafety
  import opened NodeBlobs
  import opened NodeOps
  import opened NodeDecide
  import opened NodeMemory

  // ----- Flushing -----

  /** Only decided blobs, entries and the two pending sets differ. */
  ghost predicate OnlyPrunes(x: Exec, y: Exec) {
    && y.disk == x.disk.(decided := y.disk.decided, metas := y.disk.metas)
    && y.mem == x.mem.(pendingArchive := y.mem.pendingArchive, pendingPrune := y.mem.pendingPrune)
    && y.disk.metas.Keys == x.disk.metas.Keys
    && forall g :: g in x.disk.metas ==>
         && x.disk.metas[g].SameBlock(y.disk.metas[g])
         && y.disk.metas[g].keccaks == x.disk.metas[g].keccaks
  }

  lemma FlushHeightFrame(x: Exec, h: nat)
    ensures OnlyPrunes(x, FlushHeight(x, h))
  {
    hide PruneHeight;
    var x1 := x.(mem := x.mem.(pendingPrune := x.mem.pendingPrune - {h}));
    if h in x1.disk.metas {
      PruneHeightEffect(x1, h, x1.disk.Meta(h));
    }
  }

  lemma {:induction false} FlushFrame(x: Exec, heights: seq<nat>)
    ensures OnlyPrunes(x, FlushHeights(x, heights))
    decreases |heights|
  {
    hide FlushHeight;
    if heights != [] {
      FlushHeightFrame(x, heights[0]);
      FlushFrame(FlushHeight(x, heights[0]), heights[1..]);
    }
  }

  lemma FinishFrame(x: Exec, h: nat)
    ensures var y := Finish(x, h);
            && y.disk == x.disk.(decided := y.disk.decided, metas := y.disk.metas)
            && y.mem == x.mem.(
                 finalized := if h > x.mem.finalized then h else x.mem.finalized,
                 currentHeight := if x.mem.currentHeight > h + 1 then x.mem.currentHeight else h + 1,
                 currentRound := 0,
                 pendingArchive := y.mem.pendingArchive, pendingPrune := y.mem.pendingPrune)
            && y.disk.metas.Keys == x.disk.metas.Keys
            && forall g :: g in x.disk.metas ==>
                 && x.disk.metas[g].SameBlock(y.disk.metas[g])
                 && y.disk.metas[g].keccaks == x.disk.metas[g].keccaks
  {
    hide FlushHeights, ReadyHeights;
    var x1 := x.(mem := x.mem.(finalized := if h > x.mem.finalized then h else x.mem.finalized));
    FlushFrame(x1, ReadyHeights(x1.mem));
  }

  // ----- The first commit of a height -----

  lemma {:induction false} DropOrphansFrame(x: Exec, h: nat, rounds: seq<Round>)
    ensures var y := DropOrphans(x, h, rounds);
            && y.mem == x.mem
            && y.disk == x.disk.(undecided := y.disk.undecided,
                                 undecidedMetas := y.disk.undecidedMetas)
    decreases |rounds|
  {
    hide DropBlobs;
    if rounds != [] {
      DropBlobsEffect(Do(x, DeleteUndecidedMeta(h, rounds[0])), h, rounds[0]);
      DropOrphansFrame(DropOrphan(x, h, rounds[0]), h, rounds[1..]);
    }
  }

  /** The decided payload is stored once, and undecided proposals and payloads are kept from the retain
      height on. */
  lemma SettleHeightEffect(config: Config, x: Exec, h: nat, r: Round)
    ensures var y, data := SettleHeight(config, x, h, r), x.disk.BlockData(h, r);
            var retain := RetainHeight(config, x.mem, h);
            && y.disk == x.disk.(
                 decidedBlocks := if data.Some?
                                  then PutIfAbsent(x.disk.decidedBlocks, h, data.value)
                                  else x.disk.decidedBlocks,
                 proposals := KeepFrom(x.disk.proposals, retain),
                 blocks := KeepFrom(x.disk.blocks, retain),
                 undecided := y.disk.undecided, undecidedMetas := y.disk.undecidedMetas)
            && y.mem == x.mem.(blobRounds := x.mem.blobRounds - {h})
  {
    hide DropOrphans, InKeyOrder, RetainHeight, KeepFrom;
    var data := x.disk.BlockData(h, r);
    var x5 := if data.Some? then Do(x, PutDecidedBlock(h, data.value)) else x;
    var x6 := Do(x5, PruneBelow(RetainHeight(config, x5.mem, h)));
    DropOrphansFrame(x6, h, InKeyOrder(x6.mem.Tracked(h) - {r}));
  }

  /** The entry that a commit adopts: the round's own, else the decided one that is there already. */
  function Adopted(d: Disk, h: nat, r: Round): Metadata
    requires (h, r) in d.undecidedMetas || h in d.metas
  {
    if (h, r) in d.undecidedMetas then d.undecidedMetas[(h, r)] else d.metas[h]
  }

  /** The first commit of a height, table by table: the value and the consensus metadata of the
      proposal, the entry, the payload of the round, what lies below the retain height removed, the
      cache on the entry, and the node one height further. */
  lemma CommitEffect(config: Config, x: Exec, h: nat, r: Round)
    requires (h, r) in x.disk.proposals
    requires (h, r) in x.disk.undecidedMetas || h in x.disk.metas
    ensures var p, m := x.disk.proposals[(h, r)], Adopted(x.disk, h, r);
            var (y, ok) := CommitFirst(config, x, h, r);
            var data, retain := x.disk.BlockData(h, r), RetainHeight(config, x.mem, h);
            && ok
            && y.disk.values == x.disk.values[h := DecidedValue(p.value, r)]
            && y.disk.consensus
               == x.disk.consensus[h := ConsensusMetadata(r, p.proposer, p.value.exec.blockHash)]
            && ((h, r) in x.disk.undecidedMetas ==> y.disk.latest == Some(h))
            && h in y.disk.metas && m.SameBlock(y.disk.metas[h])
            && y.disk.metas[h].keccaks == m.keccaks && y.disk.records == x.disk.records
            && (data.Some? ==>
                  y.disk.decidedBlocks == PutIfAbsent(x.disk.decidedBlocks, h, data.value))
            && y.disk.proposals == KeepFrom(x.disk.proposals, retain)
            && y.disk.blocks == KeepFrom(x.disk.blocks, retain)
            && y.mem.cacheHeight == h && y.mem.cacheRoot == m.HeaderRoot(config.crypto)
            && y.mem.finalized == (if h > x.mem.finalized then h else x.mem.finalized)
            && y.mem.currentHeight
               == (if x.mem.currentHeight > h + 1 then x.mem.currentHeight else h + 1)
            && y.mem.currentRound == 0 && y.mem.blobRounds == x.mem.blobRounds - {h}
  {
    hide CommitFirst, SettleHeight, Finish, KeepFrom, RetainHeight, StoreDecision;
    CommitFirstParts(config, x, h, r);
    var p := x.disk.proposals[(h, r)];
    var x3 := StoreDecision(config, x, h, r, p);
    StoreDecisionEffect(config, x, h, r);
    var x4 := Cache(config, x3, h, x3.disk.Meta(h));
    SettleHeightEffect(config, x4, h, r);
    RetainFrame(config, x.mem, x4.mem, h);
    FinishFrame(SettleHeight(config, x4, h, r), h);
  }

  lemma StoreDecisionEffect(config: Config, x: Exec, h: nat, r: Round)
    requires (h, r) in x.disk.proposals
    requires (h, r) in x.disk.undecidedMetas || h in x.disk.metas
    ensures var p, m := x.disk.proposals[(h, r)], Adopted(x.disk, h, r);
            var y := StoreDecision(config, x, h, r, p);
            && y.mem == x.mem
            && y.disk == x.disk.(
                 values := x.disk.values[h := DecidedValue(p.value, r)],
                 consensus := x.disk.consensus[
                   h := ConsensusMetadata(r, p.proposer, p.value.exec.blockHash)],
                 metas := x.disk.metas[h := m],
                 latest := if (h, r) in x.disk.undecidedMetas then Some(h) else x.disk.latest,
                 undecidedMetas := x.disk.undecidedMetas - {(h, r)})
  {
  }

  lemma RetainFrame(config: Config, a: Memory, b: Memory, h: nat)
    requires a.pendingArchive == b.pendingArchive
    ensures RetainHeight(config, a, h) == RetainHeight(config, b, h)
  {
  }

  // ----- Any commit, up to its end -----

  /** The replay of a commit before its end. */
  function ReplayBody(config: Config, x: Exec, h: nat, r: Round): Exec {
    var x1 := PromoteBlobs(x, h, r);
    if h in x1.disk.metas then Cache(config, x1, h, x1.disk.Meta(h))
    else if (h, r) in x1.disk.undecidedMetas then
      Cache(config, Do(x1, PromoteMeta(h, r)), h, x1.disk.undecidedMetas[(h, r)])
    else x1
  }

  /** A commit before its end, and whether it gets to that end. */
  function CommitBody(config: Config, x: Exec, h: nat, r: Round): (Exec, bool) {
    if (h, r) in x.disk.proposals then
      var p := x.disk.proposals[(h, r)];
      var x3 := StoreDecision(config, x, h, r, p);
      if h in x3.disk.metas
      then (SettleHeight(config, Cache(config, x3, h, x3.disk.Meta(h)), h, r), true)
      else (Do(Do(x, PutValue(h, DecidedValue(p.value, r))),
               PutConsensus(h, ConsensusMetadata(r, p.proposer, p.value.exec.blockHash))), false)
    else if h in x.disk.values then (ReplayBody(config, x, h, r), true)
    else (x, false)
  }

  lemma CommitEnds(config: Config, x: Exec, h: nat, r: Round)
    ensures var (b, ends) := CommitBody(config, x, h, r);
            Commit(config, x, h, r) == (if ends then Finish(b, h) else b, ends)
  {
    hide SettleHeight, Finish, CommitFirst, PromoteBlobs, Metadata.HeaderRoot;
    if (h, r) in x.disk.proposals {
      CommitFirstParts(config, x, h, r);
    }
  }

  /** Up to its end a commit leaves records, other entries and waiting heights alone, and adds no
      proposal. */
  lemma CommitBodyFrame(config: Config, x: Exec, h: nat, r: Round)
    requires (h, r) in x.disk.undecidedMetas ==> h !in x.disk.metas
    ensures var b := CommitBody(config, x, h, r).0;
            && b.mem.pendingArchive == x.mem.pendingArchive && b.mem.finalized == x.mem.finalized
            && b.disk.records == x.disk.records && Included(x.disk.metas, b.disk.metas)
            && Included(b.disk.proposals, x.disk.proposals)
  {
    hide SettleHeight, PromoteBlobs, RetainHeight, StoreDecision, Metadata.HeaderRoot;
    if (h, r) in x.disk.proposals {
      var p := x.disk.proposals[(h, r)];
      var x3 := StoreDecision(config, x, h, r, p);
      StoredFrame(config, x, h, r);
      if h in x3.disk.metas {
        SettleHeightEffect(config, Cache(config, x3, h, x3.disk.Meta(h)), h, r);
      }
    } else {
      PromoteBlobsEffect(x, h, r);
    }
  }

  lemma StoredFrame(config: Config, x: Exec, h: nat, r: Round)
    requires (h, r) in x.disk.proposals
    requires (h, r) in x.disk.undecidedMetas ==> h !in x.disk.metas
    ensures var y := StoreDecision(config, x, h, r, x.disk.proposals[(h, r)]);
            && y.mem == x.mem && y.disk.records == x.disk.records
            && Included(x.disk.metas, y.disk.metas) && y.disk.proposals == x.disk.proposals
  {
  }

  /** A commit removes no proposal and no payload from the retain height on. */
  lemma CommitRetains(config: Config, x: Exec, h: nat, r: Round)
    ensures var y, retain := Commit(config, x, h, r).0, RetainHeight(config, x.mem, h);
            && Included(KeepFrom(x.disk.proposals, retain), y.disk.proposals)
            && Included(KeepFrom(x.disk.blocks, retain), y.disk.blocks)
  {
    hide CommitBody, Commit, Finish, KeepFrom, RetainHeight;
    CommitEnds(config, x, h, r);
    BodyRetains(config, x, h, r);
    FinishFrame(CommitBody(config, x, h, r).0, h);
  }

  lemma BodyRetains(config: Config, x: Exec, h: nat, r: Round)
    ensures var b, retain := CommitBody(config, x, h, r).0, RetainHeight(config, x.mem, h);
            && Included(KeepFrom(x.disk.proposals, retain), b.disk.proposals)
            && Included(KeepFrom(x.disk.blocks, retain), b.disk.blocks)
  {
    hide CommitBody, RetainHeight, KeepFrom, Included;
    var retain := RetainHeight(config, x.mem, h);
    FromIncluded(x.disk.proposals, retain);
    FromIncluded(x.disk.blocks, retain);
    BodyUndecided(config, x, h, r);
  }

  lemma BodyUndecided(config: Config, x: Exec, h: nat, r: Round)
    ensures var b, retain := CommitBody(config, x, h, r).0, RetainHeight(config, x.mem, h);
            || (b.disk.proposals == x.disk.proposals && b.disk.blocks == x.disk.blocks)
            || (&& b.disk.proposals == KeepFrom(x.disk.proposals, retain)
                && b.disk.blocks == KeepFrom(x.disk.blocks, retain))
  {
    hide SettleHeight, PromoteBlobs, RetainHeight, Metadata.HeaderRoot, KeepFrom, StoreDecision,
         ReplayBody;
    ReplayUndecided(config, x, h, r);
    if (h, r) in x.disk.proposals {
      var x3 := StoreDecision(config, x, h, r, x.disk.proposals[(h, r)]);
      StoredUndecided(config, x, h, r);
      if h in x3.disk.metas {
        var x4 := Cache(config, x3, h, x3.disk.Meta(h));
        SettleHeightEffect(config, x4, h, r);
        RetainFrame(config, x.mem, x4.mem, h);
      }
    }
  }

  lemma ReplayUndecided(config: Config, x: Exec, h: nat, r: Round)
    ensures var b := ReplayBody(config, x, h, r);
            b.disk.proposals == x.disk.proposals && b.disk.blocks == x.disk.blocks
  {
    hide PromoteBlobs, Metadata.HeaderRoot;
    PromoteBlobsEffect(x, h, r);
  }

  lemma FromIncluded<V>(m: map<(nat, Round), V>, retain: nat)
    ensures Included(KeepFrom(m, retain), m) && Included(KeepFrom(m, retain), KeepFrom(m, retain))
  {
  }

  lemma StoredUndecided(config: Config, x: Exec, h: nat, r: Round)
    requires (h, r) in x.disk.proposals
    ensures var y := StoreDecision(config, x, h, r, x.disk.proposals[(h, r)]);
            && y.mem == x.mem && y.disk.proposals == x.disk.proposals
            && y.disk.blocks == x.disk.blocks
  {
  }

  // ----- Replaying a commit -----

  lemma ReplayBodyEffect(config: Config, x: Exec, h: nat, r: Round)
    ensures var b := ReplayBody(config, x, h, r);
            && (b.disk.undecided, b.disk.decided)
               == MarkDecided(x.disk.undecided, x.disk.decided, h, r)
            && b.disk == x.disk.(
                 undecided := b.disk.undecided, decided := b.disk.decided, metas := b.disk.metas,
                 undecidedMetas := b.disk.undecidedMetas, latest := b.disk.latest)
            && (h in b.disk.metas <==> h in x.disk.metas || (h, r) in x.disk.undecidedMetas)
            && (h in x.disk.metas ==>
                  b.disk.metas == x.disk.metas && b.disk.undecidedMetas == x.disk.undecidedMetas)
            && (h !in x.disk.metas ==> (h, r) !in b.disk.undecidedMetas)
            && (h in b.disk.metas ==>
                  && b.mem.cacheHeight == h
                  && b.mem.cacheRoot == b.disk.Meta(h).HeaderRoot(config.crypto))
            && b.mem.finalized == x.mem.finalized
  {
    hide PromoteBlobs, MarkDecided, Metadata.HeaderRoot;
    PromoteBlobsEffect(x, h, r);
    var x1 := PromoteBlobs(x, h, r);
    if h !in x.disk.metas && (h, r) in x.disk.undecidedMetas {
      MetaFrame(x.disk.undecidedMetas[(h, r)], Apply(x1.disk, PromoteMeta(h, r)), h);
    }
  }

  lemma MetaFrame(m: Metadata, d: Disk, h: nat)
    requires h in d.metas && d.metas[h] == m
    ensures forall crypto: Crypto :: d.Meta(h).HeaderRoot(crypto) == m.HeaderRoot(crypto)
  {
  }

  /** A commit whose proposal is gone but whose value is stored is completed: the round's entry becomes
      the decided one if there is none, its blobs are promoted, and the height is final. */
  lemma ReplayEffect(config: Config, x: Exec, h: nat, r: Round)
    requires (h, r) !in x.disk.proposals && h in x.disk.values
    ensures var (y, ok) := Commit(config, x, h, r);
            && ok && y.mem.finalized >= h && y.mem.currentHeight > h && y.mem.currentRound == 0
            && y.disk == x.disk.(
                 undecided := MarkDecided(x.disk.undecided, x.disk.decided, h, r).0,
                 decided := y.disk.decided, metas := y.disk.metas,
                 undecidedMetas := y.disk.undecidedMetas, latest := y.disk.latest)
            && (h in y.disk.metas <==> h in x.disk.metas || (h, r) in x.disk.undecidedMetas)
            && (h in x.disk.metas ==> y.disk.undecidedMetas == x.disk.undecidedMetas)
            && (h !in x.disk.metas ==> (h, r) !in y.disk.undecidedMetas)
            && (h in y.disk.metas ==> y.mem.cacheHeight == h)
  {
    hide Finish, ReplayBody, MarkDecided, Commit, CommitReplay;
    ReplayBodyEffect(config, x, h, r);
    FinishFrame(ReplayBody(config, x, h, r), h);
    CommitEnds(config, x, h, r);
  }
}
