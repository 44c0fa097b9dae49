/** A round that holds everything its decision needs: how it survives other events, and what deciding
    it leaves. */
module ReadyRounds {

  import opened Types
  import opened Ordering
  import opened BlobMetadata
  import opened BlobFamilies
  import opened DiskState
  import opened DiskInvariant
  import opened Node
  import opened NodeSafety
  import opened NodeBlobs
  import opened NodeDecide
  import opened NodeMemory
  import opened NodeRuns
  import opened DecisionClaims
  import opened RoundMoves
  import opened BlobReplacement
  import opened Trails
  import opened Traces
  import opened Commits

  /** What is offered for a round: the value and who proposes it, the payload, the metadata entry and
      the blobs under their indices. */
  datatype Offer = Offer(
    value: Value, proposer: Address, payload: Payload, entry: Metadata, blobs: map<nat, Sidecar>)

  /** The hashes the block must be backed by. */
  function OfferHashes(crypto: Crypto, offer: Offer): seq<Hash> {
    if offer.payload.blobHashes == [] then HashesOf(crypto, offer.value.commitments)
    else offer.payload.blobHashes
  }

  /** The payload is there, and the blobs carry the expected hashes in index order. */
  ghost predicate Sufficient(crypto: Crypto, offer: Offer) {
    && offer.payload.ssz != []
    && (OfferHashes(crypto, offer) != [] ==>
          SidecarHashes(crypto, Listing(offer.blobs)) == OfferHashes(crypto, offer))
  }

  /** The entry of the round in the table is the given one. */
  ghost predicate Has<V>(m: map<(nat, Round), V>, h: nat, r: Round, v: V) {
    (h, r) in m && m[(h, r)] == v
  }

  /** The blobs of the round are the given ones. */
  ghost predicate HasBlobs(u: Undecided, h: nat, r: Round, blobs: map<nat, Sidecar>) {
    forall i: nat ::
      ((h, r, i) in u <==> i in blobs) && (i in blobs ==> u[(h, r, i)] == blobs[i])
  }

  ghost predicate Undone(h: nat, d: Disk) {
    h !in d.metas && forall i: nat :: (h, i) !in d.decided
  }

  /** The round holds the offer, and the height has no decided metadata and no decided blob. */
  ghost predicate Ready(h: nat, r: Round, offer: Offer, d: Disk) {
    && Has(d.proposals, h, r, Proposal(offer.value, offer.proposer))
    && Has(d.blocks, h, r, offer.payload) && Has(d.undecidedMetas, h, r, offer.entry)
    && HasBlobs(d.undecided, h, r, offer.blobs) && Undone(h, d)
  }

  // ----- The round survives -----

  /** Events that may fall before the decision: anything but a candidate for the same round, a package
      or a decision for the height, a decision above it, or a round change that cleans the round up. */
  ghost predicate Spares(s: Scope, h: nat, r: Round) {
    && h > 0 && s != CandidateScope(h, r) && !(s.SyncScope? && s.h == h)
    && (s.DecisionScope? ==> s.h < h)
    && (s.RoundScope? && s.h == h ==> r < 0 || r >= s.r - STALE_ROUND_BLOB_RETENTION)
  }

  lemma ProposalAfter(h: nat, r: Round, p: Proposal, s: Scope, d: Disk, w: Write)
    requires Spares(s, h, r) && Allowed(s, d, w) && Has(d.proposals, h, r, p)
    ensures Has(Apply(d, w).proposals, h, r, p)
  {
  }

  lemma BlockAfter(h: nat, r: Round, b: Payload, s: Scope, d: Disk, w: Write)
    requires Spares(s, h, r) && Allowed(s, d, w) && Has(d.blocks, h, r, b)
    ensures Has(Apply(d, w).blocks, h, r, b)
  {
  }

  lemma EntryAfter(h: nat, r: Round, m: Metadata, s: Scope, d: Disk, w: Write)
    requires Spares(s, h, r) && Allowed(s, d, w) && Has(d.undecidedMetas, h, r, m)
    ensures Has(Apply(d, w).undecidedMetas, h, r, m)
  {
  }

  lemma BlobsAfter(h: nat, r: Round, blobs: map<nat, Sidecar>, s: Scope, d: Disk, w: Write)
    requires Spares(s, h, r) && Allowed(s, d, w) && HasBlobs(d.undecided, h, r, blobs)
    ensures HasBlobs(Apply(d, w).undecided, h, r, blobs)
  {
    hide Apply;
    UndecidedAfter(d, w);
  }

  lemma UndoneAfter(h: nat, r: Round, s: Scope, d: Disk, w: Write)
    requires Spares(s, h, r) && Allowed(s, d, w) && Undone(h, d)
    ensures Undone(h, Apply(d, w))
  {
  }

  lemma ReadyKept(inv: Disk -> bool, h: nat, r: Round, offer: Offer, s: Scope)
    requires Spares(s, h, r) && forall d :: inv(d) <==> Ready(h, r, offer, d)
    ensures Kept(inv, s)
  {
    hide Spares, Allowed, Apply, Has, HasBlobs, Undone;
    forall d, w | inv(d) && Allowed(s, d, w) ensures inv(Apply(d, w)) {
      ProposalAfter(h, r, Proposal(offer.value, offer.proposer), s, d, w);
      BlockAfter(h, r, offer.payload, s, d, w);
      EntryAfter(h, r, offer.entry, s, d, w);
      BlobsAfter(h, r, offer.blobs, s, d, w);
      UndoneAfter(h, r, s, d, w);
    }
  }

  /** Over any stretch of a run whose events spare the round, its proposal, payload, metadata and blobs
      stay as they are. */
  lemma RoundSurvives(
    config: Config, run: seq<State>, events: seq<Option<Event>>, i: nat, j: nat, h: nat, r: Round,
    offer: Offer)
    requires IsTrace(config, run, events) && i <= j < |run| && Ready(h, r, offer, run[i].disk)
    requires forall m :: i <= m < j ==> Spares(ScopeOf(events[m]), h, r)
    ensures Ready(h, r, offer, run[j].disk)
  {
    hide Step, Ready, Spares, ScopeOf, Kept;
    var inv: Disk -> bool := d => Ready(h, r, offer, d);
    forall m | i <= m < j ensures Kept(inv, ScopeOf(events[m])) {
      ReadyKept(inv, h, r, offer, ScopeOf(events[m]));
    }
    TraceKeeps(config, inv, run, events, i, j);
  }

  // ----- Deciding it -----

  lemma ReadyBlobs(h: nat, r: Round, blobs: map<nat, Sidecar>, d: Disk)
    requires HasBlobs(d.undecided, h, r, blobs)
    ensures RoundBlobs(d.undecided, h, r) == blobs && RoundIndices(d.undecided, h, r) == blobs.Keys
  {
    forall i: nat ensures i in RoundIndices(d.undecided, h, r) <==> i in blobs {
      assert i in RoundIndices(d.undecided, h, r) <==> (h, r, i) in d.undecided;
    }
  }

  /** A ready round with a sufficient offer passes validation. */
  lemma ReadyPromotes(config: Config, h: nat, r: Round, offer: Offer, d: Disk)
    requires Ready(h, r, offer, d) && Sufficient(config.crypto, offer)
    ensures Promotes(config, d, h, r, Accepted)
    ensures Hashes(config, d, h, r) == OfferHashes(config.crypto, offer)
  {
    hide Listing, RoundBlobs, HashesOf, SidecarHashes, HeightBlobs;
    ReadyBlobs(h, r, offer.blobs, d);
    assert |SidecarHashes(config.crypto, Listing(offer.blobs))| == |Listing(offer.blobs)|;
  }

  /** The height is decided as offered: value, consensus metadata, payload, entry, and exactly the
      offered blobs, if there are any. */
  ghost predicate CommittedAs(h: nat, r: Round, offer: Offer, d: Disk) {
    && h in d.values && d.values[h] == DecidedValue(offer.value, r)
    && h in d.consensus
    && d.consensus[h] == ConsensusMetadata(r, offer.proposer, offer.value.exec.blockHash)
    && h in d.decidedBlocks && d.decidedBlocks[h] == offer.payload
    && h in d.metas && offer.entry.SameBlock(d.metas[h])
    && d.metas[h].keccaks == offer.entry.keccaks
    && (offer.blobs != map[] ==> HeightBlobs(d.decided, h) == offer.blobs)
    && forall i: nat :: (h, i) !in d.records
  }

  /** What an accepted decision does once its blobs are validated and its proposal is there. */
  lemma DecideAccepted(config: Config, x: Exec, h: nat, r: Round)
    requires Promotes(config, x.disk, h, r, Accepted) && (h, r) in x.disk.proposals
    ensures var x1 := FirstMove(config, x, h, r);
            && OnlyBlobs(x, x1)
            && var (y, ok), (z, done) :=
                 CommitFirst(config, x1, h, r), Decide(config, x, h, r, Accepted);
            && done == ok && z.disk == y.disk
            && z.mem == y.mem.(pendingArchive := z.mem.pendingArchive)
            && z.mem.pendingArchive ==
               if ok && Hashes(config, x.disk, h, r) != [] && config.archiverEnabled
                  && (h, r) in y.disk.proposals
                  && y.disk.proposals[(h, r)].proposer == config.address
                  && JobIndices(y.disk, h) != {}
               then y.mem.pendingArchive + {h} else y.mem.pendingArchive
  {
    hide PromoteBlobs, CommitFirst, BlobsBack, ExpectedHashes, JobIndices, AlreadyDecided, OnlyBlobs;
    MovesBlobsOnly(config, x, h, r);
  }

  lemma MovesBlobsOnly(config: Config, x: Exec, h: nat, r: Round)
    requires x.disk.BlockData(h, r).Some?
    ensures OnlyBlobs(x, FirstMove(config, x, h, r))
    ensures FirstMove(config, x, h, r).disk.proposals == x.disk.proposals
  {
    hide PromoteBlobs, MarkDecided, AlreadyDecided, Hashes;
    PromoteBlobsEffect(x, h, r);
  }

  /** An accepted decision that passes validation and finds proposal and entry commits them. */
  lemma DecideEffect(config: Config, x: Exec, h: nat, r: Round)
    requires Promotes(config, x.disk, h, r, Accepted) && (h, r) in x.disk.proposals
    requires (h, r) in x.disk.undecidedMetas || h in x.disk.metas
    ensures var p, m := x.disk.proposals[(h, r)], Adopted(x.disk, h, r);
            var (z, ok) := Decide(config, x, h, r, Accepted);
            && ok
            && z.disk.values == x.disk.values[h := DecidedValue(p.value, r)]
            && z.disk.consensus
               == x.disk.consensus[h := ConsensusMetadata(r, p.proposer, p.value.exec.blockHash)]
            && h in z.disk.metas && m.SameBlock(z.disk.metas[h])
            && z.disk.metas[h].keccaks == m.keccaks && z.disk.records == x.disk.records
            && z.disk.decidedBlocks
               == PutIfAbsent(x.disk.decidedBlocks, h, x.disk.BlockData(h, r).value)
            && z.disk.proposals == KeepFrom(x.disk.proposals, RetainHeight(config, x.mem, h))
            && z.mem.cacheHeight == h && z.mem.cacheRoot == m.HeaderRoot(config.crypto)
            && h <= z.mem.finalized && h < z.mem.currentHeight
  {
    hide Decide, KeepFrom, RetainHeight, Hashes, JobIndices, FirstMove, Metadata.HeaderRoot,
         Metadata.SameBlock, CommitFirst, BlobsBack;
    DecideAccepted(config, x, h, r);
    CommitEffect(config, FirstMove(config, x, h, r), h, r);
  }

  /** The decided blobs of a ready round with blobs are exactly those, and they are all there. */
  lemma ReadyBlobsDecided(config: Config, x: Exec, h: nat, r: Round, offer: Offer)
    requires MemOk(config, x) && Ready(h, r, offer, x.disk) && Sufficient(config.crypto, offer)
    requires offer.blobs != map[]
    ensures HeightBlobs(Decide(config, x, h, r, Accepted).0.disk.decided, h) == offer.blobs
  {
    hide MemOk, Decide, Promotes, Sufficient, MoveRounds, RoundIndices, CacheOk;
    ReadyPromotes(config, h, r, offer, x.disk);
    ReadyBlobs(h, r, offer.blobs, x.disk);
    assert Takers(config, x.disk, h, r, Accepted) == [r];
    DecideMoves(config, x, h, r, Accepted);
    NotPending(config, x, h);
    var u, d, z := x.disk.undecided, x.disk.decided, Decide(config, x, h, r, Accepted).0.disk;
    var moved := x.disk.(decided := Moved(config, x.disk, h, r, Accepted));
    assert Spared(x.mem.pendingPrune, moved, h);
    forall i: nat
      ensures (h, i) in z.decided <==> i in offer.blobs
      ensures (h, i) in z.decided ==> z.decided[(h, i)] == offer.blobs[i]
    {
      MoveRoundsAt(u, d, h, [r], i);
      OneHolder(u, h, r, i);
    }
    SameListing(z.decided, h, offer.blobs);
  }

  lemma OneHolder(u: Undecided, h: nat, r: Round, i: nat)
    ensures Holder(u, h, [r], i) == if (h, r, i) in u then Some(r) else None
  {
    assert [r][1..] == [];
    assert Holder(u, h, [], i) == None;
  }

  lemma SameListing(d: Decided, h: nat, blobs: map<nat, Sidecar>)
    requires forall i: nat ::
      ((h, i) in d <==> i in blobs) && ((h, i) in d ==> d[(h, i)] == blobs[i])
    ensures HeightBlobs(d, h) == blobs
  {
    forall i: nat ensures i in HeightBlobs(d, h) <==> i in blobs {
      HeightHas(d, h, i);
    }
  }

  lemma NotPending(config: Config, x: Exec, h: nat)
    requires MemOk(config, x) && h !in x.disk.metas
    ensures h !in x.mem.pendingPrune
  {
    assert h in x.mem.pendingPrune <==> Waiting(x.disk.metas, x.disk.records, h);
  }

  lemma NothingBefore(config: Config, d: Disk, h: nat)
    requires DiskOk(config, d) && h !in d.metas
    ensures h !in d.decidedBlocks && forall i: nat :: (h, i) !in d.records
  {
    assert RecordsOk(config, d.metas, d.records);
    assert BlocksOk(d.metas.Keys, d.values, d.blocks, d.decidedBlocks);
  }

  /** A ready round with a sufficient offer is decided when the execution layer accepts its payload:
      the height is committed as offered, final, the cache on its entry, and the node goes on above. */
  lemma ReadyIsDecided(config: Config, x: Exec, h: nat, r: Round, offer: Offer)
    requires DiskOk(config, x.disk) && MemOk(config, x)
    requires Ready(h, r, offer, x.disk) && Sufficient(config.crypto, offer)
    ensures var (z, ok) := Decide(config, x, h, r, Accepted);
            && ok && CommittedAs(h, r, offer, z.disk)
            && h <= z.mem.finalized && h < z.mem.currentHeight
            && z.mem.cacheHeight == h && z.mem.cacheRoot == offer.entry.HeaderRoot(config.crypto)
  {
    hide Decide, DiskOk, MemOk, Promotes, Sufficient, HasBlobs, KeepFrom, RetainHeight, Hashes,
         Metadata.HeaderRoot;
    ReadyPromotes(config, h, r, offer, x.disk);
    DecideEffect(config, x, h, r);
    NothingBefore(config, x.disk, h);
    if offer.blobs != map[] {
      ReadyBlobsDecided(config, x, h, r, offer);
    }
  }

  /** Step `i` decides the round, and the execution layer accepts. */
  ghost predicate AcceptedAt(
    run: seq<State>, events: seq<Option<Event>>, i: nat, h: nat, r: Round)
  {
    && i < |events| && i + 1 < |run| && run[i].Running? && run[i + 1].Running?
    && events[i] == Some(Decided(h, r, Accepted))
  }

  lemma DecidedStep(config: Config, s: State, t: State, h: nat, r: Round, offer: Offer)
    requires StateOk(config, s) && s.Running? && t.Running?
    requires Step(config, s, Some(Decided(h, r, Accepted)), t)
    requires Ready(h, r, offer, s.disk) && Sufficient(config.crypto, offer)
    ensures CommittedAs(h, r, offer, t.disk) && h <= t.mem.finalized
  {
    hide Decide, Ready, DiskOk, MemOk, CommittedAs, Agreed, Sufficient;
    ReadyIsDecided(config, Exec(s.disk, s.mem, []), h, r, offer);
  }

  /** A round that is ready at some moment is decided as offered at any later accepted decision, after
      any events that spare it: other heights and rounds, notices, crashes and restarts. */
  lemma ReadyIsDecidedLater(
    config: Config, run: seq<State>, events: seq<Option<Event>>, i: nat, j: nat, h: nat, r: Round,
    offer: Offer)
    requires IsTrace(config, run, events) && i <= j && AcceptedAt(run, events, j, h, r)
    requires Ready(h, r, offer, run[i].disk) && Sufficient(config.crypto, offer)
    requires forall m :: i <= m < j ==> Spares(ScopeOf(events[m]), h, r)
    ensures CommittedAs(h, r, offer, run[j + 1].disk) && h <= run[j + 1].mem.finalized
  {
    hide Ready, Spares, ScopeOf, StateOk, CommittedAs, Sufficient;
    TraceIsRun(config, run, events);
    RunSound(config, run, j);
    assert Step(config, run[j], events[j], run[j + 1]);
    hide IsTrace, IsRun;
    RoundSurvives(config, run, events, i, j, h, r, offer);
    DecidedStep(config, run[j], run[j + 1], h, r, offer);
  }
}
