/** Which proposals a node stores, and what restreaming a stored proposal puts into another round. */
module Restreams {

  import opened Types
  import opened Ordering
  import opened BlobMetadata
  import opened BlobFamilies
  import opened DiskState
  import opened Node
  import opened NodeBlobs
  import opened ReadyRounds
  import opened Lifecycle

  // ----- Which proposals are stored -----

  /** The round holds no proposal, payload or entry. */
  ghost predicate Blank(d: Disk, h: nat, r: Round) {
    && (h, r) !in d.proposals && (h, r) !in d.undecidedMetas && (h, r) !in d.blocks
  }

  /** A received proposal for a blank round is stored if and only if it assembled, its height is not
      past, the parent is known and its blobs verify; otherwise nothing changes. */
  lemma ReceivedExactly(
    config: Config, x: Exec, h: nat, r: Round, proposer: Address, exec: ExecutionHeader,
    sidecars: Sidecars, payload: Payload, assembled: bool)
    requires Blank(x.disk, h, r)
    ensures var y := Receive(config, x, h, r, proposer, exec, sidecars, payload, assembled);
            && ((h, r) in y.disk.proposals <==>
                  assembled && Receivable(config, x, h, r, proposer, exec, sidecars))
            && ((h, r) !in y.disk.proposals ==> y == x)
  {
    hide Receive, SidecarsVerified, Disk.ParentRoot, Stored, New, Config.IndexOf, Keccaks;
    if assembled && Receivable(config, x, h, r, proposer, exec, sidecars) {
      ReceiveEffect(config, x, h, r, proposer, exec, sidecars, payload);
    } else {
      Unreceived(config, x, h, r, proposer, exec, sidecars, payload, assembled);
    }
  }

  lemma Unreceived(
    config: Config, x: Exec, h: nat, r: Round, proposer: Address, exec: ExecutionHeader,
    sidecars: Sidecars, payload: Payload, assembled: bool)
    requires Blank(x.disk, h, r)
    requires !(assembled && Receivable(config, x, h, r, proposer, exec, sidecars))
    ensures Receive(config, x, h, r, proposer, exec, sidecars, payload, assembled) == x
  {
    hide SidecarsVerified, Disk.ParentRoot, StoreSidecars, New, Config.IndexOf, Keccaks;
  }

  /** Proposing in a blank round stores blobs, payload and entry only as far as it gets: the entry and
      the payload if and only if the parent is known, the blobs only if the node is a validator whose
      blobs pass the KZG check, and the proposal always. */
  lemma ProposedExactly(
    config: Config, x: Exec, h: nat, r: Round, exec: ExecutionHeader, bundle: Bundle,
    payload: Payload)
    requires Blank(x.disk, h, r) && x.disk.BlockData(h, r).None?
    ensures var y := Propose(config, x, h, r, exec, bundle, payload);
            var known := x.disk.ParentRoot(config.crypto, h).Some?;
            && Has(y.disk.proposals, h, r,
                   Proposal(Value(exec, BundleCommitments(bundle)), config.address))
            && (known <==> (h, r) in y.disk.undecidedMetas)
            && (known ==> Has(y.disk.undecidedMetas, h, r,
                              ProposedEntry(config, x.disk, h, exec, bundle)))
            && (known <==> Has(y.disk.blocks, h, r, payload))
            && (!Proposable(config, x, h, r, exec, bundle) ==>
                  y.disk.undecided == x.disk.undecided)
  {
    hide Propose, Disk.ParentRoot, Stored, ProposedEntry, BundleCommitments, ProposedSidecars,
         Config.IndexOf;
    if Proposable(config, x, h, r, exec, bundle) {
      ProposeEffect(config, x, h, r, exec, bundle, payload);
    } else {
      HalfProposed(config, x, h, r, exec, bundle, payload);
    }
  }

  lemma HalfProposed(
    config: Config, x: Exec, h: nat, r: Round, exec: ExecutionHeader, bundle: Bundle,
    payload: Payload)
    requires Blank(x.disk, h, r) && x.disk.BlockData(h, r).None?
    requires !Proposable(config, x, h, r, exec, bundle)
    ensures var y := Propose(config, x, h, r, exec, bundle, payload);
            var proposals := x.disk.proposals[
              (h, r) := Proposal(Value(exec, BundleCommitments(bundle)), config.address)];
            y.disk == if x.disk.ParentRoot(config.crypto, h).None?
                      then x.disk.(proposals := proposals)
                      else x.disk.(
                        proposals := proposals,
                        undecidedMetas := x.disk.undecidedMetas[
                          (h, r) := ProposedEntry(config, x.disk, h, exec, bundle)],
                        blocks := x.disk.blocks[(h, r) := payload])
  {
    hide StoreSidecars, BuildSidecars, Config.IndexOf, Disk.ParentRoot, BundleKeccaks,
         BundleCommitments, New;
    var x1 := Do(x, PutProposal(h, r, Proposal(Value(exec, BundleCommitments(bundle)), config.address)));
    ParentFrame(config, x.disk, x1.disk, h);
  }

  // ----- Restreaming -----

  /** The entry's blobs, numbered from zero. */
  ghost predicate Fits(m: Metadata, blobs: Sidecars) {
    && Numbered(blobs, 0) && |blobs| == m.blobCount == |m.commitments|
    && forall i :: 0 <= i < |blobs| ==> blobs[i].commitment == m.commitments[i]
  }

  /** The index a node signs under when it restreams: the proposer's if the entry names one. */
  function SigningIndex(config: Config, m: Metadata): Option<nat> {
    if m.proposerHint.Some? then m.proposerHint else config.IndexOf(config.address)
  }

  function RestreamedHeader(config: Config, m: Metadata): BeaconHeader
    requires SigningIndex(config, m).Some?
  {
    BeaconHeader(m.height, SigningIndex(config, m).value, m.parentRoot, m.exec.stateRoot,
                 config.crypto.bodyRoot(m.commitments, m.exec))
  }

  /** The blobs under the header of the entry, signed by this node. */
  function Resigned(config: Config, m: Metadata, blobs: Sidecars): (r: Sidecars)
    requires SigningIndex(config, m).Some?
    ensures |r| == |blobs|
  {
    var header := RestreamedHeader(config, m);
    var r := seq<Sidecar>(|blobs|, i requires 0 <= i < |blobs| =>
      blobs[i].(header := header, headerSignature := config.crypto.signHeader(header),
                inclusionProof := config.crypto.proveIncluded(m.commitments, i, m.exec)));
    r
  }

  /** The offer with these blobs. */
  function WithBlobs(offer: Offer, blobs: Sidecars): Offer {
    offer.(blobs := Positions(blobs))
  }

  /** The offer again, as this node's own. */
  function RestreamedOffer(config: Config, offer: Offer, blobs: Sidecars): Offer
    requires SigningIndex(config, offer.entry).Some?
  {
    WithBlobs(offer.(proposer := config.address), Resigned(config, offer.entry, blobs))
  }

  lemma RebuildIsResigned(config: Config, m: Metadata, blobs: Sidecars)
    requires Fits(m, blobs) && SigningIndex(config, m).Some?
    ensures Rebuild(config, m, blobs) == Some(Resigned(config, m, blobs))
  {
    hide Config.IndexOf;
    var rebuilt := Rebuild(config, m, blobs);
    assert rebuilt.Some? && rebuilt.value == Resigned(config, m, blobs);
  }

  lemma RoundListing(d: Disk, h: nat, r: Round, offer: Offer, blobs: Sidecars)
    requires Ready(h, r, WithBlobs(offer, blobs), d)
    ensures Listing(RoundBlobs(d.undecided, h, r)) == blobs
  {
    hide Listing;
    assert forall i: nat :: i in RoundBlobs(d.undecided, h, r) <==> (h, r, i) in d.undecided;
    ListingInOrder(RoundBlobs(d.undecided, h, r), blobs);
  }

  /** The conditions under which a restream goes through. */
  ghost predicate Restreamable(
    config: Config, d: Disk, h: nat, r: Round, from: Round, offer: Offer, blobs: Sidecars)
  {
    && Ready(h, from, WithBlobs(offer, blobs), d) && Fits(offer.entry, blobs) && Blank(d, h, r)
    && SigningIndex(config, offer.entry).Some?
    && config.crypto.kzgValid(Resigned(config, offer.entry, blobs))
  }

  lemma RestreamEffect(
    config: Config, x: Exec, h: nat, r: Round, from: Round, offer: Offer, blobs: Sidecars)
    requires Restreamable(config, x.disk, h, r, from, offer, blobs)
    ensures var y := Restream(config, x, h, r, from);
            && y.mem == x.mem
            && y.disk == x.disk.(
                 proposals := x.disk.proposals[(h, r) := Proposal(offer.value, config.address)],
                 blocks := x.disk.blocks[(h, r) := offer.payload],
                 undecidedMetas := x.disk.undecidedMetas[(h, r) := offer.entry],
                 undecided := Stored(x.disk.undecided, h, r, Resigned(config, offer.entry, blobs)))
  {
    hide Resigned, Rebuild, StoreSidecars, Stored, Config.IndexOf, Listing, HasBlobs, RoundBlobs,
         Numbered, SigningIndex;
    RoundListing(x.disk, h, from, offer, blobs);
    RebuildIsResigned(config, offer.entry, blobs);
    var x1 := Do(x, PutProposal(h, r, Proposal(offer.value, config.address)));
    var x3 := Do(Do(x1, PutBlock(h, r, offer.payload)), PutUndecidedMeta(h, r, offer.entry));
    StoreSidecarsEffect(x3, h, r, Resigned(config, offer.entry, blobs));
    assert offer.entry.blobCount == 0 ==> Resigned(config, offer.entry, blobs) == [];
  }

  /** Restreaming a ready round into a blank one makes that round ready too, with the same value,
      payload and entry and the same blobs under a new signature, and leaves the first round alone;
      the copy backs its block if and only if the first does. */
  lemma RestreamedIsReady(
    config: Config, x: Exec, h: nat, r: Round, from: Round, offer: Offer, blobs: Sidecars)
    requires Restreamable(config, x.disk, h, r, from, offer, blobs)
    requires RoundIndices(x.disk.undecided, h, r) == {}
    ensures var y, copy := Restream(config, x, h, r, from), RestreamedOffer(config, offer, blobs);
            && Ready(h, r, copy, y.disk) && Ready(h, from, WithBlobs(offer, blobs), y.disk)
            && (Sufficient(config.crypto, copy)
                <==> Sufficient(config.crypto, WithBlobs(offer, blobs)))
  {
    hide Restream, Resigned, Listing, RoundIndices, SigningIndex, SidecarHashes, HashesOf, Positions,
         HasBlobs, Fits, Stored;
    var u, sidecars := x.disk.undecided, Resigned(config, offer.entry, blobs);
    RestreamEffect(config, x, h, r, from, offer, blobs);
    ResignedKeeps(config, offer.entry, blobs);
    CopyHasBlobs(u, h, r, sidecars);
    CopyLeaves(u, h, r, sidecars, from, Positions(blobs));
    PositionsListed(sidecars);
    PositionsListed(blobs);
  }

  lemma PositionsListed(sidecars: Sidecars)
    ensures Listing(Positions(sidecars)) == sidecars
  {
    hide Listing;
    ListingInOrder(Positions(sidecars), sidecars);
  }

  lemma CopyHasBlobs(u: Undecided, h: nat, r: Round, sidecars: Sidecars)
    requires RoundIndices(u, h, r) == {} && Numbered(sidecars, 0)
    ensures HasBlobs(Stored(u, h, r, sidecars), h, r, Positions(sidecars))
  {
    hide Stored, RoundIndices;
    StoredNumbered(u, h, r, sidecars, 0);
    forall i: nat ensures (h, r, i) !in u {
      RoundHolds(u, h, r, i);
    }
  }

  lemma CopyLeaves(
    u: Undecided, h: nat, r: Round, sidecars: Sidecars, q: Round, blobs: map<nat, Sidecar>)
    requires q != r && HasBlobs(u, h, q, blobs)
    ensures HasBlobs(Stored(u, h, r, sidecars), h, q, blobs)
  {
    hide Stored;
    StoredElsewhere(u, h, r, sidecars, q);
  }

  lemma ResignedKeeps(config: Config, m: Metadata, blobs: Sidecars)
    requires Fits(m, blobs) && SigningIndex(config, m).Some?
    ensures Numbered(Resigned(config, m, blobs), 0)
    ensures SidecarHashes(config.crypto, Resigned(config, m, blobs))
            == SidecarHashes(config.crypto, blobs)
  {
    hide Config.IndexOf;
  }

  lemma {:induction false} StoredElsewhere(
    u: Undecided, h: nat, r: Round, sidecars: seq<Sidecar>, q: Round)
    requires q != r
    ensures var v := Stored(u, h, r, sidecars);
            forall i: nat :: ((h, q, i) in v <==> (h, q, i) in u)
                             && ((h, q, i) in u ==> v[(h, q, i)] == u[(h, q, i)])
    decreases |sidecars|
  {
    if sidecars != [] {
      StoredElsewhere(u[(h, r, sidecars[0].index) := sidecars[0]], h, r, sidecars[1..], q);
    }
  }

  /** A round whose entry is already the decided one is restreamed under that entry and without blobs if
      the height has none or they are pruned; with blobs that are no longer in the round nothing
      happens. */
  lemma AdoptedRestreams(config: Config, x: Exec, h: nat, r: Round, from: Round)
    requires (h, from) in x.disk.proposals && x.disk.BlockData(h, from).Some? && Blank(x.disk, h, r)
    requires (h, from) !in x.disk.undecidedMetas && h in x.disk.metas
    requires RoundIndices(x.disk.undecided, h, from) == {}
    ensures var y, p := Restream(config, x, h, r, from), x.disk.proposals[(h, from)];
            && y.mem == x.mem
            && y.disk == if x.disk.metas[h].blobCount > 0 && !x.disk.metas[h].pruned then x.disk
                         else x.disk.(
                           proposals := x.disk.proposals[(h, r) := p.(proposer := config.address)],
                           blocks := x.disk.blocks[(h, r) := x.disk.BlockData(h, from).value],
                           undecidedMetas := x.disk.undecidedMetas[(h, r) := x.disk.Meta(h)])
  {
    hide Rebuild, Listing, RoundIndices, Disk.Meta, RoundBlobs, StoreSidecars;
    NoBlobsListed(x.disk.undecided, h, from);
    SameCount(x.disk, h);
    var p, data := x.disk.proposals[(h, from)], x.disk.BlockData(h, from).value;
    var x2 := Do(Do(x, PutProposal(h, r, p.(proposer := config.address))), PutBlock(h, r, data));
    StoreNone(Do(x2, PutUndecidedMeta(h, r, x.disk.Meta(h))), h, r);
  }

  lemma SameCount(d: Disk, h: nat)
    requires h in d.metas
    ensures d.Meta(h).blobCount == d.metas[h].blobCount
  {
  }

  lemma StoreNone(x: Exec, h: nat, r: Round)
    ensures StoreSidecars(x, h, r, []) == x
  {
  }

  lemma NoBlobsListed(u: Undecided, h: nat, r: Round)
    requires RoundIndices(u, h, r) == {}
    ensures Listing(RoundBlobs(u, h, r)) == []
  {
    hide Listing;
    forall i: nat ensures i !in RoundBlobs(u, h, r) {
      RoundHolds(u, h, r, i);
    }
    ListingInOrder(RoundBlobs(u, h, r), []);
  }

  /** A proposer that restreams its own proposal repeats it exactly. */
  lemma OwnRestreamed(
    config: Config, d: Disk, h: nat, exec: ExecutionHeader, bundle: Bundle, payload: Payload)
    requires d.ParentRoot(config.crypto, h).Some? && config.IndexOf(config.address).Some?
    ensures var offer := OwnOffer(config, d, h, exec, bundle, payload);
            var blobs := ProposedSidecars(config, d, h, exec, bundle);
            && offer == WithBlobs(offer, blobs) && Fits(offer.entry, blobs)
            && Resigned(config, offer.entry, blobs) == blobs
            && RestreamedOffer(config, offer, blobs) == offer
  {
    hide Config.IndexOf, Disk.ParentRoot;
    var entry := ProposedEntry(config, d, h, exec, bundle);
    var blobs := ProposedSidecars(config, d, h, exec, bundle);
    assert Resigned(config, entry, blobs) == blobs;
  }

  /** Restreamed blobs verify at another node with the same parent if and only if the node signs them
      under its own index. */
  lemma RestreamedIsVerified(
    ours: Config, third: Config, d: Disk, m: Metadata, blobs: Sidecars)
    requires Trusted(ours, third) && Fits(m, blobs) && blobs != []
    requires d.ParentRoot(third.crypto, m.height) == Some(m.parentRoot)
    ensures SidecarsVerified(third, d, m.height, ours.address, Value(m.exec, m.commitments),
                             Resigned(ours, m, blobs))
            <==> m.proposerHint in {None, ours.IndexOf(ours.address)}
  {
    hide Disk.ParentRoot, Config.IndexOf;
    SameIndex(ours, third, ours.address, 0);
    var sidecars := Resigned(ours, m, blobs);
    assert sidecars[0] in sidecars;
    forall s | s in sidecars
      ensures s.header == sidecars[0].header && s.headerSignature == sidecars[0].headerSignature
      ensures s.index < |m.commitments| && m.commitments[s.index] == s.commitment
      ensures third.crypto.included(s, sidecars[0].header.bodyRoot)
    {
      var i :| 0 <= i < |sidecars| && sidecars[i] == s;
      assert s.inclusionProof == third.crypto.proveIncluded(m.commitments, s.index, m.exec);
    }
  }
}
