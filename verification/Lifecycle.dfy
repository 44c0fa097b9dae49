/** What proposing and receiving leave in a round, and what one node's proposal is at another. */
module Lifecycle {

  import opened Types
  import opened Ordering
  import opened BlobMetadata
  import opened BlobFamilies
  import opened DiskState
  import opened DiskInvariant
  import opened Node
  import opened NodeBlobs
  import opened NodeMemory
  import opened SyncSoundness
  import opened DecisionClaims
  import opened BlobReplacement
  import opened ReadyRounds
  import opened HeaderChain
  import Streaming

  // ----- Reading stored blobs back -----

  ghost predicate Numbered(sidecars: seq<Sidecar>, from: nat) {
    forall k :: 0 <= k < |sidecars| ==> sidecars[k].index == from + k
  }

  lemma {:induction false} StoredNumbered(
    u: Undecided, h: nat, r: Round, sidecars: seq<Sidecar>, from: nat)
    requires Numbered(sidecars, from)
    ensures var v := Stored(u, h, r, sidecars);
            && (forall i: nat :: from <= i < from + |sidecars| ==>
                  (h, r, i) in v && v[(h, r, i)] == sidecars[i - from])
            && (forall i: nat :: !(from <= i < from + |sidecars|) ==>
                  ((h, r, i) in v <==> (h, r, i) in u)
                  && ((h, r, i) in u ==> v[(h, r, i)] == u[(h, r, i)]))
    decreases |sidecars|
  {
    if sidecars != [] {
      var rest := sidecars[1..];
      assert forall k :: 0 <= k < |rest| ==> rest[k] == sidecars[k + 1];
      StoredNumbered(u[(h, r, sidecars[0].index) := sidecars[0]], h, r, rest, from + 1);
    }
  }

  lemma ListingAt(m: map<nat, Sidecar>, k: nat)
    requires k < |m.Keys|
    ensures |Listing(m)| == |m.Keys| == |Ascending(m.Keys)|
    ensures Ascending(m.Keys)[k] in m && Listing(m)[k] == m[Ascending(m.Keys)[k]]
  {
    hide Ascending;
    assert Ascending(m.Keys)[k] in Ascending(m.Keys);
  }

  lemma ListedAt(m: map<nat, Sidecar>, n: nat, k: nat)
    requires m.Keys == Streaming.UpTo(n) && k <= n
    ensures |Listing(m)| == n + 1 && k in m && Listing(m)[k] == m[k]
  {
    hide Ascending, Streaming.UpTo, Listing;
    Streaming.AscendingUpTo(n, k);
    ListingAt(m, k);
  }

  /** The map holds the sidecars under their positions and nothing else. */
  ghost predicate Holds(m: map<nat, Sidecar>, sidecars: seq<Sidecar>) {
    forall i: nat :: (i in m <==> i < |sidecars|) && (i in m ==> m[i] == sidecars[i])
  }

  lemma HeldKeys(m: map<nat, Sidecar>, sidecars: seq<Sidecar>)
    requires Holds(m, sidecars)
    ensures m.Keys == if sidecars == [] then {} else Streaming.UpTo(|sidecars| - 1)
  {
    hide Streaming.UpTo;
    if sidecars != [] {
      var all := Streaming.UpTo(|sidecars| - 1);
      forall i: nat ensures i in m.Keys <==> i in all { }
    }
  }

  lemma HeldAt(m: map<nat, Sidecar>, sidecars: seq<Sidecar>, k: nat)
    requires Holds(m, sidecars) && k < |sidecars|
    ensures |Listing(m)| == |sidecars| && Listing(m)[k] == sidecars[k]
  {
    hide Ascending, Streaming.UpTo, Listing;
    HeldKeys(m, sidecars);
    ListedAt(m, |sidecars| - 1, k);
  }

  lemma ListingInOrder(m: map<nat, Sidecar>, sidecars: seq<Sidecar>)
    requires Holds(m, sidecars)
    ensures Listing(m) == sidecars
  {
    hide Listing, Holds;
    if sidecars == [] {
      HeldKeys(m, sidecars);
      ListingSize(m);
    } else {
      HeldAt(m, sidecars, 0);
      forall k | 0 <= k < |sidecars| ensures Listing(m)[k] == sidecars[k] {
        HeldAt(m, sidecars, k);
      }
    }
  }

  // ----- What a node proposes -----

  /** The conditions under which a proposal goes through: the round is new, the parent is known, the
      node is a validator and its own blobs pass the KZG check. */
  ghost predicate Proposable(
    config: Config, x: Exec, h: nat, r: Round, exec: ExecutionHeader, bundle: Bundle)
  {
    && (h, r) !in x.disk.proposals && (h, r) !in x.disk.undecidedMetas
    && x.disk.BlockData(h, r).None?
    && x.disk.ParentRoot(config.crypto, h).Some? && config.IndexOf(config.address).Some?
    && config.crypto.kzgValid(ProposedSidecars(config, x.disk, h, exec, bundle))
  }

  function ProposedSidecars(
    config: Config, d: Disk, h: nat, exec: ExecutionHeader, bundle: Bundle): (s: Sidecars)
    requires d.ParentRoot(config.crypto, h).Some? && config.IndexOf(config.address).Some?
    ensures |s| == |bundle|
  {
    var commitments := BundleCommitments(bundle);
    var header := BeaconHeader(
      h, config.IndexOf(config.address).value, d.ParentRoot(config.crypto, h).value,
      exec.stateRoot, config.crypto.bodyRoot(commitments, exec));
    BuildSidecars(config.crypto, bundle, header, exec)
  }

  /** The entry of a proposal. */
  function ProposedEntry(
    config: Config, d: Disk, h: nat, exec: ExecutionHeader, bundle: Bundle): (m: Metadata)
    requires d.ParentRoot(config.crypto, h).Some?
    ensures m.Valid() && m.blobCount == |bundle|
  {
    New(h, d.ParentRoot(config.crypto, h).value, BundleCommitments(bundle),
        BundleKeccaks(config.crypto, bundle), exec, config.IndexOf(config.address))
  }

  /** The header that a proposal signs hashes to the header root of the entry it stores. */
  lemma SignedHeaderIsEntry(
    config: Config, d: Disk, h: nat, exec: ExecutionHeader, bundle: Bundle, k: nat)
    requires d.ParentRoot(config.crypto, h).Some? && config.IndexOf(config.address).Some?
    requires k < |bundle|
    ensures var s := ProposedSidecars(config, d, h, exec, bundle)[k];
            && config.crypto.headerRoot(s.header)
               == ProposedEntry(config, d, h, exec, bundle).HeaderRoot(config.crypto)
            && s.headerSignature == config.crypto.signHeader(s.header)
  {
    hide Config.IndexOf, Disk.ParentRoot;
  }

  lemma ProposeEffect(
    config: Config, x: Exec, h: nat, r: Round, exec: ExecutionHeader, bundle: Bundle,
    payload: Payload)
    requires Proposable(config, x, h, r, exec, bundle)
    ensures var y := Propose(config, x, h, r, exec, bundle, payload);
            && y.disk == x.disk.(
                 undecided := Stored(
                   x.disk.undecided, h, r, ProposedSidecars(config, x.disk, h, exec, bundle)),
                 proposals := x.disk.proposals[
                   (h, r) := Proposal(Value(exec, BundleCommitments(bundle)), config.address)],
                 undecidedMetas := x.disk.undecidedMetas[
                   (h, r) := ProposedEntry(config, x.disk, h, exec, bundle)],
                 blocks := x.disk.blocks[(h, r) := payload])
            && y.mem == if bundle != [] then x.mem.Track(h, r) else x.mem
  {
    hide StoreSidecars, BuildSidecars, Config.IndexOf, Disk.ParentRoot, BundleKeccaks, Stored,
         BundleCommitments, New;
    var commitments := BundleCommitments(bundle);
    var x1 := Do(x, PutProposal(h, r, Proposal(Value(exec, commitments), config.address)));
    assert x1.disk.ParentRoot(config.crypto, h) == x.disk.ParentRoot(config.crypto, h) by {
      ParentFrame(config, x.disk, x1.disk, h);
    }
    var x2 := Do(x1, PutUndecidedMeta(h, r, ProposedEntry(config, x.disk, h, exec, bundle)));
    var x3 := if bundle != [] then x2.(mem := x2.mem.Track(h, r)) else x2;
    var x4 := Do(x3, PutBlock(h, r, payload));
    StoreSidecarsEffect(x4, h, r, ProposedSidecars(config, x.disk, h, exec, bundle));
  }

  lemma ParentFrame(config: Config, d: Disk, e: Disk, h: nat)
    requires e.metas == d.metas && e.records == d.records
    ensures e.ParentRoot(config.crypto, h) == d.ParentRoot(config.crypto, h)
  {
  }

  lemma SameHashes(crypto: Crypto, bundle: Bundle, sidecars: Sidecars)
    requires |sidecars| == |bundle|
    requires forall i :: 0 <= i < |sidecars| ==> sidecars[i].commitment == bundle[i].commitment
    ensures SidecarHashes(crypto, sidecars) == HashesOf(crypto, BundleCommitments(bundle))
  {
  }

  function Positions(sidecars: seq<Sidecar>): map<nat, Sidecar> {
    map i: nat | i < |sidecars| :: sidecars[i]
  }

  /** What a proposal offers. */
  function OwnOffer(
    config: Config, d: Disk, h: nat, exec: ExecutionHeader, bundle: Bundle, payload: Payload): Offer
    requires d.ParentRoot(config.crypto, h).Some? && config.IndexOf(config.address).Some?
  {
    Offer(Value(exec, BundleCommitments(bundle)), config.address, payload,
          ProposedEntry(config, d, h, exec, bundle),
          Positions(ProposedSidecars(config, d, h, exec, bundle)))
  }

  /** The payload lists the commitments' hashes, or leaves them to the proposal. */
  ghost predicate ListsHashes(crypto: Crypto, payload: Payload, commitments: seq<Commitment>) {
    payload.ssz != [] && payload.blobHashes in {[], HashesOf(crypto, commitments)}
  }

  /** The round and the height are new, and the payload lists the bundle's blobs. */
  ghost predicate Decidable(
    config: Config, x: Exec, h: nat, r: Round, exec: ExecutionHeader, bundle: Bundle,
    payload: Payload)
  {
    && Proposable(config, x, h, r, exec, bundle) && Undone(h, x.disk)
    && RoundIndices(x.disk.undecided, h, r) == {}
    && ListsHashes(config.crypto, payload, BundleCommitments(bundle))
  }

  /** After proposing, the round holds the proposal's offer, and its blobs back its block. */
  lemma ReadyProposed(
    config: Config, x: Exec, h: nat, r: Round, exec: ExecutionHeader, bundle: Bundle,
    payload: Payload)
    requires Decidable(config, x, h, r, exec, bundle, payload)
    ensures var offer := OwnOffer(config, x.disk, h, exec, bundle, payload);
            && Ready(h, r, offer, Propose(config, x, h, r, exec, bundle, payload).disk)
            && Sufficient(config.crypto, offer)
  {
    hide Propose, BuildSidecars, Stored, Config.IndexOf, Disk.ParentRoot, Listing, HashesOf,
         SidecarHashes, BundleCommitments, RoundIndices;
    ProposeEffect(config, x, h, r, exec, bundle, payload);
    var sidecars := ProposedSidecars(config, x.disk, h, exec, bundle);
    StoredNumbered(x.disk.undecided, h, r, sidecars, 0);
    forall i: nat ensures (h, r, i) !in x.disk.undecided {
      RoundHolds(x.disk.undecided, h, r, i);
    }
    ListingInOrder(Positions(sidecars), sidecars);
    SameHashes(config.crypto, bundle, sidecars);
  }

  lemma RoundHolds(u: Undecided, h: nat, r: Round, i: nat)
    ensures (h, r, i) in u <==> i in RoundIndices(u, h, r)
  {
  }

  // ----- What a node receives -----

  /** The conditions under which a received proposal is stored: it is not outdated, the parent is known,
      its blobs verify, and the round is new. */
  ghost predicate Receivable(
    config: Config, x: Exec, h: nat, r: Round, proposer: Address, exec: ExecutionHeader,
    sidecars: Sidecars)
  {
    && h >= x.mem.currentHeight && x.disk.ParentRoot(config.crypto, h).Some?
    && (sidecars != [] ==>
          && SidecarsVerified(config, x.disk, h, proposer, Value(exec, CommitmentsOf(sidecars)),
                              sidecars)
          && config.crypto.kzgValid(sidecars))
    && (h, r) !in x.disk.proposals && (h, r) !in x.disk.undecidedMetas && (h, r) !in x.disk.blocks
  }

  /** The last sidecar under each index. */
  function ByIndex(sidecars: seq<Sidecar>): map<nat, Sidecar> {
    if sidecars == [] then map[]
    else map[sidecars[0].index := sidecars[0]] + ByIndex(sidecars[1..])
  }

  /** What a received proposal offers. */
  function ReceivedOffer(
    config: Config, d: Disk, h: nat, proposer: Address, exec: ExecutionHeader, sidecars: Sidecars,
    payload: Payload): Offer
    requires d.ParentRoot(config.crypto, h).Some?
  {
    var commitments := CommitmentsOf(sidecars);
    var entry := New(h, d.ParentRoot(config.crypto, h).value, commitments,
                     Keccaks(config.crypto, sidecars), exec, config.IndexOf(proposer));
    Offer(Value(exec, commitments), proposer, payload, entry, ByIndex(sidecars))
  }

  lemma ReceiveEffect(
    config: Config, x: Exec, h: nat, r: Round, proposer: Address, exec: ExecutionHeader,
    sidecars: Sidecars, payload: Payload)
    requires Receivable(config, x, h, r, proposer, exec, sidecars)
    ensures var y := Receive(config, x, h, r, proposer, exec, sidecars, payload, true);
            var offer := ReceivedOffer(config, x.disk, h, proposer, exec, sidecars, payload);
            && y.disk == x.disk.(
                 undecided := Stored(x.disk.undecided, h, r, sidecars),
                 proposals := x.disk.proposals[(h, r) := Proposal(offer.value, proposer)],
                 undecidedMetas := x.disk.undecidedMetas[(h, r) := offer.entry],
                 blocks := x.disk.blocks[(h, r) := payload])
            && y.mem == if sidecars != [] then x.mem.Track(h, r) else x.mem
  {
    hide StoreSidecars, Config.IndexOf, Disk.ParentRoot, Keccaks, SidecarsVerified, Stored,
         CommitmentsOf, New;
    StoreSidecarsEffect(x, h, r, sidecars);
    if sidecars != [] {
      VerifiedParent(
        config, x.disk, h, proposer, Value(exec, CommitmentsOf(sidecars)), sidecars);
    }
  }

  lemma {:induction false} StoredByIndex(
    u: Undecided, h: nat, r: Round, sidecars: seq<Sidecar>, i: nat)
    ensures var v, blobs := Stored(u, h, r, sidecars), ByIndex(sidecars);
            && (i in blobs ==> (h, r, i) in v && v[(h, r, i)] == blobs[i])
            && (i !in blobs ==> ((h, r, i) in v <==> (h, r, i) in u))
            && (i !in blobs && (h, r, i) in u ==> v[(h, r, i)] == u[(h, r, i)])
    decreases |sidecars|
  {
    if sidecars != [] {
      StoredByIndex(u[(h, r, sidecars[0].index) := sidecars[0]], h, r, sidecars[1..], i);
    }
  }

  /** After a proposal is received, the round holds exactly what was offered: this payload, a proposal
      with this proposer and these commitments, the entry, and these blobs. */
  lemma ReadyReceived(
    config: Config, x: Exec, h: nat, r: Round, proposer: Address, exec: ExecutionHeader,
    sidecars: Sidecars, payload: Payload)
    requires Receivable(config, x, h, r, proposer, exec, sidecars) && Undone(h, x.disk)
    requires RoundIndices(x.disk.undecided, h, r) == {}
    ensures var offer := ReceivedOffer(config, x.disk, h, proposer, exec, sidecars, payload);
            Ready(h, r, offer,
                  Receive(config, x, h, r, proposer, exec, sidecars, payload, true).disk)
  {
    hide Receive, SidecarsVerified, Stored, Config.IndexOf, Disk.ParentRoot, New, Keccaks, CommitmentsOf,
         RoundIndices, ByIndex;
    ReceiveEffect(config, x, h, r, proposer, exec, sidecars, payload);
    forall i: nat
      ensures (h, r, i) in Stored(x.disk.undecided, h, r, sidecars) <==> i in ByIndex(sidecars)
      ensures i in ByIndex(sidecars) ==>
                Stored(x.disk.undecided, h, r, sidecars)[(h, r, i)] == ByIndex(sidecars)[i]
    {
      StoredByIndex(x.disk.undecided, h, r, sidecars, i);
      RoundHolds(x.disk.undecided, h, r, i);
    }
  }

  lemma {:induction false} ByIndexKeys(sidecars: seq<Sidecar>)
    ensures ByIndex(sidecars).Keys == IndexSet(sidecars)
    ensures forall i :: i in ByIndex(sidecars) ==>
      ByIndex(sidecars)[i] in sidecars && ByIndex(sidecars)[i].index == i
    decreases |sidecars|
  {
    if sidecars != [] {
      ByIndexKeys(sidecars[1..]);
      assert forall s :: s in sidecars <==> s == sidecars[0] || s in sidecars[1..];
      assert IndexSet(sidecars) == {sidecars[0].index as nat} + IndexSet(sidecars[1..]);
    }
  }

  /** As many indices as sidecars means that no index occurs twice. */
  lemma {:induction false} CountedDistinct(sidecars: seq<Sidecar>)
    ensures |IndexSet(sidecars)| <= |sidecars|
    ensures |IndexSet(sidecars)| == |sidecars| ==> DistinctIndices(sidecars)
    decreases |sidecars|
  {
    hide DistinctIndices;
    if sidecars == [] {
      NoneDistinct();
    } else {
      var first, rest := sidecars[0].index as nat, sidecars[1..];
      CountedDistinct(rest);
      assert forall s :: s in sidecars <==> s == sidecars[0] || s in rest;
      assert IndexSet(sidecars) == {first} + IndexSet(rest);
      if |IndexSet(sidecars)| == |sidecars| {
        assert first !in IndexSet(rest);
        FirstDiffers(sidecars);
      }
    }
  }

  lemma FirstDiffers(sidecars: seq<Sidecar>)
    requires sidecars != [] && DistinctIndices(sidecars[1..])
    requires sidecars[0].index as nat !in IndexSet(sidecars[1..])
    ensures DistinctIndices(sidecars)
  {
    var rest := sidecars[1..];
    forall i, j | 0 <= i < j < |sidecars| ensures sidecars[i].index != sidecars[j].index {
      assert sidecars[j] == rest[j - 1] && rest[j - 1] in rest;
      if i > 0 { assert sidecars[i] == rest[i - 1]; }
    }
  }

  /** The listed blobs of distinct verified sidecars carry the commitments in order. */
  lemma ListedHashes(crypto: Crypto, value: Value, sidecars: seq<Sidecar>)
    requires DistinctIndices(sidecars) && MatchesValue(value, sidecars)
    requires |value.commitments| == |sidecars| && sidecars != []
    ensures SidecarHashes(crypto, Listing(ByIndex(sidecars))) == HashesOf(crypto, value.commitments)
  {
    hide Listing, Streaming.UpTo, DistinctIndices, ByIndex;
    var n, blobs := |sidecars| - 1, ByIndex(sidecars);
    ByIndexKeys(sidecars);
    DistinctRange(value, sidecars);
    assert blobs.Keys == Streaming.UpTo(n) by {
      forall i: nat ensures i in blobs.Keys <==> i in Streaming.UpTo(n) { UpToHas(n, i); }
    }
    ListedAt(blobs, n, 0);
    forall k | 0 <= k <= n
      ensures Listing(blobs)[k].commitment == value.commitments[k]
    {
      ListedAt(blobs, n, k);
    }
  }

  lemma UpToHas(n: nat, i: nat)
    ensures i in Streaming.UpTo(n) <==> i <= n
  {
  }

  /** A received offer backs its block if and only if no index occurs twice among its sidecars. */
  lemma ReceivedSuffices(
    config: Config, x: Exec, h: nat, r: Round, proposer: Address, exec: ExecutionHeader,
    sidecars: Sidecars, payload: Payload)
    requires Receivable(config, x, h, r, proposer, exec, sidecars)
    requires ListsHashes(config.crypto, payload, CommitmentsOf(sidecars))
    ensures var offer := ReceivedOffer(config, x.disk, h, proposer, exec, sidecars, payload);
            Sufficient(config.crypto, offer) <==> DistinctIndices(sidecars)
  {
    hide DistinctIndices, Listing, Disk.ParentRoot, Config.IndexOf, New, Keccaks, HashesOf,
         SidecarHashes, IndexSet, ByIndex;
    var value := Value(exec, CommitmentsOf(sidecars));
    var blobs := ByIndex(sidecars);
    if sidecars == [] {
      NoneDistinct();
      assert HashesOf(config.crypto, value.commitments) == [];
    } else {
      ByIndexKeys(sidecars);
      CountedDistinct(sidecars);
      ListingSize(blobs);
      VerifiedMatches(config, x.disk, h, proposer, value, sidecars);
      if DistinctIndices(sidecars) {
        ListedHashes(config.crypto, value, sidecars);
      }
      assert |SidecarHashes(config.crypto, Listing(blobs))| == |Listing(blobs)|;
    }
  }

  lemma NoneDistinct()
    ensures DistinctIndices([])
  {
  }

  lemma VerifiedMatches(
    config: Config, d: Disk, h: nat, proposer: Address, value: Value, sidecars: Sidecars)
    requires SidecarsVerified(config, d, h, proposer, value, sidecars)
    ensures MatchesValue(value, sidecars) && |value.commitments| == |sidecars| && sidecars != []
  {
  }

  // ----- One node's proposal at another -----

  /** The other node is one of our validators, follows the same rules, signs with its own key, and
      inclusion proofs made by those rules verify. */
  ghost predicate Trusted(theirs: Config, ours: Config) {
    && SameRules(theirs.crypto, ours.crypto) && ours.validators == theirs.validators
    && theirs.IndexOf(theirs.address).Some?
    && (forall header ::
          ours.crypto.headerSigned(
            theirs.validators[theirs.IndexOf(theirs.address).value].key, header,
            theirs.crypto.signHeader(header)))
    && (forall s: Sidecar, c: seq<Commitment>, e ::
          s.index < |c| && s.commitment == c[s.index]
          && s.inclusionProof == ours.crypto.proveIncluded(c, s.index, e) ==>
            ours.crypto.included(s, ours.crypto.bodyRoot(c, e)))
  }

  lemma SameIndex(theirs: Config, ours: Config, address: Address, from: nat)
    requires ours.validators == theirs.validators
    ensures ours.IndexOf(address, from) == theirs.IndexOf(address, from)
    decreases |ours.validators| - from
  {
  }

  lemma ProposedCommitments(
    config: Config, d: Disk, h: nat, exec: ExecutionHeader, bundle: Bundle)
    requires d.ParentRoot(config.crypto, h).Some? && config.IndexOf(config.address).Some?
    ensures var sidecars := ProposedSidecars(config, d, h, exec, bundle);
            && CommitmentsOf(sidecars) == BundleCommitments(bundle)
            && Keccaks(config.crypto, sidecars) == BundleKeccaks(config.crypto, bundle)
            && DistinctIndices(sidecars) && ByIndex(sidecars) == Positions(sidecars)
  {
    hide Disk.ParentRoot, Config.IndexOf, ByIndex;
    var sidecars := ProposedSidecars(config, d, h, exec, bundle);
    forall i: nat
      ensures i in ByIndex(sidecars) <==> i in Positions(sidecars)
      ensures i in ByIndex(sidecars) ==> ByIndex(sidecars)[i] == Positions(sidecars)[i]
    {
      NumberedByIndex(sidecars, 0, i);
    }
  }

  lemma {:induction false} NumberedByIndex(sidecars: seq<Sidecar>, from: nat, i: nat)
    requires Numbered(sidecars, from)
    ensures i in ByIndex(sidecars) <==> from <= i < from + |sidecars|
    ensures i in ByIndex(sidecars) ==> ByIndex(sidecars)[i] == sidecars[i - from]
    decreases |sidecars|
  {
    if sidecars != [] {
      NumberedByIndex(sidecars[1..], from + 1, i);
    }
  }

  /** The sidecars that one node proposes verify at every other node with the same parent. */
  lemma ProposedIsVerified(
    theirs: Config, ours: Config, d: Disk, e: Disk, h: nat, exec: ExecutionHeader, bundle: Bundle)
    requires Trusted(theirs, ours) && bundle != []
    requires d.ParentRoot(theirs.crypto, h).Some?
    requires e.ParentRoot(ours.crypto, h) == d.ParentRoot(theirs.crypto, h)
    ensures SidecarsVerified(
              ours, e, h, theirs.address, Value(exec, BundleCommitments(bundle)),
              ProposedSidecars(theirs, d, h, exec, bundle))
  {
    hide Disk.ParentRoot, Config.IndexOf;
    SameIndex(theirs, ours, theirs.address, 0);
    var sidecars := ProposedSidecars(theirs, d, h, exec, bundle);
    forall s | s in sidecars
      ensures s.header == sidecars[0].header && s.headerSignature == sidecars[0].headerSignature
      ensures s.index < |bundle| && BundleCommitments(bundle)[s.index] == s.commitment
      ensures ours.crypto.included(s, sidecars[0].header.bodyRoot)
    {
      var i :| 0 <= i < |sidecars| && sidecars[i] == s;
      assert s.inclusionProof
             == ours.crypto.proveIncluded(BundleCommitments(bundle), s.index, exec);
    }
  }

  /** What a node receives of another's proposal is what the proposer holds. */
  lemma OffersAgree(
    theirs: Config, ours: Config, d: Disk, e: Disk, h: nat, exec: ExecutionHeader, bundle: Bundle,
    payload: Payload)
    requires Trusted(theirs, ours) && d.ParentRoot(theirs.crypto, h).Some?
    requires e.ParentRoot(ours.crypto, h) == d.ParentRoot(theirs.crypto, h)
    ensures ReceivedOffer(ours, e, h, theirs.address, exec,
                          ProposedSidecars(theirs, d, h, exec, bundle), payload)
            == OwnOffer(theirs, d, h, exec, bundle, payload)
  {
    hide Disk.ParentRoot, Config.IndexOf, New, ProposedSidecars, ByIndex, Positions;
    SameIndex(theirs, ours, theirs.address, 0);
    ProposedCommitments(theirs, d, h, exec, bundle);
    SameKeccaks(theirs.crypto, ours.crypto, ProposedSidecars(theirs, d, h, exec, bundle));
  }

  lemma SameKeccaks(a: Crypto, b: Crypto, sidecars: Sidecars)
    requires SameRules(a, b)
    ensures Keccaks(a, sidecars) == Keccaks(b, sidecars)
  {
  }
}
