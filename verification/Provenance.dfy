/** Where stored blobs come from: every blob carries a header for its height that the validator it names
    has signed. */
module Provenance {

  import opened Types
  import opened Ordering
  import opened BlobMetadata
  import opened BlobFamilies
  import opened DiskState
  import opened DiskInvariant
  import opened Node
  import opened NodeBlobs
  import opened NodeOps
  import opened NodeMemory
  import opened NodeSteps
  import opened NodeRuns
  import opened SyncSoundness
  import opened Trails
  import opened Traces
  import opened BlobTracking

  /** The sidecar's header is for the height and signed by the validator it names. */
  ghost predicate Genuine(config: Config, h: nat, s: Sidecar) {
    && s.header.slot == h && s.header.proposerIndex < |config.validators|
    && config.crypto.headerSigned(
         config.validators[s.header.proposerIndex].key, s.header, s.headerSignature)
  }

  ghost predicate AllGenuine(config: Config, d: Disk) {
    && (forall k :: k in d.undecided ==> Genuine(config, k.0, d.undecided[k]))
    && (forall k :: k in d.decided ==> Genuine(config, k.0, d.decided[k]))
  }

  /** So it is at every point and at the end. */
  ghost predicate GenuineExec(config: Config, x: Exec) {
    AllGenuine(config, x.disk) && forall p :: p in x.points ==> AllGenuine(config, p)
  }

  /** A write that stores no blob, or a genuine one, keeps them genuine. */
  lemma DoGenuine(config: Config, x: Exec, w: Write)
    requires GenuineExec(config, x) && !w.PutDecidedBlob?
    requires w.PutBlob? ==> Genuine(config, w.h, w.sidecar)
    ensures GenuineExec(config, Do(x, w))
  {
    hide Genuine;
  }

  lemma {:induction false} StoreGenuine(
    config: Config, x: Exec, h: nat, r: Round, sidecars: seq<Sidecar>)
    requires GenuineExec(config, x) && forall s :: s in sidecars ==> Genuine(config, h, s)
    ensures GenuineExec(config, StoreSidecars(x, h, r, sidecars))
    decreases |sidecars|
  {
    hide GenuineExec, Genuine, Do;
    if sidecars != [] {
      assert sidecars[0] in sidecars;
      DoGenuine(config, x, PutBlob(h, r, sidecars[0]));
      StoreGenuine(config, Do(x, PutBlob(h, r, sidecars[0])), h, r, sidecars[1..]);
    }
  }

  lemma GenuineMemory(config: Config, x: Exec, y: Exec)
    requires GenuineExec(config, x) && y.disk == x.disk && y.points == x.points
    ensures GenuineExec(config, y)
  {
  }

  /** Verified sidecars are genuine, and all name the proposer. */
  lemma VerifiedGenuine(
    config: Config, d: Disk, h: nat, proposer: Address, value: Value, sidecars: Sidecars)
    requires SidecarsVerified(config, d, h, proposer, value, sidecars)
    ensures forall s :: s in sidecars ==>
      && Genuine(config, h, s) && config.IndexOf(proposer) == Some(s.header.proposerIndex)
      && d.ParentRoot(config.crypto, h) == Some(s.header.parentRoot)
      && s.header.bodyRoot == config.crypto.bodyRoot(value.commitments, value.exec)
      && config.crypto.included(s, s.header.bodyRoot)
  {
    hide Disk.ParentRoot, Config.IndexOf;
  }

  /** What a proposal brings is verified before anything of it is stored. */
  lemma ReceiveGenuine(
    config: Config, x: Exec, h: nat, r: Round, proposer: Address, exec: ExecutionHeader,
    sidecars: Sidecars, payload: Payload, assembled: bool)
    requires GenuineExec(config, x)
    ensures GenuineExec(
              config, Receive(config, x, h, r, proposer, exec, sidecars, payload, assembled))
  {
    hide GenuineExec, Genuine, StoreSidecars, Config.IndexOf, Disk.ParentRoot, Keccaks, New,
         SidecarsVerified, CommitmentsOf, Do, Memory.Track;
    var value := Value(exec, CommitmentsOf(sidecars));
    var parent := x.disk.ParentRoot(config.crypto, h);
    if parent.Some?
       && (sidecars == [] || SidecarsVerified(config, x.disk, h, proposer, value, sidecars)) {
      if sidecars != [] {
        VerifiedGenuine(config, x.disk, h, proposer, value, sidecars);
      }
      StoreGenuine(config, x, h, r, sidecars);
      var x1 := StoreSidecars(x, h, r, sidecars);
      var meta := New(
        h, if sidecars != [] then sidecars[0].header.parentRoot else parent.value,
        value.commitments, Keccaks(config.crypto, sidecars), exec, config.IndexOf(proposer));
      var x2 := Do(x1, PutUndecidedMeta(h, r, meta));
      DoGenuine(config, x1, PutUndecidedMeta(h, r, meta));
      var x3 := if sidecars != [] then x2.(mem := x2.mem.Track(h, r)) else x2;
      GenuineMemory(config, x2, x3);
      var put := PutProposal(h, r, Proposal(value, proposer));
      DoGenuine(config, x3, put);
      DoGenuine(config, Do(x3, put), PutBlock(h, r, payload));
    }
  }

  /** The node's own signatures verify under its validator key. */
  ghost predicate SignsAsSelf(config: Config) {
    var k := config.IndexOf(config.address);
    k.Some? ==> forall header: BeaconHeader ::
      config.crypto.headerSigned(
        config.validators[k.value].key, header, config.crypto.signHeader(header))
  }

  lemma ProposeGenuine(
    config: Config, x: Exec, h: nat, r: Round, exec: ExecutionHeader, bundle: Bundle,
    payload: Payload)
    requires GenuineExec(config, x) && SignsAsSelf(config)
    ensures GenuineExec(config, Propose(config, x, h, r, exec, bundle, payload))
  {
    hide GenuineExec, StoreSidecars, Config.IndexOf, Disk.ParentRoot, BundleKeccaks, New,
         BundleCommitments, Do, Memory.Track;
    if x.disk.BlockData(h, r).None? {
      var commitments := BundleCommitments(bundle);
      var put := PutProposal(h, r, Proposal(Value(exec, commitments), config.address));
      DoGenuine(config, x, put);
      var x1 := Do(x, put);
      var index, parent := config.IndexOf(config.address), x1.disk.ParentRoot(config.crypto, h);
      if parent.Some? {
        var meta := New(
          h, parent.value, commitments, BundleKeccaks(config.crypto, bundle), exec, index);
        DoGenuine(config, x1, PutUndecidedMeta(h, r, meta));
        var x2 := Do(x1, PutUndecidedMeta(h, r, meta));
        var x3 := if bundle != [] then x2.(mem := x2.mem.Track(h, r)) else x2;
        GenuineMemory(config, x2, x3);
        DoGenuine(config, x3, PutBlock(h, r, payload));
        var x4 := Do(x3, PutBlock(h, r, payload));
        if index.Some? {
          var header := BeaconHeader(
            h, index.value, parent.value, exec.stateRoot, config.crypto.bodyRoot(commitments, exec));
          var sidecars := BuildSidecars(config.crypto, bundle, header, exec);
          forall s | s in sidecars ensures Genuine(config, h, s) {
            var i :| 0 <= i < |sidecars| && sidecars[i] == s;
          }
          StoreGenuine(config, x4, h, r, sidecars);
        }
      }
    }
  }

  // ----- Operations that store no new blob -----

  lemma GenuineAfter(config: Config, s: Scope, d: Disk, w: Write)
    requires AllGenuine(config, d) && Allowed(s, d, w) && !s.CandidateScope? && !s.SyncScope?
    ensures AllGenuine(config, Apply(d, w))
  {
    hide Genuine;
  }

  lemma GenuineKept(config: Config, inv: Disk -> bool, s: Scope)
    requires !s.CandidateScope? && !s.SyncScope?
    requires forall d :: inv(d) <==> AllGenuine(config, d)
    ensures Kept(inv, s)
  {
    hide AllGenuine, Allowed, Apply;
    forall d, w | inv(d) && Allowed(s, d, w) ensures inv(Apply(d, w)) {
      GenuineAfter(config, s, d, w);
    }
  }

  /** Decisions, notices, round changes and start-up only move blobs within their height or delete
      them. */
  lemma GenuineWithin(config: Config, s: Scope, x: Exec, y: Exec)
    requires GenuineExec(config, x) && Within(s, x, y) && !s.CandidateScope? && !s.SyncScope?
    ensures GenuineExec(config, y)
  {
    hide AllGenuine, Kept, Replay, PointsOf, AllAllowed;
    var inv: Disk -> bool := d => AllGenuine(config, d);
    GenuineKept(config, inv, s);
    var ws :| Trail(s, x, ws, y);
    ReplayKeeps(inv, s, x.disk, ws);
  }

  // ----- Restreaming -----

  /** A restream that stores blobs signs them as this node, and for this node. */
  ghost predicate RestreamsOwn(config: Config, d: Disk, h: nat, r: Round, from: Round) {
    var meta := MetaForRound(d, h, from);
    RestreamsBlobs(config, d, h, r, from) ==>
      meta.value.proposerHint in {None, config.IndexOf(config.address)}
  }

  lemma EntryHeight(config: Config, d: Disk, h: nat, r: Round)
    requires DiskOk(config, d)
    ensures MetaForRound(d, h, r).Some? ==> MetaForRound(d, h, r).value.height == h
  {
    hide RecordsOk, InlinesOk, PrunedOk, BlocksOk, MaxOrZero;
    if (h, r) in d.undecidedMetas {
      assert ParentOk(config.crypto, d.metas, (h, r).0, d.undecidedMetas[(h, r)]);
    } else if h in d.metas {
      assert ParentOk(config.crypto, d.metas, h, d.metas[h]);
    }
  }

  lemma RebuiltGenuine(config: Config, m: Metadata, blobs: seq<Sidecar>)
    requires SignsAsSelf(config) && m.proposerHint in {None, config.IndexOf(config.address)}
    ensures var rebuilt := Rebuild(config, m, blobs);
            rebuilt.Some? ==> forall s :: s in rebuilt.value ==> Genuine(config, m.height, s)
  {
    hide Config.IndexOf;
    var rebuilt := Rebuild(config, m, blobs);
    if rebuilt.Some? {
      forall s | s in rebuilt.value ensures Genuine(config, m.height, s) {
        var i :| 0 <= i < |rebuilt.value| && rebuilt.value[i] == s;
      }
    }
  }

  lemma RestreamGenuine(config: Config, x: Exec, h: nat, r: Round, from: Round)
    requires GenuineExec(config, x) && SignsAsSelf(config) && DiskOk(config, x.disk)
    requires RestreamsOwn(config, x.disk, h, r, from)
    ensures GenuineExec(config, Restream(config, x, h, r, from))
  {
    hide GenuineExec, Genuine, SignsAsSelf, DiskOk, StoreSidecars, Listing, RoundBlobs, Rebuild,
         MetaForRound, Do, Config.IndexOf;
    var d, meta := x.disk, MetaForRound(x.disk, h, from);
    EntryHeight(config, d, h, from);
    if (h, from) in d.proposals && d.BlockData(h, from).Some? && meta.Some? {
      var p := PutProposal(h, r, d.proposals[(h, from)].(proposer := config.address));
      var b, m := PutBlock(h, r, d.BlockData(h, from).value), PutUndecidedMeta(h, r, meta.value);
      DoGenuine(config, x, p);
      DoGenuine(config, Do(x, p), b);
      DoGenuine(config, Do(Do(x, p), b), m);
      var x3 := Do(Do(Do(x, p), b), m);
      StoreGenuine(config, x3, h, r, []);
      var blobs := Listing(RoundBlobs(d.undecided, h, from));
      var rebuilt := Rebuild(config, meta.value, blobs);
      if RestreamsBlobs(config, d, h, r, from) {
        RebuiltGenuine(config, meta.value, blobs);
        StoreGenuine(config, x3, h, r, rebuilt.value);
      }
    }
  }

  // ----- Synchronising -----

  lemma SyncMetadataGenuine(
    config: Config, x: Exec, h: nat, r: Round, proposer: Address, package: Package)
    requires GenuineExec(config, x) && package.MetadataOnly?
    ensures GenuineExec(config, Sync(config, x, h, r, proposer, package).0)
  {
    hide GenuineExec, SyncedMeta, HandleNotices, AdoptMeta, Do, Within;
    HandleNoticesWithin(config, ArchiveScope, x, package.notices);
    GenuineWithin(config, ArchiveScope, x, HandleNotices(config, x, package.notices));
    if package.payloadOpt.Some? {
      var x1 := Do(x, PutBlock(h, r, package.payloadOpt.value));
      DoGenuine(config, x, PutBlock(h, r, package.payloadOpt.value));
      var m := SyncedMeta(config, x1.disk, h, proposer, package);
      if m.Some? {
        var x2 := AdoptMeta(config, x1, h, r, m.value);
        AdoptGenuine(config, x1, h, r, m.value);
        var x3 := HandleNotices(config, x2, package.notices);
        HandleNoticesWithin(config, ArchiveScope, x2, package.notices);
        GenuineWithin(config, ArchiveScope, x2, x3);
        DoGenuine(config, x3, PutProposal(h, r, Proposal(package.value, proposer)));
      }
    }
  }

  lemma AdoptGenuine(config: Config, x: Exec, h: nat, r: Round, m: Metadata)
    requires GenuineExec(config, x)
    ensures GenuineExec(config, AdoptMeta(config, x, h, r, m))
  {
    hide GenuineExec, Do, Metadata.HeaderRoot;
    var x1 := Do(x, PutUndecidedMeta(h, r, m));
    DoGenuine(config, x, PutUndecidedMeta(h, r, m));
    DoGenuine(config, x1, PromoteMeta(h, r));
    GenuineMemory(config, Do(x1, PromoteMeta(h, r)), AdoptMeta(config, x, h, r, m));
  }

  lemma DropGenuine(config: Config, x: Exec, h: nat, r: Round)
    requires GenuineExec(config, x)
    ensures GenuineExec(config, DropBlobs(x, h, r))
  {
    hide GenuineExec, DropBlobs, Within;
    DropBlobsWithin(DecisionScope(h, r), x, h, r);
    GenuineWithin(config, DecisionScope(h, r), x, DropBlobs(x, h, r));
  }

  /** A full package of genuine sidecars leaves only genuine blobs, wherever a crash falls. */
  lemma SyncFullGenuine(
    config: Config, x: Exec, h: nat, r: Round, proposer: Address, package: Package)
    requires GenuineExec(config, x) && package.Full?
    requires forall s :: s in package.sidecars ==> Genuine(config, h, s)
    ensures GenuineExec(config, Sync(config, x, h, r, proposer, package).0)
  {
    hide GenuineExec, Genuine, StoreSidecars, PromoteBlobs, DropBlobs, HandleNotices,
         SidecarsVerified, MatchesValue, DistinctIndices, SyncedMeta, AdoptMeta, Disk.ParentRoot, Do,
         Within;
    var Full(value, payload, sidecars, notices) := package;
    var x1 := Do(x, PutBlock(h, r, payload));
    DoGenuine(config, x, PutBlock(h, r, payload));
    var x2 := StoreSidecars(x1, h, r, sidecars);
    StoreGenuine(config, x1, h, r, sidecars);
    DropGenuine(config, x2, h, r);
    DoGenuine(config, DropBlobs(x2, h, r), DeleteUndecidedMeta(h, r));
    PromoteBlobsWithin(DecisionScope(h, r), x2, h, r);
    GenuineWithin(config, DecisionScope(h, r), x2, PromoteBlobs(x2, h, r));
    var x3 := if sidecars != [] then PromoteBlobs(x2, h, r) else x2;
    DropGenuine(config, x3, h, r);
    DoGenuine(config, DropBlobs(x3, h, r), DeleteUndecidedMeta(h, r));
    var m := SyncedMeta(config, x3.disk, h, proposer, package);
    if m.Some? {
      AdoptGenuine(config, x3, h, r, m.value);
      var x4 := AdoptMeta(config, x3, h, r, m.value);
      DoGenuine(config, x4, PutProposal(h, r, Proposal(value, proposer)));
      var x5 := Do(x4, PutProposal(h, r, Proposal(value, proposer)));
      HandleNoticesWithin(config, ArchiveScope, x5, notices);
      GenuineWithin(config, ArchiveScope, x5, HandleNotices(config, x5, notices));
    }
  }

  /** A rejected package leaves no blob behind once it is handled to its end. */
  lemma RejectedLeavesNone(
    config: Config, x: Exec, h: nat, r: Round, proposer: Address, package: Package)
    requires package.Full? && !FullPackageOk(config, x.disk, h, proposer, package)
    ensures var y := Sync(config, x, h, r, proposer, package).0;
            && y.disk.decided == x.disk.decided
            && Included(y.disk.undecided, x.disk.undecided)
  {
    hide StoreSidecars, PromoteBlobs, DropBlobs, HandleNotices, SidecarsVerified, MatchesValue,
         DistinctIndices, SyncedMeta, AdoptMeta, Disk.ParentRoot, Quiet, Stored;
    var Full(value, payload, sidecars, notices) := package;
    FullPackageAccepted(config, x, h, r, proposer, package);
    StoredFacts(config, x, h, r, proposer, package);
    var x1 := Do(x, PutBlock(h, r, payload));
    var x2 := StoreSidecars(x1, h, r, sidecars);
    StoreSidecarsEffect(x1, h, r, sidecars);
    DropBlobsEffect(x2, h, r);
    StoredKeys(x.disk.undecided, h, r, sidecars);
    if sidecars == [] {
      StoredNothing(x.disk.undecided, h, r);
    } else if SidecarsVerified(config, x.disk, h, proposer, value, sidecars) {
      VerifiedParent(config, x.disk, h, proposer, value, sidecars);
    }
  }

  lemma DropStored(u: Undecided, h: nat, r: Round, sidecars: seq<Sidecar>)
    ensures DropRound(Stored(u, h, r, sidecars), h, r) == DropRound(u, h, r)
  {
    hide Stored;
    StoredKeys(u, h, r, sidecars);
  }

  /** What a rejected package leaves, table by table: its payload, if the round had none; a round without
      blobs, unless they failed the KZG check; and no entry of the round, if a sidecar does not match
      the value. */
  lemma RejectedExactly(
    config: Config, x: Exec, h: nat, r: Round, proposer: Address, package: Package)
    requires package.Full? && !FullPackageOk(config, x.disk, h, proposer, package)
    ensures var Full(value, payload, sidecars, _) := package;
            var (y, ok) := Sync(config, x, h, r, proposer, package);
            var stored := sidecars != [] && config.crypto.kzgValid(sidecars);
            var mismatched := stored && |value.commitments| == |sidecars|
                              && DistinctIndices(sidecars) && !MatchesValue(value, sidecars);
            && !ok && y.mem == x.mem
            && y.disk == x.disk.(
                 blocks := PutIfAbsent(x.disk.blocks, (h, r), payload),
                 undecided := if stored then DropRound(x.disk.undecided, h, r)
                              else x.disk.undecided,
                 undecidedMetas := if mismatched then x.disk.undecidedMetas - {(h, r)}
                                   else x.disk.undecidedMetas)
  {
    hide StoreSidecars, PromoteBlobs, DropBlobs, HandleNotices, SidecarsVerified, MatchesValue,
         DistinctIndices, SyncedMeta, AdoptMeta, Disk.ParentRoot, Quiet, Stored, DropRound,
         PutIfAbsent;
    var Full(value, payload, sidecars, notices) := package;
    FullPackageAccepted(config, x, h, r, proposer, package);
    StoredFacts(config, x, h, r, proposer, package);
    var x1 := Do(x, PutBlock(h, r, payload));
    var x2 := StoreSidecars(x1, h, r, sidecars);
    StoreSidecarsEffect(x1, h, r, sidecars);
    DropBlobsEffect(x2, h, r);
    DropStored(x.disk.undecided, h, r, sidecars);
    if sidecars == [] {
      StoredNothing(x.disk.undecided, h, r);
    } else if SidecarsVerified(config, x.disk, h, proposer, value, sidecars) {
      VerifiedParent(config, x.disk, h, proposer, value, sidecars);
    }
  }

  // ----- Over runs -----

  /** Blobs are restreamed by their own proposer only, and no crash falls into taking over a package
      whose sidecars are not genuine. */
  ghost predicate Vouched(config: Config, s: State, e: Option<Event>, t: State) {
    s.Running? && e.Some? ==>
      match e.value
      case Restreamed(h, r, from) => RestreamsOwn(config, s.disk, h, r, from)
      case Synced(h, r, proposer, package) =>
        package.Full? ==>
          t.Running? || forall b :: b in package.sidecars ==> Genuine(config, h, b)
      case _ => true
  }

  lemma SyncStepGenuine(
    config: Config, s: State, t: State, h: nat, r: Round, proposer: Address, package: Package)
    requires s.Running? && AllGenuine(config, s.disk)
    requires Step(config, s, Some(Synced(h, r, proposer, package)), t)
    requires Vouched(config, s, Some(Synced(h, r, proposer, package)), t)
    ensures AllGenuine(config, t.disk)
  {
    hide Promised, Sync, Genuine, FullPackageOk;
    var x := Exec(s.disk, s.mem, []);
    if package.MetadataOnly? {
      SyncMetadataGenuine(config, x, h, r, proposer, package);
    } else if FullPackageOk(config, s.disk, h, proposer, package) {
      OkGenuine(config, s.disk, h, proposer, package);
      SyncFullGenuine(config, x, h, r, proposer, package);
    } else if forall b :: b in package.sidecars ==> Genuine(config, h, b) {
      SyncFullGenuine(config, x, h, r, proposer, package);
    } else {
      RejectedLeavesNone(config, x, h, r, proposer, package);
    }
  }

  lemma OkGenuine(config: Config, d: Disk, h: nat, proposer: Address, package: Package)
    requires package.Full? && FullPackageOk(config, d, h, proposer, package)
    ensures forall s :: s in package.sidecars ==> Genuine(config, h, s)
  {
    hide SidecarsVerified, Genuine, DistinctIndices, MatchesValue;
    if package.sidecars != [] {
      VerifiedGenuine(config, d, h, proposer, package.value, package.sidecars);
    }
  }

  lemma GenuineStep(config: Config, s: State, e: Option<Event>, t: State)
    requires StateOk(config, s) && SignsAsSelf(config) && AllGenuine(config, s.disk)
    requires Step(config, s, e, t) && Vouched(config, s, e, t)
    ensures AllGenuine(config, t.disk)
  {
    hide Promised, Propose, Receive, Restream, Sync, Decide, StartRound, HandleNotice, Restart,
         SignsAsSelf, AllGenuine, DiskOk, MemOk, Within, RestreamsOwn;
    if s.Down? {
      var x := Exec(s.disk, FRESH_MEMORY, []);
      RestartWithin(config, s.disk);
      GenuineWithin(config, StartScope, x, Restart(config, s.disk));
    } else {
      var x := Exec(s.disk, s.mem, []);
      assert GenuineExec(config, x);
      match e.value {
        case Proposed(h, r, exec, bundle, payload) =>
          ProposeGenuine(config, x, h, r, exec, bundle, payload);
        case Received(h, r, proposer, exec, sidecars, payload, assembled) =>
          ReceiveGenuine(config, x, h, r, proposer, exec, sidecars, payload, assembled);
        case Restreamed(h, r, from) => RestreamGenuine(config, x, h, r, from);
        case Synced(h, r, proposer, package) =>
          SyncStepGenuine(config, s, t, h, r, proposer, package);
        case _ =>
          EventWithin(config, x, e.value);
          GenuineWithin(config, ScopeOf(e), x, Handle(config, x, e.value));
      }
    }
  }

  /** In every run, as long as blobs are restreamed by their own proposer only and no crash falls into
      taking over a package with other headers, every stored blob carries a header for its height
      that the validator it names has signed. */
  lemma {:induction false} StoredBlobsGenuine(
    config: Config, run: seq<State>, events: seq<Option<Event>>, j: nat)
    requires IsTrace(config, run, events) && j < |run| && SignsAsSelf(config)
    requires forall i :: 0 <= i < j ==> Vouched(config, run[i], events[i], run[i + 1])
    ensures AllGenuine(config, run[j].disk)
  {
    hide Step, StateOk, SignsAsSelf, Vouched, AllGenuine;
    if j == 0 {
      NoneStored(config);
    } else {
      StoredBlobsGenuine(config, run, events, j - 1);
      TraceIsRun(config, run, events);
      RunSound(config, run, j - 1);
      assert Vouched(config, run[j - 1], events[j - 1], run[j - 1 + 1]);
      assert Step(config, run[j - 1], events[j - 1], run[j - 1 + 1]);
      GenuineStep(config, run[j - 1], events[j - 1], run[j]);
    }
  }

  lemma NoneStored(config: Config)
    ensures AllGenuine(config, EMPTY_DISK)
  {
  }
}
