/** The whole life of a height: proposed here or elsewhere, decided, archived, pruned. */
module EndToEnd {

  import opened Types
  import opened Ordering
  import opened BlobMetadata
  import opened BlobFamilies
  import opened DiskState
  import opened DiskInvariant
  import opened Node
  import opened NodeSafety
  import opened NodeBlobs
  import opened NodeOps
  import opened NodeDecide
  import opened NodeMemory
  import opened NodeSteps
  import opened NodeRuns
  import opened Trails
  import opened Traces
  import opened Commits
  import opened ReadyRounds
  import opened Lifecycle
  import opened Restreams
  import ArchiveCompletion
  import opened ArchiveJobs
  import opened ArchiveFlow

  // ----- Deciding what was proposed here -----

  /** Step `i` proposes the bundle in a state where that goes through. */
  ghost predicate ProposedAt(
    config: Config, run: seq<State>, events: seq<Option<Event>>, i: nat, h: nat, r: Round,
    exec: ExecutionHeader, bundle: Bundle, payload: Payload)
  {
    && i < |events| && i + 1 < |run| && run[i].Running? && run[i + 1].Running?
    && events[i] == Some(Proposed(h, r, exec, bundle, payload))
    && Decidable(config, Exec(run[i].disk, run[i].mem, []), h, r, exec, bundle, payload)
  }

  lemma ProposedIsReady(
    config: Config, run: seq<State>, events: seq<Option<Event>>, i: nat, h: nat, r: Round,
    exec: ExecutionHeader, bundle: Bundle, payload: Payload)
    requires IsTrace(config, run, events)
    requires ProposedAt(config, run, events, i, h, r, exec, bundle, payload)
    ensures var offer := OwnOffer(config, run[i].disk, h, exec, bundle, payload);
            Ready(h, r, offer, run[i + 1].disk) && Sufficient(config.crypto, offer)
  {
    hide Decidable, Ready, Sufficient, Propose, Promised;
    assert Step(config, run[i], events[i], run[i + 1]);
    ReadyProposed(config, Exec(run[i].disk, run[i].mem, []), h, r, exec, bundle, payload);
  }

  /** What a node proposes it can decide. Between the proposal and the accepted decision any events may
      fall that spare the round: other heights and rounds, notices, crashes and restarts. The height is
      then committed as offered, and final. */
  lemma ProposedIsDecided(
    config: Config, run: seq<State>, events: seq<Option<Event>>, i: nat, j: nat, h: nat, r: Round,
    exec: ExecutionHeader, bundle: Bundle, payload: Payload)
    requires IsTrace(config, run, events) && i < j && AcceptedAt(run, events, j, h, r)
    requires ProposedAt(config, run, events, i, h, r, exec, bundle, payload)
    requires forall m :: i < m < j ==> Spares(ScopeOf(events[m]), h, r)
    ensures CommittedAs(h, r, OwnOffer(config, run[i].disk, h, exec, bundle, payload),
                        run[j + 1].disk)
    ensures h <= run[j + 1].mem.finalized
  {
    hide IsTrace, Ready, Sufficient, Spares, ScopeOf, CommittedAs, Decidable, OwnOffer;
    ProposedParent(config, run[i], h, r, exec, bundle, payload);
    ProposedIsReady(config, run, events, i, h, r, exec, bundle, payload);
    ReadyIsDecidedLater(
      config, run, events, i + 1, j, h, r, OwnOffer(config, run[i].disk, h, exec, bundle, payload));
  }

  lemma ProposedParent(
    config: Config, s: State, h: nat, r: Round, exec: ExecutionHeader, bundle: Bundle,
    payload: Payload)
    requires s.Running? && Decidable(config, Exec(s.disk, s.mem, []), h, r, exec, bundle, payload)
    ensures s.disk.ParentRoot(config.crypto, h).Some? && config.IndexOf(config.address).Some?
  {
  }

  /** Step `k` restreams round `from` into the blank round. */
  ghost predicate RestreamedAt(
    run: seq<State>, events: seq<Option<Event>>, k: nat, h: nat, r: Round, from: Round)
  {
    && k < |events| && k + 1 < |run| && run[k].Running? && run[k + 1].Running?
    && events[k] == Some(Restreamed(h, r, from))
    && Blank(run[k].disk, h, r) && RoundIndices(run[k].disk.undecided, h, r) == {}
  }

  lemma RestreamStep(
    config: Config, d: Disk, s: State, t: State, h: nat, r: Round, from: Round,
    exec: ExecutionHeader, bundle: Bundle, payload: Payload)
    requires s.Running? && t.Running? && Step(config, s, Some(Restreamed(h, r, from)), t)
    requires Blank(s.disk, h, r) && RoundIndices(s.disk.undecided, h, r) == {}
    requires d.ParentRoot(config.crypto, h).Some? && config.IndexOf(config.address).Some?
    requires config.crypto.kzgValid(ProposedSidecars(config, d, h, exec, bundle))
    requires Ready(h, from, OwnOffer(config, d, h, exec, bundle, payload), s.disk)
    ensures Ready(h, r, OwnOffer(config, d, h, exec, bundle, payload), t.disk)
  {
    hide Ready, Restream, ProposedSidecars, OwnOffer, Fits, RoundIndices, Blank, Resigned, Promised;
    var offer := OwnOffer(config, d, h, exec, bundle, payload);
    var blobs := ProposedSidecars(config, d, h, exec, bundle);
    OwnRestreamed(config, d, h, exec, bundle, payload);
    RestreamedIsReady(config, Exec(s.disk, s.mem, []), h, r, from, offer, blobs);
  }

  /** A proposal that its proposer restreams into a later round can be decided there, and is then
      committed with the very blobs and entry of the first round. */
  lemma RestreamedIsDecided(
    config: Config, run: seq<State>, events: seq<Option<Event>>, i: nat, k: nat, j: nat, h: nat,
    r: Round, from: Round, exec: ExecutionHeader, bundle: Bundle, payload: Payload)
    requires IsTrace(config, run, events) && i < k < j && AcceptedAt(run, events, j, h, r)
    requires ProposedAt(config, run, events, i, h, from, exec, bundle, payload)
    requires RestreamedAt(run, events, k, h, r, from)
    requires forall m :: i < m < k ==> Spares(ScopeOf(events[m]), h, from)
    requires forall m :: k < m < j ==> Spares(ScopeOf(events[m]), h, r)
    ensures CommittedAs(h, r, OwnOffer(config, run[i].disk, h, exec, bundle, payload),
                        run[j + 1].disk)
  {
    hide Ready, Sufficient, Spares, ScopeOf, CommittedAs, OwnOffer, Promised, Step, Blank,
         RoundIndices;
    ProposedIsReady(config, run, events, i, h, from, exec, bundle, payload);
    var offer := OwnOffer(config, run[i].disk, h, exec, bundle, payload);
    RoundSurvives(config, run, events, i + 1, k, h, from, offer);
    assert Step(config, run[k], events[k], run[k + 1]);
    RestreamStep(
      config, run[i].disk, run[k], run[k + 1], h, r, from, exec, bundle, payload);
    ReadyIsDecidedLater(config, run, events, k + 1, j, h, r, offer);
  }

  // ----- Deciding what was proposed elsewhere -----

  /** Step `i` receives the proposal in a state where it is stored. */
  ghost predicate ReceivedAt(
    config: Config, run: seq<State>, events: seq<Option<Event>>, i: nat, h: nat, r: Round,
    proposer: Address, exec: ExecutionHeader, sidecars: Sidecars, payload: Payload)
  {
    && i < |events| && i + 1 < |run| && run[i].Running? && run[i + 1].Running?
    && events[i] == Some(Received(h, r, proposer, exec, sidecars, payload, true))
    && Receivable(config, Exec(run[i].disk, run[i].mem, []), h, r, proposer, exec, sidecars)
    && Undone(h, run[i].disk) && RoundIndices(run[i].disk.undecided, h, r) == {}
    && ListsHashes(config.crypto, payload, CommitmentsOf(sidecars))
  }

  lemma ReceivedIsReady(
    config: Config, run: seq<State>, events: seq<Option<Event>>, i: nat, h: nat, r: Round,
    proposer: Address, exec: ExecutionHeader, sidecars: Sidecars, payload: Payload)
    requires IsTrace(config, run, events)
    requires ReceivedAt(config, run, events, i, h, r, proposer, exec, sidecars, payload)
    ensures run[i].disk.ParentRoot(config.crypto, h).Some?
    ensures var offer := ReceivedOffer(config, run[i].disk, h, proposer, exec, sidecars, payload);
            && Ready(h, r, offer, run[i + 1].disk)
            && (Sufficient(config.crypto, offer) <==> DistinctIndices(sidecars))
  {
    hide Ready, Sufficient, Receive, Promised, ListsHashes, DistinctIndices, SidecarsVerified,
         RoundIndices, Undone;
    var x := Exec(run[i].disk, run[i].mem, []);
    assert Step(config, run[i], events[i], run[i + 1]);
    ReadyReceived(config, x, h, r, proposer, exec, sidecars, payload);
    ReceivedSuffices(config, x, h, r, proposer, exec, sidecars, payload);
  }

  /** What a node receives it can decide: a proposal whose sidecars verify and have distinct indices, or
      that has none, is committed as offered by any later accepted decision, after any events, crashes
      and restarts that spare the round. */
  lemma ReceivedIsDecided(
    config: Config, run: seq<State>, events: seq<Option<Event>>, i: nat, j: nat, h: nat, r: Round,
    proposer: Address, exec: ExecutionHeader, sidecars: Sidecars, payload: Payload)
    requires IsTrace(config, run, events) && i < j && AcceptedAt(run, events, j, h, r)
    requires ReceivedAt(config, run, events, i, h, r, proposer, exec, sidecars, payload)
    requires DistinctIndices(sidecars)
    requires forall m :: i < m < j ==> Spares(ScopeOf(events[m]), h, r)
    ensures run[i].disk.ParentRoot(config.crypto, h).Some?
    ensures CommittedAs(
              h, r, ReceivedOffer(config, run[i].disk, h, proposer, exec, sidecars, payload),
              run[j + 1].disk)
    ensures h <= run[j + 1].mem.finalized
  {
    hide IsTrace, Ready, Sufficient, Spares, ScopeOf, CommittedAs, ReceivedOffer, ReceivedAt,
         DistinctIndices;
    ReceivedIsReady(config, run, events, i, h, r, proposer, exec, sidecars, payload);
    ReadyIsDecidedLater(
      config, run, events, i + 1, j, h, r,
      ReceivedOffer(config, run[i].disk, h, proposer, exec, sidecars, payload));
  }

  /** What one node proposes another decides. A validator that follows the same rules proposes a bundle
      on top of the same parent; this node receives those sidecars and that payload in a fresh round,
      and any later accepted decision commits exactly what the proposer holds: the same value, payload,
      entry and blobs. */
  lemma FollowerDecides(
    theirs: Config, x: Exec, ours: Config, run: seq<State>, events: seq<Option<Event>>, i: nat,
    j: nat, h: nat, r: Round, exec: ExecutionHeader, bundle: Bundle, payload: Payload)
    requires Trusted(theirs, ours) && Decidable(theirs, x, h, r, exec, bundle, payload)
    requires IsTrace(ours, run, events) && i < j && AcceptedAt(run, events, j, h, r)
    requires i < |events| && run[i].Running? && run[i + 1].Running?
    requires events[i] == Some(Received(
               h, r, theirs.address, exec, ProposedSidecars(theirs, x.disk, h, exec, bundle), payload,
               true))
    requires run[i].disk.ParentRoot(ours.crypto, h) == x.disk.ParentRoot(theirs.crypto, h)
    requires h >= run[i].mem.currentHeight && Undone(h, run[i].disk)
    requires (h, r) !in run[i].disk.proposals && (h, r) !in run[i].disk.undecidedMetas
    requires (h, r) !in run[i].disk.blocks && RoundIndices(run[i].disk.undecided, h, r) == {}
    requires forall m :: i < m < j ==> Spares(ScopeOf(events[m]), h, r)
    ensures var offer := OwnOffer(theirs, x.disk, h, exec, bundle, payload);
            && Ready(h, r, offer, Propose(theirs, x, h, r, exec, bundle, payload).disk)
            && CommittedAs(h, r, offer, run[j + 1].disk)
  {
    hide IsTrace, Ready, Sufficient, Spares, ScopeOf, CommittedAs, ReceivedOffer, OwnOffer,
         DistinctIndices, Trusted, Undone, RoundIndices, Propose, SidecarsVerified, ProposedSidecars,
         HashesOf, BundleCommitments, CommitmentsOf, Disk.ParentRoot, Config.IndexOf;
    var sidecars := ProposedSidecars(theirs, x.disk, h, exec, bundle);
    ReadyProposed(theirs, x, h, r, exec, bundle, payload);
    ProposedCommitments(theirs, x.disk, h, exec, bundle);
    OffersAgree(theirs, ours, x.disk, run[i].disk, h, exec, bundle, payload);
    TrustedRules(theirs, ours, BundleCommitments(bundle), sidecars);
    if bundle != [] {
      ProposedIsVerified(theirs, ours, x.disk, run[i].disk, h, exec, bundle);
    }
    ReceivedIsDecided(
      ours, run, events, i, j, h, r, theirs.address, exec, sidecars, payload);
  }

  lemma TrustedRules(
    theirs: Config, ours: Config, commitments: seq<Commitment>, sidecars: Sidecars)
    requires Trusted(theirs, ours)
    ensures HashesOf(theirs.crypto, commitments) == HashesOf(ours.crypto, commitments)
    ensures theirs.crypto.kzgValid(sidecars) == ours.crypto.kzgValid(sidecars)
  {
  }

  lemma EntryValid(config: Config, d: Disk, h: nat)
    requires DiskOk(config, d) && h in d.metas
    ensures d.metas[h].Valid()
  {
    assert ChainOk(config.crypto, d.metas, d.latest);
  }

  lemma SelfIsProposer(config: Config, d: Disk, h: nat)
    requires h in d.metas && d.metas[h].proposerHint == config.IndexOf(config.address)
    requires config.IndexOf(config.address).Some?
    ensures d.ProposerAt(config, h, d.metas[h].proposerHint) == Some(config.address)
  {
  }

  // ----- Final stays final -----

  lemma SyncFinality(
    config: Config, x: Exec, h: nat, r: Round, proposer: Address, package: Package)
    ensures Sync(config, x, h, r, proposer, package).0.mem.finalized == x.mem.finalized
  {
    hide StoreSidecars, PromoteBlobs, DropBlobs, HandleNotices, SidecarsVerified, MatchesValue,
         DistinctIndices, SyncedMeta, AdoptMeta, Disk.ParentRoot;
    ArchiveCompletion.NoticesFrame(config, x, package.notices);
    if package.Full? {
      var Full(value, payload, sidecars, notices) := package;
      var x1 := Do(x, PutBlock(h, r, payload));
      var x2 := StoreSidecars(x1, h, r, sidecars);
      StoreSidecarsEffect(x1, h, r, sidecars);
      DropBlobsEffect(x2, h, r);
      PromoteBlobsEffect(x2, h, r);
      var x3 := if sidecars != [] then PromoteBlobs(x2, h, r) else x2;
      DropBlobsEffect(x3, h, r);
      var m := SyncedMeta(config, x3.disk, h, proposer, package);
      if m.Some? {
        AdoptMetaFrame(config, x3, h, r, m.value);
        var x5 := Do(AdoptMeta(config, x3, h, r, m.value), PutProposal(h, r, Proposal(value, proposer)));
        ArchiveCompletion.NoticesFrame(config, x5, notices);
      }
    } else if package.payloadOpt.Some? {
      var x1 := Do(x, PutBlock(h, r, package.payloadOpt.value));
      var m := SyncedMeta(config, x1.disk, h, proposer, package);
      if m.Some? {
        AdoptMetaFrame(config, x1, h, r, m.value);
        ArchiveCompletion.NoticesFrame(config, AdoptMeta(config, x1, h, r, m.value), package.notices);
      }
    }
  }

  lemma CommitFinality(config: Config, x: Exec, h: nat, r: Round)
    ensures Commit(config, x, h, r).0.mem.finalized >= x.mem.finalized
  {
    hide CommitBody, Commit, Finish;
    CommitEnds(config, x, h, r);
    BodyFinality(config, x, h, r);
    FinishFrame(CommitBody(config, x, h, r).0, h);
  }

  lemma BodyFinality(config: Config, x: Exec, h: nat, r: Round)
    ensures CommitBody(config, x, h, r).0.mem.finalized == x.mem.finalized
  {
    hide SettleHeight, PromoteBlobs, RetainHeight, Metadata.HeaderRoot, KeepFrom;
    PromoteBlobsEffect(x, h, r);
    if (h, r) in x.disk.proposals {
      var x3 := StoreDecision(config, x, h, r, x.disk.proposals[(h, r)]);
      if h in x3.disk.metas {
        SettleHeightEffect(config, Cache(config, x3, h, x3.disk.Meta(h)), h, r);
      }
    }
  }

  lemma DecideFinality(config: Config, x: Exec, h: nat, r: Round, el: ElOutcome)
    ensures Decide(config, x, h, r, el).0.mem.finalized >= x.mem.finalized
  {
    hide PromoteBlobs, Commit, BlobsBack, ExpectedHashes, JobIndices, AlreadyDecided;
    PromoteBlobsEffect(x, h, r);
    CommitFinality(config, x, h, r);
    CommitFinality(config, PromoteBlobs(x, h, r), h, r);
  }

  lemma EventFinality(config: Config, x: Exec, e: Event)
    ensures Handle(config, x, e).mem.finalized >= x.mem.finalized
  {
    hide Propose, Receive, Restream, Sync, Decide, CleanRounds, HandleNotice;
    match e
    case Proposed(h, r, exec, bundle, payload) => ProposeQuiet(config, x, h, r, exec, bundle, payload);
    case Received(h, r, proposer, exec, sidecars, payload, assembled) =>
      ReceiveQuiet(config, x, h, r, proposer, exec, sidecars, payload, assembled);
    case Restreamed(h, r, from) => RestreamQuiet(config, x, h, r, from);
    case Synced(h, r, proposer, package) => SyncFinality(config, x, h, r, proposer, package);
    case Decided(h, r, el) => DecideFinality(config, x, h, r, el);
    case Started(h, r) => CleanRoundsQuiet(x, h, InKeyOrder(StaleRounds(x.mem, h, r)));
    case Noticed(notice) => HandleNoticeFrame(config, x, notice);
  }

  /** The height has its value, and a running node knows it is final. */
  ghost predicate KnownFinal(s: State, h: nat) {
    h in s.disk.values && (s.Running? ==> h <= s.mem.finalized)
  }

  lemma FinalStep(config: Config, s: State, e: Option<Event>, t: State, h: nat)
    requires StateOk(config, s) && Step(config, s, e, t) && KnownFinal(s, h)
    ensures KnownFinal(t, h)
  {
    hide MemOk, DiskOk, Promised, Handle, Restart, MaxOrZero;
    ValueStays(config, s, e, t, h);
    if s.Running? {
      EventFinality(config, Exec(s.disk, s.mem, []), e.value);
    } else {
      RestartExact(config, s.disk);
      TopIsAbove(s.disk.values.Keys, h);
    }
  }

  lemma ValueStays(config: Config, s: State, e: Option<Event>, t: State, h: nat)
    requires StateOk(config, s) && Step(config, s, e, t) && h in s.disk.values
    ensures h in t.disk.values
  {
    hide StateOk, Step, MetasExtend, BlobsKept, CommittedKept, PrunedGone, PayloadKept, HashesKept;
    StepSafe(config, s, e, t);
  }

  lemma TopIsAbove(heights: set<nat>, h: nat)
    requires h in heights
    ensures h <= MaxOrZero(heights)
  {
  }

  /** Once a running node knows a decided height as final it does so in every later running state, also
      after crashes and restarts. */
  lemma {:induction false} FinalStays(config: Config, run: seq<State>, i: nat, j: nat, h: nat)
    requires IsRun(config, run) && i <= j < |run| && KnownFinal(run[i], h)
    ensures KnownFinal(run[j], h)
    decreases j
  {
    hide Step, StateOk, KnownFinal;
    if i < j {
      FinalStays(config, run, i, j - 1, h);
      RunSound(config, run, j - 1);
      assert Next(config, run[j - 1], run[j - 1 + 1]);
      var e :| Step(config, run[j - 1], e, run[j]);
      FinalStep(config, run[j - 1], e, run[j], h);
    }
  }

  // ----- Bytes are deleted exactly when that is safe -----

  /** In every running state after a final height was settled with all its blobs stored, its bytes are
      gone if every blob is archived, and otherwise they are all there, unchanged. */
  lemma BytesExact(config: Config, run: seq<State>, i: nat, j: nat, h: nat)
    requires IsRun(config, run) && i <= j < |run| && run[j].Running?
    requires Settled(run[i].disk, h) && !run[i].disk.metas[h].pruned && KnownFinal(run[i], h)
    requires AllStored(run[i].disk, h) && run[i].disk.metas[h].blobCount > 0
    ensures var a, b := run[i].disk, run[j].disk;
            && h in b.metas && b.metas[h].blobCount == a.metas[h].blobCount
            && if b.Archived(h) then b.metas[h].pruned && Gone(b, h)
               else forall k :: 0 <= k < a.metas[h].blobCount ==>
                 (h, k) in b.decided && b.decided[(h, k)] == a.decided[(h, k)]
  {
    hide IsRun, Extends, DiskOk;
    var a, b := run[i].disk, run[j].disk;
    RunExtends(config, run, i, j);
    BlockOf(a, b, h);
    FinalStays(config, run, i, j, h);
    PruningIsExact(config, run, j, h);
    if b.Archived(h) {
      PrunedBytesGone(config, run, i, j, h);
    } else {
      forall k | 0 <= k < a.metas[h].blobCount
        ensures (h, k) in b.decided && b.decided[(h, k)] == a.decided[(h, k)]
      {
        SettledBlobsStay(config, run, i, j, h, k);
      }
    }
  }

  // ----- From proposal to pruning -----

  /** The height is committed with the blobs of the bundle: all are stored, they carry the commitments
      and hashes of the entry, and this node is on record as the proposer. */
  ghost predicate CommittedWith(config: Config, d: Disk, h: nat, bundle: Bundle) {
    && Committed(d, h) && d.metas[h].blobCount == |bundle|
    && AllStored(d, h) && Backed(config, d, h) && (forall i: nat :: (h, i) !in d.records)
    && d.metas[h].proposerHint == config.IndexOf(config.address)
    && config.IndexOf(config.address).Some?
    && d.ProposerAt(config, h, d.metas[h].proposerHint) == Some(config.address)
  }

  lemma CommittedOwn(
    config: Config, a: Disk, d: Disk, h: nat, r: Round, exec: ExecutionHeader, bundle: Bundle,
    payload: Payload)
    requires a.ParentRoot(config.crypto, h).Some? && config.IndexOf(config.address).Some?
    requires bundle != [] && DiskOk(config, d)
    requires CommittedAs(h, r, OwnOffer(config, a, h, exec, bundle, payload), d)
    ensures CommittedWith(config, d, h, bundle)
  {
    hide DiskOk, Disk.ParentRoot, Config.IndexOf, Metadata.Valid, HeightBlobs;
    EntryValid(config, d, h);
    SelfIsProposer(config, d, h);
    var sidecars := ProposedSidecars(config, a, h, exec, bundle);
    var blobs := Positions(sidecars);
    assert 0 in blobs;
    forall i: nat | i < |bundle|
      ensures (h, i) in d.decided && d.decided[(h, i)] == sidecars[i]
    {
      DecidedAt(d.decided, h, blobs, i);
    }
  }

  lemma DecidedAt(d: Decided, h: nat, blobs: map<nat, Sidecar>, i: nat)
    requires HeightBlobs(d, h) == blobs && i in blobs
    ensures (h, i) in d && d[(h, i)] == blobs[i]
  {
    assert i in HeightBlobs(d, h);
  }

  lemma ProposedIsOwn(
    config: Config, run: seq<State>, events: seq<Option<Event>>, i: nat, j: nat, h: nat, r: Round,
    exec: ExecutionHeader, bundle: Bundle, payload: Payload)
    requires IsTrace(config, run, events) && i < j && AcceptedAt(run, events, j, h, r)
    requires ProposedAt(config, run, events, i, h, r, exec, bundle, payload) && bundle != []
    requires forall m :: i < m < j ==> Spares(ScopeOf(events[m]), h, r)
    ensures CommittedWith(config, run[j + 1].disk, h, bundle) && KnownFinal(run[j + 1], h)
  {
    hide IsTrace, IsRun, Spares, ScopeOf, Decidable, OwnOffer, DiskOk, MemOk, CommittedWith;
    ProposedParent(config, run[i], h, r, exec, bundle, payload);
    ProposedIsDecided(config, run, events, i, j, h, r, exec, bundle, payload);
    TraceIsRun(config, run, events);
    RunSound(config, run, j + 1);
    CommittedOwn(config, run[i].disk, run[j + 1].disk, h, r, exec, bundle, payload);
  }

  /** The proposer of a committed height, as far as later states know it. */
  lemma OwnHeight(config: Config, a: Disk, b: Disk, h: nat, bundle: Bundle)
    requires CommittedWith(config, a, h, bundle) && Extends(a, b)
    ensures MayArchive(config, b, h, config.address)
    ensures h in b.metas
            && b.ProposerAt(config, h, b.metas[h].proposerHint) == Some(config.address)
  {
    hide Backed, AllStored, BlobsKept, CommittedKept, PrunedGone, PayloadKept, HashesKept,
         Config.IndexOf, Disk.ProposerAt;
    assert MetaExtends(a.metas[h], b.metas[h]);
    SelfIsProposer(config, b, h);
  }

  /** What the archive job of the height needs, at any state from the decision on. */
  lemma JobReady(config: Config, a: Disk, b: Disk, h: nat, bundle: Bundle)
    requires CommittedWith(config, a, h, bundle) && Extends(a, b) && DiskOk(config, b)
    requires a == b || Settled(a, h)
    ensures OwedBacked(config, b, h) && b.metas[h].blobCount == |bundle|
    ensures forall k: nat :: k < |bundle| ==> (h, k) in b.decided || (h, k) in b.records
  {
    hide DiskOk, Extends, Settled, Disk.ProposerAt;
    BlockOf(a, b, h);
    StoredBlobsKept(a, b, h);
    assert OwedBacked(config, a, h);
    if a != b {
      BackedStays(config, a, b, h);
    }
  }

  /** From proposal to pruning, over every run. A node proposes a block with blobs and decides it later,
      after any events that spare the round. An archive job for the height is built, right then or, if
      the decision left no stray blob of the height, in any later state; it succeeds, and its notices
      are handled at any later steps. With any events in between, crashes and restarts included, every
      running state from then on has every blob of the height archived and the height pruned, and its
      bytes are gone if the decision left no stray blob. */
  lemma ProposedIsArchived(
    config: Config, run: seq<State>, events: seq<Option<Event>>, i: nat, j: nat, l: nat, k: nat,
    h: nat, r: Round, exec: ExecutionHeader, bundle: Bundle, payload: Payload, who: Identity,
    job: Job, notices: seq<Notice>)
    requires IsTrace(config, run, events) && i < j < l <= k < |run| && run[k].Running?
    requires ProposedAt(config, run, events, i, h, r, exec, bundle, payload) && bundle != []
    requires AcceptedAt(run, events, j, h, r)
    requires forall m :: i < m < j ==> Spares(ScopeOf(events[m]), h, r)
    requires l == j + 1 || Settled(run[j + 1].disk, h)
    requires Recognised(config, who) && Lists(config, run[l].disk, h, r, job)
    requires |notices| == |job.indices|
    requires forall p :: 0 <= p < |notices| ==> NoticeOf(who, job, p, notices[p])
    requires forall n :: n in notices ==> HandledSince(run, events, l, k, n)
    ensures var d := run[k].disk;
            && d.Archived(h) && d.metas[h].blobCount == |bundle|
            && d.metas[h].pruned && h !in run[k].mem.pendingPrune
            && (ArchiveCompletion.Unsoiled(run[j + 1].disk, h) ==> Gone(d, h))
  {
    hide IsTrace, IsRun, ProposedAt, AcceptedAt, Spares, ScopeOf, Recognised, Lists, NoticeOf,
         HandledSince, MayArchive, ArchiveCompletion.Unsoiled, Gone, Extends, Backed, OwedBacked,
         DiskOk, MemOk, Settled;
    TraceIsRun(config, run, events);
    ProposedIsOwn(config, run, events, i, j, h, r, exec, bundle, payload);
    RunExtends(config, run, j + 1, l);
    RunSound(config, run, l);
    JobReady(config, run[j + 1].disk, run[l].disk, h, bundle);
    forall m: nat | l <= m <= k ensures MayArchive(config, run[m].disk, h, config.address) {
      RunExtends(config, run, j + 1, m);
      OwnHeight(config, run[j + 1].disk, run[m].disk, h, bundle);
    }
    FinalStays(config, run, j + 1, k, h);
    JobCompletes(config, run, events, l, k, who, h, r, job, notices);
    if ArchiveCompletion.Unsoiled(run[j + 1].disk, h) {
      UnsoiledGone(config, run, j + 1, k, h);
    }
  }

  lemma UnsoiledGone(config: Config, run: seq<State>, i: nat, j: nat, h: nat)
    requires IsRun(config, run) && i <= j < |run| && ArchiveCompletion.Unsoiled(run[i].disk, h)
    requires h in run[j].disk.metas && run[j].disk.metas[h].pruned
    ensures Gone(run[j].disk, h)
  {
    hide IsRun;
    PrunedBytesGone(config, run, i, j, h);
  }
}
