/** Heights that wait for their archive: a height that the node proposed itself is remembered from its
    decision until every blob is archived, and holds back pruning meanwhile. */
module Custody {

  import opened Types
  import opened Ordering
  import opened BlobMetadata
  import opened BlobFamilies
  import opened DiskState
  import opened DiskInvariant
  import opened Node
  import opened NodeSafety
  import opened NodeBlobs
  import opened NodeOps
  import opened NodeDecide
  import opened NodeMemory
  import opened NodeSteps
  import opened NodeRuns
  import opened DecisionClaims
  import opened BlobReplacement
  import opened Traces
  import opened Commits
  import opened ReadyRounds
  import opened Lifecycle
  import Recovery
  import ArchiveFlow
  import opened EndToEnd

  /** The stored entry of the height, with its records filled in, has them all. */
  ghost predicate Complete(d: Disk, g: nat) {
    g in d.metas && d.Meta(g).AllArchived()
  }

  /** A complete height with blobs does not wait. */
  ghost predicate Idle(x: Exec, g: nat) {
    g in x.disk.metas && x.disk.metas[g].blobCount > 0 && Complete(x.disk, g) ==>
      g !in x.mem.pendingArchive
  }

  /** What an operation does to the waiting of a height: it ends with the last record and not before,
      and it does not begin. */
  ghost predicate Waits(x: Exec, y: Exec, g: nat) {
    && (g in x.disk.metas ==>
          && g in y.disk.metas && (Complete(x.disk, g) ==> Complete(y.disk, g))
          && (g in x.mem.pendingArchive ==>
                g in y.mem.pendingArchive || Complete(y.disk, g))
          && (Idle(x, g) ==> Idle(y, g)))
    && (g in y.mem.pendingArchive ==> g in x.mem.pendingArchive)
  }

  lemma WaitsTransitive(x: Exec, y: Exec, z: Exec, g: nat)
    requires Waits(x, y, g) && Waits(y, z, g)
    ensures Waits(x, z, g)
  {
    hide Complete, Idle;
  }

  /** Neither the height's entry, nor its records, nor the set of waiting heights differ. */
  lemma WaitsSame(x: Exec, y: Exec, g: nat)
    requires y.mem.pendingArchive == x.mem.pendingArchive && y.disk.records == x.disk.records
    requires g in x.disk.metas ==> g in y.disk.metas && y.disk.metas[g] == x.disk.metas[g]
    ensures Waits(x, y, g)
  {
  }

  lemma HydratedAt(m: Metadata, records: Records, h: nat, i: nat)
    ensures Hydrate(m, records, h).IsArchived(i)
            <==> i < |m.records| && ((h, i) in records || m.records[i].Some?)
  {
  }

  lemma MoreArchived(a: Metadata, b: Metadata)
    requires a.blobCount == b.blobCount && forall i: nat :: a.IsArchived(i) ==> b.IsArchived(i)
    ensures a.AllArchived() ==> b.AllArchived()
  {
    if a.AllArchived() {
      forall i | 0 <= i < b.blobCount ensures b.IsArchived(i) { assert a.IsArchived(i); }
    }
  }

  /** An entry that holds at least the records read back, over at least the same table, is complete if
      it was. */
  lemma StaysComplete(d: Disk, e: Disk, g: nat)
    requires g in d.metas && g in e.metas && e.metas[g].blobCount == d.metas[g].blobCount
    requires forall i: nat :: d.Meta(g).IsArchived(i) ==> e.Meta(g).IsArchived(i)
    ensures Complete(d, g) ==> Complete(e, g)
  {
    hide Metadata.IsArchived, Metadata.AllArchived;
    MoreArchived(d.Meta(g), e.Meta(g));
  }

  lemma PruneWaits(x: Exec, h: nat, g: nat)
    requires h in x.disk.metas && x.disk.Meta(h).AllArchived()
    ensures Waits(x, PruneHeight(x, h, x.disk.Meta(h)), g)
  {
    hide PruneHeight, Metadata.AllArchived, Hydrate;
    var m, y := x.disk.Meta(h), PruneHeight(x, h, x.disk.Meta(h));
    PruneHeightEffect(x, h, m);
    if h == g && !m.pruned && m.blobCount > 0 {
      forall i: nat | m.IsArchived(i) ensures y.disk.Meta(h).IsArchived(i) {
        HydratedAt(m.MarkPruned(), x.disk.records, h, i);
      }
      StaysComplete(x.disk, y.disk, h);
    }
  }

  lemma FlushHeightWaits(x: Exec, h: nat, g: nat)
    ensures Waits(x, FlushHeight(x, h), g)
  {
    hide PruneHeight, Waits, Metadata.AllArchived;
    var x1 := x.(mem := x.mem.(pendingPrune := x.mem.pendingPrune - {h}));
    WaitsSame(x, x, g);
    WaitsSame(x, x1, g);
    if h in x1.disk.metas && x1.disk.Meta(h).AllArchived() {
      PruneWaits(x1, h, g);
      WaitsTransitive(x, x1, PruneHeight(x1, h, x1.disk.Meta(h)), g);
    }
  }

  lemma {:induction false} FlushWaits(x: Exec, heights: seq<nat>, g: nat)
    ensures Waits(x, FlushHeights(x, heights), g)
    decreases |heights|
  {
    hide FlushHeight, Waits;
    if heights == [] {
      WaitsSame(x, x, g);
    } else {
      var y := FlushHeight(x, heights[0]);
      FlushHeightWaits(x, heights[0], g);
      FlushWaits(y, heights[1..], g);
      WaitsTransitive(x, y, FlushHeights(y, heights[1..]), g);
    }
  }

  lemma FinishWaits(x: Exec, h: nat, g: nat)
    ensures Waits(x, Finish(x, h), g)
  {
    hide FlushHeights, ReadyHeights, Waits;
    var x1 := x.(mem := x.mem.(finalized := if h > x.mem.finalized then h else x.mem.finalized));
    var x2 := FlushPrunes(x1);
    WaitsSame(x, x1, g);
    FlushWaits(x1, ReadyHeights(x1.mem), g);
    WaitsTransitive(x, x1, x2, g);
    WaitsSame(x2, Finish(x, h), g);
    WaitsTransitive(x, x2, Finish(x, h), g);
  }

  /** The entry of a recorded notice, read back, has the records it had and the new one. */
  lemma NoticeReads(d: Disk, n: Notice, i: nat)
    requires n.body.height in d.metas && n.body.index < |d.metas[n.body.height].records|
    ensures var h, m := n.body.height, NoticeMeta(d, n);
            var records := d.records[(h, n.body.index) := n];
            && (Hydrate(m, records, h).IsArchived(i) <==> m.IsArchived(i))
            && (Hydrate(m.MarkPruned(), records, h).IsArchived(i) <==> m.IsArchived(i))
            && (d.Meta(h).IsArchived(i) ==> m.IsArchived(i))
  {
  }

  lemma NoticeElsewhere(d: Disk, n: Notice, g: nat, i: nat)
    requires g in d.metas && g != n.body.height
    ensures Hydrate(d.metas[g], d.records[(n.body.height, n.body.index) := n], g).IsArchived(i)
            <==> d.Meta(g).IsArchived(i)
  {
  }

  /** A notice that completes its height ends the height's waiting; no other does. */
  lemma NoticeWaits(config: Config, x: Exec, n: Notice, g: nat)
    ensures var y := HandleNotice(config, x, n);
            && Waits(x, y, g)
            && (Judge(config, x.disk, n) == Record && g == n.body.height
                && g in y.disk.metas && y.disk.metas[g].blobCount > 0 && Complete(y.disk, g) ==>
                  g !in y.mem.pendingArchive)
  {
    hide PruneHeight, Judge, RecordNotice, Hydrate, NoticeMeta, Metadata.IsArchived,
         Metadata.AllArchived, Metadata.MarkPruned;
    if Judge(config, x.disk, n) == Record {
      var h, m, x2 := n.body.height, NoticeMeta(x.disk, n), RecordNotice(x, n);
      var y := HandleNotice(config, x, n);
      RecordNoticeEffect(x, n);
      PruneHeightEffect(x2.(mem := x2.mem.(pendingArchive := x2.mem.pendingArchive - {h})), h, m);
      if g == h {
        assert y.disk.metas[h] in {m, m.MarkPruned()};
        forall i: nat
          ensures y.disk.Meta(h).IsArchived(i) <==> m.IsArchived(i)
          ensures x.disk.Meta(h).IsArchived(i) ==> m.IsArchived(i)
        {
          NoticeReads(x.disk, n, i);
        }
        StaysComplete(x.disk, y.disk, h);
        MoreArchived(m, y.disk.Meta(h));
        MoreArchived(y.disk.Meta(h), m);
      } else if g in x.disk.metas {
        forall i: nat ensures x.disk.Meta(g).IsArchived(i) <==> y.disk.Meta(g).IsArchived(i) {
          NoticeElsewhere(x.disk, n, g, i);
        }
        StaysComplete(x.disk, y.disk, g);
        StaysComplete(y.disk, x.disk, g);
      }
    } else {
      WaitsSame(x, x, g);
    }
  }

  lemma {:induction false} NoticesWait(config: Config, x: Exec, notices: seq<Notice>, g: nat)
    ensures Waits(x, HandleNotices(config, x, notices), g)
    decreases |notices|
  {
    hide HandleNotice, Waits;
    if notices == [] {
      WaitsSame(x, x, g);
    } else {
      var y := HandleNotice(config, x, notices[0]);
      NoticeWaits(config, x, notices[0], g);
      NoticesWait(config, y, notices[1..], g);
      WaitsTransitive(x, y, HandleNotices(config, y, notices[1..]), g);
    }
  }

  lemma CommitWaits(config: Config, x: Exec, h: nat, r: Round, g: nat)
    requires (h, r) in x.disk.undecidedMetas ==> h !in x.disk.metas
    ensures Waits(x, Commit(config, x, h, r).0, g)
  {
    hide CommitBody, Commit, Finish, Waits;
    var b := CommitBody(config, x, h, r).0;
    CommitEnds(config, x, h, r);
    CommitBodyFrame(config, x, h, r);
    WaitsSame(x, b, g);
    FinishWaits(b, h, g);
    WaitsTransitive(x, b, Finish(b, h), g);
  }

  /** A decision of a proposal that names this node, with the archiver on. */
  ghost predicate OwnDecision(config: Config, d: Disk, e: Event, g: nat) {
    && e.Decided? && e.h == g && e.el == Accepted && config.archiverEnabled
    && (g, e.r) in d.proposals && d.proposals[(g, e.r)].proposer == config.address
  }

  /** The waiting of a height does not end before its last record. */
  ghost predicate StillWaits(x: Exec, y: Exec, g: nat) {
    g in x.disk.metas ==>
      && g in y.disk.metas && (Complete(x.disk, g) ==> Complete(y.disk, g))
      && (g in x.mem.pendingArchive ==> g in y.mem.pendingArchive || Complete(y.disk, g))
      && (Idle(x, g) ==> Idle(y, g) || JobIndices(y.disk, g) != {})
  }

  lemma DecideWaits(config: Config, x: Exec, h: nat, r: Round, el: ElOutcome, g: nat)
    requires (h, r) in x.disk.undecidedMetas ==> h !in x.disk.metas
    ensures var y := Decide(config, x, h, r, el).0;
            && StillWaits(x, y, g)
            && (g in y.mem.pendingArchive && g !in x.mem.pendingArchive ==>
                  OwnDecision(config, x.disk, Decided(h, r, el), g) && g in y.disk.metas)
  {
    hide PromoteBlobs, Commit, BlobsBack, ExpectedHashes, AlreadyDecided, Complete, Idle,
         StillWaits, Waits, JobIndices;
    var x1 := PromoteBlobs(x, h, r);
    PromoteBlobsEffect(x, h, r);
    WaitsSame(x, x, g);
    WaitsSame(x, x1, g);
    WaitsStill(x, x, g);
    WaitsStill(x, x1, g);
    CommitWaits(config, x, h, r, g);
    CommitWaits(config, x1, h, r, g);
    WaitsTransitive(x, x1, Commit(config, x1, h, r).0, g);
    QueueWaits(x, Commit(config, x, h, r).0, h, g);
    QueueWaits(x, Commit(config, x1, h, r).0, h, g);
    CommitProposals(config, x, h, r);
    CommitProposals(config, x1, h, r);
  }

  lemma WaitsStill(x: Exec, y: Exec, g: nat)
    requires Waits(x, y, g)
    ensures StillWaits(x, y, g)
  {
    hide Complete, Idle, JobIndices;
  }

  /** Putting a height with a job among the waiting ones. */
  lemma QueueWaits(x: Exec, y: Exec, h: nat, g: nat)
    requires Waits(x, y, g)
    ensures StillWaits(x, y, g) && (g in y.mem.pendingArchive ==> g in x.mem.pendingArchive)
    ensures JobIndices(y.disk, h) != {} ==>
              h in y.disk.metas
              && StillWaits(x, y.(mem := y.mem.(pendingArchive := y.mem.pendingArchive + {h})), g)
  {
    hide HeightIndices;
  }

  /** A commit adds no proposal. */
  lemma CommitProposals(config: Config, x: Exec, h: nat, r: Round)
    requires (h, r) in x.disk.undecidedMetas ==> h !in x.disk.metas
    ensures Included(Commit(config, x, h, r).0.disk.proposals, x.disk.proposals)
  {
    hide CommitBody, Commit, Finish;
    CommitEnds(config, x, h, r);
    CommitBodyFrame(config, x, h, r);
    FinishFrame(CommitBody(config, x, h, r).0, h);
  }

  lemma AdoptWaits(config: Config, x: Exec, h: nat, r: Round, m: Metadata, g: nat)
    requires g == h ==> h !in x.disk.metas
    ensures Waits(x, AdoptMeta(config, x, h, r, m), g)
  {
    hide Waits, Metadata.HeaderRoot;
    WaitsSame(x, AdoptMeta(config, x, h, r, m), g);
  }

  lemma SyncWaits(
    config: Config, x: Exec, h: nat, r: Round, proposer: Address, package: Package, g: nat)
    requires g == h && (package.Full? || package.payloadOpt.Some?) ==> h !in x.disk.metas
    ensures Waits(x, Sync(config, x, h, r, proposer, package).0, g)
  {
    if package.Full? {
      SyncFullWaits(config, x, h, r, proposer, package, g);
    } else {
      hide Waits, SyncedMeta, HandleNotices, AdoptMeta;
      NoticesWait(config, x, package.notices, g);
      if package.payloadOpt.Some? {
        var x1 := Do(x, PutBlock(h, r, package.payloadOpt.value));
        WaitsSame(x, x1, g);
        var m := SyncedMeta(config, x1.disk, h, proposer, package);
        if m.Some? {
          var x2 := AdoptMeta(config, x1, h, r, m.value);
          AdoptWaits(config, x1, h, r, m.value, g);
          WaitsTransitive(x, x1, x2, g);
          var x3 := HandleNotices(config, x2, package.notices);
          NoticesWait(config, x2, package.notices, g);
          WaitsTransitive(x, x2, x3, g);
          var y := Do(x3, PutProposal(h, r, Proposal(package.value, proposer)));
          WaitsSame(x3, y, g);
          WaitsTransitive(x, x3, y, g);
        }
      }
    }
  }

  lemma SyncFullWaits(
    config: Config, x: Exec, h: nat, r: Round, proposer: Address, package: Package, g: nat)
    requires package.Full? && (g == h ==> h !in x.disk.metas)
    ensures Waits(x, Sync(config, x, h, r, proposer, package).0, g)
  {
    hide StoreSidecars, PromoteBlobs, DropBlobs, HandleNotices, SidecarsVerified, MatchesValue,
         DistinctIndices, SyncedMeta, AdoptMeta, Disk.ParentRoot, Waits, Stored, MarkDecided,
         DropRound;
    var Full(value, payload, sidecars, notices) := package;
    var x1 := Do(x, PutBlock(h, r, payload));
    var x2 := StoreSidecars(x1, h, r, sidecars);
    StoreSidecarsEffect(x1, h, r, sidecars);
    DropBlobsEffect(x2, h, r);
    PromoteBlobsEffect(x2, h, r);
    var x3 := if sidecars != [] then PromoteBlobs(x2, h, r) else x2;
    DropBlobsEffect(x3, h, r);
    WaitsSame(x, x1, g);
    WaitsSame(x, x3, g);
    WaitsSame(x, DropBlobs(x2, h, r), g);
    WaitsSame(x, Do(DropBlobs(x2, h, r), DeleteUndecidedMeta(h, r)), g);
    WaitsSame(x, Do(DropBlobs(x3, h, r), DeleteUndecidedMeta(h, r)), g);
    var m := SyncedMeta(config, x3.disk, h, proposer, package);
    if m.Some? {
      var x4 := AdoptMeta(config, x3, h, r, m.value);
      AdoptWaits(config, x3, h, r, m.value, g);
      WaitsTransitive(x, x3, x4, g);
      var x5 := Do(x4, PutProposal(h, r, Proposal(value, proposer)));
      WaitsSame(x4, x5, g);
      WaitsTransitive(x, x4, x5, g);
      NoticesWait(config, x5, notices, g);
      WaitsTransitive(x, x5, HandleNotices(config, x5, notices), g);
    }
  }

  lemma QuietWaits(x: Exec, y: Exec, g: nat)
    requires Quiet(x, y)
    ensures Waits(x, y, g)
  {
    WaitsSame(x, y, g);
  }

  /** In every event a height goes on waiting until its last record, and one starts to wait only by an
      accepted decision of a proposal that names this node, with the archiver on. */
  lemma EventWaits(config: Config, x: Exec, e: Event, g: nat)
    requires Promised(config, x, e)
    ensures var y := Handle(config, x, e);
            && StillWaits(x, y, g)
            && (g in y.mem.pendingArchive && g !in x.mem.pendingArchive ==>
                  OwnDecision(config, x.disk, e, g) && g in y.disk.metas)
  {
    hide Propose, Receive, Restream, Sync, Decide, CleanRounds, HandleNotice, Complete, SyncedMeta,
         OneHeader, InKeyOrder, Idle, JobIndices;
    match e
    case Proposed(h, r, exec, bundle, payload) =>
      ProposeQuiet(config, x, h, r, exec, bundle, payload);
      QuietWaits(x, Propose(config, x, h, r, exec, bundle, payload), g);
    case Received(h, r, proposer, exec, sidecars, payload, assembled) =>
      ReceiveQuiet(config, x, h, r, proposer, exec, sidecars, payload, assembled);
      QuietWaits(x, Receive(config, x, h, r, proposer, exec, sidecars, payload, assembled), g);
    case Restreamed(h, r, from) =>
      RestreamQuiet(config, x, h, r, from);
      QuietWaits(x, Restream(config, x, h, r, from), g);
    case Synced(h, r, proposer, package) =>
      if g == h && h in x.disk.metas { assert !package.Full? && package.payloadOpt.None?; }
      SyncWaits(config, x, h, r, proposer, package, g);
    case Decided(h, r, el) => DecideWaits(config, x, h, r, el, g);
    case Started(h, r) =>
      CleanRoundsQuiet(x, h, InKeyOrder(StaleRounds(x.mem, h, r)));
      WaitsSame(x, StartRound(x, h, r), g);
    case Noticed(notice) => NoticeWaits(config, x, notice, g);
  }

  // ----- Over runs -----

  /** Every waiting height has decided metadata. */
  ghost predicate WaitingKnown(s: State) {
    s.Running? ==> forall g :: g in s.mem.pendingArchive ==> g in s.disk.metas
  }

  lemma KnownStep(config: Config, s: State, e: Option<Event>, t: State)
    requires StateOk(config, s) && Step(config, s, e, t) && WaitingKnown(s)
    ensures WaitingKnown(t)
  {
    hide Promised, Handle, Restart, DiskOk, MemOk, Complete, MaxOrZero, Disk.ProposerAt;
    if t.Running? {
      forall g | g in t.mem.pendingArchive ensures g in t.disk.metas {
        if s.Running? {
          EventWaits(config, Exec(s.disk, s.mem, []), e.value, g);
        } else {
          RestartExact(config, s.disk);
        }
      }
    }
  }

  lemma {:induction false} WaitingIsKnown(config: Config, run: seq<State>, i: nat)
    requires IsRun(config, run) && i < |run|
    ensures WaitingKnown(run[i])
  {
    hide Step, StateOk;
    if i > 0 {
      WaitingIsKnown(config, run, i - 1);
      RunSound(config, run, i - 1);
      assert Next(config, run[i - 1], run[i - 1 + 1]);
      var e :| Step(config, run[i - 1], e, run[i]);
      KnownStep(config, run[i - 1], e, run[i]);
    }
  }

  /** In every step of a running node a height starts to wait for its archive only by an accepted
      decision of a proposal that names this node, with the archiver on. */
  lemma OnlyOwnWait(config: Config, s: State, e: Option<Event>, t: State, g: nat)
    requires Step(config, s, e, t) && s.Running? && t.Running?
    requires g in t.mem.pendingArchive && g !in s.mem.pendingArchive
    ensures e.Some? && OwnDecision(config, s.disk, e.value, g)
  {
    hide Promised, Handle, Complete, OwnDecision;
    EventWaits(config, Exec(s.disk, s.mem, []), e.value, g);
  }

  /** A ready round with blobs that is decided with the archiver on starts to wait for its archive if
      and only if its proposal names this node. */
  lemma ReadyWaits(config: Config, x: Exec, h: nat, r: Round, offer: Offer)
    requires DiskOk(config, x.disk) && MemOk(config, x) && h !in x.mem.pendingArchive
    requires Ready(h, r, offer, x.disk) && Sufficient(config.crypto, offer)
    requires offer.blobs != map[] && offer.entry.blobCount > 0
    requires OfferHashes(config.crypto, offer) != []
    requires config.archiverEnabled && r >= NIL_ROUND
    ensures var z := Decide(config, x, h, r, Accepted).0;
            h in z.mem.pendingArchive <==> offer.proposer == config.address
  {
    hide Decide, DiskOk, MemOk, Promotes, Sufficient, HasBlobs, RetainHeight, Hashes, OfferHashes,
         Metadata.HeaderRoot, FirstMove, Complete, HeightBlobs;
    ReadyPromotes(config, h, r, offer, x.disk);
    ReadyIsDecided(config, x, h, r, offer);
    DecideWaits(config, x, h, r, Accepted, h);
    DecideAccepted(config, x, h, r);
    var x1 := FirstMove(config, x, h, r);
    CommitEffect(config, x1, h, r);
    Recovery.RetainHeightBound(config, x1.mem, h);
    var z := Decide(config, x, h, r, Accepted).0;
    JobOf(z.disk, h, offer.blobs);
  }

  lemma JobOf(d: Disk, h: nat, blobs: map<nat, Sidecar>)
    requires HeightBlobs(d.decided, h) == blobs && blobs != map[]
    requires h in d.metas && d.metas[h].blobCount > 0 && forall i: nat :: (h, i) !in d.records
    ensures JobIndices(d, h) != {}
  {
    var i :| i in blobs;
    assert i in HeightIndices(d.decided, h) && i in JobIndices(d, h);
  }

  /** With the archiver on, the own height waits for its archive right after its decision: none of its
      blobs is archived yet. */
  lemma OwnStartsWaiting(
    config: Config, run: seq<State>, events: seq<Option<Event>>, i: nat, j: nat, h: nat, r: Round,
    exec: ExecutionHeader, bundle: Bundle, payload: Payload)
    requires IsTrace(config, run, events) && i < j && AcceptedAt(run, events, j, h, r)
    requires ProposedAt(config, run, events, i, h, r, exec, bundle, payload) && bundle != []
    requires forall m :: i < m < j ==> Spares(ScopeOf(events[m]), h, r)
    requires config.archiverEnabled && r >= NIL_ROUND
    ensures h in run[j + 1].mem.pendingArchive && !run[j + 1].disk.Archived(h)
  {
    hide Spares, ScopeOf, Ready, Sufficient, Decidable, Decide, StateOk, Undone, RoundIndices,
         CommittedWith;
    TraceIsRun(config, run, events);
    RunSound(config, run, j);
    WaitingIsKnown(config, run, j);
    assert Step(config, run[j], events[j], run[j + 1]);
    hide IsTrace, IsRun;
    ProposedParent(config, run[i], h, r, exec, bundle, payload);
    ProposedIsReady(config, run, events, i, h, r, exec, bundle, payload);
    var offer := OwnOffer(config, run[i].disk, h, exec, bundle, payload);
    RoundSurvives(config, run, events, i + 1, j, h, r, offer);
    OwnOfferFacts(config, run[i].disk, h, exec, bundle, payload);
    DecisionQueues(config, run[j], run[j + 1], h, r, offer);
    ProposedIsOwn(config, run, events, i, j, h, r, exec, bundle, payload);
    CommittedUnarchived(config, run[j + 1].disk, h, bundle);
  }

  lemma OwnOfferFacts(
    config: Config, d: Disk, h: nat, exec: ExecutionHeader, bundle: Bundle, payload: Payload)
    requires d.ParentRoot(config.crypto, h).Some? && config.IndexOf(config.address).Some?
    requires bundle != []
    ensures var offer := OwnOffer(config, d, h, exec, bundle, payload);
            && offer.proposer == config.address && offer.blobs != map[]
            && offer.entry.blobCount > 0 && OfferHashes(config.crypto, offer) != []
  {
    hide Disk.ParentRoot, Config.IndexOf;
    var offer := OwnOffer(config, d, h, exec, bundle, payload);
    assert 0 in offer.blobs;
    assert |HashesOf(config.crypto, offer.value.commitments)| == |bundle|;
  }

  lemma DecisionQueues(config: Config, s: State, t: State, h: nat, r: Round, offer: Offer)
    requires StateOk(config, s) && s.Running? && t.Running? && WaitingKnown(s)
    requires Step(config, s, Some(Decided(h, r, Accepted)), t)
    requires Ready(h, r, offer, s.disk) && Sufficient(config.crypto, offer)
    requires offer.blobs != map[] && offer.entry.blobCount > 0
    requires OfferHashes(config.crypto, offer) != [] && config.archiverEnabled && r >= NIL_ROUND
    ensures h in t.mem.pendingArchive <==> offer.proposer == config.address
  {
    hide Decide, DiskOk, MemOk, Agreed, Sufficient, OfferHashes, Has, HasBlobs;
    ReadyWaits(config, Exec(s.disk, s.mem, []), h, r, offer);
  }

  lemma CommittedUnarchived(config: Config, d: Disk, h: nat, bundle: Bundle)
    requires CommittedWith(config, d, h, bundle) && bundle != []
    ensures !d.Archived(h)
  {
    assert (h, 0) !in d.records;
  }

  /** A follower does not wait for the archive of a height that another node proposed. */
  lemma FollowerDoesNotWait(
    config: Config, run: seq<State>, events: seq<Option<Event>>, i: nat, j: nat, h: nat, r: Round,
    proposer: Address, exec: ExecutionHeader, sidecars: Sidecars, payload: Payload)
    requires IsTrace(config, run, events) && i < j && AcceptedAt(run, events, j, h, r)
    requires ReceivedAt(config, run, events, i, h, r, proposer, exec, sidecars, payload)
    requires forall m :: i < m < j ==> Spares(ScopeOf(events[m]), h, r)
    requires proposer != config.address
    ensures h !in run[j + 1].mem.pendingArchive
  {
    hide Spares, ScopeOf, Ready, Sufficient, Handle, StateOk, Undone, RoundIndices, ReceivedAt,
         ReceivedOffer, Promised, DistinctIndices, OwnDecision;
    TraceIsRun(config, run, events);
    WaitingIsKnown(config, run, j);
    assert Step(config, run[j], events[j], run[j + 1]);
    hide IsTrace, IsRun;
    ReceivedIsReady(config, run, events, i, h, r, proposer, exec, sidecars, payload);
    var offer := ReceivedOffer(config, run[i].disk, h, proposer, exec, sidecars, payload);
    RoundSurvives(config, run, events, i + 1, j, h, r, offer);
    NamesOther(config, run[i].disk, run[j].disk, h, r, proposer, exec, sidecars, payload);
    if h in run[j + 1].mem.pendingArchive {
      OnlyOwnWait(config, run[j], events[j], run[j + 1], h);
    }
  }

  lemma NamesOther(
    config: Config, a: Disk, d: Disk, h: nat, r: Round, proposer: Address, exec: ExecutionHeader,
    sidecars: Sidecars, payload: Payload)
    requires a.ParentRoot(config.crypto, h).Some? && proposer != config.address
    requires Ready(h, r, ReceivedOffer(config, a, h, proposer, exec, sidecars, payload), d)
    ensures h !in d.metas && !OwnDecision(config, d, Decided(h, r, Accepted), h)
  {
    hide HasBlobs;
  }

  ghost predicate WaitsOrArchived(s: State, h: nat) {
    s.Running? ==> h in s.mem.pendingArchive || s.disk.Archived(h)
  }

  lemma WaitingStep(
    config: Config, a: Disk, s: State, e: Option<Event>, t: State, h: nat, bundle: Bundle)
    requires CommittedWith(config, a, h, bundle) && bundle != [] && config.archiverEnabled
    requires StateOk(config, s) && Step(config, s, e, t) && Extends(a, s.disk) && Extends(a, t.disk)
    requires WaitsOrArchived(s, h) && StateOk(config, t)
    ensures WaitsOrArchived(t, h)
  {
    hide Promised, Handle, Restart, MemOk, DiskOk, Extends, CommittedWith, MaxOrZero, Complete;
    OwnHeight(config, a, t.disk, h, bundle);
    OwnHeight(config, a, s.disk, h, bundle);
    OwnCount(config, a, t.disk, h, bundle);
    if t.Running? {
      if s.Running? {
        EventWaits(config, Exec(s.disk, s.mem, []), e.value, h);
        CompleteIsArchived(config, s.disk, h);
        CompleteIsArchived(config, t.disk, h);
      } else {
        RestartExact(config, s.disk);
        assert OwesArchive(config, t.disk, h) || t.disk.Archived(h);
      }
    }
  }

  lemma CompleteIsArchived(config: Config, d: Disk, h: nat)
    requires DiskOk(config, d) && h in d.metas
    ensures Complete(d, h) <==> d.Archived(h)
  {
    hide DiskOk;
    HydratedFacts(config, d, h);
  }

  lemma OwnCount(config: Config, a: Disk, b: Disk, h: nat, bundle: Bundle)
    requires CommittedWith(config, a, h, bundle) && Extends(a, b)
    ensures h in b.metas && b.metas[h].blobCount == |bundle|
  {
    hide Extends;
    ArchiveFlow.BlockOf(a, b, h);
  }

  /** From then on the own height waits in every running state until all its blobs are archived, through
      any events, crashes and restarts; and until then nothing at or above it is pruned. */
  lemma {:induction false} WaitsUntilArchived(
    config: Config, run: seq<State>, i: nat, k: nat, h: nat, bundle: Bundle)
    requires IsRun(config, run) && i <= k < |run| && config.archiverEnabled
    requires CommittedWith(config, run[i].disk, h, bundle) && bundle != []
    requires WaitsOrArchived(run[i], h)
    ensures WaitsOrArchived(run[k], h)
    ensures run[k].Running? && !run[k].disk.Archived(h) ==>
              forall g :: RetainHeight(config, run[k].mem, g) <= h
    decreases k
  {
    hide Step, StateOk, CommittedWith, Extends, RetainHeight, Disk.Archived;
    if i < k {
      WaitsUntilArchived(config, run, i, k - 1, h, bundle);
      RunSound(config, run, k - 1);
      RunSound(config, run, k);
      RunExtends(config, run, i, k - 1);
      RunExtends(config, run, i, k);
      assert Next(config, run[k - 1], run[k - 1 + 1]);
      var e :| Step(config, run[k - 1], e, run[k]);
      WaitingStep(config, run[i].disk, run[k - 1], e, run[k], h, bundle);
    }
    if run[k].Running? && !run[k].disk.Archived(h) {
      forall g ensures RetainHeight(config, run[k].mem, g) <= h {
        Recovery.RetainHeightBound(config, run[k].mem, g);
      }
    }
  }

  // ----- Waiting exactly until the archive is complete -----

  ghost predicate WaitsExactly(s: State, h: nat) {
    s.Running? ==> (h in s.mem.pendingArchive <==> !s.disk.Archived(h))
  }

  /** The height has decided blobs under the indices of its entry only. */
  ghost predicate Bounded(d: Disk, h: nat) {
    h in d.metas && forall i: nat :: (h, i) in d.decided ==> i < d.metas[h].blobCount
  }

  lemma JobIsUnarchived(d: Disk, h: nat)
    requires Bounded(d, h) && JobIndices(d, h) != {}
    ensures !d.Archived(h)
  {
    var i :| i in JobIndices(d, h);
    assert (h, i) in d.decided;
  }

  lemma ExactStep(
    config: Config, a: Disk, s: State, e: Option<Event>, t: State, h: nat, bundle: Bundle)
    requires CommittedWith(config, a, h, bundle) && bundle != [] && config.archiverEnabled
    requires StateOk(config, s) && Step(config, s, e, t) && Extends(a, s.disk) && Extends(a, t.disk)
    requires WaitsExactly(s, h) && StateOk(config, t) && Bounded(t.disk, h)
    ensures WaitsExactly(t, h)
  {
    hide Promised, Handle, Restart, MemOk, DiskOk, Extends, CommittedWith, MaxOrZero, Complete,
         Bounded, JobIndices;
    WaitingStep(config, a, s, e, t, h, bundle);
    OwnCount(config, a, s.disk, h, bundle);
    OwnCount(config, a, t.disk, h, bundle);
    if t.Running? {
      if s.Running? {
        EventWaits(config, Exec(s.disk, s.mem, []), e.value, h);
        CompleteIsArchived(config, s.disk, h);
        CompleteIsArchived(config, t.disk, h);
        if JobIndices(t.disk, h) != {} { JobIsUnarchived(t.disk, h); }
      } else {
        RestartExact(config, s.disk);
        assert OwesArchive(config, t.disk, h) <==> h in t.mem.pendingArchive;
      }
    }
  }

  lemma BoundedStays(a: Disk, b: Disk, h: nat)
    requires Settled(a, h) && Bounded(a, h) && Extends(a, b)
    ensures Bounded(b, h)
  {
    hide BlobsKept, PrunedGone, PayloadKept, HashesKept;
    SettledStays(a, b, h);
    ArchiveFlow.BlockOf(a, b, h);
  }

  /** In every running state from then on the own settled height waits for its archive if and only if it
      is not archived, through any events, crashes and restarts. */
  lemma {:induction false} OwnWaitsExactly(
    config: Config, run: seq<State>, i: nat, k: nat, h: nat, bundle: Bundle)
    requires IsRun(config, run) && i <= k < |run| && config.archiverEnabled
    requires CommittedWith(config, run[i].disk, h, bundle) && bundle != []
    requires Settled(run[i].disk, h) && Bounded(run[i].disk, h) && WaitsExactly(run[i], h)
    ensures WaitsExactly(run[k], h)
    decreases k
  {
    hide Step, StateOk, CommittedWith, Extends, WaitsExactly, Bounded, Settled;
    if i < k {
      OwnWaitsExactly(config, run, i, k - 1, h, bundle);
      RunSound(config, run, k - 1);
      RunSound(config, run, k);
      RunExtends(config, run, i, k - 1);
      RunExtends(config, run, i, k);
      BoundedStays(run[i].disk, run[k].disk, h);
      assert Next(config, run[k - 1], run[k - 1 + 1]);
      var e :| Step(config, run[k - 1], e, run[k]);
      ExactStep(config, run[i].disk, run[k - 1], e, run[k], h, bundle);
    }
  }

  lemma OwnIsBounded(
    config: Config, a: Disk, d: Disk, h: nat, r: Round, exec: ExecutionHeader, bundle: Bundle,
    payload: Payload)
    requires a.ParentRoot(config.crypto, h).Some? && config.IndexOf(config.address).Some?
    requires bundle != [] && CommittedAs(h, r, OwnOffer(config, a, h, exec, bundle, payload), d)
    ensures Bounded(d, h)
  {
    hide Disk.ParentRoot, Config.IndexOf, ProposedSidecars;
    var offer := OwnOffer(config, a, h, exec, bundle, payload);
    assert 0 in offer.blobs;
    forall i: nat | (h, i) in d.decided ensures i < d.metas[h].blobCount {
      assert i in HeightBlobs(d.decided, h);
    }
  }

  /** From proposal to archive: a height that the node proposed and decided waits for its archive, in
      every running state after the decision and through any events, crashes and restarts, if and only
      if it is not archived yet, provided that the decision left no stray round; and until it is
      archived no retain height exceeds it. */
  lemma ProposedWaits(
    config: Config, run: seq<State>, events: seq<Option<Event>>, i: nat, j: nat, k: nat, h: nat,
    r: Round, exec: ExecutionHeader, bundle: Bundle, payload: Payload)
    requires IsTrace(config, run, events) && i < j && AcceptedAt(run, events, j, h, r)
    requires ProposedAt(config, run, events, i, h, r, exec, bundle, payload) && bundle != []
    requires forall m :: i < m < j ==> Spares(ScopeOf(events[m]), h, r)
    requires config.archiverEnabled && r >= NIL_ROUND && j < k < |run| && run[k].Running?
    ensures h in run[k].mem.pendingArchive || run[k].disk.Archived(h)
    ensures Settled(run[j + 1].disk, h) ==>
              (h in run[k].mem.pendingArchive <==> !run[k].disk.Archived(h))
    ensures !run[k].disk.Archived(h) ==> forall g :: RetainHeight(config, run[k].mem, g) <= h
  {
    hide Spares, ScopeOf, Decidable, CommittedWith, Disk.Archived, RetainHeight, Settled, Bounded,
         CommittedAs, OwnOffer, IsTrace, IsRun;
    TraceIsRun(config, run, events);
    OwnStartsWaiting(config, run, events, i, j, h, r, exec, bundle, payload);
    ProposedIsOwn(config, run, events, i, j, h, r, exec, bundle, payload);
    WaitsUntilArchived(config, run, j + 1, k, h, bundle);
    if Settled(run[j + 1].disk, h) {
      ProposedParent(config, run[i], h, r, exec, bundle, payload);
      ProposedIsDecided(config, run, events, i, j, h, r, exec, bundle, payload);
      OwnIsBounded(config, run[i].disk, run[j + 1].disk, h, r, exec, bundle, payload);
      OwnWaitsExactly(config, run, j + 1, k, h, bundle);
    }
  }

  /** While a height waits, no decision removes a proposal or a payload of it. */
  lemma WaitingIsRetained(
    config: Config, x: Exec, g: nat, s: Round, el: ElOutcome, h: nat, r: Round)
    requires h in x.mem.pendingArchive && r >= NIL_ROUND
    ensures var y := Decide(config, x, g, s, el).0;
            && ((h, r) in x.disk.proposals ==>
                  (h, r) in y.disk.proposals
                  && y.disk.proposals[(h, r)] == x.disk.proposals[(h, r)])
            && ((h, r) in x.disk.blocks ==>
                  (h, r) in y.disk.blocks && y.disk.blocks[(h, r)] == x.disk.blocks[(h, r)])
  {
    hide PromoteBlobs, Commit, BlobsBack, ExpectedHashes, JobIndices, AlreadyDecided, RetainHeight;
    PromoteBlobsEffect(x, g, s);
    CommitRetains(config, x, g, s);
    CommitRetains(config, PromoteBlobs(x, g, s), g, s);
    Recovery.RetainHeightBound(config, x.mem, g);
    assert !OrderedBefore((h, r), RetainHeight(config, x.mem, g));
  }
}
