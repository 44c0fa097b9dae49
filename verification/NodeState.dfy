/** The node as the program keeps it: one object whose methods change the store and the fields step
    by step. Each method ends where the function of `Node` with the same steps ends, with the same
    crash points, so what is proved of those functions holds of the object. */
module NodeState {

  import opened Types
  import opened Ordering
  import opened BlobMetadata
  import opened BlobFamilies
  import opened DiskState
  import opened DiskInvariant
  import opened Node
  import opened NodeSafety
  import opened NodeMemory
  import NodeDecide
  import NodeRuns
  import NodeSteps

  lemma FlushNext(x: Exec, heights: seq<nat>, n: nat)
    requires n < |heights|
    ensures FlushHeights(x, heights[n..]) == FlushHeights(FlushHeight(x, heights[n]), heights[n + 1..])
  {
    hide FlushHeight;
    assert heights[n..][1..] == heights[n + 1..];
  }

  lemma RehydrateNext(config: Config, x: Exec, heights: seq<nat>, n: nat)
    requires n < |heights|
    ensures RehydrateHeights(config, x, heights[n..])
            == RehydrateHeights(config, RehydrateHeight(config, x, heights[n]), heights[n + 1..])
  {
    hide RehydrateHeight;
    assert heights[n..][1..] == heights[n + 1..];
  }

  lemma StoreNext(x: Exec, h: nat, r: Round, sidecars: seq<Sidecar>, n: nat)
    requires n < |sidecars|
    ensures StoreSidecars(x, h, r, sidecars[n..])
            == StoreSidecars(Do(x, PutBlob(h, r, sidecars[n])), h, r, sidecars[n + 1..])
  {
    hide Do;
    assert sidecars[n..][1..] == sidecars[n + 1..];
  }

  lemma MoveNext(x: Exec, h: nat, entries: seq<(Round, nat, Sidecar)>, n: nat)
    requires n < |entries|
    ensures var (r, i, s) := entries[n];
            MoveEntries(x, h, entries[n..])
            == MoveEntries(Do(Do(x, PutDecidedBlob(h, i, s)), DeleteBlob(h, r, i)), h, entries[n + 1..])
  {
    hide Do;
    assert entries[n..][1..] == entries[n + 1..];
  }

  lemma DropNext(x: Exec, h: nat, entries: seq<(Round, nat, Sidecar)>, n: nat)
    requires n < |entries|
    ensures DropEntries(x, h, entries[n..])
            == DropEntries(Do(x, DeleteBlob(h, entries[n].0, entries[n].1)), h, entries[n + 1..])
  {
    hide Do;
    assert entries[n..][1..] == entries[n + 1..];
  }

  lemma CleanNext(x: Exec, h: nat, rounds: seq<Round>, n: nat)
    requires n < |rounds|
    ensures CleanRounds(x, h, rounds[n..]) == CleanRounds(CleanRound(x, h, rounds[n]), h, rounds[n + 1..])
    ensures DropOrphans(x, h, rounds[n..]) == DropOrphans(DropOrphan(x, h, rounds[n]), h, rounds[n + 1..])
  {
    hide CleanRound, DropOrphan;
    assert rounds[n..][1..] == rounds[n + 1..];
  }

  lemma NoticesNext(config: Config, x: Exec, notices: seq<Notice>, n: nat)
    requires n < |notices|
    ensures HandleNotices(config, x, notices[n..])
            == HandleNotices(config, HandleNotice(config, x, notices[n]), notices[n + 1..])
  {
    hide HandleNotice;
    assert notices[n..][1..] == notices[n + 1..];
  }

  lemma MetasNext(x: Exec, keys: seq<Round>, n: nat)
    requires n < |keys|
    ensures DeleteMetas(x, keys[n..])
            == DeleteMetas(Do(x, DeleteUndecidedMeta(0, keys[n])), keys[n + 1..])
  {
    hide Do;
    assert keys[n..][1..] == keys[n + 1..];
  }

  /** The state is sound and consensus keeps its promises about the event. */
  ghost predicate Serves(config: Config, x: Exec, e: NodeRuns.Event) {
    && DiskOk(config, x.disk) && MemOk(config, x) && x.points == []
    && NodeRuns.Promised(config, x, e)
  }

  /** The outcome is sound, at its end and at every crash point, and extends the store it began with. */
  ghost predicate SoundOutcome(config: Config, base: Disk, y: Exec) {
    && DiskOk(config, y.disk) && MemOk(config, y) && Extends(base, y.disk)
    && forall d :: d in y.points ==> DiskOk(config, d) && Extends(base, d)
  }

  lemma HandlerSound(config: Config, x: Exec, e: NodeRuns.Event)
    ensures Serves(config, x, e) ==> SoundOutcome(config, x.disk, NodeRuns.Handle(config, x, e))
  {
    hide DiskOk, MemOk, Extends, NodeRuns.Handle, NodeRuns.Promised;
    if Serves(config, x, e) {
      NodeRuns.EventSafe(config, x, e);
    }
  }

  class State {

    const config: Config
    var store: Disk
    var currentHeight: nat
    var currentRound: Round
    var finalized: nat
    var pendingArchive: set<nat>
    var pendingPrune: set<nat>
    var blobRounds: map<nat, set<Round>>
    var cacheRoot: Hash
    var cacheHeight: nat
    ghost var points: seq<Disk>

    function Mem(): Memory
      reads this
    {
      Memory(currentHeight, currentRound, finalized, pendingArchive, pendingPrune, blobRounds,
             cacheRoot, cacheHeight)
    }

    ghost function View(): Exec
      reads this
    {
      Exec(store, Mem(), points)
    }

    /** One atomic write. */
    method Perform(w: Write)
      modifies this`store, this`points
      ensures View() == Do(old(View()), w)
    {
      hide Apply;
      store := Apply(store, w);
      points := points + [store];
    }

    // ----- Archive notices and pruning -----

    method HandleArchiveNotice(n: Notice)
      modifies this
      ensures View() == HandleNotice(config, old(View()), n)
      ensures Serves(config, old(View()), NodeRuns.Noticed(n)) ==>
        SoundOutcome(config, old(store), View())
    {
      hide Judge, NoticeMeta, PruneHeight, Apply, Serves, SoundOutcome;
      HandlerSound(config, View(), NodeRuns.Noticed(n));
      if Judge(config, store, n) != Record {
        return;
      }
      var h := n.body.height;
      var m := NoticeMeta(store, n);
      Perform(PutRecord(h, n.body.index, n));
      Perform(UpdateMeta(h, m));
      if m.AllArchived() && m.blobCount > 0 {
        pendingArchive := pendingArchive - {h};
        if h <= Mem().Finality() {
          PruneArchivedHeight(h, m);
        } else {
          pendingPrune := pendingPrune + {h};
        }
      }
    }

    method PruneArchivedHeight(h: nat, m: Metadata)
      modifies this
      ensures View() == PruneHeight(old(View()), h, m)
    {
      hide Apply;
      if m.pruned || m.blobCount == 0 {
        return;
      }
      for i := 0 to m.blobCount
        invariant DeleteBlobs(View(), h, i, m.blobCount)
                  == DeleteBlobs(old(View()), h, 0, m.blobCount)
      {
        Perform(DeleteDecidedBlob(h, i));
      }
      Perform(UpdateMeta(h, m.MarkPruned()));
      pendingArchive := pendingArchive - {h};
      pendingPrune := pendingPrune - {h};
    }

    method FlushPendingPrunes()
      modifies this
      ensures View() == FlushPrunes(old(View()))
    {
      hide FlushHeight, FlushHeights, ReadyHeights;
      var heights := ReadyHeights(Mem());
      assert heights[0..] == heights;
      for n := 0 to |heights|
        invariant FlushHeights(View(), heights[n..]) == FlushHeights(old(View()), heights)
      {
        FlushNext(View(), heights, n);
        FlushOne(heights[n]);
      }
      FlushNone(View(), heights[|heights|..]);
    }

    method FlushOne(h: nat)
      modifies this
      ensures View() == FlushHeight(old(View()), h)
    {
      hide PruneHeight, Disk.Meta;
      if h !in store.metas || store.Meta(h).blobCount == 0 {
        pendingPrune := pendingPrune - {h};
      } else if store.Meta(h).AllArchived() {
        pendingPrune := pendingPrune - {h};
        PruneArchivedHeight(h, store.Meta(h));
      }
    }

    method RehydratePendingPrunes()
      modifies this
      ensures View() == Rehydrate(config, old(View()))
    {
      hide RehydrateHeight, RehydrateHeights, Ascending, MaxOrZero;
      if store.values.Keys != {} {
        finalized := MaxOrZero(store.values.Keys);
      }
      pendingArchive, pendingPrune := {}, {};
      ghost var x := View();
      var heights := Ascending(store.metas.Keys);
      assert heights[0..] == heights;
      for n := 0 to |heights|
        invariant RehydrateHeights(config, View(), heights[n..])
                  == RehydrateHeights(config, x, heights)
      {
        RehydrateNext(config, View(), heights, n);
        RehydrateOne(heights[n]);
      }
      RehydrateNone(config, View(), heights[|heights|..]);
    }

    method RehydrateOne(h: nat)
      modifies this
      ensures View() == RehydrateHeight(config, old(View()), h)
    {
      hide PruneHeight, Disk.Meta, Disk.ProposerAt;
      if h !in store.metas {
        return;
      }
      var m := store.Meta(h);
      if m.blobCount == 0 || m.pruned {
        return;
      }
      if !m.AllArchived() {
        if config.archiverEnabled
           && store.ProposerAt(config, h, m.proposerHint) == Some(config.address) {
          pendingArchive := pendingArchive + {h};
        }
      } else if h <= Mem().Finality() {
        PruneArchivedHeight(h, m);
      } else {
        pendingPrune := pendingPrune + {h};
      }
    }

    method HandleArchiveNotices(notices: seq<Notice>)
      modifies this
      ensures View() == HandleNotices(config, old(View()), notices)
    {
      hide HandleNotice, HandleNotices;
      assert notices[0..] == notices;
      for n := 0 to |notices|
        invariant HandleNotices(config, View(), notices[n..])
                  == HandleNotices(config, old(View()), notices)
      {
        NoticesNext(config, View(), notices, n);
        HandleArchiveNotice(notices[n]);
      }
      NoticesNone(config, View(), notices[|notices|..]);
    }

    // ----- Blob engine -----

    method StoreBlobs(h: nat, r: Round, sidecars: seq<Sidecar>)
      modifies this`store, this`points
      ensures View() == StoreSidecars(old(View()), h, r, sidecars)
    {
      hide Do, StoreSidecars;
      assert sidecars[0..] == sidecars;
      for n := 0 to |sidecars|
        invariant StoreSidecars(View(), h, r, sidecars[n..])
                  == StoreSidecars(old(View()), h, r, sidecars)
      {
        StoreNext(View(), h, r, sidecars, n);
        Perform(PutBlob(h, r, sidecars[n]));
      }
      StoreNone(View(), h, r, sidecars[|sidecars|..]);
    }

    method MarkDecided(h: nat, r: Round)
      modifies this`store, this`points
      ensures View() == PromoteBlobs(old(View()), h, r)
    {
      hide Do, MoveEntries, Entries, RoundsToMove;
      var entries := Entries(store.undecided, h, RoundsToMove(store.undecided, h, r));
      assert entries[0..] == entries;
      for n := 0 to |entries|
        invariant MoveEntries(View(), h, entries[n..]) == MoveEntries(old(View()), h, entries)
      {
        MoveNext(View(), h, entries, n);
        var (round, i, s) := entries[n];
        Perform(PutDecidedBlob(h, i, s));
        Perform(DeleteBlob(h, round, i));
      }
      MoveNone(View(), h, entries[|entries|..]);
    }

    method DropRound(h: nat, r: Round)
      modifies this`store, this`points
      ensures View() == DropBlobs(old(View()), h, r)
    {
      hide Do, DropEntries, RoundEntries;
      var entries := RoundEntries(store.undecided, h, r);
      assert entries[0..] == entries;
      for n := 0 to |entries|
        invariant DropEntries(View(), h, entries[n..]) == DropEntries(old(View()), h, entries)
      {
        DropNext(View(), h, entries, n);
        Perform(DeleteBlob(h, entries[n].0, entries[n].1));
      }
      DropNone(View(), h, entries[|entries|..]);
    }

    // ----- Round changes -----

    method CleanupRound(h: nat, r: Round)
      modifies this`store, this`points
      ensures View() == CleanRound(old(View()), h, r)
    {
      hide Do, DropBlobs;
      if r < 0 {
        return;
      }
      Perform(DeleteUndecidedMeta(h, r));
      Perform(DeleteProposal(h, r));
      Perform(DeleteBlock(h, r));
      DropRound(h, r);
    }

    method CleanupStaleRoundBlobs(h: nat, current: Round)
      modifies this
      ensures View() == CleanupStale(old(View()), h, current)
    {
      hide CleanRound, CleanRounds, InKeyOrder;
      var stale := StaleRounds(Mem(), h, current);
      if current <= STALE_ROUND_BLOB_RETENTION || stale == {} {
        return;
      }
      var rounds := InKeyOrder(stale);
      assert rounds[0..] == rounds;
      for n := 0 to |rounds|
        invariant CleanRounds(View(), h, rounds[n..]) == CleanRounds(old(View()), h, rounds)
      {
        CleanNext(View(), h, rounds, n);
        CleanupRound(h, rounds[n]);
      }
      CleanNone(View(), h, rounds[|rounds|..]);
      blobRounds := blobRounds[h := Mem().Tracked(h) - stale];
    }

    method StartedRound(h: nat, r: Round)
      modifies this
      ensures View() == StartRound(old(View()), h, r)
      ensures Serves(config, old(View()), NodeRuns.Started(h, r)) ==>
        SoundOutcome(config, old(store), View())
    {
      hide CleanupStale, Serves, SoundOutcome;
      HandlerSound(config, View(), NodeRuns.Started(h, r));
      if r > 0 {
        CleanupStaleRoundBlobs(h, r);
      }
      currentHeight, currentRound := h, r;
    }

    // ----- Producing candidates -----

    method ProposeValueWithBlobs(
      h: nat, r: Round, exec: ExecutionHeader, bundle: Bundle, payload: Payload)
      modifies this
      ensures View() == Propose(config, old(View()), h, r, exec, bundle, payload)
      ensures Serves(config, old(View()), NodeRuns.Proposed(h, r, exec, bundle, payload)) ==>
        SoundOutcome(config, old(store), View())
    {
      hide Apply, StoreSidecars, BuildSidecars, BundleCommitments, BundleKeccaks, New,
           Disk.ParentRoot, Config.IndexOf, Serves, SoundOutcome;
      HandlerSound(config, View(), NodeRuns.Proposed(h, r, exec, bundle, payload));
      if store.BlockData(h, r).Some? {
        return;
      }
      var commitments := BundleCommitments(bundle);
      Perform(PutProposal(h, r, Proposal(Value(exec, commitments), config.address)));
      var index := config.IndexOf(config.address);
      var parent := store.ParentRoot(config.crypto, h);
      if parent.None? {
        return;
      }
      Perform(PutUndecidedMeta(h, r, New(
        h, parent.value, commitments, BundleKeccaks(config.crypto, bundle), exec, index)));
      if bundle != [] {
        blobRounds := blobRounds[h := Mem().Tracked(h) + {r}];
      }
      Perform(PutBlock(h, r, payload));
      if index.None? {
        return;
      }
      var header := BeaconHeader(
        h, index.value, parent.value, exec.stateRoot, config.crypto.bodyRoot(commitments, exec));
      var sidecars := BuildSidecars(config.crypto, bundle, header, exec);
      if config.crypto.kzgValid(sidecars) {
        StoreBlobs(h, r, sidecars);
      }
    }

    method ReceivedProposal(
      h: nat, r: Round, proposer: Address, exec: ExecutionHeader, sidecars: Sidecars,
      payload: Payload, assembled: bool)
      modifies this
      ensures View()
              == Receive(config, old(View()), h, r, proposer, exec, sidecars, payload, assembled)
      ensures Serves(config, old(View()), NodeRuns.Received(h, r, proposer, exec, sidecars, payload, assembled)) ==>
        SoundOutcome(config, old(store), View())
    {
      hide Apply, StoreSidecars, CommitmentsOf, Keccaks, New, SidecarsVerified, Disk.ParentRoot,
           Config.IndexOf, Serves, SoundOutcome;
      HandlerSound(
        config, View(),
        NodeRuns.Received(h, r, proposer, exec, sidecars, payload, assembled));
      var value := Value(exec, CommitmentsOf(sidecars));
      if h < currentHeight || !assembled {
        return;
      }
      if sidecars != []
         && !(SidecarsVerified(config, store, h, proposer, value, sidecars)
              && config.crypto.kzgValid(sidecars)) {
        return;
      }
      var parent := store.ParentRoot(config.crypto, h);
      if parent.None? {
        return;
      }
      StoreBlobs(h, r, sidecars);
      var root := if sidecars != [] then sidecars[0].header.parentRoot else parent.value;
      Perform(PutUndecidedMeta(h, r, New(
        h, root, value.commitments, Keccaks(config.crypto, sidecars), exec,
        config.IndexOf(proposer))));
      if sidecars != [] {
        blobRounds := blobRounds[h := Mem().Tracked(h) + {r}];
      }
      Perform(PutProposal(h, r, Proposal(value, proposer)));
      Perform(PutBlock(h, r, payload));
    }

    method RestreamProposal(h: nat, r: Round, from: Round)
      modifies this
      ensures View() == Restream(config, old(View()), h, r, from)
      ensures Serves(config, old(View()), NodeRuns.Restreamed(h, r, from)) ==>
        SoundOutcome(config, old(store), View())
    {
      hide Apply, StoreSidecars, Rebuild, MetaForRound, Listing, RoundBlobs, Serves, SoundOutcome;
      HandlerSound(config, View(), NodeRuns.Restreamed(h, r, from));
      var meta := MetaForRound(store, h, from);
      var data := store.BlockData(h, from);
      if (h, from) !in store.proposals || data.None? || meta.None? || r == from {
        return;
      }
      var sidecars: Sidecars := [];
      var pruned := h in store.metas && store.metas[h].pruned && store.metas[h].blobCount > 0;
      if meta.value.blobCount > 0 && !pruned {
        var blobs := Listing(RoundBlobs(store.undecided, h, from));
        var rebuilt := Rebuild(config, meta.value, blobs);
        if blobs == [] || rebuilt.None? {
          return;
        }
        sidecars := rebuilt.value;
      }
      Perform(PutProposal(h, r, store.proposals[(h, from)].(proposer := config.address)));
      Perform(PutBlock(h, r, data.value));
      Perform(PutUndecidedMeta(h, r, meta.value));
      if config.crypto.kzgValid(sidecars) {
        StoreBlobs(h, r, sidecars);
      }
    }

    // ----- Synchronisation -----

    method AdoptMetadata(h: nat, r: Round, meta: Metadata)
      modifies this
      ensures View() == AdoptMeta(config, old(View()), h, r, meta)
    {
      hide Apply, Metadata.HeaderRoot;
      Perform(PutUndecidedMeta(h, r, meta));
      Perform(PromoteMeta(h, r));
      cacheRoot, cacheHeight := meta.HeaderRoot(config.crypto), h;
    }

    method ProcessSyncedPackage(h: nat, r: Round, proposer: Address, package: Package)
      returns (accepted: bool)
      modifies this
      ensures (View(), accepted) == Sync(config, old(View()), h, r, proposer, package)
      ensures Serves(config, old(View()), NodeRuns.Synced(h, r, proposer, package)) ==>
        SoundOutcome(config, old(store), View())
    {
      hide Apply, StoreSidecars, DropBlobs, PromoteBlobs, HandleNotices, AdoptMeta, SyncedMeta,
           SidecarsVerified, Disk.ParentRoot, DistinctIndices, MatchesValue, Serves, SoundOutcome;
      HandlerSound(config, View(), NodeRuns.Synced(h, r, proposer, package));
      match package {
        case Full(value, payload, sidecars, notices) =>
          Perform(PutBlock(h, r, payload));
          if sidecars != [] && !config.crypto.kzgValid(sidecars) {
            return false;
          }
          StoreBlobs(h, r, sidecars);
          if sidecars != [] {
            if |value.commitments| != |sidecars| || !DistinctIndices(sidecars) {
              DropRound(h, r);
              return false;
            }
            if !MatchesValue(value, sidecars) {
              DropRound(h, r);
              Perform(DeleteUndecidedMeta(h, r));
              return false;
            }
            if !SidecarsVerified(config, store, h, proposer, value, sidecars) {
              DropRound(h, r);
              return false;
            }
            MarkDecided(h, r);
          }
          var parent := store.ParentRoot(config.crypto, h);
          if parent.None? {
            return false;
          }
          if sidecars != [] && sidecars[0].header.parentRoot != parent.value {
            DropRound(h, r);
            Perform(DeleteUndecidedMeta(h, r));
            return false;
          }
          var meta := SyncedMeta(config, store, h, proposer, package);
          if meta.None? {
            return false;
          }
          AdoptMetadata(h, r, meta.value);
          Perform(PutProposal(h, r, Proposal(value, proposer)));
          HandleArchiveNotices(notices);
          accepted := true;
        case MetadataOnly(value, notices, payload) =>
          if payload.None? {
            HandleArchiveNotices(notices);
            return false;
          }
          Perform(PutBlock(h, r, payload.value));
          var meta := SyncedMeta(config, store, h, proposer, package);
          if meta.None? {
            return false;
          }
          AdoptMetadata(h, r, meta.value);
          HandleArchiveNotices(notices);
          Perform(PutProposal(h, r, Proposal(value, proposer)));
          accepted := true;
      }
    }

    // ----- Deciding a height -----

    method DropOrphanRounds(h: nat, rounds: seq<Round>)
      modifies this
      ensures View() == DropOrphans(old(View()), h, rounds)
    {
      hide Apply, DropOrphans, DropBlobs;
      assert rounds[0..] == rounds;
      for n := 0 to |rounds|
        invariant DropOrphans(View(), h, rounds[n..]) == DropOrphans(old(View()), h, rounds)
      {
        CleanNext(View(), h, rounds, n);
        if rounds[n] >= 0 {
          Perform(DeleteUndecidedMeta(h, rounds[n]));
          DropRound(h, rounds[n]);
        }
      }
      CleanNone(View(), h, rounds[|rounds|..]);
    }

    method FinishCommit(h: nat)
      modifies this
      ensures View() == Finish(old(View()), h)
    {
      hide FlushPrunes;
      if h > finalized {
        finalized := h;
      }
      FlushPendingPrunes();
      if currentHeight <= h + 1 {
        currentHeight := h + 1;
      }
      currentRound := 0;
    }

    method Commit(h: nat, r: Round) returns (ok: bool)
      modifies this
      ensures (View(), ok) == Node.Commit(config, old(View()), h, r)
    {
      hide Apply, PromoteBlobs, Finish, DropOrphans, RetainHeight, Metadata.HeaderRoot, InKeyOrder,
           Disk.Meta, CommitFirst, CommitReplay;
      if (h, r) in store.proposals {
        ok := CommitProposal(h, r);
      } else if h in store.values {
        ok := CommitAgain(h, r);
      } else {
        ok := false;
      }
    }

    method CommitProposal(h: nat, r: Round) returns (ok: bool)
      requires (h, r) in store.proposals
      modifies this
      ensures (View(), ok) == CommitFirst(config, old(View()), h, r)
    {
      hide Apply, Finish, DropOrphans, RetainHeight, Metadata.HeaderRoot, InKeyOrder, Disk.Meta,
           Disk.BlockData;
      var p := store.proposals[(h, r)];
      Perform(PutValue(h, DecidedValue(p.value, r)));
      Perform(PutConsensus(h, ConsensusMetadata(r, p.proposer, p.value.exec.blockHash)));
      if (h, r) !in store.undecidedMetas && h !in store.metas {
        return false;
      }
      PromotedIsThere(store, h, r);
      Perform(PromoteMeta(h, r));
      cacheRoot, cacheHeight := store.Meta(h).HeaderRoot(config.crypto), h;
      var data := store.BlockData(h, r);
      if data.Some? {
        Perform(PutDecidedBlock(h, data.value));
      }
      Perform(PruneBelow(RetainHeight(config, Mem(), h)));
      DropOrphanRounds(h, InKeyOrder(Mem().Tracked(h) - {r}));
      blobRounds := blobRounds - {h};
      FinishCommit(h);
      ok := true;
    }

    method CommitAgain(h: nat, r: Round) returns (ok: bool)
      modifies this
      ensures (View(), ok) == CommitReplay(config, old(View()), h, r)
    {
      hide Apply, PromoteBlobs, Finish, Metadata.HeaderRoot, Disk.Meta;
      MarkDecided(h, r);
      if h in store.metas {
        cacheRoot, cacheHeight := store.Meta(h).HeaderRoot(config.crypto), h;
      } else if (h, r) in store.undecidedMetas {
        var root := store.undecidedMetas[(h, r)].HeaderRoot(config.crypto);
        Perform(PromoteMeta(h, r));
        cacheRoot, cacheHeight := root, h;
      }
      FinishCommit(h);
      ok := true;
    }

    method Decided(h: nat, r: Round, el: ElOutcome) returns (ok: bool)
      modifies this
      ensures (View(), ok) == Decide(config, old(View()), h, r, el)
      ensures Serves(config, old(View()), NodeRuns.Decided(h, r, el)) ==>
        SoundOutcome(config, old(store), View())
    {
      hide Apply, PromoteBlobs, Node.Commit, BlobsBack, AlreadyDecided, ExpectedHashes, JobIndices,
           Serves, SoundOutcome;
      HandlerSound(config, View(), NodeRuns.Decided(h, r, el));
      var data := store.BlockData(h, r);
      if data.None? || data.value.ssz == [] || el == BadPayload {
        return false;
      }
      var hashes := ExpectedHashes(config.crypto, store, h, r, data.value);
      if !BlobsBack(config.crypto, store, h, r, hashes) {
        return false;
      }
      if !AlreadyDecided(store, h, r, hashes) {
        MarkDecided(h, r);
      }
      if el == Refused {
        return false;
      }
      ok := Commit(h, r);
      if ok && hashes != [] && config.archiverEnabled && (h, r) in store.proposals
         && store.proposals[(h, r)].proposer == config.address && JobIndices(store, h) != {} {
        pendingArchive := pendingArchive + {h};
      }
    }

    // ----- Start-up -----

    method HydrateBlobParentRoot()
      modifies this
      ensures View() == HydrateCache(config, old(View()))
    {
      hide Apply, Metadata.HeaderRoot, Disk.Meta, Genesis;
      if store.latest.Some? && store.latest.value in store.metas {
        cacheHeight := store.latest.value;
        cacheRoot := store.Meta(cacheHeight).HeaderRoot(config.crypto);
      } else {
        var genesis := Genesis(config.genesisExec);
        Perform(SeedGenesis(genesis));
        cacheRoot, cacheHeight := genesis.HeaderRoot(config.crypto), 0;
      }
    }

    method CleanupStaleBlobMetadata()
      modifies this
      ensures View() == CleanupStaleMetas(old(View()))
    {
      hide Apply, DeleteMetas, InKeyOrder;
      var keys := InKeyOrder(set k | k in store.undecidedMetas && k.0 < START_HEIGHT :: k.1);
      assert keys[0..] == keys;
      for n := 0 to |keys|
        invariant DeleteMetas(View(), keys[n..]) == DeleteMetas(old(View()), keys)
      {
        MetasNext(View(), keys, n);
        Perform(DeleteUndecidedMeta(0, keys[n]));
      }
      MetasNone(View(), keys[|keys|..]);
    }

    /** `State::new` and the start-up steps, from whatever a crash left on disk. */
    constructor (config: Config, disk: Disk)
      requires DiskOk(config, disk)
      ensures View() == Restart(config, disk)
      ensures this.config == config && Sound() && PointsSound(disk)
    {
      hide DiskOk, HydrateCache, CleanupStaleMetas, Rehydrate, MemOk, Extends;
      this.config := config;
      store, points := disk, [];
      currentHeight, currentRound, finalized := START_HEIGHT, 0, 0;
      pendingArchive, pendingPrune, blobRounds := {}, {}, map[];
      cacheRoot, cacheHeight := ZERO_HASH, 0;
      new;
      HydrateBlobParentRoot();
      CleanupStaleBlobMetadata();
      RehydratePendingPrunes();
      RestartSound(config, disk);
    }

    // ----- The object's invariant -----

    /** The durable invariant holds and memory is exact. */
    ghost predicate Sound()
      reads this
    {
      DiskOk(config, store) && MemOk(config, View())
    }

    /** Every crash point is a sound store that extends the one the operation began with. */
    ghost predicate PointsSound(base: Disk)
      reads this
    {
      Extends(base, store)
      && forall d :: d in points ==> DiskOk(config, d) && Extends(base, d)
    }

    /** Handles an event. Under what consensus promises, the object stays sound, and so does the store
        at every point where a crash can fall. */
    method Handle(e: NodeRuns.Event)
      requires Sound() && NodeRuns.Promised(config, View().(points := []), e)
      modifies this
      ensures View() == NodeRuns.Handle(config, old(View()).(points := []), e)
      ensures Sound() && PointsSound(old(store))
    {
      hide DiskOk, MemOk, Extends, Propose, Receive, Restream, Sync, Decide, StartRound,
           HandleNotice, NodeRuns.Promised;
      NodeRuns.PointsIrrelevant(config, View(), View().(points := []));
      points := [];
      match e {
        case Proposed(h, r, exec, bundle, payload) =>
          ProposeValueWithBlobs(h, r, exec, bundle, payload);
        case Received(h, r, proposer, exec, sidecars, payload, assembled) =>
          ReceivedProposal(h, r, proposer, exec, sidecars, payload, assembled);
        case Restreamed(h, r, from) => RestreamProposal(h, r, from);
        case Synced(h, r, proposer, package) =>
          var _ := ProcessSyncedPackage(h, r, proposer, package);
        case Decided(h, r, el) =>
          var _ := Decided(h, r, el);
        case Started(h, r) => StartedRound(h, r);
        case Noticed(notice) => HandleArchiveNotice(notice);
      }
    }
  }

  lemma PromotedIsThere(d: Disk, h: nat, r: Round)
    requires (h, r) in d.undecidedMetas || h in d.metas
    ensures h in Apply(d, PromoteMeta(h, r)).metas
  {
  }

  lemma RestartSound(config: Config, d: Disk)
    requires DiskOk(config, d)
    ensures SoundOutcome(config, d, Restart(config, d))
  {
    hide DiskOk, MemOk, Extends, Restart;
    NodeDecide.RestartSafe(config, d);
    NodeSteps.RestartExact(config, d);
  }

  lemma FlushNone(x: Exec, heights: seq<nat>)
    requires heights == []
    ensures FlushHeights(x, heights) == x
  {
  }

  lemma RehydrateNone(config: Config, x: Exec, heights: seq<nat>)
    requires heights == []
    ensures RehydrateHeights(config, x, heights) == x
  {
  }

  lemma NoticesNone(config: Config, x: Exec, notices: seq<Notice>)
    requires notices == []
    ensures HandleNotices(config, x, notices) == x
  {
  }

  lemma StoreNone(x: Exec, h: nat, r: Round, sidecars: seq<Sidecar>)
    requires sidecars == []
    ensures StoreSidecars(x, h, r, sidecars) == x
  {
  }

  lemma MoveNone(x: Exec, h: nat, entries: seq<(Round, nat, Sidecar)>)
    requires entries == []
    ensures MoveEntries(x, h, entries) == x
  {
  }

  lemma DropNone(x: Exec, h: nat, entries: seq<(Round, nat, Sidecar)>)
    requires entries == []
    ensures DropEntries(x, h, entries) == x
  {
  }

  lemma CleanNone(x: Exec, h: nat, rounds: seq<Round>)
    requires rounds == []
    ensures CleanRounds(x, h, rounds) == x && DropOrphans(x, h, rounds) == x
  {
  }

  lemma MetasNone(x: Exec, keys: seq<Round>)
    requires keys == []
    ensures DeleteMetas(x, keys) == x
  {
  }
}
