/** Whole runs of a node: operations in any order, crashes between any two writes, restarts. */
module NodeRuns {

  import opened Types
  import opened Ordering
  import opened BlobMetadata
  import opened BlobFamilies
  import opened DiskState
  import opened DiskInvariant
  import opened Node
  import opened NodeSafety
  import opened NodeOps
  import opened NodeDecide
  import opened NodeMemory
  import opened NodeSteps

  datatype Event =
    | Proposed(h: nat, r: Round, exec: ExecutionHeader, bundle: Bundle, payload: Payload)
    | Received(h: nat, r: Round, proposer: Address, exec: ExecutionHeader, sidecars: Sidecars,
               payload: Payload, assembled: bool)
    | Restreamed(h: nat, r: Round, from: Round)
    | Synced(h: nat, r: Round, proposer: Address, package: Package)
    | Decided(h: nat, r: Round, el: ElOutcome)
    | Started(h: nat, r: Round)
    | Noticed(notice: Notice)

  function Handle(config: Config, x: Exec, e: Event): Exec {
    match e
    case Proposed(h, r, exec, bundle, payload) => Propose(config, x, h, r, exec, bundle, payload)
    case Received(h, r, proposer, exec, sidecars, payload, assembled) =>
      Receive(config, x, h, r, proposer, exec, sidecars, payload, assembled)
    case Restreamed(h, r, from) => Restream(config, x, h, r, from)
    case Synced(h, r, proposer, package) => Sync(config, x, h, r, proposer, package).0
    case Decided(h, r, el) => Decide(config, x, h, r, el).0
    case Started(h, r) => StartRound(x, h, r)
    case Noticed(notice) => HandleNotice(config, x, notice)
  }

  /** What consensus promises of the events it sends. Candidates arrive only for heights that are not
      committed, a height's metadata is synchronised once, offered headers of one round agree,
      decisions agree with each other, and a height starts only when the one below it is final. */
  ghost predicate Promised(config: Config, x: Exec, e: Event) {
    match e
    case Proposed(h, _, _, _, _) => !Committed(x.disk, h)
    case Received(h, _, _, _, _, _, _) => !Committed(x.disk, h)
    case Restreamed(h, _, _) => !Committed(x.disk, h)
    case Synced(h, r, proposer, package) =>
      && (package.Full? || package.payloadOpt.Some? ==> h !in x.disk.metas)
      && var m := SyncedMeta(config, x.disk, h, proposer, package);
      m.Some? ==> OneHeader(config.crypto, x.disk, h, r, m.value)
    case Decided(h, r, _) => Agreed(x.disk, h, r)
    case Started(h, _) => h <= x.mem.finalized + 1
    case Noticed(_) => true
  }

  datatype State = Running(disk: Disk, mem: Memory) | Down(disk: Disk)

  /** One step: an event is handled, a crash falls somewhere inside handling it, or a node that is
      down starts up, where another crash may fall. */
  ghost predicate Step(config: Config, s: State, e: Option<Event>, t: State) {
    match s
    case Running(d, m) =>
      && e.Some? && Promised(config, Exec(d, m, []), e.value)
      && var y := Handle(config, Exec(d, m, []), e.value);
      t == Running(y.disk, y.mem) || (t.Down? && t.disk in [d] + y.points)
    case Down(d) =>
      && e.None?
      && var y := Restart(config, d);
      t == Running(y.disk, y.mem) || (t.Down? && t.disk in [d] + y.points)
  }

  ghost predicate Next(config: Config, s: State, t: State) {
    exists e :: Step(config, s, e, t)
  }

  ghost predicate IsRun(config: Config, run: seq<State>) {
    && run != [] && run[0] == Down(EMPTY_DISK)
    && forall i :: 0 <= i < |run| - 1 ==> Next(config, run[i], run[i + 1])
  }

  /** A run together with the events that drive it; a start-up is a step without an event. */
  ghost predicate IsTrace(config: Config, run: seq<State>, events: seq<Option<Event>>) {
    && |run| == |events| + 1 && run[0] == Down(EMPTY_DISK)
    && forall i :: 0 <= i < |events| ==> Step(config, run[i], events[i], run[i + 1])
  }

  lemma TraceIsRun(config: Config, run: seq<State>, events: seq<Option<Event>>)
    requires IsTrace(config, run, events)
    ensures IsRun(config, run)
  {
    hide Step;
    forall i | 0 <= i < |run| - 1 ensures Next(config, run[i], run[i + 1]) {
      assert Step(config, run[i], events[i], run[i + 1]);
    }
  }

  ghost predicate StateOk(config: Config, s: State) {
    && DiskOk(config, s.disk)
    && (s.Running? ==> MemOk(config, Exec(s.disk, s.mem, [])))
  }

  lemma EventSafe(config: Config, x: Exec, e: Event)
    requires DiskOk(config, x.disk) && MemOk(config, x) && x.points == [] && Promised(config, x, e)
    ensures Safe(config, x.disk, Handle(config, x, e)) && MemOk(config, Handle(config, x, e))
  {
    hide DiskOk, Extends, Propose, Receive, Restream, Sync, Decide, StartRound, HandleNotice,
         PruningExact, CacheOk, FinalityBound, OneHeader, SyncedMeta, Agreed;
    ExtendsReflexive(x.disk);
    assert Safe(config, x.disk, x);
    match e
    case Proposed(h, r, exec, bundle, payload) =>
      ProposeSafe(config, x.disk, x, h, r, exec, bundle, payload);
      ProposeQuiet(config, x, h, r, exec, bundle, payload);
      QuietExact(config, x, Propose(config, x, h, r, exec, bundle, payload));
    case Received(h, r, proposer, exec, sidecars, payload, assembled) =>
      ReceiveSafe(config, x.disk, x, h, r, proposer, exec, sidecars, payload, assembled);
      ReceiveQuiet(config, x, h, r, proposer, exec, sidecars, payload, assembled);
      QuietExact(
        config, x, Receive(config, x, h, r, proposer, exec, sidecars, payload, assembled));
    case Restreamed(h, r, from) =>
      RestreamSafe(config, x.disk, x, h, r, from);
      RestreamQuiet(config, x, h, r, from);
      QuietExact(config, x, Restream(config, x, h, r, from));
    case Synced(h, r, proposer, package) =>
      if package.Full? {
        SyncFullSafe(config, x.disk, x, h, r, proposer, package);
      } else {
        SyncMetadataSafe(config, x.disk, x, h, r, proposer, package);
      }
      SyncExact(config, x.disk, x, h, r, proposer, package);
    case Decided(h, r, el) =>
      DecideSafe(config, x.disk, x, h, r, el);
      DecideExact(config, x.disk, x, h, r, el);
    case Started(h, r) =>
      StartRoundSafe(config, x.disk, x, h, r);
      StartRoundExact(config, x, h, r);
    case Noticed(notice) =>
      HandleNoticeSafe(config, x.disk, x, notice);
      HandleNoticeExact(config, x, notice);
  }

  /** Points of a safe execution, its end, and its start, are all sound. */
  lemma PointSafe(config: Config, base: Disk, x: Exec, d: Disk)
    requires DiskOk(config, base) && Safe(config, base, x)
    requires d in [base] + x.points || d == x.disk
    ensures DiskOk(config, d) && Extends(base, d)
  {
    hide DiskOk, Extends;
    ExtendsReflexive(base);
  }

  lemma StepSafe(config: Config, s: State, e: Option<Event>, t: State)
    requires StateOk(config, s) && Step(config, s, e, t)
    ensures StateOk(config, t) && Extends(s.disk, t.disk)
  {
    hide DiskOk, Extends, Safe, MemOk, Promised, Handle, Restart;
    if s.Running? {
      var x := Exec(s.disk, s.mem, []);
      EventSafe(config, x, e.value);
      var y := Handle(config, x, e.value);
      PointSafe(config, s.disk, y, t.disk);
      PointsIrrelevant(config, y, Exec(y.disk, y.mem, []));
    } else {
      RestartSafe(config, s.disk);
      RestartExact(config, s.disk);
      var y := Restart(config, s.disk);
      PointSafe(config, s.disk, y, t.disk);
      PointsIrrelevant(config, y, Exec(y.disk, y.mem, []));
    }
  }

  lemma NextSafe(config: Config, s: State, t: State)
    requires StateOk(config, s) && Next(config, s, t)
    ensures StateOk(config, t) && Extends(s.disk, t.disk)
  {
    hide StateOk, Step, Extends;
    var e :| Step(config, s, e, t);
    StepSafe(config, s, e, t);
  }

  lemma PointsIrrelevant(config: Config, x: Exec, y: Exec)
    requires MemOk(config, x) && y.disk == x.disk && y.mem == x.mem
    ensures MemOk(config, y)
  {
  }

  lemma EmptyDiskOk(config: Config)
    ensures DiskOk(config, EMPTY_DISK)
  {
  }

  /** Every state of every run is sound: the durable invariant holds, and while the node runs its
      memory is exact. */
  lemma {:induction false} RunSound(config: Config, run: seq<State>, i: nat)
    requires IsRun(config, run) && i < |run|
    ensures StateOk(config, run[i])
  {
    hide StateOk, Next, DiskOk;
    if i == 0 {
      EmptyDiskOk(config);
      InitialOk(config);
    } else {
      RunSound(config, run, i - 1);
      assert Next(config, run[i - 1], run[i - 1 + 1]);
      NextSafe(config, run[i - 1], run[i]);
    }
  }

  lemma InitialOk(config: Config)
    requires DiskOk(config, EMPTY_DISK)
    ensures StateOk(config, Down(EMPTY_DISK))
  {
    hide DiskOk;
  }

  /** Over every stretch of every run, crashes included, the decided data is only extended. */
  lemma {:induction false} RunExtends(config: Config, run: seq<State>, i: nat, j: nat)
    requires IsRun(config, run) && i <= j < |run|
    ensures Extends(run[i].disk, run[j].disk)
    decreases j
  {
    hide StateOk, Next, DiskOk, Extends;
    if i == j {
      ExtendsReflexive(run[i].disk);
    } else {
      RunExtends(config, run, i, j - 1);
      RunSound(config, run, j - 1);
      assert Next(config, run[j - 1], run[j - 1 + 1]);
      NextSafe(config, run[j - 1], run[j]);
      ExtendsTransitive(run[i].disk, run[j - 1].disk, run[j].disk);
    }
  }

  // ----- What this says of a run -----

  /** All blobs of the height are stored locally. */
  ghost predicate AllStored(d: Disk, h: nat) {
    h in d.metas && forall i :: 0 <= i < d.metas[h].blobCount ==> (h, i) in d.decided
  }

  /** No undecided blob of the height differs from the decided blob of its place. */
  ghost predicate Uncontested(d: Disk, h: nat) {
    forall k :: k in d.undecided && k.0 == h && (h, k.2) in d.decided ==>
      d.undecided[k] == d.decided[(h, k.2)]
  }

  /** No blob is ever lost. Once all blobs of a decided height are stored, at every later moment,
      between any two writes, either every index has an archive record with its locator or all places
      are still taken: in a committed height only by blobs that were there for that place, so by the
      very same blobs if no undecided one differed. */
  lemma NoBlobLost(config: Config, run: seq<State>, i: nat, j: nat, h: nat)
    requires IsRun(config, run) && i <= j < |run| && AllStored(run[i].disk, h)
    ensures var a, b := run[i].disk, run[j].disk;
            || b.Archived(h)
            || (&& AllStored(b, h) && b.metas[h].blobCount == a.metas[h].blobCount
                && (Committed(a, h) ==>
                      forall k :: 0 <= k < a.metas[h].blobCount ==>
                        HasBlob(a, (h, k), b.decided[(h, k)]))
                && (Committed(a, h) && Uncontested(a, h) ==>
                      forall k :: 0 <= k < a.metas[h].blobCount ==>
                        b.decided[(h, k)] == a.decided[(h, k)]))
  {
    hide IsRun;
    RunExtends(config, run, i, j);
    StoredBlobsKept(run[i].disk, run[j].disk, h);
  }

  lemma StoredBlobsKept(a: Disk, b: Disk, h: nat)
    requires Extends(a, b) && AllStored(a, h)
    ensures || b.Archived(h)
            || (&& AllStored(b, h) && b.metas[h].blobCount == a.metas[h].blobCount
                && (Committed(a, h) ==>
                      forall k :: 0 <= k < a.metas[h].blobCount ==>
                        HasBlob(a, (h, k), b.decided[(h, k)]))
                && (Committed(a, h) && Uncontested(a, h) ==>
                      forall k :: 0 <= k < a.metas[h].blobCount ==>
                        b.decided[(h, k)] == a.decided[(h, k)]))
  {
    hide PrunedGone, PayloadKept, HashesKept;
    if !b.Archived(h) {
      forall k | 0 <= k < b.metas[h].blobCount
        ensures (h, k) in b.decided
        ensures Committed(a, h) ==> HasBlob(a, (h, k), b.decided[(h, k)])
      {
        assert (h, k) in a.decided;
      }
      if Committed(a, h) && Uncontested(a, h) {
        forall k | 0 <= k < a.metas[h].blobCount ensures b.decided[(h, k)] == a.decided[(h, k)] {
          assert HasBlob(a, (h, k), b.decided[(h, k)]);
        }
      }
    }
  }

  /** A height that is committed and has no undecided blobs left keeps its decided blobs byte for byte:
      later on a blob is the same, or it is gone and its height is archived. */
  lemma SettledBlobsStay(config: Config, run: seq<State>, i: nat, j: nat, h: nat, k: nat)
    requires IsRun(config, run) && i <= j < |run|
    requires Settled(run[i].disk, h) && (h, k) in run[i].disk.decided
    ensures var a, b := run[i].disk, run[j].disk;
            if (h, k) in b.decided then b.decided[(h, k)] == a.decided[(h, k)] else b.Archived(h)
  {
    hide IsRun, PrunedGone, PayloadKept, HashesKept;
    RunExtends(config, run, i, j);
    SettledStays(run[i].disk, run[j].disk, h);
  }

  /** Bytes are deleted with the mark: a settled height that has been pruned since holds none of its
      blobs, at any moment between any two writes, and never gets one back. */
  lemma PrunedBytesGone(config: Config, run: seq<State>, i: nat, j: nat, h: nat)
    requires IsRun(config, run) && i <= j < |run| && Settled(run[i].disk, h)
    requires run[i].disk.metas[h].pruned ==> Gone(run[i].disk, h)
    requires h in run[j].disk.metas && run[j].disk.metas[h].pruned
    ensures Gone(run[j].disk, h)
  {
    hide IsRun, BlobsKept, PayloadKept, HashesKept;
    RunExtends(config, run, i, j);
    SettledStays(run[i].disk, run[j].disk, h);
    assert MetaExtends(run[i].disk.metas[h], run[j].disk.metas[h]);
  }

  /** Decided heights form a gapless prefix, the latest pointer is its end, and every decided or
      undecided entry above genesis carries the header root of the decided entry below it. */
  lemma ChainGapless(config: Config, run: seq<State>, i: nat)
    requires IsRun(config, run) && i < |run|
    ensures var d := run[i].disk;
            && (forall h :: h in d.metas ==> d.latest.Some? && h <= d.latest.value)
            && (d.latest.Some? ==> forall h: nat :: h <= d.latest.value ==> h in d.metas)
            && (forall h :: h in d.metas && h > 0 ==>
                  h - 1 in d.metas
                  && d.metas[h].parentRoot == d.metas[h - 1].HeaderRoot(config.crypto))
            && (forall k :: k in d.undecidedMetas && k.0 > 0 ==>
                  k.0 - 1 in d.metas
                  && d.undecidedMetas[k].parentRoot == d.metas[k.0 - 1].HeaderRoot(config.crypto))
            && (run[i].Running? ==>
                  d.latest.Some? && run[i].mem.cacheHeight in d.metas
                  && run[i].mem.cacheRoot
                     == d.metas[run[i].mem.cacheHeight].HeaderRoot(config.crypto))
  {
    RunSound(config, run, i);
    hide IsRun, RecordsOk, InlinesOk, PrunedOk, BlocksOk, PruningExact, Metadata.HeaderRoot;
    var d := run[i].disk;
    assert ChainOk(config.crypto, d.metas, d.latest);
    forall h | h in d.metas && h > 0
      ensures h - 1 in d.metas
              && d.metas[h].parentRoot == d.metas[h - 1].HeaderRoot(config.crypto)
    {
      assert ParentOk(config.crypto, d.metas, h, d.metas[h]);
    }
  }

  /** While a node runs, a decided height with blobs is pruned if and only if it is fully archived and
      final, that is decided here or below the current height, and it is pending if and only if it is
      fully archived and not yet final. */
  lemma PruningIsExact(config: Config, run: seq<State>, i: nat, h: nat)
    requires IsRun(config, run) && i < |run| && run[i].Running?
    requires h in run[i].disk.metas && run[i].disk.metas[h].blobCount > 0
    ensures var d, m := run[i].disk, run[i].mem;
            && (d.metas[h].pruned <==> d.Archived(h) && h <= m.Finality())
            && (h <= m.Finality() <==> h <= m.finalized || h < m.currentHeight)
            && (h in m.pendingPrune <==> d.Archived(h) && !d.metas[h].pruned)
  {
    RunSound(config, run, i);
    hide IsRun, DiskOk;
    var d, m := run[i].disk, run[i].mem;
    PruningExactly(d.metas, d.records, m.Finality(), m.pendingPrune, h);
    ArchivedIsRecorded(d, h, d.metas[h]);
  }

  /** Archive records are write-once and valid: a stored record never changes, was signed by a known
      validator and matches the decided commitment, and the decided blob hash unless that is still
      the placeholder; a pruned height has all its locators in index order. */
  lemma RecordsWriteOnce(config: Config, run: seq<State>, i: nat, j: nat, h: nat, k: nat)
    requires IsRun(config, run) && i <= j < |run| && (h, k) in run[i].disk.records
    ensures var a, b := run[i].disk, run[j].disk;
            && (h, k) in b.records && b.records[(h, k)] == a.records[(h, k)]
            && h in b.metas && RecordOk(config, h, k, b.metas[h], b.records[(h, k)])
  {
    RunExtends(config, run, i, j);
    RunSound(config, run, j);
    hide IsRun, ChainOk, CandidatesOk, InlinesOk, PrunedOk, BlocksOk, MemOk;
  }

  /** In every state of every run, each record of a height whose entry names a validator as its proposer
      was made and signed by that validator. */
  lemma RecordsByProposer(config: Config, run: seq<State>, i: nat, h: nat, k: nat)
    requires IsRun(config, run) && i < |run| && (h, k) in run[i].disk.records
    ensures var d := run[i].disk;
            && h in d.metas
            && var p := d.metas[h].proposerHint;
            && (p.Some? && p.value < |config.validators| ==>
                  d.records[(h, k)].body.archivedBy == config.validators[p.value].address)
            && config.KnowsSigner(d.records[(h, k)])
  {
    hide IsRun;
    RecordsWriteOnce(config, run, i, i, h, k);
  }

  lemma PrunedServesLocators(config: Config, run: seq<State>, i: nat, h: nat)
    requires IsRun(config, run) && i < |run|
    requires h in run[i].disk.metas && run[i].disk.metas[h].pruned
    ensures var d := run[i].disk;
            var m := d.Meta(h);
            && |m.Locators()| == m.blobCount
            && forall k :: 0 <= k < m.blobCount ==>
                 (h, k) in d.records && m.Locators()[k] == d.records[(h, k)].body.locator
  {
    hide IsRun, DiskOk, MemOk, Metadata.Locators, Disk.Meta;
    RunSound(config, run, i);
    PrunedLocators(config, run[i].disk, h);
  }

  lemma PrunedLocators(config: Config, d: Disk, h: nat)
    requires DiskOk(config, d) && h in d.metas && d.metas[h].pruned
    ensures var m := d.Meta(h);
            && |m.Locators()| == m.blobCount
            && forall k :: 0 <= k < m.blobCount ==>
                 (h, k) in d.records && m.Locators()[k] == d.records[(h, k)].body.locator
  {
    hide DiskOk, Metadata.Locators, Disk.Meta;
    PrunedIsArchived(config, d, h);
    HydratedFacts(config, d, h);
    LocatorsInOrder(d.Meta(h));
  }

  lemma PrunedIsArchived(config: Config, d: Disk, h: nat)
    requires DiskOk(config, d) && h in d.metas && d.metas[h].pruned
    ensures d.Archived(h)
  {
    hide ChainOk, CandidatesOk, RecordsOk, InlinesOk, BlocksOk, MaxOrZero;
    assert AllRecorded(h, d.metas[h], d.records);
  }

  /** The payload of a committed height never changes; it can only be lost, and not once the decided
      copy is stored. */
  lemma CommittedPayloadStable(config: Config, run: seq<State>, i: nat, j: nat, h: nat)
    requires IsRun(config, run) && i <= j < |run| && Committed(run[i].disk, h)
    ensures var a, b := run[i].disk, run[j].disk;
            && h in b.values && b.values[h] == a.values[h]
            && var r := a.values[h].round;
            && (b.BlockData(h, r) == a.BlockData(h, r) || b.BlockData(h, r).None?)
            && (h in a.decidedBlocks ==>
                  h in b.decidedBlocks && b.BlockData(h, r) == Some(a.decidedBlocks[h]))
  {
    hide IsRun, DiskOk, MemOk, BlobsKept, CommittedKept, PrunedGone, HashesKept;
    RunExtends(config, run, i, j);
    RunSound(config, run, j);
    if h in run[i].disk.decidedBlocks {
      CommittedPayload(config, run[j].disk, h);
    }
  }

  lemma CommittedPayload(config: Config, d: Disk, h: nat)
    requires DiskOk(config, d) && h in d.decidedBlocks
    ensures h in d.values && d.BlockData(h, d.values[h].round) == Some(d.decidedBlocks[h])
  {
    assert BlocksOk(d.metas.Keys, d.values, d.blocks, d.decidedBlocks);
  }
}
