/** What each event may write, over whole runs: what can change a piece of data between two states, and
    what cannot. */
module Traces {

  import opened Types
  import opened Ordering
  import opened BlobMetadata
  import opened BlobFamilies
  import opened DiskState
  import opened DiskInvariant
  import opened Node
  import opened NodeSafety
  import opened NodeDecide
  import opened NodeMemory
  import opened NodeRuns
  import opened Trails
  import opened BlobReplacement

  /** The writes an event may perform; a step without an event is a start-up. */
  ghost function ScopeOf(e: Option<Event>): Scope {
    match e
    case None => StartScope
    case Some(Proposed(h, r, _, _, _)) => CandidateScope(h, r)
    case Some(Received(h, r, _, _, _, _, _)) => CandidateScope(h, r)
    case Some(Restreamed(h, r, _)) => CandidateScope(h, r)
    case Some(Synced(h, r, _, package)) =>
      if package.MetadataOnly? && package.payloadOpt.None? then ArchiveScope else SyncScope(h, r)
    case Some(Decided(h, r, _)) => DecisionScope(h, r)
    case Some(Started(h, r)) => RoundScope(h, r)
    case Some(Noticed(_)) => ArchiveScope
  }

  lemma EventWithin(config: Config, x: Exec, e: Event)
    ensures Within(ScopeOf(Some(e)), x, Handle(config, x, e))
  {
    hide Within, Propose, Receive, Restream, Decide, StartRound, HandleNotice, HandleNotices, Sync;
    match e
    case Proposed(h, r, exec, bundle, payload) =>
      ProposeWithin(config, x, h, r, exec, bundle, payload);
    case Received(h, r, proposer, exec, sidecars, payload, assembled) =>
      ReceiveWithin(config, x, h, r, proposer, exec, sidecars, payload, assembled);
    case Restreamed(h, r, from) => RestreamWithin(config, x, h, r, from);
    case Synced(h, r, proposer, package) =>
      if package.Full? {
        SyncFullWithin(config, x, h, r, proposer, package);
      } else if package.payloadOpt.Some? {
        SyncMetadataWithin(config, x, h, r, proposer, package);
      } else {
        SyncNothing(config, x, h, r, proposer, package);
        HandleNoticesWithin(config, ArchiveScope, x, package.notices);
      }
    case Decided(h, r, el) => DecideWithin(config, x, h, r, el);
    case Started(h, r) => StartRoundWithin(x, h, r);
    case Noticed(notice) => HandleNoticeWithin(config, ArchiveScope, x, notice);
  }

  lemma SyncNothing(
    config: Config, x: Exec, h: nat, r: Round, proposer: Address, package: Package)
    requires package.MetadataOnly? && package.payloadOpt.None?
    ensures Sync(config, x, h, r, proposer, package).0 == HandleNotices(config, x, package.notices)
  {
    hide HandleNotices;
  }

  // ----- What the writes of a scope keep -----

  ghost predicate Kept(inv: Disk -> bool, s: Scope) {
    forall d, w {:trigger Allowed(s, d, w)} :: inv(d) && Allowed(s, d, w) ==> inv(Apply(d, w))
  }

  lemma {:induction false} ReplayKeeps(inv: Disk -> bool, s: Scope, d: Disk, ws: seq<Write>)
    requires AllAllowed(s, d, ws) && inv(d) && Kept(inv, s)
    ensures inv(Replay(d, ws)) && forall p :: p in PointsOf(d, ws) ==> inv(p)
    decreases |ws|
  {
    hide Allowed, Apply;
    if ws != [] {
      ReplayKeeps(inv, s, Apply(d, ws[0]), ws[1..]);
    }
  }

  lemma WithinKeeps(inv: Disk -> bool, s: Scope, x: Exec, y: Exec)
    requires Within(s, x, y) && x.points == [] && inv(x.disk) && Kept(inv, s)
    ensures inv(y.disk) && forall p :: p in y.points ==> inv(p)
  {
    hide Replay, PointsOf, AllAllowed, Kept;
    var ws :| Trail(s, x, ws, y);
    ReplayKeeps(inv, s, x.disk, ws);
  }

  /** What every allowed write keeps holds after the step, also if a crash falls into it. */
  lemma StepKeeps(config: Config, inv: Disk -> bool, s: State, e: Option<Event>, t: State)
    requires Step(config, s, e, t) && inv(s.disk) && Kept(inv, ScopeOf(e))
    ensures inv(t.disk)
  {
    hide Within, Kept, Promised, Handle, Restart, ScopeOf;
    if s.Running? {
      var x := Exec(s.disk, s.mem, []);
      EventWithin(config, x, e.value);
      WithinKeeps(inv, ScopeOf(e), x, Handle(config, x, e.value));
    } else {
      var x := Exec(s.disk, FRESH_MEMORY, []);
      StartScopeOf();
      RestartWithin(config, s.disk);
      WithinKeeps(inv, StartScope, x, Restart(config, s.disk));
    }
  }

  lemma StartScopeOf()
    ensures ScopeOf(None) == StartScope
  {
  }

  lemma {:induction false} TraceKeeps(
    config: Config, inv: Disk -> bool, run: seq<State>, events: seq<Option<Event>>, i: nat, j: nat)
    requires IsTrace(config, run, events) && i <= j < |run| && inv(run[i].disk)
    requires forall m :: i <= m < j ==> Kept(inv, ScopeOf(events[m]))
    ensures inv(run[j].disk)
    decreases j
  {
    hide Step, Kept, ScopeOf;
    if i < j {
      TraceKeeps(config, inv, run, events, i, j - 1);
      assert Step(config, run[j - 1], events[j - 1], run[j - 1 + 1]);
      StepKeeps(config, inv, run[j - 1], events[j - 1], run[j]);
    }
  }

  // ----- Blobs change only by validated decisions -----

  /** The decided blobs of a height are among the given ones. */
  ghost predicate DecidedAmong(base: Decided, h: nat, d: Disk) {
    forall i :: (h, i) in d.decided ==> (h, i) in base && base[(h, i)] == d.decided[(h, i)]
  }

  /** The undecided blobs of a height are the given ones. */
  ghost predicate UndecidedSame(base: Undecided, h: nat, d: Disk) {
    forall r: Round, i: nat ::
      ((h, r, i) in d.undecided <==> (h, r, i) in base)
      && ((h, r, i) in base ==> d.undecided[(h, r, i)] == base[(h, r, i)])
  }

  /** The event does not promote blobs of the height: it synchronises another height, or it is a
      decision of another height or one whose blobs do not back its block. */
  ghost predicate NoPromotion(config: Config, d: Disk, e: Option<Event>, h: nat) {
    && !(ScopeOf(e).SyncScope? && ScopeOf(e).h == h)
    && (forall r, el :: e == Some(Decided(h, r, el)) ==> !Promotes(config, d, h, r, el))
  }

  ghost predicate NoCandidate(e: Option<Event>, h: nat) {
    && !(ScopeOf(e).CandidateScope? && ScopeOf(e).h == h)
    && !(ScopeOf(e).RoundScope? && ScopeOf(e).h == h)
  }

  lemma RefusedStep(config: Config, s: State, h: nat, r: Round, el: ElOutcome, t: State)
    requires Step(config, s, Some(Decided(h, r, el)), t) && !Promotes(config, s.disk, h, r, el)
    ensures t.disk == s.disk
  {
    hide Promised, Commit, PromoteBlobs, JobIndices, BlobsBack, ExpectedHashes;
  }

  ghost predicate Stands(s: Scope, h: nat) {
    !((s.DecisionScope? || s.SyncScope?) && s.h == h)
  }

  lemma AmongKept(inv: Disk -> bool, base: Decided, h: nat, s: Scope)
    requires (forall d :: inv(d) <==> DecidedAmong(base, h, d)) && Stands(s, h)
    ensures Kept(inv, s)
  {
    hide Allowed, Apply, DecidedAmong;
    forall d, w | inv(d) && Allowed(s, d, w) ensures inv(Apply(d, w)) {
      AmongAfter(base, h, s, d, w);
    }
  }

  lemma AmongAfter(base: Decided, h: nat, s: Scope, d: Disk, w: Write)
    requires DecidedAmong(base, h, d) && Allowed(s, d, w) && Stands(s, h)
    ensures DecidedAmong(base, h, Apply(d, w))
  {
  }

  lemma SameKept(inv: Disk -> bool, base: Undecided, h: nat, s: Scope)
    requires (forall d :: inv(d) <==> UndecidedSame(base, h, d)) && Stands(s, h)
    requires !((s.CandidateScope? || s.RoundScope?) && s.h == h)
    ensures Kept(inv, s)
  {
    hide Allowed, Apply, UndecidedSame;
    forall d, w | inv(d) && Allowed(s, d, w) ensures inv(Apply(d, w)) {
      SameAfter(base, h, s, d, w);
    }
  }

  lemma SameAfter(base: Undecided, h: nat, s: Scope, d: Disk, w: Write)
    requires UndecidedSame(base, h, d) && Allowed(s, d, w) && Stands(s, h)
    requires !((s.CandidateScope? || s.RoundScope?) && s.h == h)
    ensures UndecidedSame(base, h, Apply(d, w))
  {
    hide Apply;
    UndecidedAfter(d, w);
  }

  /** Validate before promote, in every step of every run and at every crash point: unless the height
      is synchronised or a decision of it passes the blob check, no decided blob of it is added or
      changed; and no undecided one is touched unless a candidate or a round change brings that. */
  lemma BlobsChangeOnlyValidated(config: Config, s: State, e: Option<Event>, t: State, h: nat)
    requires Step(config, s, e, t) && NoPromotion(config, s.disk, e, h)
    ensures DecidedAmong(s.disk.decided, h, t.disk)
    ensures NoCandidate(e, h) ==> UndecidedSame(s.disk.undecided, h, t.disk)
  {
    hide Step, Promotes, Kept;
    if e.Some? && e.value.Decided? && e.value.h == h {
      var Decided(_, r, el) := e.value;
      assert e == Some(Decided(h, r, el));
      RefusedStep(config, s, h, r, el, t);
    } else {
      var among: Disk -> bool := d => DecidedAmong(s.disk.decided, h, d);
      AmongKept(among, s.disk.decided, h, ScopeOf(e));
      StepKeeps(config, among, s, e, t);
      if NoCandidate(e, h) {
        var same: Disk -> bool := d => UndecidedSame(s.disk.undecided, h, d);
        SameKept(same, s.disk.undecided, h, ScopeOf(e));
        StepKeeps(config, same, s, e, t);
      }
    }
  }

  /** A decided blob of a committed height is changed only by a decision of that height which passes the
      blob check, and only into a blob that another round held at its index. */
  lemma ChangeNeedsDecision(config: Config, s: State, e: Option<Event>, t: State, h: nat, i: nat)
    requires StateOk(config, s) && Step(config, s, e, t) && Committed(s.disk, h)
    requires (h, i) in s.disk.decided && (h, i) in t.disk.decided
    requires t.disk.decided[(h, i)] != s.disk.decided[(h, i)]
    ensures exists r, el :: e == Some(Decided(h, r, el)) && Promotes(config, s.disk, h, r, el)
    ensures exists p: Round :: (h, p, i) in s.disk.undecided
                               && s.disk.undecided[(h, p, i)] == t.disk.decided[(h, i)]
  {
    hide StateOk, Promotes, DiskOk, Handle, Restart;
    StepSafe(config, s, e, t);
    assert HasBlob(s.disk, (h, i), t.disk.decided[(h, i)]) by {
      hide Step, PrunedGone, PayloadKept, HashesKept, BlobsKept;
    }
    if NoPromotion(config, s.disk, e, h) {
      BlobsChangeOnlyValidated(config, s, e, t, h);
    }
  }

  /** Bytes come back to a pruned height only by a decision of it which passes the blob check. */
  lemma RefillNeedsDecision(config: Config, s: State, e: Option<Event>, t: State, h: nat)
    requires StateOk(config, s) && Step(config, s, e, t) && h in s.disk.metas && Gone(s.disk, h)
    ensures h in t.disk.metas
    ensures !Gone(t.disk, h) ==>
              exists r, el :: e == Some(Decided(h, r, el)) && Promotes(config, s.disk, h, r, el)
  {
    hide StateOk, Promotes, DiskOk, Handle, Restart;
    StepSafe(config, s, e, t);
    assert MetaExtends(s.disk.metas[h], t.disk.metas[h]) by {
      hide Step, PrunedGone, PayloadKept, HashesKept, BlobsKept, CommittedKept;
    }
    if NoPromotion(config, s.disk, e, h) {
      BlobsChangeOnlyValidated(config, s, e, t, h);
    }
  }

  // ----- The first writer wins -----

  ghost predicate Puts(s: Scope) {
    s.CandidateScope? || s.SyncScope?
  }

  /** An operation that writes candidates keeps an entry; any other keeps it or deletes it. */
  ghost predicate Sticks<K, V>(s: Scope, m: map<K, V>, k: K, v: V) {
    if Puts(s) then k in m && m[k] == v else k in m ==> m[k] == v
  }

  lemma ProposalKept(inv: Disk -> bool, k: (nat, Round), p: Proposal, s: Scope)
    requires forall d :: inv(d) <==> Sticks(s, d.proposals, k, p)
    ensures Kept(inv, s)
  {
    hide Allowed, Apply, Sticks;
    forall d, w | inv(d) && Allowed(s, d, w) ensures inv(Apply(d, w)) {
      ProposalAfter(d, k, p, s, w);
    }
  }

  lemma ProposalAfter(d: Disk, k: (nat, Round), p: Proposal, s: Scope, w: Write)
    requires Sticks(s, d.proposals, k, p) && Allowed(s, d, w)
    ensures Sticks(s, Apply(d, w).proposals, k, p)
  {
  }

  lemma BlockKept(inv: Disk -> bool, k: (nat, Round), p: Payload, s: Scope)
    requires forall d :: inv(d) <==> Sticks(s, d.blocks, k, p)
    ensures Kept(inv, s)
  {
    hide Allowed, Apply, Sticks;
    forall d, w | inv(d) && Allowed(s, d, w) ensures inv(Apply(d, w)) {
      BlockAfter(d, k, p, s, w);
    }
  }

  lemma BlockAfter(d: Disk, k: (nat, Round), p: Payload, s: Scope, w: Write)
    requires Sticks(s, d.blocks, k, p) && Allowed(s, d, w)
    ensures Sticks(s, Apply(d, w).blocks, k, p)
  {
  }

  lemma EntryKept(inv: Disk -> bool, k: (nat, Round), m: Metadata, s: Scope)
    requires s != SyncScope(k.0, k.1)
    requires forall d :: inv(d) <==> Sticks(s, d.undecidedMetas, k, m)
    ensures Kept(inv, s)
  {
    hide Allowed, Apply, Sticks;
    forall d, w | inv(d) && Allowed(s, d, w) ensures inv(Apply(d, w)) {
      EntryAfter(d, k, m, s, w);
    }
  }

  lemma EntryAfter(d: Disk, k: (nat, Round), m: Metadata, s: Scope, w: Write)
    requires s != SyncScope(k.0, k.1)
    requires Sticks(s, d.undecidedMetas, k, m) && Allowed(s, d, w)
    ensures Sticks(s, Apply(d, w).undecidedMetas, k, m)
  {
  }

  lemma ProposalSticks(config: Config, s: State, e: Option<Event>, t: State, k: (nat, Round))
    requires Step(config, s, e, t) && k in s.disk.proposals && k in t.disk.proposals
    ensures t.disk.proposals[k] == s.disk.proposals[k]
  {
    hide Step, ScopeOf, Kept;
    var p, scope := s.disk.proposals[k], ScopeOf(e);
    var inv: Disk -> bool :=
      (d: Disk) => Sticks(scope, d.proposals, k, p);
    ProposalKept(inv, k, p, scope);
    StepKeeps(config, inv, s, e, t);
  }

  lemma BlockSticks(config: Config, s: State, e: Option<Event>, t: State, k: (nat, Round))
    requires Step(config, s, e, t) && k in s.disk.blocks && k in t.disk.blocks
    ensures t.disk.blocks[k] == s.disk.blocks[k]
  {
    hide Step, ScopeOf, Kept;
    var p, scope := s.disk.blocks[k], ScopeOf(e);
    var inv: Disk -> bool :=
      (d: Disk) => Sticks(scope, d.blocks, k, p);
    BlockKept(inv, k, p, scope);
    StepKeeps(config, inv, s, e, t);
  }

  lemma EntrySticks(config: Config, s: State, e: Option<Event>, t: State, k: (nat, Round))
    requires Step(config, s, e, t) && ScopeOf(e) != SyncScope(k.0, k.1)
    requires k in s.disk.undecidedMetas && k in t.disk.undecidedMetas
    ensures t.disk.undecidedMetas[k] == s.disk.undecidedMetas[k]
  {
    hide Step, ScopeOf, Kept;
    var m, scope := s.disk.undecidedMetas[k], ScopeOf(e);
    var inv: Disk -> bool :=
      (d: Disk) => Sticks(scope, d.undecidedMetas, k, m);
    EntryKept(inv, k, m, scope);
    StepKeeps(config, inv, s, e, t);
  }

  /** Over every stretch of a run in which a round keeps a proposal, it is the same one. */
  lemma {:induction false} FirstProposalWins(
    config: Config, run: seq<State>, i: nat, j: nat, k: (nat, Round))
    requires IsRun(config, run) && i <= j < |run|
    requires forall m :: i <= m <= j ==> k in run[m].disk.proposals
    ensures run[j].disk.proposals[k] == run[i].disk.proposals[k]
    decreases j
  {
    hide Step;
    if i < j {
      FirstProposalWins(config, run, i, j - 1, k);
      assert Next(config, run[j - 1], run[j - 1 + 1]);
      var e :| Step(config, run[j - 1], e, run[j]);
      ProposalSticks(config, run[j - 1], e, run[j], k);
    }
  }

  /** Over every stretch of a run in which a round keeps a payload, it is the same one. */
  lemma {:induction false} FirstPayloadWins(
    config: Config, run: seq<State>, i: nat, j: nat, k: (nat, Round))
    requires IsRun(config, run) && i <= j < |run|
    requires forall m :: i <= m <= j ==> k in run[m].disk.blocks
    ensures run[j].disk.blocks[k] == run[i].disk.blocks[k]
    decreases j
  {
    hide Step;
    if i < j {
      FirstPayloadWins(config, run, i, j - 1, k);
      assert Next(config, run[j - 1], run[j - 1 + 1]);
      var e :| Step(config, run[j - 1], e, run[j]);
      BlockSticks(config, run[j - 1], e, run[j], k);
    }
  }

  /** Over every stretch of a run in which a round keeps undecided metadata and is not synchronised,
      it is the same. */
  lemma {:induction false} FirstMetadataWins(
    config: Config, run: seq<State>, events: seq<Option<Event>>, i: nat, j: nat, k: (nat, Round))
    requires IsTrace(config, run, events) && i <= j < |run|
    requires forall m :: i <= m <= j ==> k in run[m].disk.undecidedMetas
    requires forall m :: i <= m < j ==> ScopeOf(events[m]) != SyncScope(k.0, k.1)
    ensures run[j].disk.undecidedMetas[k] == run[i].disk.undecidedMetas[k]
    decreases j
  {
    hide Step, ScopeOf;
    if i < j {
      FirstMetadataWins(config, run, events, i, j - 1, k);
      assert Step(config, run[j - 1], events[j - 1], run[j - 1 + 1]);
      EntrySticks(config, run[j - 1], events[j - 1], run[j], k);
    }
  }

  // ----- The payload of a decided value -----

  /** The payload of the round is readable as the given one, or not at all. */
  ghost predicate ReadsAtMost(d: Disk, h: nat, r: Round, p: Payload) {
    && ((h, r) in d.blocks ==> d.blocks[(h, r)] == p)
    && (h in d.decidedBlocks ==> d.decidedBlocks[h] == p)
  }

  lemma PayloadReadKept(inv: Disk -> bool, h: nat, r: Round, p: Payload, s: Scope)
    requires !Puts(s) && (s.DecisionScope? && s.h == h ==> s.r == r)
    requires forall d :: inv(d) <==> ReadsAtMost(d, h, r, p)
    ensures Kept(inv, s)
  {
    hide ReadsAtMost, Allowed, Apply;
    forall d, w | inv(d) && Allowed(s, d, w) ensures inv(Apply(d, w)) {
      ReadAfter(d, h, r, p, s, w);
    }
  }

  lemma ReadAfter(d: Disk, h: nat, r: Round, p: Payload, s: Scope, w: Write)
    requires !Puts(s) && (s.DecisionScope? && s.h == h ==> s.r == r)
    requires ReadsAtMost(d, h, r, p) && Allowed(s, d, w)
    ensures ReadsAtMost(Apply(d, w), h, r, p)
  {
  }

  /** In one step the payload of a decided value stays the same or is lost. */
  lemma ValuePayloadStep(config: Config, s: State, e: Option<Event>, t: State, h: nat)
    requires StateOk(config, s) && Step(config, s, e, t) && h in s.disk.values
    requires s.disk.BlockData(h, s.disk.values[h].round).Some?
    ensures var r := s.disk.values[h].round;
            && h in t.disk.values && t.disk.values[h] == s.disk.values[h]
            && (t.disk.BlockData(h, r) == s.disk.BlockData(h, r) || t.disk.BlockData(h, r).None?)
  {
    hide StateOk, Step, MetasExtend, BlobsKept, CommittedKept, PrunedGone, HashesKept;
    var r := s.disk.values[h].round;
    StepSafe(config, s, e, t);
    if !Committed(s.disk, h) {
      NoDecidedBlock(config, s, h);
      DecidedRound(config, s, e, t, h);
      UncommittedPayload(config, s, e, t, h, r);
    }
  }

  lemma NoDecidedBlock(config: Config, s: State, h: nat)
    requires StateOk(config, s) && !Committed(s.disk, h)
    ensures h !in s.disk.decidedBlocks
  {
    hide MemOk, ChainOk, CandidatesOk, RecordsOk, InlinesOk, PrunedOk;
    assert BlocksOk(s.disk.metas.Keys, s.disk.values, s.disk.blocks, s.disk.decidedBlocks);
  }

  lemma DecidedRound(config: Config, s: State, e: Option<Event>, t: State, h: nat)
    requires Step(config, s, e, t) && h in s.disk.values
    ensures e.Some? && e.value.Decided? && e.value.h == h ==> e.value.r == s.disk.values[h].round
  {
    hide Handle, Restart;
  }

  lemma UncommittedPayload(
    config: Config, s: State, e: Option<Event>, t: State, h: nat, r: Round)
    requires Step(config, s, e, t) && (h, r) in s.disk.blocks && h !in s.disk.decidedBlocks
    requires e.Some? && e.value.Decided? && e.value.h == h ==> e.value.r == r
    ensures t.disk.BlockData(h, r) == s.disk.BlockData(h, r) || t.disk.BlockData(h, r).None?
  {
    hide Step, Kept;
    var p, scope := s.disk.blocks[(h, r)], ScopeOf(e);
    if Puts(scope) {
      var inv: Disk -> bool :=
        (d: Disk) => Sticks(scope, d.blocks, (h, r), p);
      BlockKept(inv, (h, r), p, scope);
      StepKeeps(config, inv, s, e, t);
    } else {
      var inv: Disk -> bool := d => ReadsAtMost(d, h, r, p);
      PayloadReadKept(inv, h, r, p, scope);
      StepKeeps(config, inv, s, e, t);
    }
  }

  /** From the moment its value is stored, and as long as its payload can be read, a height's payload
      never changes. */
  lemma {:induction false} ValuePayloadStable(
    config: Config, run: seq<State>, i: nat, j: nat, h: nat)
    requires IsRun(config, run) && i <= j < |run| && h in run[i].disk.values
    requires forall m :: i <= m <= j ==>
      run[m].disk.BlockData(h, run[i].disk.values[h].round).Some?
    ensures var r := run[i].disk.values[h].round;
            && h in run[j].disk.values && run[j].disk.values[h] == run[i].disk.values[h]
            && run[j].disk.BlockData(h, r) == run[i].disk.BlockData(h, r)
    decreases j
  {
    hide Step, StateOk, Disk.BlockData;
    if i < j {
      ValuePayloadStable(config, run, i, j - 1, h);
      RunSound(config, run, j - 1);
      assert Next(config, run[j - 1], run[j - 1 + 1]);
      var e :| Step(config, run[j - 1], e, run[j]);
      ValuePayloadStep(config, run[j - 1], e, run[j], h);
    }
  }
}
