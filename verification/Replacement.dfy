/** What a decision does to decided blobs: which rounds it moves, when it changes a blob that is
    already decided, and when it brings bytes back to a pruned height. */
module BlobReplacement {

  import opened Types
  import opened Ordering
  import opened BlobMetadata
  import opened BlobFamilies
  import opened DiskState
  import opened DiskInvariant
  import opened Node
  import opened NodeBlobs
  import opened NodeOps
  import opened NodeDecide
  import opened NodeMemory
  import opened RoundMoves
  import opened DecisionClaims

  // ----- Moving rounds one after another -----

  /** The last of the rounds, in the order they are moved, that holds a blob at the index. */
  function Holder(u: Undecided, h: nat, rounds: seq<Round>, i: nat): (q: Option<Round>)
    ensures q.Some? ==> q.value in rounds && (h, q.value, i) in u
    ensures q.None? <==> NoHolder(u, h, rounds, i)
  {
    if rounds == [] then None
    else
      var later := Holder(u, h, rounds[1..], i);
      if later.Some? then later
      else if (h, rounds[0], i) in u then Some(rounds[0])
      else None
  }

  lemma {:induction false} HolderAfterDrop(u: Undecided, h: nat, r: Round, rounds: seq<Round>, i: nat)
    requires r !in rounds
    ensures var q := Holder(u, h, rounds, i);
            && Holder(DropRound(u, h, r), h, rounds, i) == q
            && (q.Some? ==> DropRound(u, h, r)[(h, q.value, i)] == u[(h, q.value, i)])
    decreases |rounds|
  {
    if rounds != [] {
      HolderAfterDrop(u, h, r, rounds[1..], i);
      assert rounds[0] in rounds;
    }
  }

  /** The last mover wins; an index that no moved round holds keeps its blob. */
  lemma {:induction false} MoveRoundsAt(
    u: Undecided, d: Decided, h: nat, rounds: seq<Round>, i: nat)
    requires Distinct(rounds)
    ensures var e, q := MoveRounds(u, d, h, rounds).1, Holder(u, h, rounds, i);
            && (q.Some? ==> (h, i) in e && e[(h, i)] == u[(h, q.value, i)])
            && (q.None? ==> ((h, i) in e <==> (h, i) in d))
            && (q.None? && (h, i) in d ==> e[(h, i)] == d[(h, i)])
    decreases |rounds|
  {
    hide PromoteRound, DropRound;
    if rounds != [] {
      var r, rest := rounds[0], rounds[1..];
      assert r !in rest;
      MovedRoundAt(u, d, h, r, i);
      HolderAfterDrop(u, h, r, rest, i);
      MoveRoundsAt(DropRound(u, h, r), PromoteRound(u, d, h, r), h, rest, i);
    }
  }

  lemma {:induction false} MoveRoundsJoin(
    u: Undecided, d: Decided, h: nat, a: seq<Round>, b: seq<Round>)
    ensures var (v, e) := MoveRounds(u, d, h, a);
            MoveRounds(v, e, h, b) == MoveRounds(u, d, h, a + b)
    decreases |a|
  {
    hide PromoteRound, DropRound;
    if a == [] {
      assert a + b == b;
    } else {
      assert (a + b)[0] == a[0] && (a + b)[1..] == a[1..] + b;
      MoveRoundsJoin(DropRound(u, h, a[0]), PromoteRound(u, d, h, a[0]), h, a[1..], b);
    }
  }

  lemma {:induction false} MoveRoundsElsewhere(
    u: Undecided, d: Decided, h: nat, rounds: seq<Round>, k: (nat, nat))
    requires k.0 != h
    ensures var e := MoveRounds(u, d, h, rounds).1;
            (k in e <==> k in d) && (k in d ==> e[k] == d[k])
    decreases |rounds|
  {
    if rounds != [] {
      MoveRoundsElsewhere(
        DropRound(u, h, rounds[0]), PromoteRound(u, d, h, rounds[0]), h, rounds[1..], k);
    }
  }

  // ----- The rounds a decision moves -----

  /** The payload decodes and the stored blobs back it, so the decision goes on to promote. */
  ghost predicate Promotes(config: Config, d: Disk, h: nat, r: Round, el: ElOutcome) {
    && d.BlockData(h, r).Some? && d.BlockData(h, r).value.ssz != [] && el != BadPayload
    && BlobsBack(config.crypto, d, h, r, Hashes(config, d, h, r))
  }

  /** `commit` finds the value stored and the proposal gone, and promotes once more. */
  ghost predicate Replays(d: Disk, h: nat, r: Round, el: ElOutcome) {
    el == Accepted && (h, r) !in d.proposals && h in d.values
  }

  ghost function Takers(config: Config, d: Disk, h: nat, r: Round, el: ElOutcome): seq<Round> {
    if !Promotes(config, d, h, r, el) then []
    else if RoundIndices(d.undecided, h, r) != {} then
      if Replays(d, h, r, el) then [r] + InKeyOrder(Rounds(d.undecided, h) - {r}) else [r]
    else if AlreadyDecided(d, h, r, Hashes(config, d, h, r)) && !Replays(d, h, r, el) then []
    else InKeyOrder(Rounds(d.undecided, h))
  }

  lemma TakersDistinct(config: Config, d: Disk, h: nat, r: Round, el: ElOutcome)
    ensures Distinct(Takers(config, d, h, r, el))
  {
    hide Promotes, AlreadyDecided, InKeyOrder;
    InKeyOrderDistinct(Rounds(d.undecided, h));
    InKeyOrderDistinct(Rounds(d.undecided, h) - {r});
    InKeyOrderIsAll(Rounds(d.undecided, h) - {r}, r);
  }

  /** Promoting twice moves the requested round and then, in key order, all others. */
  lemma PromotedTwice(u: Undecided, d: Decided, h: nat, r: Round)
    ensures var (v, e) := MarkDecided(u, d, h, r);
            MarkDecided(v, e, h, r).1 ==
            if RoundIndices(u, h, r) != {}
            then MoveRounds(u, d, h, [r] + InKeyOrder(Rounds(u, h) - {r})).1
            else MoveRounds(u, d, h, InKeyOrder(Rounds(u, h))).1
  {
    hide MoveRounds, Rounds, RoundIndices, InKeyOrder;
    var (v, e) := MarkDecided(u, d, h, r);
    MarkDecidedRemoves(u, d, h, r);
    RoundsAfter(u, v, h, r);
    if RoundIndices(u, h, r) != {} {
      OtherRounds(u, v, h, r);
      MoveRoundsJoin(u, d, h, [r], InKeyOrder(Rounds(v, h)));
    } else {
      NothingToMove(v, e, h, r);
    }
  }

  lemma OtherRounds(u: Undecided, v: Undecided, h: nat, r: Round)
    requires forall k :: k in v <==> k in u && (k.0 != h || k.1 != r)
    ensures Rounds(v, h) == Rounds(u, h) - {r}
  {
    forall q | q in Rounds(u, h) && q != r ensures q in Rounds(v, h) {
      var k :| k in u && k.0 == h && k.1 == q;
      assert k in v;
    }
  }

  // ----- The end of a commit only trims -----

  /** Decided blobs are only removed: those of pending heights that are not marked pruned already. */
  ghost predicate Trimmed(pending: set<nat>, a: Disk, b: Disk) {
    && Included(b.decided, a.decided)
    && (forall g :: g in a.metas && a.metas[g].pruned ==>
          g in b.metas && b.metas[g].pruned && b.metas[g].blobCount == a.metas[g].blobCount)
    && (forall k :: k in a.decided && Spared(pending, a, k.0) ==> k in b.decided)
  }

  ghost predicate Spared(pending: set<nat>, d: Disk, h: nat) {
    h !in pending || (h in d.metas && d.metas[h].pruned)
  }

  lemma TrimmedTransitive(pending: set<nat>, a: Disk, b: Disk, c: Disk)
    requires Trimmed(pending, a, b) && Trimmed(pending, b, c)
    ensures Trimmed(pending, a, c)
  {
    forall k | k in a.decided && Spared(pending, a, k.0) ensures k in c.decided {
      assert Spared(pending, b, k.0);
    }
  }

  lemma FlushHeightTrims(pending: set<nat>, x: Exec, h: nat)
    requires h in pending
    ensures Trimmed(pending, x.disk, FlushHeight(x, h).disk)
  {
    hide DeleteBlobs, Metadata.AllArchived;
    var x1 := x.(mem := x.mem.(pendingPrune := x.mem.pendingPrune - {h}));
    if h in x1.disk.metas {
      NodeSafety.DeleteBlobsEffect(x1, h, 0, x1.disk.Meta(h).blobCount);
    }
  }

  lemma {:induction false} FlushTrims(pending: set<nat>, x: Exec, heights: seq<nat>)
    requires forall h :: h in heights ==> h in pending
    ensures Trimmed(pending, x.disk, FlushHeights(x, heights).disk)
    decreases |heights|
  {
    hide FlushHeight, Trimmed;
    if heights != [] {
      var y := FlushHeight(x, heights[0]);
      FlushHeightTrims(pending, x, heights[0]);
      FlushTrims(pending, y, heights[1..]);
      TrimmedTransitive(pending, x.disk, y.disk, FlushHeights(y, heights[1..]).disk);
    } else {
      TrimmedSame(pending, x.disk, x.disk);
    }
  }

  lemma TrimmedSame(pending: set<nat>, a: Disk, b: Disk)
    requires b.decided == a.decided && Included(a.metas, b.metas)
    ensures Trimmed(pending, a, b)
  {
  }

  lemma FinishTrims(x: Exec, h: nat)
    ensures Trimmed(x.mem.pendingPrune, x.disk, Finish(x, h).disk)
  {
    hide FlushHeights, Ascending, Trimmed;
    var x1 := x.(mem := x.mem.(finalized := if h > x.mem.finalized then h else x.mem.finalized));
    FlushTrims(x.mem.pendingPrune, x1, ReadyHeights(x1.mem));
  }

  lemma {:induction false} DropOrphansKeep(x: Exec, h: nat, rounds: seq<Round>)
    ensures var y := DropOrphans(x, h, rounds);
            && y.disk.decided == x.disk.decided && y.disk.metas == x.disk.metas
            && y.mem == x.mem
    decreases |rounds|
  {
    hide DropBlobs;
    if rounds != [] {
      DropBlobsEffect(Do(x, DeleteUndecidedMeta(h, rounds[0])), h, rounds[0]);
      DropOrphansKeep(DropOrphan(x, h, rounds[0]), h, rounds[1..]);
    }
  }

  lemma SettleHeightKeeps(config: Config, x: Exec, h: nat, r: Round)
    ensures var y := SettleHeight(config, x, h, r);
            && y.disk.decided == x.disk.decided && y.disk.metas == x.disk.metas
            && y.mem.pendingPrune == x.mem.pendingPrune
  {
    hide DropOrphans, InKeyOrder, RetainHeight;
    var data := x.disk.BlockData(h, r);
    var x5 := if data.Some? then Do(x, PutDecidedBlock(h, data.value)) else x;
    var x6 := Do(x5, PruneBelow(RetainHeight(config, x5.mem, h)));
    DropOrphansKeep(x6, h, InKeyOrder(x6.mem.Tracked(h) - {r}));
  }

  lemma CommitFirstTrims(config: Config, x: Exec, h: nat, r: Round)
    requires (h, r) in x.disk.proposals && ((h, r) in x.disk.undecidedMetas ==> h !in x.disk.metas)
    ensures Trimmed(x.mem.pendingPrune, x.disk, CommitFirst(config, x, h, r).0.disk)
  {
    hide SettleHeight, Metadata.HeaderRoot, Finish, CommitFirst, Trimmed;
    CommitFirstParts(config, x, h, r);
    var p := x.disk.proposals[(h, r)];
    var x3 := StoreDecision(config, x, h, r, p);
    var y := CommitFirst(config, x, h, r).0;
    if h in x3.disk.metas {
      var x4 := Cache(config, x3, h, x3.disk.Meta(h));
      var x7 := SettleHeight(config, x4, h, r);
      SettleHeightKeeps(config, x4, h, r);
      TrimmedSame(x.mem.pendingPrune, x.disk, x7.disk);
      FinishTrims(x7, h);
      TrimmedTransitive(x.mem.pendingPrune, x.disk, x7.disk, y.disk);
    } else {
      TrimmedSame(x.mem.pendingPrune, x.disk, y.disk);
    }
  }

  lemma CommitReplayTrims(config: Config, x: Exec, h: nat, r: Round)
    requires (h, r) in x.disk.undecidedMetas ==> h !in x.disk.metas
    ensures var y := PromoteBlobs(x, h, r);
            && OnlyBlobs(x, y)
            && Trimmed(x.mem.pendingPrune, y.disk, CommitReplay(config, x, h, r).0.disk)
  {
    hide PromoteBlobs, Metadata.HeaderRoot, Finish, Trimmed;
    var x1 := PromoteBlobs(x, h, r);
    PromoteBlobsEffect(x, h, r);
    var x2 :=
      if h in x1.disk.metas then Cache(config, x1, h, x1.disk.Meta(h))
      else if (h, r) in x1.disk.undecidedMetas then
        Cache(config, Do(x1, PromoteMeta(h, r)), h, x1.disk.undecidedMetas[(h, r)])
      else x1;
    TrimmedSame(x.mem.pendingPrune, x1.disk, x2.disk);
    FinishTrims(x2, h);
    TrimmedTransitive(x.mem.pendingPrune, x1.disk, x2.disk, Finish(x2, h).disk);
  }

  // ----- A whole decision -----

  /** The decided family as the decision moves rounds into it, before anything is trimmed. */
  ghost function Moved(config: Config, d: Disk, h: nat, r: Round, el: ElOutcome): Decided {
    MoveRounds(d.undecided, d.decided, h, Takers(config, d, h, r, el)).1
  }

  /** The promotion in front of `commit`. */
  function FirstMove(config: Config, x: Exec, h: nat, r: Round): Exec
    requires x.disk.BlockData(h, r).Some?
  {
    if AlreadyDecided(x.disk, h, r, Hashes(config, x.disk, h, r)) then x else PromoteBlobs(x, h, r)
  }

  lemma DecideParts(config: Config, x: Exec, h: nat, r: Round, el: ElOutcome)
    ensures var z := Decide(config, x, h, r, el).0;
            z.disk ==
            if !Promotes(config, x.disk, h, r, el) then x.disk
            else if el == Refused then FirstMove(config, x, h, r).disk
            else Commit(config, FirstMove(config, x, h, r), h, r).0.disk
  {
    hide PromoteBlobs, Commit, BlobsBack, ExpectedHashes, JobIndices, AlreadyDecided;
  }

  /** Without a replay the first promotion is all that moves. */
  lemma FirstMoved(config: Config, x: Exec, h: nat, r: Round, el: ElOutcome)
    requires Promotes(config, x.disk, h, r, el)
    ensures var x1 := FirstMove(config, x, h, r);
            && OnlyBlobs(x, x1)
            && (!Replays(x.disk, h, r, el) ==> x1.disk.decided == Moved(config, x.disk, h, r, el))
  {
    hide PromoteBlobs, BlobsBack, ExpectedHashes, RoundIndices, HeightIndices, Rounds, InKeyOrder,
         MoveRounds, Replays;
    PromoteBlobsEffect(x, h, r);
    NothingMoved(x.disk.undecided, x.disk.decided, h);
  }

  lemma ReplayMoved(config: Config, x: Exec, h: nat, r: Round, el: ElOutcome)
    requires Promotes(config, x.disk, h, r, el) && Replays(x.disk, h, r, el)
    ensures var x2 := PromoteBlobs(FirstMove(config, x, h, r), h, r);
            OnlyBlobs(x, x2) && x2.disk.decided == Moved(config, x.disk, h, r, el)
  {
    hide PromoteBlobs, BlobsBack, ExpectedHashes, RoundIndices, HeightIndices, Rounds, InKeyOrder,
         MoveRounds, Replays;
    PromoteBlobsEffect(x, h, r);
    PromoteBlobsEffect(FirstMove(config, x, h, r), h, r);
    PromotedTwice(x.disk.undecided, x.disk.decided, h, r);
  }

  /** A decision moves exactly the rounds named by the state it starts in; what follows only trims. */
  lemma DecideMoves(config: Config, x: Exec, h: nat, r: Round, el: ElOutcome)
    requires el == Accepted ==> (h, r) in x.disk.undecidedMetas ==> h !in x.disk.metas
    ensures Trimmed(if el == Accepted then x.mem.pendingPrune else {},
                    x.disk.(decided := Moved(config, x.disk, h, r, el)),
                    Decide(config, x, h, r, el).0.disk)
  {
    hide PromoteBlobs, CommitFirst, CommitReplay, BlobsBack, ExpectedHashes, Trimmed, Moved, Decide,
         FirstMove;
    var pending := if el == Accepted then x.mem.pendingPrune else {};
    var target := x.disk.(decided := Moved(config, x.disk, h, r, el));
    var z := Decide(config, x, h, r, el).0;
    DecideParts(config, x, h, r, el);
    if !Promotes(config, x.disk, h, r, el) {
      NothingTaken(config, x.disk, h, r, el);
      TrimmedSame(pending, target, x.disk);
    } else {
      FirstMoved(config, x, h, r, el);
      var x1 := FirstMove(config, x, h, r);
      if Replays(x.disk, h, r, el) {
        ReplayMoved(config, x, h, r, el);
        CommitReplayTrims(config, x1, h, r);
        var x2 := PromoteBlobs(x1, h, r);
        TrimmedSame(pending, target, x2.disk);
        TrimmedTransitive(pending, target, x2.disk, z.disk);
      } else {
        TrimmedSame(pending, target, x1.disk);
        if el == Accepted && (h, r) in x1.disk.proposals {
          CommitFirstTrims(config, x1, h, r);
          TrimmedTransitive(pending, target, x1.disk, z.disk);
        }
      }
    }
  }

  lemma NothingTaken(config: Config, d: Disk, h: nat, r: Round, el: ElOutcome)
    requires !Promotes(config, d, h, r, el)
    ensures Moved(config, d, h, r, el) == d.decided
  {
    hide Promotes;
    NothingMoved(d.undecided, d.decided, h);
  }

  lemma NothingMoved(u: Undecided, d: Decided, h: nat)
    ensures MoveRounds(u, d, h, []) == (u, d)
  {
  }

  // ----- When a decision changes a decided blob -----

  /** The last of the rounds the decision moves that holds the index has another blob there. */
  ghost predicate Replaces(config: Config, d: Disk, h: nat, r: Round, el: ElOutcome, i: nat)
    requires (h, i) in d.decided
  {
    var q := Holder(d.undecided, h, Takers(config, d, h, r, el), i);
    q.Some? && d.undecided[(h, q.value, i)] != d.decided[(h, i)]
  }

  /** A decision changes a decided blob if and only if the last of the rounds it moves that holds the
      index has another blob there. It never changes a blob of another height. */
  lemma DecisionReplacesBlob(config: Config, x: Exec, h: nat, r: Round, el: ElOutcome, i: nat)
    requires Agreed(x.disk, h, r) && (h, i) in x.disk.decided
    ensures var z := Decide(config, x, h, r, el).0.disk;
            && ((h, i) in z.decided ==>
                  (z.decided[(h, i)] != x.disk.decided[(h, i)]
                   <==> Replaces(config, x.disk, h, r, el, i)))
            && (forall k :: k in z.decided && k.0 != h ==>
                  k in x.disk.decided && z.decided[k] == x.disk.decided[k])
  {
    hide Takers, Decide, MoveRounds;
    var d, takers := x.disk, Takers(config, x.disk, h, r, el);
    DecideMoves(config, x, h, r, el);
    TakersDistinct(config, d, h, r, el);
    MoveRoundsAt(d.undecided, d.decided, h, takers, i);
    var z := Decide(config, x, h, r, el).0.disk;
    forall k | k in z.decided && k.0 != h
      ensures k in d.decided && z.decided[k] == d.decided[k]
    {
      MoveRoundsElsewhere(d.undecided, d.decided, h, takers, k);
    }
  }

  /** For a committed height whose blobs are decided and whose round holds none: a decided blob is
      changed if and only if the decision is accepted with the proposal gone, the decided blobs back
      the block, and the last round in key order that holds the index has another blob there. */
  lemma ReplayReplacesBlob(config: Config, x: Exec, h: nat, r: Round, el: ElOutcome, i: nat)
    requires Agreed(x.disk, h, r) && Committed(x.disk, h) && (h, i) in x.disk.decided
    requires HasPayload(x, h, r) && Hashes(config, x.disk, h, r) != []
    requires RoundIndices(x.disk.undecided, h, r) == {}
    ensures var d, z := x.disk, Decide(config, x, h, r, el).0.disk;
            var q := Holder(d.undecided, h, InKeyOrder(Rounds(d.undecided, h)), i);
            (h, i) in z.decided ==>
              (z.decided[(h, i)] != d.decided[(h, i)]
               <==> && el == Accepted && (h, r) !in d.proposals
                    && BlobsBack(config.crypto, d, h, r, Hashes(config, d, h, r))
                    && q.Some? && d.undecided[(h, q.value, i)] != d.decided[(h, i)])
  {
    hide Decide, BlobsBack, ExpectedHashes, RoundIndices, InKeyOrder, Rounds, Holder;
    DecisionReplacesBlob(config, x, h, r, el, i);
    HeightHas(x.disk.decided, h, i);
    NoTakers(x.disk.undecided, h, i);
  }

  lemma HeightHas(d: Decided, h: nat, i: nat)
    ensures (h, i) in d <==> i in HeightIndices(d, h)
  {
  }

  lemma NoTakers(u: Undecided, h: nat, i: nat)
    ensures Holder(u, h, [], i) == None
  {
  }

  /** The input: a committed height with its blobs decided, one stray round with another blob at an
      index, and nothing pending. Its accepted replay overwrites the decided blob by the stray. */
  lemma StrayOverwritesDecided(config: Config, x: Exec, h: nat, r: Round, p: Round, i: nat)
    requires Agreed(x.disk, h, r) && Committed(x.disk, h) && (h, i) in x.disk.decided
    requires HasPayload(x, h, r) && Hashes(config, x.disk, h, r) != []
    requires BlobsBack(config.crypto, x.disk, h, r, Hashes(config, x.disk, h, r))
    requires (h, r) !in x.disk.proposals && x.mem.pendingPrune == {}
    requires RoundIndices(x.disk.undecided, h, r) == {} && Rounds(x.disk.undecided, h) == {p}
    requires (h, p, i) in x.disk.undecided
    requires x.disk.undecided[(h, p, i)] != x.disk.decided[(h, i)]
    ensures var z := Decide(config, x, h, r, Accepted).0.disk;
            && (h, i) in z.decided && z.decided[(h, i)] == x.disk.undecided[(h, p, i)]
            && z.decided[(h, i)] != x.disk.decided[(h, i)]
  {
    hide Decide, BlobsBack, ExpectedHashes, RoundIndices, InKeyOrder, MoveRounds;
    var d, takers := x.disk, Takers(config, x.disk, h, r, Accepted);
    HeightHas(d.decided, h, i);
    assert takers == InKeyOrder({p});
    InKeyOrderIsAll({p}, p);
    DecideMoves(config, x, h, r, Accepted);
    TakersDistinct(config, d, h, r, Accepted);
    MoveRoundsAt(d.undecided, d.decided, h, takers, i);
    var q := Holder(d.undecided, h, takers, i);
    assert q.Some?;
    InKeyOrderIsAll({p}, q.value);
    var m := d.(decided := Moved(config, d, h, r, Accepted));
    assert (h, i) in m.decided && Spared(x.mem.pendingPrune, m, h);
  }

  /** One such state: height 1 is committed with one blob, and round 1 holds a stray for its index. */
  function StrayState(config: Config, own: Sidecar, stray: Sidecar): Exec {
    var exec, commitments := config.genesisExec, [own.commitment];
    var genesis := Genesis(exec);
    var m := New(1, genesis.HeaderRoot(config.crypto), commitments,
                 [config.crypto.keccak(own.blob)], exec, None);
    var payload := Payload([0], [], [config.crypto.versionedHash(own.commitment)]);
    Exec(
      EMPTY_DISK.(values := map[1 := DecidedValue(Value(exec, commitments), 0)],
                  decidedBlocks := map[1 := payload],
                  metas := map[0 := genesis, 1 := m], latest := Some(1),
                  undecided := map[(1, 1, 0) := stray], decided := map[(1, 0) := own]),
      FRESH_MEMORY.(currentHeight := 2, finalized := 1,
                    cacheRoot := m.HeaderRoot(config.crypto), cacheHeight := 1),
      [])
  }

  lemma StrayStateOk(config: Config, own: Sidecar, stray: Sidecar)
    ensures var x := StrayState(config, own, stray); DiskOk(config, x.disk) && MemOk(config, x)
  {
    hide Metadata.HeaderRoot, ChainOk, PruningExact, PrunedOk, MaxOrZero;
    var x := StrayState(config, own, stray);
    StrayChain(config, own, stray);
    OneValue(x.disk.values);
    StrayPruning(x.disk.metas, x.disk.records, x.mem.Finality());
  }

  lemma OneValue(values: map<nat, DecidedValue>)
    requires values.Keys == {1}
    ensures MaxOrZero(values.Keys) == 1
  {
    hide MaxOrZero;
    assert MaxOrZero(values.Keys) in values.Keys;
  }

  lemma StrayChain(config: Config, own: Sidecar, stray: Sidecar)
    ensures var d := StrayState(config, own, stray).disk;
            ChainOk(config.crypto, d.metas, d.latest)
  {
    hide Metadata.HeaderRoot;
    var metas := StrayState(config, own, stray).disk.metas;
    assert ParentOk(config.crypto, metas, 0, metas[0]) && ParentOk(config.crypto, metas, 1, metas[1]);
  }

  lemma StrayPruning(metas: map<nat, Metadata>, records: Records, final: nat)
    requires metas.Keys == {0, 1} && metas[0].blobCount == 0 && metas[1].blobCount == 1
    requires !metas[0].pruned && !metas[1].pruned && records == map[]
    ensures PruningExact(metas, records, final, {}) && PrunedOk(metas, records, final)
  {
    forall h: nat ensures !Waiting(metas, records, h) {
      if h == 1 {
        assert (1, 0) !in records;
      }
    }
  }

  lemma StrayStateBacked(config: Config, own: Sidecar, stray: Sidecar)
    ensures var d := StrayState(config, own, stray).disk;
            && RoundIndices(d.undecided, 1, 0) == {} && Rounds(d.undecided, 1) == {1}
            && HasPayload(StrayState(config, own, stray), 1, 0)
            && Hashes(config, d, 1, 0) == [config.crypto.versionedHash(own.commitment)]
            && BlobsBack(config.crypto, d, 1, 0, Hashes(config, d, 1, 0))
  {
    hide Metadata.HeaderRoot, New, Genesis, RoundIndices, Rounds, HeightBlobs, Listing, RoundBlobs;
    var d := StrayState(config, own, stray).disk;
    OneStray(stray);
    NoRoundListing(d, 1, 0);
    OneDecided(own);
    OneListing(own);
  }

  lemma OneStray(stray: Sidecar)
    ensures var u: Undecided := map[(1, 1, 0) := stray];
            RoundIndices(u, 1, 0) == {} && Rounds(u, 1) == {1}
  {
    var u: Undecided := map[(1, 1, 0) := stray];
    assert (1, 1, 0) in u;
  }

  lemma OneDecided(own: Sidecar)
    ensures var d: Decided := map[(1, 0) := own]; HeightBlobs(d, 1) == map[0 := own]
  {
    var d: Decided := map[(1, 0) := own];
    HeightHas(d, 1, 0);
    assert HeightIndices(d, 1) == {0};
  }

  lemma OneListing(own: Sidecar)
    ensures Listing(map[0 := own]) == [own]
  {
    var m := map[0 := own];
    assert m.Keys == {0};
    var a := Ascending(m.Keys);
    assert a[0] in a;
  }

  /** Deciding the height once more, accepted, replaces the valid blob by the stray. */
  lemma StrayExample(config: Config, own: Sidecar, stray: Sidecar)
    requires own != stray
    ensures var x := StrayState(config, own, stray);
            var z := Decide(config, x, 1, 0, Accepted).0.disk;
            && DiskOk(config, x.disk) && MemOk(config, x) && Agreed(x.disk, 1, 0)
            && x.disk.decided[(1, 0)] == own
            && (1, 0) in z.decided && z.decided[(1, 0)] == stray
  {
    hide Decide, DiskOk, MemOk, Metadata.HeaderRoot, BlobsBack, ExpectedHashes, RoundIndices, Rounds;
    StrayStateOk(config, own, stray);
    StrayStateBacked(config, own, stray);
    StrayOverwritesDecided(config, StrayState(config, own, stray), 1, 0, 1, 0);
  }

  // ----- When bytes come back to a pruned height -----

  /** A pruned height whose bytes are gone keeps none of them through a decision if and only if none of
      the rounds that the decision moves holds a blob of the height. */
  lemma PrunedStaysGone(config: Config, x: Exec, h: nat, r: Round, el: ElOutcome)
    requires Agreed(x.disk, h, r) && h in x.disk.metas && x.disk.metas[h].pruned
    requires Gone(x.disk, h)
    ensures var z := Decide(config, x, h, r, el).0.disk;
            && h in z.metas && z.metas[h].pruned && z.metas[h].blobCount == x.disk.metas[h].blobCount
            && (Gone(z, h) <==>
                forall i: nat :: i < x.disk.metas[h].blobCount ==>
                  NoHolder(x.disk.undecided, h, Takers(config, x.disk, h, r, el), i))
  {
    hide Takers, Decide, MoveRounds, Holder;
    var d, takers := x.disk, Takers(config, x.disk, h, r, el);
    var m := d.(decided := Moved(config, d, h, r, el));
    var z := Decide(config, x, h, r, el).0.disk;
    DecideMoves(config, x, h, r, el);
    TakersDistinct(config, d, h, r, el);
    assert Spared(if el == Accepted then x.mem.pendingPrune else {}, m, h);
    forall i: nat | i < d.metas[h].blobCount
      ensures (h, i) in z.decided <==> !NoHolder(d.undecided, h, takers, i)
    {
      MoveRoundsAt(d.undecided, d.decided, h, takers, i);
      assert (h, i) !in d.decided;
    }
    assert Gone(z, h) <==>
           forall i: nat :: i < d.metas[h].blobCount ==> NoHolder(d.undecided, h, takers, i);
  }

  /** The input: a pruned height whose payload lists no blobs, its proposal and its round gone, and a
      stray blob in another round. Deciding it again, refused or accepted, stores the stray's bytes
      under a height that is marked pruned. */
  lemma StrayRefillsPruned(
    config: Config, x: Exec, h: nat, r: Round, el: ElOutcome, p: Round, i: nat)
    requires Agreed(x.disk, h, r) && h in x.disk.metas && x.disk.metas[h].pruned
    requires Gone(x.disk, h) && i < x.disk.metas[h].blobCount
    requires HasPayload(x, h, r) && el != BadPayload
    requires x.disk.BlockData(h, r).value.blobHashes == [] && (h, r) !in x.disk.proposals
    requires RoundIndices(x.disk.undecided, h, r) == {} && (h, p, i) in x.disk.undecided
    ensures var z := Decide(config, x, h, r, el).0.disk;
            && h in z.metas && z.metas[h].pruned && !Gone(z, h)
  {
    hide Decide, RoundIndices, InKeyOrder;
    PrunedStaysGone(config, x, h, r, el);
    var rounds := Rounds(x.disk.undecided, h);
    assert Takers(config, x.disk, h, r, el) == InKeyOrder(rounds);
    assert p in rounds;
    InKeyOrderIsAll(rounds, p);
    assert !NoHolder(x.disk.undecided, h, Takers(config, x.disk, h, r, el), i);
  }

  /** One such state: height 1 was committed with one blob, archived by the notice and pruned. */
  function PrunedState(config: Config, stray: Sidecar, n: Notice): Exec {
    var x := StrayState(config, stray, stray);
    x.(disk := x.disk.(decidedBlocks := map[1 := Payload([0], [], [])],
                       metas := x.disk.metas[1 := x.disk.metas[1].MarkPruned()],
                       records := map[(1, 0) := n], decided := map[]))
  }

  /** The notice is one that height 1 accepts for its blob. */
  ghost predicate ArchivesBlob(config: Config, blob: Sidecar, n: Notice) {
    && config.KnowsSigner(n) && n.body.height == 1 && n.body.index == 0
    && n.body.commitment == blob.commitment && n.body.keccak == config.crypto.keccak(blob.blob)
  }

  lemma PrunedChain(config: Config, stray: Sidecar, n: Notice)
    ensures var d := PrunedState(config, stray, n).disk;
            ChainOk(config.crypto, d.metas, d.latest)
  {
    var metas := PrunedState(config, stray, n).disk.metas;
    assert ParentOk(config.crypto, metas, 0, metas[0]) && ParentOk(config.crypto, metas, 1, metas[1]);
  }

  lemma PrunedStateOk(config: Config, stray: Sidecar, n: Notice)
    requires ArchivesBlob(config, stray, n)
    ensures DiskOk(config, PrunedState(config, stray, n).disk)
  {
    hide Metadata.HeaderRoot, ChainOk, MaxOrZero, Config.KnowsSigner;
    var d := PrunedState(config, stray, n).disk;
    PrunedChain(config, stray, n);
    OneValue(d.values);
  }

  /** Deciding it once more stores the stray's bytes under the pruned mark. */
  lemma RefillExample(config: Config, stray: Sidecar, n: Notice, el: ElOutcome)
    requires ArchivesBlob(config, stray, n) && el != BadPayload
    ensures var x := PrunedState(config, stray, n);
            var z := Decide(config, x, 1, 0, el).0.disk;
            && DiskOk(config, x.disk) && Agreed(x.disk, 1, 0) && Gone(x.disk, 1)
            && 1 in z.metas && z.metas[1].pruned && !Gone(z, 1)
  {
    hide Decide, DiskOk, Metadata.HeaderRoot, RoundIndices, ArchivesBlob;
    PrunedStateOk(config, stray, n);
    OneStray(stray);
    StrayRefillsPruned(config, PrunedState(config, stray, n), 1, 0, el, 1, 0);
  }

  // ----- A block without blobs -----

  /** Deciding a block without blobs also calls `mark_decided`, which falls back to every other round
      of the height. So the height keeps an empty decided family if and only if no round holds
      undecided blobs. */
  lemma BloblessDecisionTakesStrays(config: Config, x: Exec, h: nat, r: Round, el: ElOutcome)
    requires HasPayload(x, h, r) && Hashes(config, x.disk, h, r) == []
    requires HeightIndices(x.disk.decided, h) == {} && RoundIndices(x.disk.undecided, h, r) == {}
    requires el != BadPayload
    requires el == Accepted ==> Agreed(x.disk, h, r) && h !in x.mem.pendingPrune
    ensures HeightIndices(Decide(config, x, h, r, el).0.disk.decided, h) == {}
            <==> Rounds(x.disk.undecided, h) == {}
  {
    hide Decide, ExpectedHashes, RoundIndices, HeightIndices, InKeyOrder, MoveRounds, Holder, Rounds;
    var u, d, rounds := x.disk.undecided, x.disk.decided, Rounds(x.disk.undecided, h);
    var takers := Takers(config, x.disk, h, r, el);
    assert takers == InKeyOrder(rounds);
    DecideMoves(config, x, h, r, el);
    TakersDistinct(config, x.disk, h, r, el);
    var m := x.disk.(decided := Moved(config, x.disk, h, r, el));
    assert Spared(if el == Accepted then x.mem.pendingPrune else {}, m, h);
    var z := Decide(config, x, h, r, el).0.disk;
    forall i: nat
      ensures i in HeightIndices(z.decided, h) <==> exists p :: p in rounds && (h, p, i) in u
    {
      MoveRoundsAt(u, d, h, takers, i);
      HeightHas(d, h, i);
      HeightHas(z.decided, h, i);
      forall p ensures p in takers <==> p in rounds {
        InKeyOrderIsAll(rounds, p);
      }
    }
    RoundsHold(u, h);
    if rounds != {} {
      var p :| p in rounds;
      var i :| (h, p, i) in u;
      assert i in HeightIndices(z.decided, h);
    }
  }

  lemma RoundsHold(u: Undecided, h: nat)
    ensures forall p :: p in Rounds(u, h) ==> exists i :: (h, p, i) in u
  {
    forall p | p in Rounds(u, h) ensures exists i :: (h, p, i) in u {
      var k :| k in u && k.0 == h && k.1 == p;
      assert (h, p, k.2) in u;
    }
  }
}
