/** What the clean-ups remove, table by table: stale rounds, the other rounds of a committed height, and
    the leftovers that start-up finds. */
module CleanUps {

  import opened Types
  import opened Ordering
  import opened BlobMetadata
  import opened BlobFamilies
  import opened DiskState
  import opened DiskInvariant
  import opened Node
  import opened NodeBlobs
  import opened NodeOps
  import opened NodeDecide
  import opened NodeMemory
  import opened NodeSteps
  import opened Commits
  import opened BlobTracking

  /** The table without the given numbered rounds of the height. */
  ghost function Without<V>(m: map<(nat, Round), V>, h: nat, rounds: set<Round>): map<(nat, Round), V> {
    map k | k in m && !(k.0 == h && k.1 >= 0 && k.1 in rounds) :: m[k]
  }

  ghost function Members(rounds: seq<Round>): set<Round> {
    set r | r in rounds
  }

  lemma WithoutNone<V>(m: map<(nat, Round), V>, h: nat)
    ensures Without(m, h, {}) == m
  {
  }

  lemma WithoutNext<V>(m: map<(nat, Round), V>, h: nat, rounds: seq<Round>)
    requires rounds != []
    ensures Without(if rounds[0] < 0 then m else m - {(h, rounds[0])}, h, Members(rounds[1..]))
            == Without(m, h, Members(rounds))
  {
    assert Members(rounds) == {rounds[0]} + Members(rounds[1..]);
  }

  // ----- Stale rounds -----

  lemma CleanRoundTables(x: Exec, h: nat, r: Round)
    ensures var y := CleanRound(x, h, r);
            && y.mem == x.mem
            && y.disk == x.disk.(
                 proposals := if r < 0 then x.disk.proposals else x.disk.proposals - {(h, r)},
                 blocks := if r < 0 then x.disk.blocks else x.disk.blocks - {(h, r)},
                 undecidedMetas := if r < 0 then x.disk.undecidedMetas
                                   else x.disk.undecidedMetas - {(h, r)},
                 undecided := y.disk.undecided)
  {
    hide DropBlobs, DropRound;
    if r >= 0 {
      DropBlobsEffect(
        Do(Do(Do(x, DeleteUndecidedMeta(h, r)), DeleteProposal(h, r)), DeleteBlock(h, r)), h, r);
    }
  }

  lemma {:induction false} CleanRoundsTables(x: Exec, h: nat, rounds: seq<Round>)
    ensures var y, gone := CleanRounds(x, h, rounds), Members(rounds);
            && y.mem == x.mem
            && y.disk == x.disk.(
                 proposals := Without(x.disk.proposals, h, gone),
                 blocks := Without(x.disk.blocks, h, gone),
                 undecidedMetas := Without(x.disk.undecidedMetas, h, gone),
                 undecided := y.disk.undecided)
    decreases |rounds|
  {
    hide CleanRound, Without, Members;
    if rounds == [] {
      assert Members(rounds) == {} by { NoMembers(); }
      WithoutNone(x.disk.proposals, h);
      WithoutNone(x.disk.blocks, h);
      WithoutNone(x.disk.undecidedMetas, h);
    } else {
      CleanRoundTables(x, h, rounds[0]);
      CleanRoundsTables(CleanRound(x, h, rounds[0]), h, rounds[1..]);
      WithoutNext(x.disk.proposals, h, rounds);
      WithoutNext(x.disk.blocks, h, rounds);
      WithoutNext(x.disk.undecidedMetas, h, rounds);
    }
  }

  lemma NoMembers()
    ensures Members([]) == {}
  {
  }

  lemma MembersInOrder(rounds: set<Round>)
    ensures Members(InKeyOrder(rounds)) == rounds
  {
    hide InKeyOrder;
    forall r ensures r in Members(InKeyOrder(rounds)) <==> r in rounds {
      InKeyOrderIsAll(rounds, r);
    }
  }

  /** The tracked rounds of the height more than the retention below the round. */
  ghost function Outdated(mem: Memory, h: nat, r: Round): set<Round> {
    if r > STALE_ROUND_BLOB_RETENTION then StaleRounds(mem, h, r) else {}
  }

  /** Entering a round removes the proposals, payloads, metadata and blobs of exactly the outdated
      rounds, stops tracking them, and moves the node to the height and round. */
  lemma StartRoundEffect(x: Exec, h: nat, r: Round)
    ensures var y, gone := StartRound(x, h, r), Outdated(x.mem, h, r);
            && y.disk == x.disk.(
                 proposals := Without(x.disk.proposals, h, gone),
                 blocks := Without(x.disk.blocks, h, gone),
                 undecidedMetas := Without(x.disk.undecidedMetas, h, gone),
                 undecided := y.disk.undecided)
            && (forall k :: k in y.disk.undecided <==>
                  k in x.disk.undecided && !(k.0 == h && k.1 >= 0 && k.1 in gone))
            && (forall k :: k in y.disk.undecided ==> y.disk.undecided[k] == x.disk.undecided[k])
            && y.mem == x.mem.(currentHeight := h, currentRound := r, blobRounds := y.mem.blobRounds)
            && forall g :: y.mem.Tracked(g) == x.mem.Tracked(g) - (if g == h then gone else {})
  {
    hide CleanRounds, InKeyOrder, Without, Members;
    var gone := Outdated(x.mem, h, r);
    WithoutNone(x.disk.proposals, h);
    WithoutNone(x.disk.blocks, h);
    WithoutNone(x.disk.undecidedMetas, h);
    if gone != {} {
      MembersInOrder(gone);
      CleanRoundsTables(x, h, InKeyOrder(gone));
      CleanRoundsDrop(x, h, InKeyOrder(gone));
      forall q ensures q in InKeyOrder(gone) <==> q in gone {
        InKeyOrderIsAll(gone, q);
      }
    }
    assert forall g :: x.mem.Tracked(g) - {} == x.mem.Tracked(g);
  }

  // ----- The other rounds of a committed height -----

  lemma {:induction false} DropOrphansTables(x: Exec, h: nat, rounds: seq<Round>)
    ensures DropOrphans(x, h, rounds).disk.undecidedMetas
            == Without(x.disk.undecidedMetas, h, Members(rounds))
    decreases |rounds|
  {
    hide DropBlobs, Without, Members;
    if rounds == [] {
      NoMembers();
      WithoutNone(x.disk.undecidedMetas, h);
    } else {
      DropBlobsEffect(Do(x, DeleteUndecidedMeta(h, rounds[0])), h, rounds[0]);
      DropOrphansTables(DropOrphan(x, h, rounds[0]), h, rounds[1..]);
      WithoutNext(x.disk.undecidedMetas, h, rounds);
    }
  }

  /** A first commit removes the undecided metadata of exactly the other tracked rounds, besides
      promoting its own. */
  lemma CommitDropsOrphans(config: Config, x: Exec, h: nat, r: Round)
    requires (h, r) in x.disk.proposals
    requires (h, r) in x.disk.undecidedMetas || h in x.disk.metas
    ensures CommitFirst(config, x, h, r).0.disk.undecidedMetas
            == Without(x.disk.undecidedMetas - {(h, r)}, h, x.mem.Tracked(h) - {r})
  {
    hide CommitFirst, SettleHeight, Finish, Without, StoreDecision, Metadata.HeaderRoot;
    CommitFirstParts(config, x, h, r);
    StoreDecisionEffect(config, x, h, r);
    var x3 := StoreDecision(config, x, h, r, x.disk.proposals[(h, r)]);
    var x4 := Cache(config, x3, h, x3.disk.Meta(h));
    SettleTables(config, x4, h, r);
    FinishFrame(SettleHeight(config, x4, h, r), h);
  }

  lemma SettleTables(config: Config, x: Exec, h: nat, r: Round)
    ensures SettleHeight(config, x, h, r).disk.undecidedMetas
            == Without(x.disk.undecidedMetas, h, x.mem.Tracked(h) - {r})
  {
    hide DropOrphans, InKeyOrder, RetainHeight, Without, Members, KeepFrom;
    var data := x.disk.BlockData(h, r);
    var x5 := if data.Some? then Do(x, PutDecidedBlock(h, data.value)) else x;
    var x6 := Do(x5, PruneBelow(RetainHeight(config, x5.mem, h)));
    var others := x6.mem.Tracked(h) - {r};
    DropOrphansTables(x6, h, InKeyOrder(others));
    MembersInOrder(others);
  }

  // ----- Start-up -----

  ghost function From<V>(m: map<(nat, Round), V>, h: nat): map<(nat, Round), V> {
    map k | k in m && k.0 >= h :: m[k]
  }

  lemma {:induction false} DeleteMetasTables(x: Exec, keys: seq<Round>)
    ensures var y := DeleteMetas(x, keys);
            && y.mem == x.mem
            && y.disk == x.disk.(undecidedMetas := y.disk.undecidedMetas)
            && (forall k :: k in y.disk.undecidedMetas <==>
                  k in x.disk.undecidedMetas && !(k.0 == 0 && k.1 in keys))
            && Included(y.disk.undecidedMetas, x.disk.undecidedMetas)
    decreases |keys|
  {
    if keys != [] {
      DeleteMetasTables(Do(x, DeleteUndecidedMeta(0, keys[0])), keys[1..]);
      assert forall q :: q in keys <==> q == keys[0] || q in keys[1..];
    }
  }

  lemma CleanupMetasEffect(x: Exec)
    ensures var y := CleanupStaleMetas(x);
            && y.mem == x.mem
            && y.disk == x.disk.(undecidedMetas := From(x.disk.undecidedMetas, START_HEIGHT))
  {
    hide DeleteMetas, InKeyOrder, From;
    var stale := set k | k in x.disk.undecidedMetas && k.0 < START_HEIGHT :: k.1;
    var keys := InKeyOrder(stale);
    forall q ensures q in keys <==> q in stale {
      InKeyOrderIsAll(stale, q);
    }
    DeleteMetasTables(x, keys);
    LeftIsFrom(x.disk.undecidedMetas, DeleteMetas(x, keys).disk.undecidedMetas, keys);
  }

  lemma LeftIsFrom<V>(m: map<(nat, Round), V>, n: map<(nat, Round), V>, keys: seq<Round>)
    requires forall k :: k in m && k.0 < START_HEIGHT ==> k.1 in keys
    requires forall k :: k in n <==> k in m && !(k.0 == 0 && k.1 in keys)
    requires Included(n, m)
    ensures n == From(m, START_HEIGHT)
  {
  }

  lemma {:induction false} RehydrateTables(config: Config, x: Exec, heights: seq<nat>)
    ensures var y := RehydrateHeights(config, x, heights);
            && y.disk == x.disk.(decided := y.disk.decided, metas := y.disk.metas)
            && y.mem.cacheRoot == x.mem.cacheRoot && y.mem.cacheHeight == x.mem.cacheHeight
    decreases |heights|
  {
    hide PruneHeight;
    if heights != [] {
      if heights[0] in x.disk.metas {
        PruneHeightEffect(x, heights[0], x.disk.Meta(heights[0]));
      }
      RehydrateTables(config, RehydrateHeight(config, x, heights[0]), heights[1..]);
    }
  }

  /** Start-up removes the undecided metadata below the first height, seeds the genesis entry if there
      is no newest one, prunes what is due, and leaves every other table alone. */
  lemma RestartTables(config: Config, d: Disk)
    ensures var y := Restart(config, d);
            && y.disk == d.(
                 undecidedMetas := From(d.undecidedMetas, START_HEIGHT), decided := y.disk.decided,
                 metas := y.disk.metas, latest := y.disk.latest)
            && (d.latest.Some? && d.latest.value in d.metas ==> y.disk.latest == d.latest)
  {
    hide HydrateCache, CleanupStaleMetas, RehydrateHeights, Ascending, MaxOrZero, From;
    var x := Exec(d, FRESH_MEMORY, []);
    var x1 := HydrateCache(config, x);
    HydrateTables(config, x);
    CleanupMetasEffect(x1);
    var x2 := CleanupStaleMetas(x1);
    var finalized :=
      if x2.disk.values.Keys == {} then x2.mem.finalized else MaxOrZero(x2.disk.values.Keys);
    var x3 := x2.(mem := x2.mem.(finalized := finalized, pendingArchive := {}, pendingPrune := {}));
    RehydrateTables(config, x3, Ascending(x3.disk.metas.Keys));
  }

  lemma HydrateTables(config: Config, x: Exec)
    ensures var y := HydrateCache(config, x);
            && y.disk == x.disk.(metas := y.disk.metas, latest := y.disk.latest)
            && (x.disk.latest.Some? && x.disk.latest.value in x.disk.metas ==> y.disk == x.disk)
  {
    hide Metadata.HeaderRoot, Genesis, Disk.Meta, PutIfAbsent, Promote;
  }
}
