/** Layer 3 as two maps: the undecided family, keyed by height, round and index, and the decided
    family, keyed by height and index. `RocksDb` shows that the byte-keyed store behaves so. */
module BlobFamilies {

  import opened Types
  import opened Ordering

  type Undecided = map<(nat, Round, nat), Sidecar>

  type Decided = map<(nat, nat), Sidecar>

  /** The place of a round in key order: two's complement bytes put `Nil` after every number. */
  function Rank(round: Round): nat {
    if round >= 0 then round else round + U64
  }

  function Unrank(rank: nat): Round
    requires rank < U64
  {
    if rank < 0x8000_0000_0000_0000 then rank else rank - U64
  }

  function RoundIndices(u: Undecided, h: nat, r: Round): set<nat> {
    set k | k in u && k.0 == h && k.1 == r :: k.2
  }

  function RoundBlobs(u: Undecided, h: nat, r: Round): map<nat, Sidecar> {
    map i | i in RoundIndices(u, h, r) :: u[(h, r, i)]
  }

  function HeightIndices(d: Decided, h: nat): set<nat> {
    set k | k in d && k.0 == h :: k.1
  }

  function HeightBlobs(d: Decided, h: nat): map<nat, Sidecar> {
    map i | i in HeightIndices(d, h) :: d[(h, i)]
  }

  /** The blobs of one scan, sorted by index. */
  function Listing(m: map<nat, Sidecar>): seq<Sidecar> {
    var a := Ascending(m.Keys);
    seq(|a|, i requires 0 <= i < |a| => assert a[i] in a; m[a[i]])
  }

  /** A set of rounds in key order. */
  function InKeyOrder(rounds: set<Round>): seq<Round> {
    var a := Ascending(set r | r in rounds :: Rank(r));
    seq(|a|, i requires 0 <= i < |a| => assert a[i] in a; Unrank(a[i]))
  }

  lemma InKeyOrderIsAll(rounds: set<Round>, r: Round)
    ensures r in InKeyOrder(rounds) <==> r in rounds
  {
    hide Ascending;
    var a, ordered := Ascending(set r | r in rounds :: Rank(r)), InKeyOrder(rounds);
    if r in ordered {
      var i :| 0 <= i < |ordered| && ordered[i] == r;
      assert a[i] in a;
    }
    if r in rounds {
      assert Rank(r) in a;
      var i :| 0 <= i < |a| && a[i] == Rank(r);
      assert ordered[i] == r;
    }
  }

  /** The rounds that hold blobs at a height. */
  function Rounds(u: Undecided, h: nat): set<Round> {
    set k | k in u && k.0 == h :: k.1
  }

  function RoundKeys(u: Undecided, h: nat, r: Round): set<(nat, Round, nat)> {
    set k | k in u && k.0 == h && k.1 == r
  }

  /** Removes one round's blobs. */
  function DropRound(u: Undecided, h: nat, r: Round): Undecided {
    u - RoundKeys(u, h, r)
  }

  /** Writes one round's blobs to the decided family, over what is there. */
  function PromoteRound(u: Undecided, d: Decided, h: nat, r: Round): Decided {
    d + map i | i in RoundIndices(u, h, r) :: (h, i) := u[(h, r, i)]
  }

  /** Moves whole rounds one after another: a later round overwrites an earlier one. */
  function MoveRounds(u: Undecided, d: Decided, h: nat, rounds: seq<Round>): (Undecided, Decided) {
    if rounds == [] then (u, d)
    else MoveRounds(DropRound(u, h, rounds[0]), PromoteRound(u, d, h, rounds[0]), h, rounds[1..])
  }

  /** The rounds `mark_decided` moves: the requested one or, if that holds nothing, all of them. */
  function RoundsToMove(u: Undecided, h: nat, r: Round): seq<Round> {
    if RoundIndices(u, h, r) != {} then [r] else InKeyOrder(Rounds(u, h))
  }

  function MarkDecided(u: Undecided, d: Decided, h: nat, r: Round): (Undecided, Decided) {
    MoveRounds(u, d, h, RoundsToMove(u, h, r))
  }

  /** The entries of one round in key order, as a scan collects them. */
  function RoundEntries(u: Undecided, h: nat, r: Round): seq<(Round, nat, Sidecar)> {
    var a := Ascending(RoundIndices(u, h, r));
    seq(|a|, i requires 0 <= i < |a| => assert a[i] in a; (r, a[i], u[(h, r, a[i])]))
  }

  function Entries(u: Undecided, h: nat, rounds: seq<Round>): seq<(Round, nat, Sidecar)> {
    if rounds == [] then [] else RoundEntries(u, h, rounds[0]) + Entries(u, h, rounds[1..])
  }

  /** Collected entries name distinct stored blobs of the height. */
  ghost predicate Collected(u: Undecided, h: nat, entries: seq<(Round, nat, Sidecar)>) {
    && (forall k :: 0 <= k < |entries| ==>
          (h, entries[k].0, entries[k].1) in u
          && u[(h, entries[k].0, entries[k].1)] == entries[k].2)
    && (forall j, k :: 0 <= j < k < |entries| ==>
          entries[j].0 != entries[k].0 || entries[j].1 != entries[k].1)
  }

  ghost predicate Distinct(rounds: seq<Round>) {
    forall j, k :: 0 <= j < k < |rounds| ==> rounds[j] != rounds[k]
  }

  lemma InKeyOrderDistinct(rounds: set<Round>)
    ensures Distinct(InKeyOrder(rounds))
  {
    hide Ascending;
    var a := Ascending(set r | r in rounds :: Rank(r));
    assert forall i :: 0 <= i < |a| ==> a[i] in a;
  }

  ghost predicate RanksIncrease(rounds: seq<Round>) {
    forall i, j :: 0 <= i < j < |rounds| ==> Rank(rounds[i]) < Rank(rounds[j])
  }

  lemma KeyOrderRanks(rounds: set<Round>)
    ensures RanksIncrease(InKeyOrder(rounds))
  {
    hide Ascending;
    var a := Ascending(set r | r in rounds :: Rank(r));
    assert forall i :: 0 <= i < |a| ==> a[i] in a;
  }

  lemma RoundEntriesCollected(u: Undecided, h: nat, r: Round)
    ensures Collected(u, h, RoundEntries(u, h, r))
    ensures forall e :: e in RoundEntries(u, h, r) ==> e.0 == r
    ensures forall i :: (h, r, i) in u ==> (r, i, u[(h, r, i)]) in RoundEntries(u, h, r)
  {
    hide Ascending;
    var a, entries := Ascending(RoundIndices(u, h, r)), RoundEntries(u, h, r);
    assert forall i :: 0 <= i < |a| ==> a[i] in a;
    forall i | (h, r, i) in u ensures (r, i, u[(h, r, i)]) in entries {
      assert i in a;
      var k :| 0 <= k < |a| && a[k] == i;
      assert entries[k] == (r, i, u[(h, r, i)]);
    }
  }

  lemma CollectedJoin(
    u: Undecided, h: nat, a: seq<(Round, nat, Sidecar)>, b: seq<(Round, nat, Sidecar)>)
    requires Collected(u, h, a) && Collected(u, h, b)
    requires forall d, e :: d in a && e in b ==> d.0 != e.0
    ensures Collected(u, h, a + b)
  {
    var c := a + b;
    forall j, k | 0 <= j < k < |c| ensures c[j].0 != c[k].0 || c[j].1 != c[k].1 {
      if j < |a| <= k { assert c[j] in a && c[k] in b; }
    }
  }

  lemma {:induction false} EntriesCollected(u: Undecided, h: nat, rounds: seq<Round>)
    requires Distinct(rounds)
    ensures Collected(u, h, Entries(u, h, rounds))
    ensures forall e :: e in Entries(u, h, rounds) ==> e.0 in rounds
  {
    hide Collected, RoundEntries;
    if rounds == [] {
      EmptyCollected(u, h);
    } else {
      RoundEntriesCollected(u, h, rounds[0]);
      EntriesCollected(u, h, rounds[1..]);
      CollectedJoin(u, h, RoundEntries(u, h, rounds[0]), Entries(u, h, rounds[1..]));
    }
  }

  lemma EmptyCollected(u: Undecided, h: nat)
    ensures Collected(u, h, [])
  {
  }

  lemma RoundsToMoveDistinct(u: Undecided, h: nat, r: Round)
    ensures Distinct(RoundsToMove(u, h, r))
  {
    InKeyOrderDistinct(Rounds(u, h));
  }
}
