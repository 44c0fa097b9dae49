/** What marking a round decided means for the two blob families. */
module RoundMoves {

  import opened Types
  import opened Ordering
  import opened BlobFamilies
  import opened NodeBlobs

  /** The undecided side: only the requested round goes or, if it holds nothing, the height. */
  lemma MarkDecidedRemoves(u: Undecided, d: Decided, h: nat, r: Round)
    ensures forall k :: k in MarkDecided(u, d, h, r).0 <==>
      k in u && (k.0 != h || (RoundIndices(u, h, r) != {} && k.1 != r))
    ensures forall k :: k in MarkDecided(u, d, h, r).0 ==> MarkDecided(u, d, h, r).0[k] == u[k]
  {
    hide Promoted, Entries, MoveRounds, InKeyOrder, RoundIndices;
    var rounds := RoundsToMove(u, h, r);
    RoundsToMoveDistinct(u, h, r);
    PromotedRounds(u, d, h, rounds);
    forall q ensures q in InKeyOrder(Rounds(u, h)) <==> q in Rounds(u, h) {
      InKeyOrderIsAll(Rounds(u, h), q);
    }
    assert forall k :: k in u && k.0 == h ==> k.1 in Rounds(u, h);
  }

  /** Other heights keep both families' entries. */
  lemma MarkDecidedFrame(u: Undecided, d: Decided, h: nat, r: Round)
    ensures var (v, e) := MarkDecided(u, d, h, r);
            && (forall k: (nat, Round, nat) :: k.0 != h ==> (k in v <==> k in u))
            && (forall k: (nat, nat) :: k.0 != h ==> (k in e <==> k in d))
            && (forall k :: k in v ==> k in u && v[k] == u[k])
            && (forall k :: k in e && k.0 != h ==> e[k] == d[k])
  {
    hide RoundsToMove, Promoted, Entries, MoveRounds;
    var rounds := RoundsToMove(u, h, r);
    RoundsToMoveDistinct(u, h, r);
    PromotedRounds(u, d, h, rounds);
    PromotedElsewhere(d, h, Entries(u, h, rounds));
  }

  lemma {:induction false} PromotedElsewhere(d: Decided, h: nat, entries: seq<(Round, nat, Sidecar)>)
    ensures var e := Promoted(d, h, entries);
            && (forall k: (nat, nat) :: k.0 != h ==> (k in e <==> k in d))
            && (forall k :: k in e && k.0 != h ==> e[k] == d[k])
    decreases |entries|
  {
    if entries != [] {
      PromotedElsewhere(d[(h, entries[0].1) := entries[0].2], h, entries[1..]);
    }
  }

  /** `q` is the last round in key order, among those moved, that holds a blob at `i`. */
  ghost predicate LastHolder(u: Undecided, h: nat, rounds: seq<Round>, i: nat, q: Round) {
    && q in rounds && (h, q, i) in u
    && forall p :: p in rounds && (h, p, i) in u ==> Rank(p) <= Rank(q)
  }

  ghost predicate NoHolder(u: Undecided, h: nat, rounds: seq<Round>, i: nat) {
    forall p :: p in rounds ==> (h, p, i) !in u
  }

  lemma MovedRoundAt(u: Undecided, d: Decided, h: nat, r: Round, i: nat)
    ensures var e := PromoteRound(u, d, h, r);
            && ((h, r, i) in u ==> (h, i) in e && e[(h, i)] == u[(h, r, i)])
            && ((h, r, i) !in u ==> ((h, i) in e <==> (h, i) in d))
            && ((h, r, i) !in u && (h, i) in d ==> e[(h, i)] == d[(h, i)])
    ensures forall p: Round :: (h, p, i) in DropRound(u, h, r) <==> p != r && (h, p, i) in u
  {
    assert (h, r, i) in u <==> i in RoundIndices(u, h, r);
  }

  lemma {:induction false} MoveRoundsKeeps(
    u: Undecided, d: Decided, h: nat, rounds: seq<Round>, i: nat)
    requires NoHolder(u, h, rounds, i)
    ensures var e := MoveRounds(u, d, h, rounds).1;
            ((h, i) in e <==> (h, i) in d) && ((h, i) in d ==> e[(h, i)] == d[(h, i)])
    decreases |rounds|
  {
    if rounds != [] {
      hide PromoteRound, DropRound;
      MovedRoundAt(u, d, h, rounds[0], i);
      assert rounds[0] in rounds;
      MoveRoundsKeeps(DropRound(u, h, rounds[0]), PromoteRound(u, d, h, rounds[0]),
                      h, rounds[1..], i);
    }
  }

  lemma {:induction false} MoveRoundsStores(
    u: Undecided, d: Decided, h: nat, rounds: seq<Round>, i: nat, q: Round)
    requires RanksIncrease(rounds) && LastHolder(u, h, rounds, i, q)
    ensures var e := MoveRounds(u, d, h, rounds).1; (h, i) in e && e[(h, i)] == u[(h, q, i)]
    decreases |rounds|
  {
    hide PromoteRound, DropRound;
    var r, rest := rounds[0], rounds[1..];
    var v, e := DropRound(u, h, r), PromoteRound(u, d, h, r);
    MovedRoundAt(u, d, h, r, i);
    assert forall p :: p in rest ==> p in rounds && Rank(r) < Rank(p);
    if q == r {
      MoveRoundsKeeps(v, e, h, rest, i);
    } else {
      assert v[(h, q, i)] == u[(h, q, i)] by { DropKeeps(u, h, r, q, i); }
      MoveRoundsStores(v, e, h, rest, i, q);
    }
  }

  lemma DropKeeps(u: Undecided, h: nat, r: Round, q: Round, i: nat)
    requires (h, q, i) in u && q != r
    ensures (h, q, i) in DropRound(u, h, r) && DropRound(u, h, r)[(h, q, i)] == u[(h, q, i)]
  {
  }

  /** The decided side: an index takes the blob of the last moved round that holds it, and keeps
      its own when none does. */
  lemma MarkDecidedStores(u: Undecided, d: Decided, h: nat, r: Round, i: nat, q: Round)
    ensures var rounds := RoundsToMove(u, h, r);
            var e := MarkDecided(u, d, h, r).1;
            && (NoHolder(u, h, rounds, i) ==>
                  ((h, i) in e <==> (h, i) in d) && ((h, i) in d ==> e[(h, i)] == d[(h, i)]))
            && (LastHolder(u, h, rounds, i, q) ==> (h, i) in e && e[(h, i)] == u[(h, q, i)])
  {
    var rounds := RoundsToMove(u, h, r);
    KeyOrderRanks(Rounds(u, h));
    hide MoveRounds, InKeyOrder, NoHolder;
    if NoHolder(u, h, rounds, i) {
      MoveRoundsKeeps(u, d, h, rounds, i);
    }
    if LastHolder(u, h, rounds, i, q) {
      MoveRoundsStores(u, d, h, rounds, i, q);
    }
  }

  lemma NothingToMove(u: Undecided, d: Decided, h: nat, r: Round)
    requires Rounds(u, h) == {}
    ensures MarkDecided(u, d, h, r) == (u, d)
  {
    hide Ascending;
    assert forall i :: i in RoundIndices(u, h, r) ==> r in Rounds(u, h);
    assert Ascending(set q | q in Rounds(u, h) :: Rank(q)) == [];
  }

  /** A repeated call is a no-op exactly when the first one left no other round behind. */
  lemma MarkDecidedTwice(u: Undecided, d: Decided, h: nat, r: Round)
    ensures var (v, e) := MarkDecided(u, d, h, r);
            MarkDecided(v, e, h, r) == (v, e)
            <==> RoundIndices(u, h, r) == {} || Rounds(u, h) == {r}
  {
    hide MarkDecided, Rounds, RoundIndices;
    var (v, e) := MarkDecided(u, d, h, r);
    MarkDecidedRemoves(u, d, h, r);
    MarkDecidedRemoves(v, e, h, r);
    RoundsAfter(u, v, h, r);
    if Rounds(v, h) == {} {
      NothingToMove(v, e, h, r);
    }
  }

  lemma RoundsAfter(u: Undecided, v: Undecided, h: nat, r: Round)
    requires forall k :: k in v <==>
      k in u && (k.0 != h || (RoundIndices(u, h, r) != {} && k.1 != r))
    ensures Rounds(v, h) == {} <==> RoundIndices(u, h, r) == {} || Rounds(u, h) == {r}
    ensures RoundIndices(v, h, r) == {}
    ensures Rounds(v, h) != {} ==> exists k :: k in v && k.0 == h
  {
    if RoundIndices(u, h, r) != {} {
      var i :| i in RoundIndices(u, h, r);
      assert (h, r, i) in u && r in Rounds(u, h);
      forall q | q in Rounds(u, h) && q != r ensures q in Rounds(v, h) {
        var k :| k in u && k.0 == h && k.1 == q;
        assert k in v;
      }
      assert Rounds(v, h) == Rounds(u, h) - {r};
    } else {
      assert Rounds(v, h) == {};
    }
    if Rounds(v, h) != {} {
      var q :| q in Rounds(v, h);
    }
  }
}
