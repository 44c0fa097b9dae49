/** What the blob-engine operations do to the two families, and that they are safe. */
module NodeBlobs {

  import opened Types
  import opened Ordering
  import opened BlobMetadata
  import opened BlobFamilies
  import opened DiskState
  import opened DiskInvariant
  import opened Node
  import opened NodeSafety

  /** Only the two blob families differ. */
  ghost predicate OnlyBlobs(x: Exec, y: Exec) {
    y.mem == x.mem && y.disk == x.disk.(undecided := y.disk.undecided, decided := y.disk.decided)
  }

  // ----- Storing -----

  /** What the undecided family holds after a list of sidecars is written over it. */
  function Stored(u: Undecided, h: nat, r: Round, sidecars: seq<Sidecar>): Undecided
    decreases |sidecars|
  {
    if sidecars == [] then u
    else Stored(u[(h, r, sidecars[0].index) := sidecars[0]], h, r, sidecars[1..])
  }

  lemma {:induction false} StoreSidecarsEffect(x: Exec, h: nat, r: Round, sidecars: seq<Sidecar>)
    ensures var y := StoreSidecars(x, h, r, sidecars);
            && OnlyBlobs(x, y) && y.disk.decided == x.disk.decided
            && y.disk.undecided == Stored(x.disk.undecided, h, r, sidecars)
    decreases |sidecars|
  {
    if sidecars != [] {
      StoreSidecarsEffect(Do(x, PutBlob(h, r, sidecars[0])), h, r, sidecars[1..]);
    }
  }

  lemma {:induction false} StoredKeys(u: Undecided, h: nat, r: Round, sidecars: seq<Sidecar>)
    ensures var v := Stored(u, h, r, sidecars);
            && (forall k :: k in v <==>
                  k in u || (k.0 == h && k.1 == r && exists s :: s in sidecars && s.index == k.2))
            && (forall k :: k in u && !(k.0 == h && k.1 == r) ==> v[k] == u[k])
    decreases |sidecars|
  {
    if sidecars != [] {
      StoredKeys(u[(h, r, sidecars[0].index) := sidecars[0]], h, r, sidecars[1..]);
      assert forall s :: s in sidecars <==> s == sidecars[0] || s in sidecars[1..];
    }
  }

  lemma StoredNonEmpty(u: Undecided, h: nat, r: Round, sidecars: seq<Sidecar>)
    requires sidecars != []
    ensures RoundIndices(Stored(u, h, r, sidecars), h, r) != {}
    ensures exists i :: (h, r, i) in Stored(u, h, r, sidecars)
  {
    StoredKeys(u, h, r, sidecars);
    assert sidecars[0] in sidecars;
    assert (h, r, sidecars[0].index) in Stored(u, h, r, sidecars);
    assert sidecars[0].index in RoundIndices(Stored(u, h, r, sidecars), h, r);
  }

  lemma {:induction false} StoreSidecarsSafe(
    config: Config, base: Disk, x: Exec, h: nat, r: Round, sidecars: seq<Sidecar>)
    requires Safe(config, base, x) && !Committed(x.disk, h)
    ensures Safe(config, base, StoreSidecars(x, h, r, sidecars))
    decreases |sidecars|
  {
    hide Safe;
    if sidecars != [] {
      DoSafe(config, base, x, PutBlob(h, r, sidecars[0]));
      StoreSidecarsSafe(config, base, Do(x, PutBlob(h, r, sidecars[0])), h, r, sidecars[1..]);
    }
  }

  // ----- Dropping -----

  ghost predicate Named(entries: seq<(Round, nat, Sidecar)>, r: Round, i: nat) {
    exists e :: e in entries && e.0 == r && e.1 == i
  }

  lemma {:induction false} DropEntriesEffect(x: Exec, h: nat, entries: seq<(Round, nat, Sidecar)>)
    ensures var y := DropEntries(x, h, entries);
            && OnlyBlobs(x, y) && y.disk.decided == x.disk.decided
            && (forall k :: k in y.disk.undecided <==>
                  k in x.disk.undecided && !(k.0 == h && Named(entries, k.1, k.2)))
            && (forall k :: k in y.disk.undecided ==> y.disk.undecided[k] == x.disk.undecided[k])
    decreases |entries|
  {
    if entries != [] {
      DropEntriesEffect(Do(x, DeleteBlob(h, entries[0].0, entries[0].1)), h, entries[1..]);
      assert forall e :: e in entries <==> e == entries[0] || e in entries[1..];
    }
  }

  /** `drop_round` removes exactly the blobs of one round. */
  lemma DropBlobsEffect(x: Exec, h: nat, r: Round)
    ensures var y := DropBlobs(x, h, r);
            && OnlyBlobs(x, y) && y.disk.decided == x.disk.decided
            && y.disk.undecided == DropRound(x.disk.undecided, h, r)
  {
    hide RoundEntries, DropEntries;
    var u, entries := x.disk.undecided, RoundEntries(x.disk.undecided, h, r);
    DropEntriesEffect(x, h, entries);
    RoundEntriesCollected(u, h, r);
    forall i | (h, r, i) in u ensures Named(entries, r, i) {
      assert (r, i, u[(h, r, i)]) in entries;
    }
    assert DropBlobs(x, h, r).disk.undecided == DropRound(u, h, r);
  }

  lemma {:induction false} DropEntriesSafe(
    config: Config, base: Disk, x: Exec, h: nat, entries: seq<(Round, nat, Sidecar)>)
    requires Safe(config, base, x)
    ensures Safe(config, base, DropEntries(x, h, entries))
    decreases |entries|
  {
    hide Safe;
    if entries != [] {
      var w := DeleteBlob(h, entries[0].0, entries[0].1);
      DoSafe(config, base, x, w);
      DropEntriesSafe(config, base, Do(x, w), h, entries[1..]);
    }
  }

  // ----- Promoting -----

  /** The decided family after collected entries are written over it in order. */
  function Promoted(d: Decided, h: nat, entries: seq<(Round, nat, Sidecar)>): Decided
    decreases |entries|
  {
    if entries == [] then d
    else Promoted(d[(h, entries[0].1) := entries[0].2], h, entries[1..])
  }

  function MoveOne(x: Exec, h: nat, e: (Round, nat, Sidecar)): Exec {
    Do(Do(x, PutDecidedBlob(h, e.1, e.2)), DeleteBlob(h, e.0, e.1))
  }

  lemma MoveOneEffect(x: Exec, h: nat, e: (Round, nat, Sidecar))
    ensures var y := MoveOne(x, h, e);
            && OnlyBlobs(x, y) && y.disk.decided == x.disk.decided[(h, e.1) := e.2]
            && y.disk.undecided == x.disk.undecided - {(h, e.0, e.1)}
  {
  }

  lemma {:induction false} MoveEntriesEffect(x: Exec, h: nat, entries: seq<(Round, nat, Sidecar)>)
    ensures var y := MoveEntries(x, h, entries);
            && OnlyBlobs(x, y) && y.disk.decided == Promoted(x.disk.decided, h, entries)
            && (forall k :: k in y.disk.undecided <==>
                  k in x.disk.undecided && !(k.0 == h && Named(entries, k.1, k.2)))
            && (forall k :: k in y.disk.undecided ==> y.disk.undecided[k] == x.disk.undecided[k])
    decreases |entries|
  {
    hide Do;
    if entries != [] {
      MoveOneEffect(x, h, entries[0]);
      assert MoveEntries(x, h, entries) == MoveEntries(MoveOne(x, h, entries[0]), h, entries[1..]);
      MoveEntriesEffect(MoveOne(x, h, entries[0]), h, entries[1..]);
      assert forall e :: e in entries <==> e == entries[0] || e in entries[1..];
    }
  }

  lemma {:induction false} MoveEntriesSafe(
    config: Config, base: Disk, x: Exec, h: nat, entries: seq<(Round, nat, Sidecar)>)
    requires Safe(config, base, x) && Collected(x.disk.undecided, h, entries)
    ensures Safe(config, base, MoveEntries(x, h, entries))
    decreases |entries|
  {
    hide Safe;
    if entries != [] {
      var (r, i, s) := entries[0];
      assert (h, r, i) in x.disk.undecided;
      var x1 := Do(x, PutDecidedBlob(h, i, s));
      DoSafe(config, base, x, PutDecidedBlob(h, i, s));
      var x2 := Do(x1, DeleteBlob(h, r, i));
      DoSafe(config, base, x1, DeleteBlob(h, r, i));
      forall k | 0 <= k < |entries[1..]|
        ensures var e := entries[1..][k];
                (h, e.0, e.1) in x2.disk.undecided && x2.disk.undecided[(h, e.0, e.1)] == e.2
      {
        assert entries[1..][k] == entries[k + 1];
      }
      MoveEntriesSafe(config, base, x2, h, entries[1..]);
    }
  }

  lemma PromoteBlobsSafe(config: Config, base: Disk, x: Exec, h: nat, r: Round)
    requires Safe(config, base, x)
    ensures Safe(config, base, PromoteBlobs(x, h, r)) && OnlyBlobs(x, PromoteBlobs(x, h, r))
  {
    hide Safe, RoundsToMove, Entries, MoveEntries, Collected;
    var u := x.disk.undecided;
    RoundsToMoveDistinct(u, h, r);
    EntriesCollected(u, h, RoundsToMove(u, h, r));
    MoveEntriesSafe(config, base, x, h, Entries(u, h, RoundsToMove(u, h, r)));
    MoveEntriesEffect(x, h, Entries(u, h, RoundsToMove(u, h, r)));
  }

  // ----- The moves as changes of the two maps -----

  lemma {:induction false} PromotedJoin(
    d: Decided, h: nat, a: seq<(Round, nat, Sidecar)>, b: seq<(Round, nat, Sidecar)>)
    ensures Promoted(d, h, a + b) == Promoted(Promoted(d, h, a), h, b)
    decreases |a|
  {
    if a == [] {
      assert a + b == b;
    } else {
      assert (a + b)[1..] == a[1..] + b;
      PromotedJoin(d[(h, a[0].1) := a[0].2], h, a[1..], b);
    }
  }

  lemma {:induction false} PromotedAt(d: Decided, h: nat, entries: seq<(Round, nat, Sidecar)>)
    requires forall j, k :: 0 <= j < k < |entries| ==> entries[j].1 != entries[k].1
    ensures var p := Promoted(d, h, entries);
            && (forall k :: k in d ==> k in p)
            && (forall e :: e in entries ==> (h, e.1) in p && p[(h, e.1)] == e.2)
            && (forall k :: k in p ==>
                  (k in d && p[k] == d[k]) || (exists e :: e in entries && k == (h, e.1)))
    decreases |entries|
  {
    if entries != [] {
      var d' := d[(h, entries[0].1) := entries[0].2];
      PromotedAt(d', h, entries[1..]);
      PromotedMisses(d', h, entries[1..], entries[0].1);
      assert forall e :: e in entries <==> e == entries[0] || e in entries[1..];
    }
  }

  lemma {:induction false} PromotedMisses(
    d: Decided, h: nat, entries: seq<(Round, nat, Sidecar)>, i: nat)
    requires forall k :: 0 <= k < |entries| ==> entries[k].1 != i
    ensures (h, i) in Promoted(d, h, entries) <==> (h, i) in d
    ensures (h, i) in d ==> Promoted(d, h, entries)[(h, i)] == d[(h, i)]
    decreases |entries|
  {
    if entries != [] {
      PromotedMisses(d[(h, entries[0].1) := entries[0].2], h, entries[1..], i);
    }
  }

  lemma PromoteRoundAt(u: Undecided, d: Decided, h: nat, r: Round)
    ensures var q := PromoteRound(u, d, h, r);
            && (forall k :: k in q <==> k in d || (k.0 == h && (h, r, k.1) in u))
            && (forall k :: k in q ==>
                  q[k] == if k.0 == h && (h, r, k.1) in u then u[(h, r, k.1)] else d[k])
  {
    assert forall i: nat :: (h, r, i) in u <==> i in RoundIndices(u, h, r);
  }

  lemma RoundEntriesIndices(u: Undecided, h: nat, r: Round)
    ensures var entries := RoundEntries(u, h, r);
            forall j, k :: 0 <= j < k < |entries| ==> entries[j].1 != entries[k].1
  {
    hide Ascending;
  }

  lemma PromotedRound(u: Undecided, d: Decided, h: nat, r: Round)
    ensures Promoted(d, h, RoundEntries(u, h, r)) == PromoteRound(u, d, h, r)
  {
    hide RoundEntries, Promoted, PromoteRound, Collected;
    var entries := RoundEntries(u, h, r);
    RoundEntriesCollected(u, h, r);
    EntriesStored(u, h, r);
    RoundEntriesIndices(u, h, r);
    PromotedAt(d, h, entries);
    PromoteRoundAt(u, d, h, r);
    var p, q := Promoted(d, h, entries), PromoteRound(u, d, h, r);
    forall k | k in q ensures k in p && p[k] == q[k] {
      if k.0 == h && (h, r, k.1) in u {
        assert (r, k.1, u[(h, r, k.1)]) in entries;
      }
    }
    forall k | k in p ensures k in q {
    }
    assert p == q;
  }

  lemma EntriesStored(u: Undecided, h: nat, r: Round)
    ensures forall e :: e in RoundEntries(u, h, r) ==> (h, r, e.1) in u && u[(h, r, e.1)] == e.2
  {
    hide Ascending;
    var a := Ascending(RoundIndices(u, h, r));
    assert forall i :: 0 <= i < |a| ==> a[i] in a;
  }

  lemma {:induction false} EntriesAfterDrop(u: Undecided, h: nat, r: Round, rounds: seq<Round>)
    requires r !in rounds
    ensures Entries(DropRound(u, h, r), h, rounds) == Entries(u, h, rounds)
  {
    if rounds != [] {
      RoundEntriesAfterDrop(u, h, r, rounds[0]);
      EntriesAfterDrop(u, h, r, rounds[1..]);
    }
  }

  lemma RoundEntriesAfterDrop(u: Undecided, h: nat, r: Round, s: Round)
    requires r != s
    ensures RoundEntries(DropRound(u, h, r), h, s) == RoundEntries(u, h, s)
  {
    hide Ascending;
    var v := DropRound(u, h, r);
    assert RoundIndices(v, h, s) == RoundIndices(u, h, s);
    var a := Ascending(RoundIndices(u, h, s));
    forall i | 0 <= i < |a| ensures RoundEntries(v, h, s)[i] == RoundEntries(u, h, s)[i] {
      assert a[i] in a;
    }
  }

  lemma {:induction false} PromotedRounds(u: Undecided, d: Decided, h: nat, rounds: seq<Round>)
    requires Distinct(rounds)
    ensures Promoted(d, h, Entries(u, h, rounds)) == MoveRounds(u, d, h, rounds).1
    ensures forall k :: k in MoveRounds(u, d, h, rounds).0 <==> k in u && !(k.0 == h && k.1 in rounds)
    ensures forall k :: k in MoveRounds(u, d, h, rounds).0 ==> MoveRounds(u, d, h, rounds).0[k] == u[k]
    decreases |rounds|
  {
    hide Promoted, PromoteRound, RoundEntries;
    if rounds == [] {
      assert Promoted(d, h, []) == d by { PromotedNothing(d, h); }
    } else {
      var r, rest := rounds[0], rounds[1..];
      PromotedJoin(d, h, RoundEntries(u, h, r), Entries(u, h, rest));
      PromotedRound(u, d, h, r);
      assert r !in rest;
      EntriesAfterDrop(u, h, r, rest);
      PromotedRounds(DropRound(u, h, r), PromoteRound(u, d, h, r), h, rest);
    }
  }

  lemma PromotedNothing(d: Decided, h: nat)
    ensures Promoted(d, h, []) == d
  {
  }

  /** `mark_decided` as the engine performs it, entry by entry, ends in `MarkDecided`. */
  lemma PromoteBlobsEffect(x: Exec, h: nat, r: Round)
    ensures var y := PromoteBlobs(x, h, r);
            && OnlyBlobs(x, y)
            && (y.disk.undecided, y.disk.decided)
               == MarkDecided(x.disk.undecided, x.disk.decided, h, r)
  {
    hide RoundsToMove, Promoted, RoundEntries, MoveEntries, MoveRounds, OnlyBlobs, Collected;
    var u, d := x.disk.undecided, x.disk.decided;
    var rounds := RoundsToMove(u, h, r);
    RoundsToMoveDistinct(u, h, r);
    MoveEntriesEffect(x, h, Entries(u, h, rounds));
    PromotedRounds(u, d, h, rounds);
    NamedEntries(u, h, rounds);
    var y := PromoteBlobs(x, h, r);
    assert y.disk.undecided == MoveRounds(u, d, h, rounds).0;
  }

  lemma {:induction false} NamedEntries(u: Undecided, h: nat, rounds: seq<Round>)
    ensures forall k :: k in u && k.0 == h ==>
      (Named(Entries(u, h, rounds), k.1, k.2) <==> k.1 in rounds)
    decreases |rounds|
  {
    if rounds != [] {
      var first, rest := RoundEntries(u, h, rounds[0]), Entries(u, h, rounds[1..]);
      NamedEntries(u, h, rounds[1..]);
      RoundEntriesCollected(u, h, rounds[0]);
      hide RoundEntries, Collected;
      forall k | k in u && k.0 == h
        ensures Named(first + rest, k.1, k.2) <==> k.1 in rounds
      {
        if k.1 == rounds[0] {
          assert (k.1, k.2, u[(h, k.1, k.2)]) in first + rest;
        }
        if Named(rest, k.1, k.2) {
          var e :| e in rest && e.0 == k.1 && e.1 == k.2;
          assert e in first + rest;
        }
      }
    }
  }
}
