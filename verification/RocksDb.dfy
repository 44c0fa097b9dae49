/** What the byte-keyed families stand for, and scans over them. */
module KeyedFamilies {

  import opened Types
  import opened Ordering
  import opened BlobFamilies
  import opened Encoding
  import opened BlobKeys
  import opened NodeBlobs

  type Family = map<Bytes, Sidecar>

  type Entry = (Round, nat, Sidecar)

  /** Every key parses and names the index of the blob stored under it. */
  ghost predicate UndecidedOk(m: Family) {
    forall k :: k in m ==> |k| == 18 && m[k].index == FromUndecidedKey(k).value.2
  }

  ghost predicate DecidedOk(m: Family) {
    forall k :: k in m ==> |k| == 10 && m[k].index == FromDecidedKey(k).value.1
  }

  ghost function UndecidedKeys(m: Family): set<(nat, Round, nat)>
    requires UndecidedOk(m)
  {
    set k | k in m :: (FromUndecidedKey(k).value.0, FromUndecidedKey(k).value.1,
                       FromUndecidedKey(k).value.2)
  }

  lemma UndecidedKeysAt(m: Family, h: nat, r: Round, i: nat)
    requires UndecidedOk(m)
    ensures (h, r, i) in UndecidedKeys(m) <==>
            h < U64 && i < U16 && UndecidedKey(h, r, i) in m
  {
    if h < U64 && i < U16 {
      UndecidedKeyCodec(h, r, i, []);
      if UndecidedKey(h, r, i) in m {
        assert FromUndecidedKey(UndecidedKey(h, r, i)).value == (h, r, i);
      }
    }
    if (h, r, i) in UndecidedKeys(m) {
      var k :| k in m && (h, r, i) == (FromUndecidedKey(k).value.0, FromUndecidedKey(k).value.1,
                                       FromUndecidedKey(k).value.2);
      UndecidedKeyCodec(0, 0, 0, k);
    }
  }

  /** The undecided family as a map from height, round and index. */
  ghost function Undecideds(m: Family): Undecided
    requires UndecidedOk(m)
  {
    map t | t in UndecidedKeys(m) :: StoredAt(m, t)
  }

  ghost function StoredAt(m: Family, t: (nat, Round, nat)): Sidecar
    requires UndecidedOk(m) && t in UndecidedKeys(m)
  {
    UndecidedKeysAt(m, t.0, t.1, t.2);
    m[UndecidedKey(t.0, t.1, t.2)]
  }

  lemma UndecidedsAt(m: Family, h: nat, r: Round, i: nat)
    requires UndecidedOk(m)
    ensures (h, r, i) in Undecideds(m) <==> h < U64 && i < U16 && UndecidedKey(h, r, i) in m
    ensures (h, r, i) in Undecideds(m) ==> Undecideds(m)[(h, r, i)] == m[UndecidedKey(h, r, i)]
  {
    UndecidedKeysAt(m, h, r, i);
  }

  ghost function DecidedKeys(m: Family): set<(nat, nat)>
    requires DecidedOk(m)
  {
    set k | k in m :: (FromDecidedKey(k).value.0, FromDecidedKey(k).value.1)
  }

  lemma DecidedKeysAt(m: Family, h: nat, i: nat)
    requires DecidedOk(m)
    ensures (h, i) in DecidedKeys(m) <==> h < U64 && i < U16 && DecidedKey(h, i) in m
  {
    if h < U64 && i < U16 {
      DecidedKeyCodec(h, i, []);
      if DecidedKey(h, i) in m {
        assert FromDecidedKey(DecidedKey(h, i)).value == (h, i);
      }
    }
    if (h, i) in DecidedKeys(m) {
      var k :| k in m && (h, i) == (FromDecidedKey(k).value.0, FromDecidedKey(k).value.1);
      DecidedKeyCodec(0, 0, k);
    }
  }

  /** The decided family as a map from height and index. */
  ghost function Decideds(m: Family): Decided
    requires DecidedOk(m)
  {
    map t | t in DecidedKeys(m) :: DecidedAt(m, t)
  }

  ghost function DecidedAt(m: Family, t: (nat, nat)): Sidecar
    requires DecidedOk(m) && t in DecidedKeys(m)
  {
    DecidedKeysAt(m, t.0, t.1);
    m[DecidedKey(t.0, t.1)]
  }

  lemma DecidedsAt(m: Family, h: nat, i: nat)
    requires DecidedOk(m)
    ensures (h, i) in Decideds(m) <==> h < U64 && i < U16 && DecidedKey(h, i) in m
    ensures (h, i) in Decideds(m) ==> Decideds(m)[(h, i)] == m[DecidedKey(h, i)]
  {
    DecidedKeysAt(m, h, i);
  }

  // ----- Scans -----

  /** The keys with a prefix, in iteration order: what a scan must return. */
  function WithPrefix(keys: seq<Bytes>, prefix: Bytes): seq<Bytes> {
    if keys == [] then []
    else if prefix <= keys[0] then [keys[0]] + WithPrefix(keys[1..], prefix)
    else WithPrefix(keys[1..], prefix)
  }

  lemma {:induction false} WithPrefixMembers(keys: seq<Bytes>, prefix: Bytes)
    ensures forall k :: k in WithPrefix(keys, prefix) <==> k in keys && prefix <= k
    ensures Sorted(keys) ==> Sorted(WithPrefix(keys, prefix))
    decreases |keys|
  {
    if keys != [] {
      var rest := WithPrefix(keys[1..], prefix);
      WithPrefixMembers(keys[1..], prefix);
      assert forall k :: k in keys <==> k == keys[0] || k in keys[1..];
      if Sorted(keys) && prefix <= keys[0] {
        forall j | 0 <= j < |rest| ensures Before(keys[0], rest[j]) {
          assert rest[j] in keys[1..];
          var i :| 1 <= i < |keys| && keys[i] == rest[j];
        }
      }
    }
  }

  lemma {:induction false} NothingLater(keys: seq<Bytes>, prefix: Bytes)
    requires forall k :: k in keys ==> !(prefix <= k)
    ensures WithPrefix(keys, prefix) == []
    decreases |keys|
  {
    if keys != [] {
      assert keys[0] in keys;
      assert forall k :: k in keys[1..] ==> k in keys;
      NothingLater(keys[1..], prefix);
    }
  }

  lemma {:induction false} WithPrefixJoin(a: seq<Bytes>, b: seq<Bytes>, prefix: Bytes)
    ensures WithPrefix(a + b, prefix) == WithPrefix(a, prefix) + WithPrefix(b, prefix)
    decreases |a|
  {
    if a == [] {
      assert a + b == b;
    } else {
      assert (a + b)[1..] == a[1..] + b;
      WithPrefixJoin(a[1..], b, prefix);
    }
  }

  /** `prefix_iterator_cf` with the loop that stops at the first key beyond the prefix: it returns
      exactly the keys that start with the prefix. */
  method ScanPrefix(m: Family, prefix: Bytes) returns (found: seq<Bytes>)
    ensures found == WithPrefix(InByteOrder(m.Keys), prefix)
  {
    hide InByteOrder, WithPrefix, Before, Sorted;
    var keys := InByteOrder(m.Keys);
    var at := 0;
    while at < |keys| && Before(keys[at], prefix)
      invariant 0 <= at <= |keys|
      invariant forall j :: 0 <= j < at ==> Before(keys[j], prefix)
    {
      at := at + 1;
    }
    found := [];
    var n := at;
    while n < |keys|
      invariant at <= n <= |keys|
      invariant found == keys[at..n]
      invariant forall j :: at <= j < n ==> prefix <= keys[j]
    {
      if !(prefix <= keys[n]) { break; }
      found := found + [keys[n]];
      n := n + 1;
    }
    SeekAndBreak(keys, prefix, at, n);
  }

  lemma SeekAndBreak(keys: seq<Bytes>, prefix: Bytes, at: nat, n: nat)
    requires Sorted(keys) && at <= n <= |keys|
    requires forall j :: 0 <= j < at ==> Before(keys[j], prefix)
    requires at < |keys| ==> !Before(keys[at], prefix)
    requires forall j :: at <= j < n ==> prefix <= keys[j]
    requires n < |keys| ==> !(prefix <= keys[n])
    ensures WithPrefix(keys, prefix) == keys[at..n]
  {
    hide Before, Sorted, WithPrefix;
    assert keys == keys[..at] + keys[at..];
    WithPrefixJoin(keys[..at], keys[at..], prefix);
    SkippedHaveNoPrefix(keys, prefix, at);
    assert keys[at..] == keys[at..n] + keys[n..];
    WithPrefixJoin(keys[at..n], keys[n..], prefix);
    AllMatch(keys[at..n], prefix);
    if n < |keys| {
      NotBefore(keys, prefix, at, n);
      RestHasNoPrefix(keys, prefix, n);
    } else {
      NothingLater(keys[n..], prefix);
    }
  }

  lemma {:induction false} AllMatch(keys: seq<Bytes>, prefix: Bytes)
    requires forall j :: 0 <= j < |keys| ==> prefix <= keys[j]
    ensures WithPrefix(keys, prefix) == keys
    decreases |keys|
  {
    if keys != [] {
      AllMatch(keys[1..], prefix);
      assert keys == [keys[0]] + keys[1..];
    }
  }

  lemma SkippedHaveNoPrefix(keys: seq<Bytes>, prefix: Bytes, at: nat)
    requires at <= |keys| && forall j :: 0 <= j < at ==> Before(keys[j], prefix)
    ensures WithPrefix(keys[..at], prefix) == []
  {
    forall k | k in keys[..at] ensures !(prefix <= k) {
      if prefix <= k { PrefixedNotBefore(prefix, k); }
    }
    NothingLater(keys[..at], prefix);
  }

  lemma NotBefore(keys: seq<Bytes>, prefix: Bytes, at: nat, n: nat)
    requires Sorted(keys) && at <= n < |keys| && !Before(keys[at], prefix)
    ensures !Before(keys[n], prefix)
  {
    if at < n && Before(keys[n], prefix) {
      BeforeTransitive(keys[at], keys[n], prefix);
    }
  }

  lemma RestHasNoPrefix(keys: seq<Bytes>, prefix: Bytes, n: nat)
    requires Sorted(keys) && n < |keys| && !Before(keys[n], prefix) && !(prefix <= keys[n])
    ensures WithPrefix(keys[n..], prefix) == []
  {
    forall k | k in keys[n..] ensures !(prefix <= k) {
      var i :| n <= i < |keys| && keys[i] == k;
      if i > n { PrefixContiguous(prefix, keys[n], k); }
    }
    NothingLater(keys[n..], prefix);
  }

  // ----- Scans as entries of the map -----

  ghost predicate EntryBefore(a: Entry, b: Entry) {
    Rank(a.0) < Rank(b.0) || (a.0 == b.0 && a.1 < b.1)
  }

  ghost predicate EntriesSorted(s: seq<Entry>) {
    forall i, j :: 0 <= i < j < |s| ==> EntryBefore(s[i], s[j])
  }

  /** A sorted list is determined by its elements. */
  lemma {:induction false} SortedUnique(a: seq<Entry>, b: seq<Entry>)
    requires EntriesSorted(a) && EntriesSorted(b) && forall e :: e in a <==> e in b
    ensures a == b
    decreases |a|
  {
    assert b != [] ==> b[0] in b;
    if a != [] {
      assert a[0] in b;
      assert b[0] in a;
      var i :| 0 <= i < |b| && b[i] == a[0];
      var j :| 0 <= j < |a| && a[j] == b[0];
      assert i == 0 && j == 0;
      forall e ensures e in a[1..] <==> e in b[1..] {
        if e in a[1..] {
          var n :| 1 <= n < |a| && a[n] == e;
          assert EntryBefore(a[0], a[n]) && e in b;
        }
        if e in b[1..] {
          var n :| 1 <= n < |b| && b[n] == e;
          assert EntryBefore(b[0], b[n]) && e in a;
        }
      }
      SortedUnique(a[1..], b[1..]);
      assert a == [a[0]] + a[1..] && b == [b[0]] + b[1..];
    }
  }

  function EntryAt(m: Family, k: Bytes): Entry
    requires k in m && |k| == 18
  {
    (FromUndecidedKey(k).value.1, FromUndecidedKey(k).value.2, m[k])
  }

  ghost predicate OfFamily(m: Family, keys: seq<Bytes>) {
    forall j :: 0 <= j < |keys| ==> keys[j] in m && |keys[j]| == 18
  }

  function EntriesAt(m: Family, keys: seq<Bytes>): (s: seq<Entry>)
    requires forall j :: 0 <= j < |keys| ==> keys[j] in m && |keys[j]| == 18
    ensures |s| == |keys|
  {
    seq(|keys|, j requires 0 <= j < |keys| => EntryAt(m, keys[j]))
  }

  /** The keys of one height, in byte order, are sorted as entries. */
  lemma ScannedSorted(m: Family, h: U64Nat, keys: seq<Bytes>)
    requires UndecidedOk(m) && OfFamily(m, keys) && Sorted(keys)
    requires forall k :: k in keys ==> |k| == 18 && FromUndecidedKey(k).value.0 == h
    ensures EntriesSorted(EntriesAt(m, keys))
  {
    var s := EntriesAt(m, keys);
    forall i, j | 0 <= i < j < |s| ensures EntryBefore(s[i], s[j]) {
      assert keys[i] in keys && keys[j] in keys;
      var (_, r, a) := FromUndecidedKey(keys[i]).value;
      var (_, q, b) := FromUndecidedKey(keys[j]).value;
      UndecidedKeyCodec(h, r, a, keys[i]);
      UndecidedKeyCodec(h, q, b, keys[j]);
      UndecidedKeyOrder(h, r, a, q, b);
    }
  }

  /** Whether a key belongs to a height and, if one is given, to a round. */
  ghost predicate InScope(k: Bytes, h: nat, r: Option<Round>) {
    && |k| == 18
    && FromUndecidedKey(k).value.0 == h
    && (r.None? || FromUndecidedKey(k).value.1 == r.value)
  }

  ghost function Prefix(h: U64Nat, r: Option<Round>): Bytes {
    if r.Some? then RoundPrefix(h, r.value) else HeightPrefix(h)
  }

  lemma PrefixIsScope(h: U64Nat, r: Option<Round>, k: Bytes)
    requires |k| == 18
    ensures Prefix(h, r) <= k <==> InScope(k, h, r)
  {
    hide HeightPrefix, RoundPrefix, UndecidedKey, FromUndecidedKey;
    var (g, s, i) := FromUndecidedKey(k).value;
    UndecidedKeyCodec(g, s, i, k);
    PrefixMeans(h, if r.Some? then r.value else 0, g, s, i);
  }

  /** The keys a scan of one round or of one height returns. */
  ghost function Scanned(m: Family, h: U64Nat, r: Option<Round>): seq<Bytes> {
    WithPrefix(InByteOrder(m.Keys), Prefix(h, r))
  }

  lemma ScannedMembers(m: Family, h: U64Nat, r: Option<Round>)
    requires UndecidedOk(m)
    ensures OfFamily(m, Scanned(m, h, r)) && Sorted(Scanned(m, h, r))
    ensures forall k :: k in Scanned(m, h, r) <==> k in m && InScope(k, h, r)
  {
    hide InByteOrder, WithPrefix, Before, Sorted, InScope, Prefix, FromUndecidedKey;
    WithPrefixMembers(InByteOrder(m.Keys), Prefix(h, r));
    forall k | k in m ensures Prefix(h, r) <= k <==> InScope(k, h, r) {
      PrefixIsScope(h, r, k);
    }
    var keys := Scanned(m, h, r);
    assert forall j :: 0 <= j < |keys| ==> keys[j] in keys;
  }

  /** The entries a scan must return. */
  ghost predicate Matching(u: Undecided, e: Entry, h: nat, r: Option<Round>) {
    && (h, e.0, e.1) in u && u[(h, e.0, e.1)] == e.2
    && (r.None? || e.0 == r.value)
  }

  lemma ScannedIsMatching(m: Family, h: U64Nat, r: Option<Round>, k: Bytes)
    requires UndecidedOk(m) && k in m && |k| == 18 && InScope(k, h, r)
    ensures Matching(Undecideds(m), EntryAt(m, k), h, r)
  {
    hide Undecideds, UndecidedKey, FromUndecidedKey;
    var e := EntryAt(m, k);
    UndecidedsAt(m, h, e.0, e.1);
    UndecidedKeyCodec(0, 0, 0, k);
  }

  lemma MatchingIsScanned(m: Family, h: U64Nat, r: Option<Round>, e: Entry)
    requires UndecidedOk(m) && Matching(Undecideds(m), e, h, r)
    ensures exists k :: k in m && |k| == 18 && InScope(k, h, r) && EntryAt(m, k) == e
  {
    hide Undecideds, UndecidedKey, FromUndecidedKey;
    UndecidedsAt(m, h, e.0, e.1);
    UndecidedKeyCodec(h, e.0, e.1, []);
    var k := UndecidedKey(h, e.0, e.1);
    assert k in m && InScope(k, h, r) && EntryAt(m, k) == e;
  }

  /** A scan returns exactly the stored blobs of its round or height. */
  lemma ScannedEntries(m: Family, h: U64Nat, r: Option<Round>)
    requires UndecidedOk(m)
    ensures OfFamily(m, Scanned(m, h, r))
    ensures EntriesSorted(EntriesAt(m, Scanned(m, h, r)))
    ensures forall e :: e in EntriesAt(m, Scanned(m, h, r)) <==> Matching(Undecideds(m), e, h, r)
  {
    hide Scanned, Undecideds, FromUndecidedKey, Sorted, Matching, EntryAt;
    ScannedMembers(m, h, r);
    var keys := Scanned(m, h, r);
    ScannedSorted(m, h, keys);
    var s := EntriesAt(m, keys);
    forall e ensures e in s <==> Matching(Undecideds(m), e, h, r) {
      if e in s {
        var j :| 0 <= j < |s| && s[j] == e;
        assert keys[j] in keys;
        ScannedIsMatching(m, h, r, keys[j]);
      }
      if Matching(Undecideds(m), e, h, r) {
        MatchingIsScanned(m, h, r, e);
        var k :| k in m && |k| == 18 && InScope(k, h, r) && EntryAt(m, k) == e;
        assert k in keys;
        var j :| 0 <= j < |keys| && keys[j] == k;
        assert s[j] == e;
      }
    }
  }

  lemma RoundEntriesSorted(u: Undecided, h: nat, r: Round)
    ensures EntriesSorted(RoundEntries(u, h, r))
    ensures forall e :: e in RoundEntries(u, h, r) <==>
      e.0 == r && (h, r, e.1) in u && u[(h, r, e.1)] == e.2
  {
    hide Ascending;
    RoundEntriesCollected(u, h, r);
    EntriesStored(u, h, r);
  }

  lemma {:induction false} EntriesOfRounds(u: Undecided, h: nat, rounds: seq<Round>)
    requires RanksIncrease(rounds)
    ensures EntriesSorted(Entries(u, h, rounds))
    ensures forall e :: e in Entries(u, h, rounds) <==>
      e.0 in rounds && (h, e.0, e.1) in u && u[(h, e.0, e.1)] == e.2
    decreases |rounds|
  {
    if rounds != [] {
      hide RoundEntries;
      var first, rest := RoundEntries(u, h, rounds[0]), Entries(u, h, rounds[1..]);
      RoundEntriesSorted(u, h, rounds[0]);
      EntriesOfRounds(u, h, rounds[1..]);
      assert forall r :: r in rounds <==> r == rounds[0] || r in rounds[1..];
      forall i, j | 0 <= i < j < |first + rest|
        ensures EntryBefore((first + rest)[i], (first + rest)[j])
      {
        if i < |first| <= j {
          assert first[i] in first && rest[j - |first|] in rest;
        }
      }
    }
  }

  /** The scan of one round is the round's list of blobs. */
  lemma RoundScan(m: Family, h: U64Nat, r: Round)
    requires UndecidedOk(m)
    ensures var keys := Scanned(m, h, Some(r));
            OfFamily(m, keys) && EntriesAt(m, keys) == RoundEntries(Undecideds(m), h, r)
  {
    hide Scanned, Undecideds, RoundEntries, EntriesAt;
    ScannedEntries(m, h, Some(r));
    RoundEntriesSorted(Undecideds(m), h, r);
    SortedUnique(EntriesAt(m, Scanned(m, h, Some(r))), RoundEntries(Undecideds(m), h, r));
  }

  /** The scan of a height is the list of all its rounds in key order. */
  lemma HeightScan(m: Family, h: U64Nat)
    requires UndecidedOk(m)
    ensures var keys := Scanned(m, h, None);
            && OfFamily(m, keys)
            && EntriesAt(m, keys)
               == Entries(Undecideds(m), h, InKeyOrder(Rounds(Undecideds(m), h)))
  {
    hide Scanned, Undecideds, RoundEntries, EntriesAt, InKeyOrder;
    var u := Undecideds(m);
    var rounds := InKeyOrder(Rounds(u, h));
    ScannedEntries(m, h, None);
    KeyOrderRanks(Rounds(u, h));
    EntriesOfRounds(u, h, rounds);
    var a, b := EntriesAt(m, Scanned(m, h, None)), Entries(u, h, rounds);
    forall e ensures e in a <==> e in b {
      InKeyOrderIsAll(Rounds(u, h), e.0);
    }
    SortedUnique(a, b);
  }

  // ----- Scans of the decided family -----

  function DecidedEntryAt(m: Family, k: Bytes): Entry
    requires k in m && |k| == 10
  {
    (0, FromDecidedKey(k).value.1, m[k])
  }

  ghost predicate OfDecided(m: Family, keys: seq<Bytes>) {
    forall j :: 0 <= j < |keys| ==> keys[j] in m && |keys[j]| == 10
  }

  ghost function DecidedEntriesAt(m: Family, keys: seq<Bytes>): (s: seq<Entry>)
    requires OfDecided(m, keys)
    ensures |s| == |keys|
  {
    seq(|keys|, j requires 0 <= j < |keys| => DecidedEntryAt(m, keys[j]))
  }

  ghost predicate AtHeight(k: Bytes, h: nat) {
    |k| == 10 && FromDecidedKey(k).value.0 == h
  }

  lemma PrefixIsHeight(h: U64Nat, k: Bytes)
    requires |k| == 10
    ensures HeightPrefix(h) <= k <==> AtHeight(k, h)
  {
    hide HeightPrefix, DecidedKey, FromDecidedKey;
    var (g, i) := FromDecidedKey(k).value;
    DecidedKeyCodec(g, i, k);
    PrefixMeans(h, 0, g, 0, i);
  }

  ghost function ScannedDecided(m: Family, h: U64Nat): seq<Bytes> {
    WithPrefix(InByteOrder(m.Keys), HeightPrefix(h))
  }

  lemma ScannedDecidedMembers(m: Family, h: U64Nat)
    requires DecidedOk(m)
    ensures OfDecided(m, ScannedDecided(m, h)) && Sorted(ScannedDecided(m, h))
    ensures forall k :: k in ScannedDecided(m, h) <==> k in m && AtHeight(k, h)
  {
    hide InByteOrder, WithPrefix, Before, Sorted, AtHeight, HeightPrefix, FromDecidedKey;
    WithPrefixMembers(InByteOrder(m.Keys), HeightPrefix(h));
    forall k | k in m ensures HeightPrefix(h) <= k <==> AtHeight(k, h) {
      PrefixIsHeight(h, k);
    }
    var keys := ScannedDecided(m, h);
    assert forall j :: 0 <= j < |keys| ==> keys[j] in keys;
  }

  lemma ScannedDecidedSorted(m: Family, h: U64Nat, keys: seq<Bytes>)
    requires OfDecided(m, keys) && Sorted(keys)
    requires forall k :: k in keys ==> AtHeight(k, h)
    ensures EntriesSorted(DecidedEntriesAt(m, keys))
  {
    hide DecidedKey, FromDecidedKey, Before;
    var s := DecidedEntriesAt(m, keys);
    forall i, j | 0 <= i < j < |s| ensures EntryBefore(s[i], s[j]) {
      assert keys[i] in keys && keys[j] in keys;
      var (_, a) := FromDecidedKey(keys[i]).value;
      var (_, b) := FromDecidedKey(keys[j]).value;
      DecidedKeyCodec(h, a, keys[i]);
      DecidedKeyCodec(h, b, keys[j]);
      DecidedKeyOrder(h, a, b);
    }
  }

  ghost predicate DecidedMatching(d: Decided, e: Entry, h: nat) {
    e.0 == 0 && (h, e.1) in d && d[(h, e.1)] == e.2
  }

  lemma DecidedScannedIsMatching(m: Family, h: U64Nat, k: Bytes)
    requires DecidedOk(m) && k in m && AtHeight(k, h)
    ensures DecidedMatching(Decideds(m), DecidedEntryAt(m, k), h)
  {
    hide Decideds, DecidedKey, FromDecidedKey;
    DecidedsAt(m, h, DecidedEntryAt(m, k).1);
    DecidedKeyCodec(0, 0, k);
  }

  lemma DecidedMatchingIsScanned(m: Family, h: U64Nat, e: Entry)
    requires DecidedOk(m) && DecidedMatching(Decideds(m), e, h)
    ensures exists k :: k in m && AtHeight(k, h) && DecidedEntryAt(m, k) == e
  {
    hide Decideds, DecidedKey, FromDecidedKey;
    DecidedsAt(m, h, e.1);
    DecidedKeyCodec(h, e.1, []);
    var k := DecidedKey(h, e.1);
    assert k in m && AtHeight(k, h) && DecidedEntryAt(m, k) == e;
  }

  /** The decided blobs of a height in index order. */
  ghost function HeightEntries(d: Decided, h: nat): seq<Entry> {
    var a := Ascending(HeightIndices(d, h));
    seq(|a|, i requires 0 <= i < |a| => assert a[i] in a; (0, a[i], d[(h, a[i])]))
  }

  lemma HeightEntriesSorted(d: Decided, h: nat)
    ensures EntriesSorted(HeightEntries(d, h))
    ensures forall e :: e in HeightEntries(d, h) <==> DecidedMatching(d, e, h)
  {
    hide Ascending;
    var a, s := Ascending(HeightIndices(d, h)), HeightEntries(d, h);
    assert forall i :: 0 <= i < |a| ==> a[i] in a;
    forall e | DecidedMatching(d, e, h) ensures e in s {
      assert e.1 in a;
      var i :| 0 <= i < |a| && a[i] == e.1;
      assert s[i] == e;
    }
  }

  /** The scan of a decided height is the height's list of blobs. */
  lemma DecidedScan(m: Family, h: U64Nat)
    requires DecidedOk(m)
    ensures OfDecided(m, ScannedDecided(m, h))
    ensures DecidedEntriesAt(m, ScannedDecided(m, h)) == HeightEntries(Decideds(m), h)
  {
    hide ScannedDecided, Decideds, DecidedMatching, DecidedEntryAt, HeightEntries, AtHeight, Sorted;
    ScannedDecidedMembers(m, h);
    var keys := ScannedDecided(m, h);
    ScannedDecidedSorted(m, h, keys);
    var s, t := DecidedEntriesAt(m, keys), HeightEntries(Decideds(m), h);
    HeightEntriesSorted(Decideds(m), h);
    forall e ensures e in s <==> e in t {
      if e in s {
        var j :| 0 <= j < |s| && s[j] == e;
        assert keys[j] in keys;
        DecidedScannedIsMatching(m, h, keys[j]);
      }
      if e in t {
        DecidedMatchingIsScanned(m, h, e);
        var k :| k in m && AtHeight(k, h) && DecidedEntryAt(m, k) == e;
        assert k in keys;
        var j :| 0 <= j < |keys| && keys[j] == k;
        assert s[j] == e;
      }
    }
    SortedUnique(s, t);
  }

  // ----- Single writes -----

  lemma PutUndecided(m: Family, h: U64Nat, r: Round, s: Sidecar)
    requires UndecidedOk(m)
    ensures var m' := m[UndecidedKey(h, r, s.index) := s];
            UndecidedOk(m') && Undecideds(m') == Undecideds(m)[(h, r, s.index) := s]
  {
    hide UndecidedKey, FromUndecidedKey, Undecideds;
    UndecidedKeyCodec(h, r, s.index, []);
    var m' := m[UndecidedKey(h, r, s.index) := s];
    var u, v := Undecideds(m)[(h, r, s.index) := s], Undecideds(m');
    forall t: (nat, Round, nat)
      ensures t in u <==> t in v
      ensures t in u ==> u[t] == v[t]
    {
      UndecidedsAt(m, t.0, t.1, t.2);
      UndecidedsAt(m', t.0, t.1, t.2);
      if t.0 < U64 && t.2 < U16 { UndecidedKeyCodec(t.0, t.1, t.2, []); }
    }
  }

  lemma PutDecided(m: Family, h: U64Nat, i: U16Nat, s: Sidecar)
    requires DecidedOk(m) && s.index == i
    ensures var m' := m[DecidedKey(h, i) := s];
            DecidedOk(m') && Decideds(m') == Decideds(m)[(h, i) := s]
  {
    hide DecidedKey, FromDecidedKey, Decideds;
    DecidedKeyCodec(h, i, []);
    var m' := m[DecidedKey(h, i) := s];
    var u, v := Decideds(m)[(h, i) := s], Decideds(m');
    forall t: (nat, nat)
      ensures t in u <==> t in v
      ensures t in u ==> u[t] == v[t]
    {
      DecidedsAt(m, t.0, t.1);
      DecidedsAt(m', t.0, t.1);
      if t.0 < U64 && t.1 < U16 { DecidedKeyCodec(t.0, t.1, []); }
    }
  }

  /** Removing keys removes exactly the entries they encode. */
  lemma DropUndecided(m: Family, gone: set<Bytes>)
    requires UndecidedOk(m)
    ensures UndecidedOk(m - gone)
    ensures forall t :: t in Undecideds(m - gone) <==>
      t in Undecideds(m) && t.0 < U64 && t.2 < U16 && UndecidedKey(t.0, t.1, t.2) !in gone
    ensures forall t :: t in Undecideds(m - gone) ==>
      t in Undecideds(m) && Undecideds(m - gone)[t] == Undecideds(m)[t]
  {
    hide UndecidedKey, FromUndecidedKey, Undecideds;
    forall t: (nat, Round, nat)
      ensures t in Undecideds(m - gone) <==>
              t in Undecideds(m) && t.0 < U64 && t.2 < U16 && UndecidedKey(t.0, t.1, t.2) !in gone
      ensures t in Undecideds(m - gone) ==> Undecideds(m - gone)[t] == Undecideds(m)[t]
    {
      UndecidedsAt(m, t.0, t.1, t.2);
      UndecidedsAt(m - gone, t.0, t.1, t.2);
    }
  }

  lemma DropDecided(m: Family, gone: set<Bytes>)
    requires DecidedOk(m)
    ensures DecidedOk(m - gone)
    ensures forall t :: t in Decideds(m - gone) <==>
      t in Decideds(m) && t.0 < U64 && t.1 < U16 && DecidedKey(t.0, t.1) !in gone
    ensures forall t :: t in Decideds(m - gone) ==>
      t in Decideds(m) && Decideds(m - gone)[t] == Decideds(m)[t]
  {
    hide DecidedKey, FromDecidedKey, Decideds;
    forall t: (nat, nat)
      ensures t in Decideds(m - gone) <==>
              t in Decideds(m) && t.0 < U64 && t.1 < U16 && DecidedKey(t.0, t.1) !in gone
      ensures t in Decideds(m - gone) ==> Decideds(m - gone)[t] == Decideds(m)[t]
    {
      DecidedsAt(m, t.0, t.1);
      DecidedsAt(m - gone, t.0, t.1);
    }
  }

  /** Deleting what a scan returned leaves exactly the entries out of its scope. */
  lemma ScannedGone(m: Family, h: U64Nat, r: Option<Round>)
    requires UndecidedOk(m)
    ensures var gone := set k | k in Scanned(m, h, r);
            && UndecidedOk(m - gone)
            && (forall t :: t in Undecideds(m - gone) <==>
                  t in Undecideds(m) && !(t.0 == h && (r.None? || t.1 == r.value)))
            && (forall t :: t in Undecideds(m - gone) ==>
                  Undecideds(m - gone)[t] == Undecideds(m)[t])
  {
    hide Scanned, Undecideds, UndecidedKey, FromUndecidedKey, Sorted, OfFamily;
    var gone := set k | k in Scanned(m, h, r);
    ScannedMembers(m, h, r);
    DropUndecided(m, gone);
    forall t: (nat, Round, nat)
      ensures t in Undecideds(m - gone) <==>
              t in Undecideds(m) && !(t.0 == h && (r.None? || t.1 == r.value))
    {
      UndecidedsAt(m, t.0, t.1, t.2);
      if t.0 < U64 && t.2 < U16 { UndecidedKeyCodec(t.0, t.1, t.2, []); }
    }
  }
}

/** Lists read from the families, and the moving and deleting loops. */
module StoreLoops {

  import opened Types
  import opened Ordering
  import opened BlobFamilies
  import opened Encoding
  import opened BlobKeys
  import opened NodeBlobs
  import opened KeyedFamilies
  import opened RoundMoves

  // ----- The final sort of a listing -----

  function InsertByIndex(b: Sidecar, sorted: seq<Sidecar>): seq<Sidecar> {
    if sorted == [] then [b]
    else if b.index <= sorted[0].index then [b] + sorted
    else [sorted[0]] + InsertByIndex(b, sorted[1..])
  }

  /** `sort_by_key` on the index: a stable sort. */
  function SortByIndex(blobs: seq<Sidecar>): seq<Sidecar> {
    if blobs == [] then [] else InsertByIndex(blobs[0], SortByIndex(blobs[1..]))
  }

  lemma {:induction false} SortKeepsSorted(blobs: seq<Sidecar>)
    requires forall i, j :: 0 <= i < j < |blobs| ==> blobs[i].index <= blobs[j].index
    ensures SortByIndex(blobs) == blobs
    decreases |blobs|
  {
    if blobs != [] {
      SortKeepsSorted(blobs[1..]);
      assert blobs == [blobs[0]] + blobs[1..];
    }
  }

  // ----- Entries of a scan as lists of blobs -----

  ghost function BlobsOf(entries: seq<Entry>): seq<Sidecar> {
    seq(|entries|, i requires 0 <= i < |entries| => entries[i].2)
  }

  function TotalBytes(entries: seq<Entry>): nat {
    if entries == [] then 0 else |entries[0].2.blob| + TotalBytes(entries[1..])
  }

  lemma RoundListing(u: Undecided, h: nat, r: Round)
    ensures BlobsOf(RoundEntries(u, h, r)) == Listing(RoundBlobs(u, h, r))
  {
    hide Ascending;
    assert RoundBlobs(u, h, r).Keys == RoundIndices(u, h, r);
    var a := Ascending(RoundIndices(u, h, r));
    assert forall i :: 0 <= i < |a| ==> a[i] in a;
  }

  lemma HeightListing(d: Decided, h: nat)
    ensures BlobsOf(HeightEntries(d, h)) == Listing(HeightBlobs(d, h))
  {
    hide Ascending;
    assert HeightBlobs(d, h).Keys == HeightIndices(d, h);
    var a := Ascending(HeightIndices(d, h));
    assert forall i :: 0 <= i < |a| ==> a[i] in a;
  }

  ghost predicate SameKeys(m: Family, keys: seq<Bytes>, blobs: seq<Sidecar>) {
    |blobs| == |keys| && forall j :: 0 <= j < |keys| ==> keys[j] in m && blobs[j] == m[keys[j]]
  }

  /** What an undecided scan reads is the round's listing, and sorting it changes nothing. */
  lemma UndecidedListing(m: Family, h: U64Nat, r: Round, blobs: seq<Sidecar>)
    requires UndecidedOk(m) && SameKeys(m, Scanned(m, h, Some(r)), blobs)
    ensures SortByIndex(blobs) == Listing(RoundBlobs(Undecideds(m), h, r))
  {
    hide Scanned, Undecideds, RoundEntries, Listing, SortByIndex, Ascending, FromUndecidedKey;
    var keys := Scanned(m, h, Some(r));
    ScannedMembers(m, h, Some(r));
    ScannedEntries(m, h, Some(r));
    RoundScan(m, h, r);
    RoundListing(Undecideds(m), h, r);
    var s := EntriesAt(m, keys);
    assert blobs == BlobsOf(s);
    forall i, j | 0 <= i < j < |blobs| ensures blobs[i].index <= blobs[j].index {
      assert keys[i] in keys && keys[j] in keys;
      assert EntryBefore(s[i], s[j]);
    }
    SortKeepsSorted(blobs);
  }

  lemma DecidedListing(m: Family, h: U64Nat, blobs: seq<Sidecar>)
    requires DecidedOk(m) && SameKeys(m, ScannedDecided(m, h), blobs)
    ensures SortByIndex(blobs) == Listing(HeightBlobs(Decideds(m), h))
  {
    hide ScannedDecided, Decideds, HeightEntries, Listing, SortByIndex, Ascending, FromDecidedKey;
    var keys := ScannedDecided(m, h);
    ScannedDecidedMembers(m, h);
    DecidedScan(m, h);
    HeightEntriesSorted(Decideds(m), h);
    HeightListing(Decideds(m), h);
    var s := DecidedEntriesAt(m, keys);
    assert blobs == BlobsOf(s);
    forall i, j | 0 <= i < j < |blobs| ensures blobs[i].index <= blobs[j].index {
      assert EntryBefore(s[i], s[j]);
    }
    SortKeepsSorted(blobs);
  }

  // ----- Moving -----

  ghost function KeySet<K>(keys: seq<K>): set<K> {
    set k | k in keys
  }

  lemma ScannedNone(m: Family, h: U64Nat, r: Round)
    requires UndecidedOk(m)
    ensures Scanned(m, h, Some(r)) == [] <==> RoundIndices(Undecideds(m), h, r) == {}
  {
    hide Scanned, Undecideds, Ascending;
    RoundScan(m, h, r);
  }

  ghost function Scope(u: Undecided, h: nat, r: Round): Option<Round> {
    if RoundIndices(u, h, r) != {} then Some(r) else None
  }

  /** The entries collected are those of the rounds to move. */
  lemma CollectedEntries(m: Family, h: U64Nat, r: Round)
    requires UndecidedOk(m)
    ensures var u := Undecideds(m);
            var keys := Scanned(m, h, Scope(u, h, r));
            OfFamily(m, keys) && EntriesAt(m, keys) == Entries(u, h, RoundsToMove(u, h, r))
  {
    hide Scanned, Undecideds, RoundEntries, EntriesAt, InKeyOrder, RoundIndices;
    var u := Undecideds(m);
    if RoundIndices(u, h, r) != {} {
      RoundScan(m, h, r);
      assert [r][1..] == [];
    } else {
      HeightScan(m, h);
    }
  }

  /** Deleting the collected keys leaves the undecided map that `MarkDecided` leaves. */
  lemma CollectedGone(m: Family, d: Decided, h: U64Nat, r: Round)
    requires UndecidedOk(m)
    ensures var u := Undecideds(m);
            var left := m - KeySet(Scanned(m, h, Scope(u, h, r)));
            UndecidedOk(left) && Undecideds(left) == MarkDecided(u, d, h, r).0
  {
    hide Scanned, Undecideds, UndecidedOk, MarkDecided, RoundIndices;
    var u := Undecideds(m);
    ScannedGone(m, h, Scope(u, h, r));
    MarkDecidedRemoves(u, d, h, r);
  }

  lemma PromotedIsMarked(u: Undecided, d: Decided, h: nat, r: Round)
    ensures Promoted(d, h, Entries(u, h, RoundsToMove(u, h, r))) == MarkDecided(u, d, h, r).1
  {
    RoundsToMoveDistinct(u, h, r);
    PromotedRounds(u, d, h, RoundsToMove(u, h, r));
  }

  /** One pass of the moving loop on the decided side. */
  lemma MovedOne(m: Family, d: Family, h: U64Nat, k: Bytes)
    requires UndecidedOk(m) && DecidedOk(d) && k in m && InScope(k, h, None)
    ensures var i := FromUndecidedKey(k).value.2;
            var d' := d[DecidedKey(h, i) := m[k]];
            && DecidedOk(d')
            && Decideds(d') == Decideds(d)[(h, i) := m[k]]
  {
    hide DecidedKey, FromUndecidedKey, FromDecidedKey, Decideds;
    PutDecided(d, h, FromUndecidedKey(k).value.2, m[k]);
  }

  lemma PromotedStep(d: Decided, h: nat, entries: seq<Entry>, n: nat)
    requires n < |entries|
    ensures Promoted(d, h, entries[n..])
            == Promoted(d[(h, entries[n].1) := entries[n].2], h, entries[n + 1..])
    ensures TotalBytes(entries[n..]) == |entries[n].2.blob| + TotalBytes(entries[n + 1..])
  {
    assert entries[n..][1..] == entries[n + 1..];
  }

  lemma SortedDistinct(keys: seq<Bytes>)
    requires Sorted(keys)
    ensures DistinctKeys(keys)
  {
    forall i, j | 0 <= i < j < |keys| ensures keys[i] != keys[j] {
      BeforeTotal(keys[i], keys[j]);
    }
  }

  ghost predicate DistinctKeys<K>(keys: seq<K>) {
    forall i, j :: 0 <= i < j < |keys| ==> keys[i] != keys[j]
  }

  ghost function Without<K, V>(m: map<K, V>, keys: seq<K>, n: nat): map<K, V>
    requires n <= |keys|
  {
    m - KeySet(keys[..n])
  }

  /** One pass of a deleting loop. */
  lemma DeletedOne<K, V>(m: map<K, V>, keys: seq<K>, n: nat)
    requires n < |keys| && DistinctKeys(keys) && keys[n] in m
    ensures keys[n] in Without(m, keys, n)
    ensures Without(m, keys, n) - {keys[n]} == Without(m, keys, n + 1)
    ensures |Without(m, keys, n + 1)| == |Without(m, keys, n)| - 1
  {
    hide KeySet;
    KeySetNext(keys, n);
    RemovedOne(m, KeySet(keys[..n]), keys[n]);
  }

  lemma KeySetNext<K>(keys: seq<K>, n: nat)
    requires n < |keys| && DistinctKeys(keys)
    ensures KeySet(keys[..n + 1]) == KeySet(keys[..n]) + {keys[n]} && keys[n] !in KeySet(keys[..n])
  {
    assert keys[..n + 1] == keys[..n] + [keys[n]];
  }

  lemma RemovedOne<K, V>(m: map<K, V>, gone: set<K>, k: K)
    requires k in m && k !in gone
    ensures m - gone - {k} == m - (gone + {k}) && |m - (gone + {k})| == |m - gone| - 1
  {
    assert (m - (gone + {k})).Keys == (m - gone).Keys - {k};
  }

  lemma DeletedEnds<K, V>(m: map<K, V>, keys: seq<K>)
    ensures Without(m, keys, 0) == m && Without(m, keys, |keys|) == m - KeySet(keys)
  {
    assert keys[..0] == [] && keys[..|keys|] == keys;
  }

  /** Reads the values of a list of keys. */
  method ReadAll(m: Family, keys: seq<Bytes>) returns (blobs: seq<Sidecar>)
    requires forall j :: 0 <= j < |keys| ==> keys[j] in m
    ensures SameKeys(m, keys, blobs)
  {
    blobs := [];
    for n := 0 to |keys|
      invariant |blobs| == n && forall j :: 0 <= j < n ==> blobs[j] == m[keys[j]]
    {
      blobs := blobs + [m[keys[n]]];
    }
  }

  ghost predicate OldKey(k: Bytes, h: nat) {
    |k| >= 8 && FromBigEndian(k[..8]) < h
  }

  ghost function OldKeys(keys: seq<Bytes>, h: nat): seq<Bytes> {
    if keys == [] then []
    else OldKeys(keys[..|keys| - 1], h)
         + if OldKey(keys[|keys| - 1], h) then [keys[|keys| - 1]] else []
  }

  lemma OldKeysEnds(all: seq<Bytes>, h: nat)
    ensures OldKeys(all[..0], h) == [] && all[..|all|] == all
  {
  }

  lemma OldKeysNext(all: seq<Bytes>, h: nat, n: nat)
    requires n < |all|
    ensures OldKeys(all[..n + 1], h)
            == OldKeys(all[..n], h)
               + if |all[n]| >= 8 && FromBigEndian(all[n][..8]) < h then [all[n]] else []
  {
    assert all[..n + 1][..n] == all[..n];
  }

  lemma {:induction false} OldKeysAre(all: seq<Bytes>, h: nat)
    requires DistinctKeys(all)
    ensures DistinctKeys(OldKeys(all, h))
    ensures forall k :: k in OldKeys(all, h) <==> k in all && OldKey(k, h)
    decreases |all|
  {
    if all != [] {
      var front, last := all[..|all| - 1], all[|all| - 1];
      OldKeysAre(front, h);
      assert all == front + [last];
      assert last !in front;
    }
  }

  lemma RoundGone(m: Family, h: U64Nat, r: Round)
    requires UndecidedOk(m)
    ensures var left := m - KeySet(Scanned(m, h, Some(r)));
            UndecidedOk(left) && Undecideds(left) == DropRound(Undecideds(m), h, r)
  {
    hide Scanned, Undecideds, UndecidedOk;
    ScannedGone(m, h, Some(r));
  }

  lemma NothingToPromote(d: Decided, h: nat, entries: seq<Entry>)
    requires entries == []
    ensures Promoted(d, h, entries) == d && TotalBytes(entries) == 0
  {
  }

  lemma DeletedIndices(m: Family, h: U64Nat, indices: seq<U16Nat>)
    requires DecidedOk(m)
    ensures var gone := set i: U16Nat | i in indices :: DecidedKey(h, i);
            && DecidedOk(m - gone)
            && Decideds(m - gone) == Decideds(m) - (set i: nat | i in indices :: (h, i))
  {
    hide DecidedKey, FromDecidedKey, Decideds;
    var gone := set i: U16Nat | i in indices :: DecidedKey(h, i);
    DropDecided(m, gone);
    forall t | t in Decideds(m)
      ensures t in Decideds(m - gone) <==> !(t.0 == h && t.1 in indices)
    {
      DecidedsAt(m, t.0, t.1);
      if DecidedKey(t.0, t.1) in gone {
        var i: U16Nat :| i in indices && DecidedKey(h, i) == DecidedKey(t.0, t.1);
        DecidedKeyCodec(h, i, []);
        DecidedKeyCodec(t.0, t.1, []);
      }
    }
  }

  lemma PrunedKeys(m: Family, h: U64Nat, keys: seq<Bytes>)
    requires DecidedOk(m) && forall k :: k in keys <==> k in m && OldKey(k, h)
    ensures var left := m - KeySet(keys);
            && DecidedOk(left)
            && (forall t :: t in Decideds(left) <==> t in Decideds(m) && t.0 >= h)
            && (forall t :: t in Decideds(left) ==> Decideds(left)[t] == Decideds(m)[t])
  {
    hide DecidedKey, FromBigEndian, Decideds;
    var gone := KeySet(keys);
    DropDecided(m, gone);
    forall t | t in Decideds(m) ensures t in Decideds(m - gone) <==> t.0 >= h {
      DecidedsAt(m, t.0, t.1);
      DecidedKeyCodec(t.0, t.1, []);
    }
  }
}

/** The blob store over two column families of encoded keys. */
module RocksDb {

  import opened Types
  import opened Ordering
  import opened BlobFamilies
  import opened Encoding
  import opened BlobKeys
  import opened NodeBlobs
  import opened KeyedFamilies
  import opened StoreLoops

  class RocksDbBlobStore {

    var undecided: Family
    var decided: Family

    ghost predicate Valid()
      reads this
    {
      UndecidedOk(undecided) && DecidedOk(decided)
    }

    constructor ()
      ensures Valid() && Undecideds(undecided) == map[] && Decideds(decided) == map[]
    {
      undecided, decided := map[], map[];
    }

    method PutUndecidedBlobs(h: U64Nat, r: Round, blobs: seq<Sidecar>) returns (count: nat)
      requires Valid()
      modifies this
      ensures Valid() && decided == old(decided) && count == |blobs|
      ensures Undecideds(undecided) == Stored(old(Undecideds(undecided)), h, r, blobs)
    {
      hide UndecidedKey, FromUndecidedKey, Undecideds, DecidedOk;
      for n := 0 to |blobs|
        invariant UndecidedOk(undecided) && decided == old(decided)
        invariant Stored(Undecideds(undecided), h, r, blobs[n..])
                  == Stored(old(Undecideds(undecided)), h, r, blobs)
      {
        assert blobs[n] in blobs && blobs[n..][1..] == blobs[n + 1..];
        PutUndecided(undecided, h, r, blobs[n]);
        undecided := undecided[UndecidedKey(h, r, blobs[n].index) := blobs[n]];
      }
      count := |blobs|;
    }

    method GetUndecidedBlobs(h: U64Nat, r: Round) returns (blobs: seq<Sidecar>)
      requires Valid()
      ensures blobs == Listing(RoundBlobs(Undecideds(undecided), h, r))
    {
      hide Undecideds, Listing, SortByIndex, RoundPrefix, InByteOrder, WithPrefix, Sorted,
           UndecidedOk, DecidedOk, SameKeys, InScope;
      var keys := ScanPrefix(undecided, RoundPrefix(h, r));
      ScannedMembers(undecided, h, Some(r));
      blobs := ReadAll(undecided, keys);
      UndecidedListing(undecided, h, r, blobs);
      blobs := SortByIndex(blobs);
    }

    method MarkDecided(h: U64Nat, r: Round) returns (moved: nat, bytes: nat)
      requires Valid()
      modifies this
      ensures Valid()
      ensures (Undecideds(undecided), Decideds(decided))
              == BlobFamilies.MarkDecided(
                   old(Undecideds(undecided)), old(Decideds(decided)), h, r)
      ensures moved == |old(undecided)| - |undecided|
      ensures bytes == TotalBytes(Entries(old(Undecideds(undecided)), h,
                                          RoundsToMove(old(Undecideds(undecided)), h, r)))
    {
      hide Undecideds, Decideds, Entries, RoundsToMove, Promoted, RoundPrefix, HeightPrefix,
           InByteOrder, WithPrefix, Sorted, BlobFamilies.MarkDecided, TotalBytes, RoundIndices,
           UndecidedOk, DecidedOk;
      ghost var u, d := Undecideds(undecided), Decideds(decided);
      ScannedNone(undecided, h, r);
      var items := ScanPrefix(undecided, RoundPrefix(h, r));
      if items == [] {
        items := ScanPrefix(undecided, HeightPrefix(h));
      }
      CollectedEntries(undecided, h, r);
      CollectedGone(undecided, d, h, r);
      PromotedIsMarked(u, d, h, r);
      ScannedMembers(undecided, h, Scope(u, h, r));
      moved, bytes := MoveItems(h, items);
    }

    /** The moving loop: it works on the collected entries, not on the family being changed. */
    method MoveItems(h: U64Nat, items: seq<Bytes>) returns (moved: nat, bytes: nat)
      requires Valid() && Sorted(items) && OfFamily(undecided, items)
      requires forall k :: k in items ==> InScope(k, h, None)
      modifies this
      ensures undecided == old(undecided) - KeySet(items)
      ensures DecidedOk(decided)
      ensures Decideds(decided)
              == Promoted(old(Decideds(decided)), h, EntriesAt(old(undecided), items))
      ensures moved == |items| && moved == |old(undecided)| - |undecided|
      ensures bytes == TotalBytes(EntriesAt(old(undecided), items))
    {
      hide Undecideds, Decideds, Promoted, Sorted, UndecidedOk, DecidedOk, FromUndecidedKey,
           DecidedKey, TotalBytes, Without, DistinctKeys, KeySet;
      SortedDistinct(items);
      var collected := undecided;
      ghost var entries := EntriesAt(collected, items);
      DeletedEnds(collected, items);
      moved, bytes := 0, 0;
      assert entries[0..] == entries;
      for n := 0 to |items|
        invariant moved == n && |undecided| == |collected| - n
        invariant undecided == Without(collected, items, n)
        invariant DecidedOk(decided)
        invariant Promoted(Decideds(decided), h, entries[n..])
                  == Promoted(old(Decideds(decided)), h, entries)
        invariant bytes + TotalBytes(entries[n..]) == TotalBytes(entries)
      {
        var k := items[n];
        assert k in items;
        PromotedStep(Decideds(decided), h, entries, n);
        MovedOne(collected, decided, h, k);
        DeletedOne(collected, items, n);
        var key := FromUndecidedKey(k);
        if key.Some? {
          bytes := bytes + |collected[k].blob|;
          decided := decided[DecidedKey(key.value.0, key.value.2) := collected[k]];
          undecided := undecided - {k};
          moved := moved + 1;
        }
      }
      NothingToPromote(Decideds(decided), h, entries[|items|..]);
    }

    method GetDecidedBlobs(h: U64Nat) returns (blobs: seq<Sidecar>)
      requires Valid()
      ensures blobs == Listing(HeightBlobs(Decideds(decided), h))
    {
      hide Decideds, Listing, SortByIndex, HeightPrefix, InByteOrder, WithPrefix, Sorted,
           UndecidedOk, DecidedOk, SameKeys, AtHeight;
      var keys := ScanPrefix(decided, HeightPrefix(h));
      ScannedDecidedMembers(decided, h);
      blobs := ReadAll(decided, keys);
      DecidedListing(decided, h, blobs);
      blobs := SortByIndex(blobs);
    }

    method DropRound(h: U64Nat, r: Round) returns (deleted: nat, bytes: nat)
      requires Valid()
      modifies this
      ensures Valid() && decided == old(decided)
      ensures Undecideds(undecided) == BlobFamilies.DropRound(old(Undecideds(undecided)), h, r)
      ensures deleted == |old(undecided)| - |undecided|
      ensures bytes == TotalBytes(RoundEntries(old(Undecideds(undecided)), h, r))
    {
      hide Undecideds, RoundPrefix, InByteOrder, WithPrefix, Sorted, TotalBytes, RoundEntries,
           UndecidedOk, DecidedOk, FromUndecidedKey, Without, DistinctKeys, KeySet, InScope,
           Promoted, BlobFamilies.DropRound;
      var keys := ScanPrefix(undecided, RoundPrefix(h, r));
      ScannedMembers(undecided, h, Some(r));
      RoundGone(undecided, h, r);
      RoundScan(undecided, h, r);
      SortedDistinct(keys);
      var collected := undecided;
      ghost var entries := EntriesAt(collected, keys);
      DeletedEnds(collected, keys);
      deleted, bytes := |keys|, 0;
      assert entries[0..] == entries;
      for n := 0 to |keys|
        invariant decided == old(decided) && |undecided| == |collected| - n
        invariant undecided == Without(collected, keys, n)
        invariant bytes + TotalBytes(entries[n..]) == TotalBytes(entries)
      {
        PromotedStep(map[], h, entries, n);
        DeletedOne(collected, keys, n);
        bytes := bytes + |collected[keys[n]].blob|;
        undecided := undecided - {keys[n]};
      }
      NothingToPromote(map[], h, entries[|keys|..]);
    }

    method DeleteArchived(h: U64Nat, indices: seq<U16Nat>)
      requires Valid()
      modifies this
      ensures Valid() && undecided == old(undecided)
      ensures Decideds(decided)
              == old(Decideds(decided)) - (set i: nat | i in indices :: (h, i))
    {
      hide DecidedKey, FromDecidedKey, Decideds, UndecidedOk;
      ghost var gone := set i: U16Nat | i in indices :: DecidedKey(h, i);
      assert indices[..0] == [];
      for n := 0 to |indices|
        invariant undecided == old(undecided)
        invariant decided == old(decided) - set i: U16Nat | i in indices[..n] :: DecidedKey(h, i)
      {
        decided := decided - {DecidedKey(h, indices[n])};
        assert forall i: U16Nat :: i in indices[..n + 1] <==> i in indices[..n] || i == indices[n];
      }
      assert indices[..|indices|] == indices;
      DeletedIndices(old(decided), h, indices);
    }

    method PruneBefore(h: U64Nat) returns (deleted: nat)
      requires Valid()
      modifies this
      ensures Valid() && undecided == old(undecided)
      ensures forall t :: t in Decideds(decided) <==> t in old(Decideds(decided)) && t.0 >= h
      ensures forall t :: t in Decideds(decided) ==>
        Decideds(decided)[t] == old(Decideds(decided))[t]
      ensures deleted == |old(decided)| - |decided|
    {
      hide DecidedKey, FromDecidedKey, Decideds, UndecidedOk, DecidedOk, InByteOrder, Sorted,
           OldKey, Without, DistinctKeys, KeySet;
      var all := InByteOrder(decided.Keys);
      SortedDistinct(all);
      var keys: seq<Bytes> := [];
      OldKeysEnds(all, h);
      for n := 0 to |all|
        invariant decided == old(decided) && undecided == old(undecided)
        invariant keys == OldKeys(all[..n], h)
      {
        OldKeysNext(all, h, n);
        if |all[n]| >= 8 && FromBigEndian(all[n][..8]) < h {
          keys := keys + [all[n]];
        }
      }
      OldKeysAre(all, h);
      deleted := |keys|;
      ghost var whole := decided;
      DeletedEnds(whole, keys);
      for n := 0 to |keys|
        invariant undecided == old(undecided) && |decided| == |whole| - n
        invariant decided == Without(whole, keys, n)
      {
        assert keys[n] in keys;
        DeletedOne(whole, keys, n);
        decided := decided - {keys[n]};
      }
      PrunedKeys(whole, h, keys);
    }
  }
}
