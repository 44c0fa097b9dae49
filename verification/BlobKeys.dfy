/** Big-endian numbers and the byte order of keys. */
module Encoding {

  import opened Types

  function Pow256(n: nat): (p: nat)
    ensures p > 0
  {
    if n == 0 then 1 else 256 * Pow256(n - 1)
  }

  /** `to_be_bytes` for an unsigned number of the given width. */
  function BigEndian(n: nat, width: nat): (b: Bytes)
    requires n < Pow256(width)
    ensures |b| == width
  {
    if width == 0 then [] else BigEndian(n / 256, width - 1) + [n % 256]
  }

  /** `from_be_bytes`. */
  function FromBigEndian(b: Bytes): (n: nat)
    ensures n < Pow256(|b|)
  {
    if b == [] then 0 else FromBigEndian(b[..|b| - 1]) * 256 + b[|b| - 1]
  }

  lemma {:induction false} DecodesEncoded(n: nat, width: nat)
    requires n < Pow256(width)
    ensures FromBigEndian(BigEndian(n, width)) == n
    decreases width
  {
    if width > 0 {
      var b := BigEndian(n, width);
      assert b[..|b| - 1] == BigEndian(n / 256, width - 1);
      DecodesEncoded(n / 256, width - 1);
    }
  }

  lemma {:induction false} EncodesDecoded(b: Bytes)
    ensures BigEndian(FromBigEndian(b), |b|) == b
    decreases |b|
  {
    if b != [] {
      EncodesDecoded(b[..|b| - 1]);
      var n := FromBigEndian(b);
      assert n / 256 == FromBigEndian(b[..|b| - 1]) && n % 256 == b[|b| - 1];
      assert b == b[..|b| - 1] + [b[|b| - 1]];
    }
  }

  lemma WidthSizes()
    ensures Pow256(2) == 0x1_0000 && Pow256(8) == 0x1_0000_0000_0000_0000
  {
    assert Pow256(2) == 65536;
    assert Pow256(4) == 0x1_0000_0000;
  }

  // ----- Byte order -----

  /** The order in which the store iterates over keys. */
  predicate Before(a: Bytes, b: Bytes)
    decreases |a|
  {
    if b == [] then false
    else if a == [] then true
    else a[0] < b[0] || (a[0] == b[0] && Before(a[1..], b[1..]))
  }

  lemma {:induction false} BeforeTransitive(a: Bytes, b: Bytes, c: Bytes)
    requires Before(a, b) && Before(b, c)
    ensures Before(a, c)
    decreases |a|
  {
    if a != [] && a[0] == b[0] && b[0] == c[0] {
      BeforeTransitive(a[1..], b[1..], c[1..]);
    }
  }

  lemma {:induction false} BeforeTotal(a: Bytes, b: Bytes)
    ensures a == b || Before(a, b) || Before(b, a)
    ensures !(Before(a, b) && Before(b, a))
    decreases |a|
  {
    if a != [] && b != [] {
      BeforeTotal(a[1..], b[1..]);
      if a[0] == b[0] && a[1..] == b[1..] {
        assert a == [a[0]] + a[1..] && b == [b[0]] + b[1..];
      }
    }
  }

  /** A key that starts with the prefix is not before the prefix. */
  lemma {:induction false} PrefixedNotBefore(prefix: Bytes, k: Bytes)
    requires prefix <= k
    ensures !Before(k, prefix)
    decreases |prefix|
  {
    if prefix != [] {
      PrefixedNotBefore(prefix[1..], k[1..]);
    }
  }

  /** Keys with a common prefix are contiguous: past the first key beyond the prefix none starts with
      it any more. */
  lemma {:induction false} PrefixContiguous(prefix: Bytes, k: Bytes, later: Bytes)
    requires !Before(k, prefix) && !(prefix <= k) && Before(k, later)
    ensures !(prefix <= later)
    decreases |prefix|
  {
    if prefix <= later {
      if k[0] == prefix[0] {
        PrefixContiguous(prefix[1..], k[1..], later[1..]);
      }
    }
  }

  lemma {:induction false} BeforeJoin(a: Bytes, b: Bytes, c: Bytes, d: Bytes)
    requires |a| == |b|
    ensures Before(a + c, b + d) <==> Before(a, b) || (a == b && Before(c, d))
    decreases |a|
  {
    if a == [] {
      assert a + c == c && b + d == d;
    } else {
      assert (a + c)[1..] == a[1..] + c && (b + d)[1..] == b[1..] + d;
      BeforeJoin(a[1..], b[1..], c, d);
      if a[0] == b[0] && a[1..] == b[1..] {
        assert a == [a[0]] + a[1..] && b == [b[0]] + b[1..];
      }
    }
  }

  lemma OneByte(x: Byte, y: Byte)
    ensures Before([x], [y]) <==> x < y
  {
    assert [x][1..] == [] && [y][1..] == [];
  }

  /** Big-endian bytes sort as the numbers do. */
  lemma {:induction false} BigEndianOrder(m: nat, n: nat, width: nat)
    requires m < Pow256(width) && n < Pow256(width)
    ensures Before(BigEndian(m, width), BigEndian(n, width)) <==> m < n
    ensures BigEndian(m, width) == BigEndian(n, width) <==> m == n
    decreases width
  {
    if width > 0 {
      var a, b := BigEndian(m / 256, width - 1), BigEndian(n / 256, width - 1);
      BigEndianOrder(m / 256, n / 256, width - 1);
      BeforeJoin(a, b, [m % 256], [n % 256]);
      OneByte(m % 256, n % 256);
      DecodesEncoded(m, width);
      DecodesEncoded(n, width);
    }
  }

  ghost predicate Sorted(keys: seq<Bytes>) {
    forall i, j :: 0 <= i < j < |keys| ==> Before(keys[i], keys[j])
  }

  predicate First(k: Bytes, keys: set<Bytes>) {
    k in keys && forall x :: x in keys && x != k ==> Before(k, x)
  }

  lemma FirstExists(keys: set<Bytes>)
    requires keys != {}
    ensures exists k :: First(k, keys)
  {
    var k :| k in keys;
    var rest := keys - {k};
    assert keys == rest + {k};
    if rest == {} {
      assert First(k, keys);
    } else {
      FirstExists(rest);
      var f :| First(f, rest);
      BeforeTotal(f, k);
      forall x | x in rest && x != f && Before(k, f) ensures Before(k, x) {
        BeforeTransitive(k, f, x);
      }
      assert First(if Before(k, f) then k else f, keys);
    }
  }

  lemma FirstUnique(keys: set<Bytes>)
    ensures forall j, k :: First(j, keys) && First(k, keys) ==> j == k
  {
    forall j, k | First(j, keys) && First(k, keys) ensures j == k {
      BeforeTotal(j, k);
    }
  }

  /** A set of keys in iteration order. */
  function InByteOrder(keys: set<Bytes>): (r: seq<Bytes>)
    ensures Sorted(r)
    ensures forall k :: k in r <==> k in keys
    ensures |r| == |keys|
  {
    if keys == {} then []
    else
      FirstExists(keys);
      FirstUnique(keys);
      var k :| First(k, keys);
      var rest := InByteOrder(keys - {k});
      assert forall i :: 0 <= i < |rest| ==> rest[i] in rest;
      [k] + rest
  }
}

/** The keys of the two blob column families. */
module BlobKeys {

  import opened Types
  import opened BlobFamilies
  import opened Encoding

  /** Height and optionally round, as scans use them. */
  function HeightPrefix(h: U64Nat): (p: Bytes)
    ensures |p| == 8
  {
    WidthSizes();
    BigEndian(h, 8)
  }

  function RoundPrefix(h: U64Nat, r: Round): (p: Bytes)
    ensures |p| == 16 && p[..8] == HeightPrefix(h)
  {
    WidthSizes();
    HeightPrefix(h) + BigEndian(Rank(r), 8)
  }

  function IndexBytes(i: U16Nat): (b: Bytes)
    ensures |b| == 2
  {
    WidthSizes();
    BigEndian(i, 2)
  }

  /** `to_undecided_key`. */
  function UndecidedKey(h: U64Nat, r: Round, i: U16Nat): (k: Bytes)
    ensures |k| == 18
  {
    RoundPrefix(h, r) + IndexBytes(i)
  }

  /** `to_decided_key`. */
  function DecidedKey(h: U64Nat, i: U16Nat): (k: Bytes)
    ensures |k| == 10
  {
    HeightPrefix(h) + IndexBytes(i)
  }

  /** `from_undecided_key`. */
  function FromUndecidedKey(k: Bytes): (r: Option<(U64Nat, Round, U16Nat)>)
    ensures r.Some? <==> |k| == 18
  {
    if |k| != 18 then None
    else
      WidthSizes();
      Some((FromBigEndian(k[..8]), Unrank(FromBigEndian(k[8..16])), FromBigEndian(k[16..])))
  }

  /** `from_decided_key`. */
  function FromDecidedKey(k: Bytes): (r: Option<(U64Nat, U16Nat)>)
    ensures r.Some? <==> |k| == 10
  {
    if |k| != 10 then None
    else
      WidthSizes();
      Some((FromBigEndian(k[..8]), FromBigEndian(k[8..])))
  }

  /** The undecided key codec is a bijection between key triples and 18-byte strings. */
  lemma UndecidedKeyCodec(h: U64Nat, r: Round, i: U16Nat, k: Bytes)
    ensures FromUndecidedKey(UndecidedKey(h, r, i)) == Some((h, r, i))
    ensures |k| == 18 ==>
      var (h', r', i') := FromUndecidedKey(k).value;
      UndecidedKey(h', r', i') == k
  {
    hide UndecidedKey, FromUndecidedKey;
    KeyDecodes(h, r, i);
    if |k| == 18 {
      KeyEncodes(k);
    }
  }

  lemma KeyDecodes(h: U64Nat, r: Round, i: U16Nat)
    ensures FromUndecidedKey(UndecidedKey(h, r, i)) == Some((h, r, i))
  {
    hide BigEndian, FromBigEndian;
    WidthSizes();
    DecodesEncoded(h, 8);
    DecodesEncoded(Rank(r), 8);
    DecodesEncoded(i, 2);
    var key := UndecidedKey(h, r, i);
    assert key[..8] == BigEndian(h, 8);
    assert key[8..16] == BigEndian(Rank(r), 8);
    assert key[16..] == BigEndian(i, 2);
  }

  lemma KeyEncodes(k: Bytes)
    requires |k| == 18
    ensures var (h, r, i) := FromUndecidedKey(k).value; UndecidedKey(h, r, i) == k
  {
    hide BigEndian, FromBigEndian;
    WidthSizes();
    EncodesDecoded(k[..8]);
    EncodesDecoded(k[8..16]);
    EncodesDecoded(k[16..]);
    assert k == k[..8] + k[8..16] + k[16..];
  }

  /** The decided key codec is a bijection between key pairs and 10-byte strings. */
  lemma DecidedKeyCodec(h: U64Nat, i: U16Nat, k: Bytes)
    ensures FromDecidedKey(DecidedKey(h, i)) == Some((h, i))
    ensures |k| == 10 ==>
      var (h', i') := FromDecidedKey(k).value;
      DecidedKey(h', i') == k
  {
    WidthSizes();
    DecodesEncoded(h, 8);
    DecodesEncoded(i, 2);
    var key := DecidedKey(h, i);
    assert key[..8] == BigEndian(h, 8);
    assert key[8..] == BigEndian(i, 2);
    if |k| == 10 {
      EncodesDecoded(k[..8]);
      EncodesDecoded(k[8..]);
      assert k == k[..8] + k[8..];
    }
  }

  /** A key starts with a round's prefix exactly when it belongs to that height and round. */
  lemma PrefixMeans(h: U64Nat, r: Round, g: U64Nat, s: Round, i: U16Nat)
    ensures HeightPrefix(h) <= UndecidedKey(g, s, i) <==> g == h
    ensures RoundPrefix(h, r) <= UndecidedKey(g, s, i) <==> g == h && s == r
    ensures HeightPrefix(h) <= DecidedKey(g, i) <==> g == h
  {
    WidthSizes();
    BigEndianOrder(g, h, 8);
    BigEndianOrder(Rank(s), Rank(r), 8);
    var key := UndecidedKey(g, s, i);
    assert key[..8] == HeightPrefix(g) && key[..16] == RoundPrefix(g, s);
    assert RoundPrefix(g, s)[8..] == BigEndian(Rank(s), 8);
    assert RoundPrefix(h, r)[8..] == BigEndian(Rank(r), 8);
    assert DecidedKey(g, i)[..8] == HeightPrefix(g);
  }

  /** Within one height keys sort by round, with `Nil` after all numbers, and then by index. */
  lemma UndecidedKeyOrder(h: U64Nat, r: Round, i: U16Nat, s: Round, j: U16Nat)
    ensures Before(UndecidedKey(h, r, i), UndecidedKey(h, s, j))
            <==> Rank(r) < Rank(s) || (r == s && i < j)
  {
    WidthSizes();
    BigEndianOrder(Rank(r), Rank(s), 8);
    BigEndianOrder(i, j, 2);
    BeforeTotal(HeightPrefix(h), HeightPrefix(h));
    BeforeJoin(HeightPrefix(h), HeightPrefix(h), BigEndian(Rank(r), 8), BigEndian(Rank(s), 8));
    BeforeJoin(RoundPrefix(h, r), RoundPrefix(h, s), IndexBytes(i), IndexBytes(j));
    if RoundPrefix(h, r) == RoundPrefix(h, s) {
      assert RoundPrefix(h, r)[8..] == BigEndian(Rank(r), 8);
      assert RoundPrefix(h, s)[8..] == BigEndian(Rank(s), 8);
    }
  }

  lemma DecidedKeyOrder(h: U64Nat, i: U16Nat, j: U16Nat)
    ensures Before(DecidedKey(h, i), DecidedKey(h, j)) <==> i < j
  {
    WidthSizes();
    BigEndianOrder(i, j, 2);
    BeforeTotal(HeightPrefix(h), HeightPrefix(h));
    BeforeJoin(HeightPrefix(h), HeightPrefix(h), IndexBytes(i), IndexBytes(j));
  }
}
