/** The signature of a proposal covers its content: which alterations of the parts it refuses. */
module TranscriptBinding {

  import opened Types
  import opened BlobFamilies
  import opened Encoding
  import opened Streaming
  import opened Proposals

  // ----- Encoded numbers and request lists can be read back -----

  lemma BigEndianBinds(m: nat, n: nat, width: nat)
    requires m < Pow256(width) && n < Pow256(width)
    ensures BigEndian(m, width) == BigEndian(n, width) <==> m == n
  {
    DecodesEncoded(m, width);
    DecodesEncoded(n, width);
  }

  lemma U32Width()
    ensures Pow256(4) == U32
  {
  }

  lemma U32Binds(m: nat, n: nat)
    requires m < U32 && n < U32
    ensures |U32Bytes(m)| == 4
    ensures U32Bytes(m) == U32Bytes(n) <==> m == n
  {
    hide Pow256, BigEndian;
    U32Width();
    BigEndianBinds(m, n, 4);
  }

  /** Equal joins with fronts of one length have equal fronts and equal rests. */
  lemma SplitsAlike(a: Bytes, x: Bytes, b: Bytes, y: Bytes)
    requires a + x == b + y && |a| == |b|
    ensures a == b && x == y
  {
    assert (a + x)[..|a|] == a && (a + x)[|a|..] == x;
    assert (b + y)[..|b|] == b && (b + y)[|b|..] == y;
  }

  /** The request list and each request fit the 32-bit length fields. */
  ghost predicate Short(requests: seq<Bytes>) {
    |requests| < U32 && forall i :: 0 <= i < |requests| ==> |requests[i]| < U32
  }

  lemma {:induction false} EachRequestBinds(p: seq<Bytes>, q: seq<Bytes>, x: Bytes, y: Bytes)
    requires Short(p) && Short(q) && |p| == |q| && EachRequest(p) + x == EachRequest(q) + y
    ensures p == q && x == y
    decreases |p|
  {
    hide U32Bytes;
    if p == [] {
      assert x == EachRequest(p) + x && y == EachRequest(q) + y;
    } else {
      var a, b := U32Bytes(|p[0]|), U32Bytes(|q[0]|);
      var restP, restQ := EachRequest(p[1..]), EachRequest(q[1..]);
      U32Binds(|p[0]|, |q[0]|);
      U32Binds(|q[0]|, |p[0]|);
      assert EachRequest(p) + x == a + (p[0] + (restP + x));
      assert EachRequest(q) + y == b + (q[0] + (restQ + y));
      SplitsAlike(a, p[0] + (restP + x), b, q[0] + (restQ + y));
      SplitsAlike(p[0], restP + x, q[0], restQ + y);
      EachRequestBinds(p[1..], q[1..], x, y);
      assert p == [p[0]] + p[1..] && q == [q[0]] + q[1..];
    }
  }

  lemma RequestsBind(p: seq<Bytes>, q: seq<Bytes>, x: Bytes, y: Bytes)
    requires Short(p) && Short(q) && (p == [] <==> q == [])
    requires RequestBytes(p) + x == RequestBytes(q) + y
    ensures p == q && x == y
  {
    hide U32Bytes, EachRequest, Short;
    if p == [] {
      assert x == RequestBytes(p) + x && y == RequestBytes(q) + y;
    } else {
      U32Binds(|p|, |q|) by { ShortCounts(p); ShortCounts(q); }
      U32Binds(|q|, |p|) by { ShortCounts(p); ShortCounts(q); }
      assert RequestBytes(p) + x == U32Bytes(|p|) + (EachRequest(p) + x);
      assert RequestBytes(q) + y == U32Bytes(|q|) + (EachRequest(q) + y);
      SplitsAlike(U32Bytes(|p|), EachRequest(p) + x, U32Bytes(|q|), EachRequest(q) + y);
      EachRequestBinds(p, q, x, y);
    }
  }

  lemma ShortCounts(p: seq<Bytes>)
    requires Short(p)
    ensures |p| < U32
  {
  }

  // ----- Parts -----

  /** The parts are of one kind and their open-ended fields of one length; the bytes of a part do not
      say whether requests precede them, so both carry some or neither does. */
  ghost predicate PartShape(p: ProposalPart, q: ProposalPart) {
    match (p, q)
    case (InitPart(_), InitPart(_)) => true
    case (DataPart(b, u), DataPart(c, v)) =>
      |b| == |c| && (u == [] <==> v == []) && Short(u) && Short(v)
    case (BlobPart(s), BlobPart(t)) => |s.blob| == |t.blob| && |s.proof| == |t.proof|
    case (NoticePart(_), NoticePart(_)) => true
    case (FinPart(_), FinPart(_)) => true
    case _ => false
  }

  /** The fields of a part that are signed are equal. */
  ghost predicate SamePart(p: ProposalPart, q: ProposalPart) {
    match (p, q)
    case (InitPart(i), InitPart(j)) => i.height == j.height && i.round == j.round
    case (DataPart(b, u), DataPart(c, v)) => b == c && u == v
    case (BlobPart(s), BlobPart(t)) => SameBlob(s, t)
    case (NoticePart(_), NoticePart(_)) => true
    case (FinPart(_), FinPart(_)) => true
    case _ => false
  }

  ghost predicate SameBlob(s: Sidecar, t: Sidecar) {
    s.index == t.index && s.blob == t.blob && s.commitment == t.commitment && s.proof == t.proof
  }

  lemma InitBinds(g: U64Nat, q: Round, h: U64Nat, r: Round)
    ensures |InitBytes(g, q)| == 16
    ensures InitBytes(g, q) == InitBytes(h, r) <==> g == h && q == r
  {
    WidthSizes();
    BigEndianBinds(g, h, 8);
    BigEndianBinds(Rank(q), Rank(r), 8);
    if InitBytes(g, q) == InitBytes(h, r) {
      SplitsAlike(BigEndian(g, 8), BigEndian(Rank(q), 8), BigEndian(h, 8), BigEndian(Rank(r), 8));
    }
  }

  lemma BlobBinds(s: Sidecar, t: Sidecar)
    requires |s.blob| == |t.blob| && |s.proof| == |t.proof|
    ensures |SidecarBytes(s)| == |SidecarBytes(t)| == 2 + |s.blob| + COMMITMENT_LENGTH + |s.proof|
    ensures SidecarBytes(s) == SidecarBytes(t) <==> SameBlob(s, t)
  {
    WidthSizes();
    BigEndianBinds(s.index, t.index, 2);
    var i, j := BigEndian(s.index, 2), BigEndian(t.index, 2);
    assert SidecarBytes(s) == i + (s.blob + (s.commitment + s.proof));
    assert SidecarBytes(t) == j + (t.blob + (t.commitment + t.proof));
    if SidecarBytes(s) == SidecarBytes(t) {
      SplitsAlike(i, s.blob + (s.commitment + s.proof), j, t.blob + (t.commitment + t.proof));
      SplitsAlike(s.blob, s.commitment + s.proof, t.blob, t.commitment + t.proof);
      SplitsAlike(s.commitment, s.proof, t.commitment, t.proof);
    }
  }

  lemma PartBinds(p: ProposalPart, q: ProposalPart, x: Bytes, y: Bytes)
    requires PartShape(p, q)
    ensures PartBytes(p) + x == PartBytes(q) + y <==> SamePart(p, q) && x == y
  {
    hide InitBytes, SidecarBytes, RequestBytes, Short;
    match p {
      case InitPart(i) =>
        InitBinds(i.height, i.round, q.init.height, q.init.round);
        InitBinds(q.init.height, q.init.round, i.height, i.round);
      case DataPart(b, u) =>
        assert PartBytes(p) + x == RequestBytes(u) + (b + x);
        assert PartBytes(q) + y == RequestBytes(q.requests) + (q.bytes + y);
        if PartBytes(p) + x == PartBytes(q) + y {
          RequestsBind(u, q.requests, b + x, q.bytes + y);
          SplitsAlike(b, x, q.bytes, y);
        }
        return;
      case BlobPart(s) =>
        BlobBinds(s, q.sidecar);
      case NoticePart(_) =>
        assert PartBytes(p) + x == x && PartBytes(q) + y == y;
        return;
      case FinPart(_) =>
        assert PartBytes(p) + x == x && PartBytes(q) + y == y;
        return;
    }
    if PartBytes(p) + x == PartBytes(q) + y {
      SplitsAlike(PartBytes(p), x, PartBytes(q), y);
    }
  }

  // ----- Whole lists -----

  ghost predicate SameShape(a: seq<ProposalPart>, b: seq<ProposalPart>) {
    |a| == |b| && forall i :: 0 <= i < |a| ==> PartShape(a[i], b[i])
  }

  ghost predicate SameContent(a: seq<ProposalPart>, b: seq<ProposalPart>) {
    |a| == |b| && forall i :: 0 <= i < |a| ==> SamePart(a[i], b[i])
  }

  lemma NoTranscript()
    ensures Transcript([]) == []
  {
  }

  lemma {:induction false} TranscriptFront(parts: seq<ProposalPart>)
    requires parts != []
    ensures Transcript(parts) == PartBytes(parts[0]) + Transcript(parts[1..])
    decreases |parts|
  {
    hide PartBytes, Transcript;
    var n := |parts| - 1;
    var front, last := parts[..n], parts[n];
    TranscriptNext(front, last);
    assert front + [last] == parts;
    NoTranscript();
    if n == 0 {
      assert front == [] && parts[1..] == [];
    } else {
      TranscriptFront(front);
      TranscriptNext(front[1..], last);
      assert front[1..] + [last] == parts[1..];
    }
  }

  /** For lists of one shape, the transcripts are equal if and only if the signed fields are. */
  lemma {:induction false} TranscriptBinds(a: seq<ProposalPart>, b: seq<ProposalPart>)
    requires SameShape(a, b)
    ensures Transcript(a) == Transcript(b) <==> SameContent(a, b)
    decreases |a|
  {
    hide PartBytes, PartShape, SamePart;
    if a != [] {
      TranscriptFront(a);
      TranscriptFront(b);
      TranscriptBinds(a[1..], b[1..]);
      PartBinds(a[0], b[0], Transcript(a[1..]), Transcript(b[1..]));
      assert forall i :: 0 < i < |a| ==> a[i] == a[1..][i - 1] && b[i] == b[1..][i - 1];
    }
  }

  /** The digest has no collisions, and the key accepts a signature for the signed digest only. */
  ghost predicate Unforged(config: Config, signing: Signing, key: PublicKey) {
    && (forall a, b :: config.crypto.keccak(a) == config.crypto.keccak(b) ==> a == b)
    && (forall d, e :: signing.verify(key, d, signing.sign(e)) <==> d == e)
  }

  /** A proposal whose parts were altered on the way, in whatever way keeps their shape and the
      signature, is accepted if and only if every signed field is as it was made. */
  lemma AlteredIsRefused(
    config: Config, signing: Signing, init: ProposalInit, data: Bytes, sidecars: seq<Sidecar>,
    requests: seq<Bytes>, received: ProposalParts)
    requires config.IndexOf(init.proposer).Some? && received.init.proposer == init.proposer
    requires Unforged(config, signing, config.validators[config.IndexOf(init.proposer).value].key)
    requires var parts := SignedParts(config, signing, init, data, sidecars, requests);
             SameShape(parts, received.parts)
             && LastSignature(received.parts) == LastSignature(parts)
    ensures var parts := SignedParts(config, signing, init, data, sidecars, requests);
            Verify(config, signing, received) == Accepted <==> SameContent(parts, received.parts)
  {
    hide SignedParts, Transcript, LastSignature, Config.IndexOf, SameContent;
    var parts := SignedParts(config, signing, init, data, sidecars, requests);
    SignedShape(config, signing, init, data, sidecars, requests);
    ShapeHasNotice(parts, received.parts);
    TranscriptBinds(parts, received.parts);
  }

  lemma ShapeHasNotice(a: seq<ProposalPart>, b: seq<ProposalPart>)
    requires SameShape(a, b) && !HasNotice(a)
    ensures !HasNotice(b)
  {
  }

  // ----- Proposals as they are made -----

  function AllSidecarBytes(sidecars: seq<Sidecar>): Bytes {
    if sidecars == [] then [] else SidecarBytes(sidecars[0]) + AllSidecarBytes(sidecars[1..])
  }

  lemma {:induction false} TranscriptJoin(a: seq<ProposalPart>, b: seq<ProposalPart>)
    ensures Transcript(a + b) == Transcript(a) + Transcript(b)
    decreases |b|
  {
    hide PartBytes;
    if b == [] {
      assert a + b == a;
    } else {
      var n := |b| - 1;
      assert a + b == (a + b[..n]) + [b[n]];
      TranscriptNext(a + b[..n], b[n]);
      TranscriptJoin(a, b[..n]);
    }
  }

  lemma {:induction false} PlainTranscript(data: Bytes)
    ensures Transcript(PlainParts(data)) == data
    decreases |data|
  {
    hide Transcript, PartBytes, RequestBytes;
    NoTranscript();
    if data != [] {
      var cut := Min(CHUNK_SIZE, |data|);
      var first, rest := [DataPart(data[..cut], [])], PlainParts(data[cut..]);
      PlainTranscript(data[cut..]);
      TranscriptJoin(first, rest);
      OnePart(first[0]);
      NoRequests();
      assert data == data[..cut] + data[cut..];
    }
  }

  lemma DataTranscript(data: Bytes, requests: seq<Bytes>)
    ensures Transcript(DataParts(data, requests)) == RequestBytes(requests) + data
  {
    hide RequestBytes, PlainParts, Transcript, PartBytes;
    NoRequests();
    NoTranscript();
    if data == [] {
      OnePart(DataPart([], requests));
    } else {
      var cut := Min(CHUNK_SIZE, |data|);
      var first, rest := [DataPart(data[..cut], requests)], PlainParts(data[cut..]);
      PlainTranscript(data[cut..]);
      TranscriptJoin(first, rest);
      OnePart(first[0]);
      assert data == data[..cut] + data[cut..];
    }
  }

  lemma {:induction false} BlobTranscript(sidecars: seq<Sidecar>)
    ensures Transcript(BlobParts(sidecars)) == AllSidecarBytes(sidecars)
    decreases |sidecars|
  {
    hide SidecarBytes;
    if sidecars != [] {
      var first := [BlobPart(sidecars[0])];
      assert BlobParts(sidecars) == first + BlobParts(sidecars[1..]);
      BlobTranscript(sidecars[1..]);
      TranscriptJoin(first, BlobParts(sidecars[1..]));
      OnePart(first[0]);
    }
  }

  /** What is signed does not depend on how the payload is cut: it is height and round, the requests,
      the payload and the sidecars, in this order. */
  lemma MadeTranscript(
    init: ProposalInit, data: Bytes, sidecars: seq<Sidecar>, requests: seq<Bytes>)
    ensures Transcript(Unsigned(init, data, sidecars, requests))
            == InitBytes(init.height, init.round)
               + (RequestBytes(requests) + (data + AllSidecarBytes(sidecars)))
  {
    hide Transcript, DataParts, BlobParts, InitBytes, RequestBytes, AllSidecarBytes;
    var a, b, c := [InitPart(init)], DataParts(data, requests), BlobParts(sidecars);
    TranscriptJoin(a + b, c);
    TranscriptJoin(a, b);
    OnePart(a[0]);
    DataTranscript(data, requests);
    BlobTranscript(sidecars);
  }

  ghost predicate SameSizes(a: seq<Sidecar>, b: seq<Sidecar>) {
    |a| == |b| && forall i :: 0 <= i < |a| ==>
      |a[i].blob| == |b[i].blob| && |a[i].proof| == |b[i].proof|
  }

  lemma {:induction false} SidecarsBind(a: seq<Sidecar>, b: seq<Sidecar>)
    requires SameSizes(a, b)
    ensures |AllSidecarBytes(a)| == |AllSidecarBytes(b)|
    ensures AllSidecarBytes(a) == AllSidecarBytes(b) ==>
              forall i :: 0 <= i < |a| ==> SameBlob(a[i], b[i])
    decreases |a|
  {
    hide SidecarBytes;
    if a != [] {
      SidecarsBind(a[1..], b[1..]);
      BlobBinds(a[0], b[0]);
      if AllSidecarBytes(a) == AllSidecarBytes(b) {
        SplitsAlike(SidecarBytes(a[0]), AllSidecarBytes(a[1..]),
                    SidecarBytes(b[0]), AllSidecarBytes(b[1..]));
        assert forall i :: 0 < i < |a| ==> a[i] == a[1..][i - 1] && b[i] == b[1..][i - 1];
      }
    }
  }

  lemma RequestsEmpty(requests: seq<Bytes>)
    ensures RequestBytes(requests) == [] <==> requests == []
  {
    hide U32Bytes, EachRequest;
    U32Width();
    if requests != [] { assert |U32Bytes(|requests|)| == 4 by { U32Size(|requests|); } }
  }

  lemma U32Size(n: nat)
    ensures |U32Bytes(n)| == 4
  {
    hide BigEndian;
    U32Width();
  }

  /** Two proposals with payloads of one length and blobs and proofs of equal lengths, made from
      whatever contents, have the same transcript only if they are for the same height and round and
      have the same payload, requests and signed fields of every sidecar. */
  lemma MadeBinds(
    init: ProposalInit, data: Bytes, sidecars: seq<Sidecar>, requests: seq<Bytes>,
    init': ProposalInit, data': Bytes, sidecars': seq<Sidecar>, requests': seq<Bytes>)
    requires |data| == |data'| && SameSizes(sidecars, sidecars')
    requires Short(requests) && Short(requests')
    requires Transcript(Unsigned(init, data, sidecars, requests))
             == Transcript(Unsigned(init', data', sidecars', requests'))
    ensures init.height == init'.height && init.round == init'.round
    ensures data == data' && requests == requests'
    ensures forall i :: 0 <= i < |sidecars| ==> SameBlob(sidecars[i], sidecars'[i])
  {
    hide Transcript, Unsigned, InitBytes, RequestBytes, AllSidecarBytes, SameSizes, Short, SameBlob;
    MadeTranscript(init, data, sidecars, requests);
    MadeTranscript(init', data', sidecars', requests');
    InitBinds(init.height, init.round, init'.height, init'.round);
    InitBinds(init'.height, init'.round, init.height, init.round);
    var x, x' := data + AllSidecarBytes(sidecars), data' + AllSidecarBytes(sidecars');
    SplitsAlike(InitBytes(init.height, init.round), RequestBytes(requests) + x,
                InitBytes(init'.height, init'.round), RequestBytes(requests') + x');
    SidecarsBind(sidecars, sidecars');
    assert |RequestBytes(requests)| + |x| == |RequestBytes(requests) + x|;
    assert |RequestBytes(requests')| + |x'| == |RequestBytes(requests') + x'|;
    RequestsEmpty(requests);
    RequestsEmpty(requests');
    RequestsBind(requests, requests', x, x');
    SplitsAlike(data, AllSidecarBytes(sidecars), data', AllSidecarBytes(sidecars'));
    SizesCount(sidecars, sidecars');
  }

  lemma SizesCount(a: seq<Sidecar>, b: seq<Sidecar>)
    requires SameSizes(a, b)
    ensures |a| == |b|
  {
  }
}
