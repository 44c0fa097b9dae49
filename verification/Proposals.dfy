/** Splitting a proposal into parts, signing them, and putting them together again. */
module Proposals {

  import opened Types
  import opened BlobFamilies
  import opened Encoding
  import opened Streaming

  const CHUNK_SIZE := 131072

  const MAX_EXECUTION_REQUESTS := 64

  /** The node's signing provider. */
  datatype Signing = Signing(
    sign: Hash -> Signature, verify: (PublicKey, Hash, Signature) -> bool)

  // ----- The transcript that is signed -----

  /** `(n as u32).to_be_bytes()`: the length is truncated to 32 bits. */
  function U32Bytes(n: nat): Bytes {
    assert Pow256(4) == U32;
    BigEndian(n % U32, 4)
  }

  function EachRequest(requests: seq<Bytes>): Bytes {
    if requests == [] then []
    else U32Bytes(|requests[0]|) + requests[0] + EachRequest(requests[1..])
  }

  function RequestBytes(requests: seq<Bytes>): Bytes {
    if requests == [] then [] else U32Bytes(|requests|) + EachRequest(requests)
  }

  function InitBytes(h: U64Nat, r: Round): Bytes {
    WidthSizes();
    BigEndian(h, 8) + BigEndian(Rank(r), 8)
  }

  function SidecarBytes(s: Sidecar): Bytes {
    WidthSizes();
    BigEndian(s.index, 2) + s.blob + s.commitment + s.proof
  }

  /** What one part adds to the transcript. */
  function PartBytes(part: ProposalPart): Bytes {
    match part
    case InitPart(init) => InitBytes(init.height, init.round)
    case DataPart(bytes, requests) => RequestBytes(requests) + bytes
    case BlobPart(sidecar) => SidecarBytes(sidecar)
    case NoticePart(_) => []
    case FinPart(_) => []
  }

  /** The transcript of a list of parts. */
  function Transcript(parts: seq<ProposalPart>): Bytes {
    if parts == [] then []
    else Transcript(parts[..|parts| - 1]) + PartBytes(parts[|parts| - 1])
  }

  lemma TranscriptNext(parts: seq<ProposalPart>, part: ProposalPart)
    ensures Transcript(parts + [part]) == Transcript(parts) + PartBytes(part)
  {
    assert (parts + [part])[..|parts|] == parts;
  }

  /** `hash_execution_requests`, with the hasher as the bytes fed to it so far. */
  method HashExecutionRequests(hasher: Bytes, requests: seq<Bytes>) returns (fed: Bytes)
    ensures fed == hasher + RequestBytes(requests)
  {
    hide U32Bytes;
    if requests == [] { return hasher; }
    fed := hasher + U32Bytes(|requests|);
    assert requests[0..] == requests;
    for n := 0 to |requests|
      invariant fed + EachRequest(requests[n..]) == hasher + RequestBytes(requests)
    {
      assert requests[n..][0] == requests[n] && requests[n..][1..] == requests[n + 1..];
      fed := fed + U32Bytes(|requests[n]|);
      fed := fed + requests[n];
    }
  }

  // ----- Splitting -----

  function Min(a: nat, b: nat): nat {
    if a < b then a else b
  }

  /** The payload in chunks without requests. */
  function PlainParts(data: Bytes): seq<ProposalPart>
    decreases |data|
  {
    if data == [] then []
    else
      var cut := Min(CHUNK_SIZE, |data|);
      [DataPart(data[..cut], [])] + PlainParts(data[cut..])
  }

  /** The payload in chunks: the requests ride on the first one, alone if there is no payload. */
  function DataParts(data: Bytes, requests: seq<Bytes>): seq<ProposalPart> {
    if data == [] then if requests == [] then [] else [DataPart([], requests)]
    else
      var cut := Min(CHUNK_SIZE, |data|);
      [DataPart(data[..cut], requests)] + PlainParts(data[cut..])
  }

  function BlobParts(sidecars: seq<Sidecar>): seq<ProposalPart> {
    seq(|sidecars|, i requires 0 <= i < |sidecars| => BlobPart(sidecars[i]))
  }

  function Unsigned(
    init: ProposalInit, data: Bytes, sidecars: seq<Sidecar>, requests: seq<Bytes>)
    : seq<ProposalPart>
  {
    [InitPart(init)] + DataParts(data, requests) + BlobParts(sidecars)
  }

  /** The parts of a proposal: signed over the transcript of everything before the signature. */
  function SignedParts(
    config: Config, signing: Signing, init: ProposalInit, data: Bytes, sidecars: seq<Sidecar>,
    requests: seq<Bytes>): seq<ProposalPart>
  {
    var parts := Unsigned(init, data, sidecars, requests);
    parts + [FinPart(signing.sign(config.crypto.keccak(Transcript(parts))))]
  }

  function SidecarList(sidecars: Option<seq<Sidecar>>): seq<Sidecar> {
    if sidecars.Some? then sidecars.value else []
  }

  /** The chunk loop, from its own position and flag. */
  function RestParts(data: Bytes, requests: seq<Bytes>, attached: bool): seq<ProposalPart> {
    if attached then PlainParts(data) else DataParts(data, requests)
  }

  /** `make_proposal_parts`: the hasher is fed as parts are made, and holds the transcript that a
      verifier computes from the parts. */
  method MakeProposalParts(
    config: Config, signing: Signing, init: ProposalInit, data: Bytes,
    sidecars: Option<seq<Sidecar>>, requests: seq<Bytes>) returns (parts: seq<ProposalPart>)
    ensures parts == SignedParts(config, signing, init, data, SidecarList(sidecars), requests)
  {
    hide PartBytes, Transcript, InitBytes, SidecarBytes, RequestBytes, DataParts, PlainParts;
    var hasher: Bytes;
    parts := [InitPart(init)];
    hasher := InitBytes(init.height, init.round);
    OnePart(InitPart(init));
    parts, hasher := AddData(parts, hasher, data, requests);
    ghost var front := parts;
    if sidecars.Some? {
      var list := sidecars.value;
      for n := 0 to |list|
        invariant parts == front + BlobParts(list[..n])
        invariant hasher == Transcript(parts)
      {
        TranscriptNext(parts, BlobPart(list[n]));
        BlobPartsNext(list, n);
        parts := parts + [BlobPart(list[n])];
        hasher := hasher + SidecarBytes(list[n]);
      }
      assert list[..|list|] == list;
    }
    assert parts == Unsigned(init, data, SidecarList(sidecars), requests);
    parts := parts + [FinPart(signing.sign(config.crypto.keccak(hasher)))];
  }

  lemma OnePart(part: ProposalPart)
    ensures Transcript([part]) == PartBytes(part)
    ensures part.InitPart? ==> PartBytes(part) == InitBytes(part.init.height, part.init.round)
    ensures forall s :: PartBytes(BlobPart(s)) == SidecarBytes(s)
    ensures forall b, q :: PartBytes(DataPart(b, q)) == RequestBytes(q) + b
  {
    assert [part] == [] + [part];
    TranscriptNext([], part);
  }

  lemma BlobPartsNext(list: seq<Sidecar>, n: nat)
    requires n < |list|
    ensures BlobParts(list[..n + 1]) == BlobParts(list[..n]) + [BlobPart(list[n])]
  {
  }

  /** The data section of `make_proposal_parts`. */
  method AddData(before: seq<ProposalPart>, fed: Bytes, data: Bytes, requests: seq<Bytes>)
    returns (parts: seq<ProposalPart>, hasher: Bytes)
    requires fed == Transcript(before)
    ensures parts == before + DataParts(data, requests) && hasher == Transcript(parts)
  {
    hide Transcript, RequestBytes, DataParts, PlainParts, RestParts, PartBytes;
    parts, hasher := before, fed;
    var attached := requests == [];
    var at := 0;
    assert data[0..] == data;
    RestStart(data, requests);
    while at < |data|
      invariant 0 <= at <= |data|
      invariant attached || (at == 0 && requests != [])
      invariant parts + RestParts(data[at..], requests, attached)
                == before + DataParts(data, requests)
      invariant hasher == Transcript(parts)
    {
      var end := Min(at + CHUNK_SIZE, |data|);
      var chunk := DataPart(data[at..end], if attached then [] else requests);
      RestNext(data, at, requests, attached);
      attached := true;
      hasher := FeedData(hasher, chunk, parts);
      parts := parts + [chunk];
      at := end;
    }
    RestEnd(data[at..], requests, attached);
    if !attached {
      var chunk := DataPart([], requests);
      hasher := FeedData(hasher, chunk, parts);
      parts := parts + [chunk];
    }
  }

  method FeedData(fed: Bytes, chunk: ProposalPart, ghost parts: seq<ProposalPart>)
    returns (hasher: Bytes)
    requires chunk.DataPart? && fed == Transcript(parts)
    ensures hasher == Transcript(parts + [chunk])
  {
    hide Transcript, RequestBytes;
    TranscriptNext(parts, chunk);
    NoRequests();
    hasher := fed;
    if chunk.requests != [] {
      hasher := HashExecutionRequests(hasher, chunk.requests);
    }
    hasher := hasher + chunk.bytes;
  }

  lemma RestStart(data: Bytes, requests: seq<Bytes>)
    ensures RestParts(data, requests, requests == []) == DataParts(data, requests)
  {
  }

  lemma RestEnd(data: Bytes, requests: seq<Bytes>, attached: bool)
    requires data == [] && (attached || requests != [])
    ensures RestParts(data, requests, attached) == if attached then [] else [DataPart([], requests)]
  {
  }

  lemma NoRequests()
    ensures RequestBytes([]) == []
  {
  }

  lemma RestNext(data: Bytes, at: nat, requests: seq<Bytes>, attached: bool)
    requires at < |data|
    ensures var end := Min(at + CHUNK_SIZE, |data|);
            RestParts(data[at..], requests, attached)
            == [DataPart(data[at..end], if attached then [] else requests)]
               + RestParts(data[end..], requests, true)
  {
    var rest, cut := data[at..], Min(CHUNK_SIZE, |data| - at);
    assert rest[..cut] == data[at..at + cut] && rest[cut..] == data[at + cut..];
  }

  // ----- Verifying -----

  datatype Verdict = Accepted | MissingFinPart | ProposerNotFound | InvalidSignature

  ghost predicate HasNotice(parts: seq<ProposalPart>) {
    exists i :: 0 <= i < |parts| && parts[i].NoticePart?
  }

  /** The signature of the last `Fin` part. */
  function LastSignature(parts: seq<ProposalPart>): Option<Signature> {
    if parts == [] then None
    else if parts[|parts| - 1].FinPart? then Some(parts[|parts| - 1].signature)
    else LastSignature(parts[..|parts| - 1])
  }

  /** What a verifier answers for a list of parts and the proposer it names. */
  ghost function Verify(config: Config, signing: Signing, received: ProposalParts): Verdict {
    var signature := LastSignature(received.parts);
    var proposer := config.IndexOf(received.init.proposer);
    if HasNotice(received.parts) then InvalidSignature
    else if signature.None? then MissingFinPart
    else if proposer.None? then ProposerNotFound
    else if signing.verify(config.validators[proposer.value].key,
                           config.crypto.keccak(Transcript(received.parts)), signature.value)
    then Accepted else InvalidSignature
  }

  /** `verify_proposal_signature`: one pass that rebuilds the transcript from the parts. */
  method VerifyProposalSignature(config: Config, signing: Signing, received: ProposalParts)
    returns (verdict: Verdict)
    ensures verdict == Verify(config, signing, received)
  {
    hide RequestBytes, InitBytes, SidecarBytes;
    var parts := received.parts;
    var hasher: Bytes := [];
    var signature: Option<Signature> := None;
    for n := 0 to |parts|
      invariant hasher == Transcript(parts[..n])
      invariant signature == LastSignature(parts[..n])
      invariant forall i :: 0 <= i < n ==> !parts[i].NoticePart?
    {
      assert parts[..n + 1][..n] == parts[..n];
      match parts[n] {
        case InitPart(init) => hasher := hasher + InitBytes(init.height, init.round);
        case DataPart(bytes, requests) =>
          hasher := HashExecutionRequests(hasher, requests);
          hasher := hasher + bytes;
        case BlobPart(sidecar) => hasher := hasher + SidecarBytes(sidecar);
        case FinPart(s) => signature := Some(s);
        case NoticePart(_) => return InvalidSignature;
      }
    }
    assert parts[..|parts|] == parts;
    if signature.None? { return MissingFinPart; }
    var proposer := config.IndexOf(received.init.proposer);
    if proposer.None? { return ProposerNotFound; }
    var key := config.validators[proposer.value].key;
    verdict := if signing.verify(key, config.crypto.keccak(hasher), signature.value)
               then Accepted else InvalidSignature;
  }

  /** The signature comes from the last `Fin` part, and is missing if and only if there is none. */
  lemma {:induction false} LastFinCounts(parts: seq<ProposalPart>)
    ensures var s := LastSignature(parts);
            && (s.None? <==> forall i :: 0 <= i < |parts| ==> !parts[i].FinPart?)
            && (s.Some? ==> exists k :: LastFin(parts, k) && parts[k].signature == s.value)
    ensures forall k :: LastFin(parts, k) ==> LastSignature(parts) == Some(parts[k].signature)
    decreases |parts|
  {
    if parts != [] {
      var n := |parts| - 1;
      var front := parts[..n];
      LastFinCounts(front);
      if parts[n].FinPart? {
        assert LastFin(parts, n);
      } else {
        forall k | 0 <= k < n ensures LastFin(parts, k) <==> LastFin(front, k) {
          assert forall i :: k < i < |parts| && i != n ==> parts[i] == front[i];
        }
      }
    }
  }

  ghost predicate LastFin(parts: seq<ProposalPart>, k: int) {
    0 <= k < |parts| && parts[k].FinPart? && forall i :: k < i < |parts| ==> !parts[i].FinPart?
  }

  /** A proposal is accepted if and only if it holds no notice and the key of the proposer it names
      accepts its last signature over all its parts. */
  lemma AcceptedMeans(config: Config, signing: Signing, received: ProposalParts)
    ensures var k := config.IndexOf(received.init.proposer);
            Verify(config, signing, received) == Accepted <==>
              && (forall i :: 0 <= i < |received.parts| ==> !received.parts[i].NoticePart?)
              && k.Some?
              && exists n :: LastFin(received.parts, n)
                             && signing.verify(config.validators[k.value].key,
                                               config.crypto.keccak(Transcript(received.parts)),
                                               received.parts[n].signature)
  {
    hide Transcript, Config.IndexOf, LastSignature, LastFin;
    LastFinCounts(received.parts);
  }

  lemma SignedShape(
    config: Config, signing: Signing, init: ProposalInit, data: Bytes, sidecars: seq<Sidecar>,
    requests: seq<Bytes>)
    ensures var parts := SignedParts(config, signing, init, data, sidecars, requests);
            var digest := config.crypto.keccak(Transcript(parts));
            && Opens(parts) && parts[0].init == init
            && !HasNotice(parts)
            && LastSignature(parts) == Some(signing.sign(digest))
  {
    hide PartBytes, Transcript, DataParts, PlainParts;
    var unsigned := Unsigned(init, data, sidecars, requests);
    var fin := FinPart(signing.sign(config.crypto.keccak(Transcript(unsigned))));
    TranscriptNext(unsigned, fin);
    FinAddsNothing(fin.signature);
    assert Transcript(unsigned + [fin]) == Transcript(unsigned);
    OnlyData(data, requests);
    assert unsigned[0] == InitPart(init);
  }

  lemma FinAddsNothing(signature: Signature)
    ensures PartBytes(FinPart(signature)) == []
  {
  }

  lemma {:induction false} OnlyPlainData(data: Bytes)
    ensures forall i :: 0 <= i < |PlainParts(data)| ==>
      PlainParts(data)[i].DataPart? && PlainParts(data)[i].requests == []
    decreases |data|
  {
    if data != [] { OnlyPlainData(data[Min(CHUNK_SIZE, |data|)..]); }
  }

  lemma OnlyData(data: Bytes, requests: seq<Bytes>)
    ensures forall i :: 0 <= i < |DataParts(data, requests)| ==>
      DataParts(data, requests)[i].DataPart?
  {
    if data != [] {
      hide PlainParts;
      OnlyPlainData(data[Min(CHUNK_SIZE, |data|)..]);
    }
  }

  /** The signature of a made proposal is over the transcript its verifier computes, so it is
      accepted exactly when the named proposer is a validator whose key accepts what the sending
      node signs. */
  lemma SignedVerifies(
    config: Config, signing: Signing, init: ProposalInit, data: Bytes, sidecars: seq<Sidecar>,
    requests: seq<Bytes>)
    ensures var parts := SignedParts(config, signing, init, data, sidecars, requests);
            var digest := config.crypto.keccak(Transcript(parts));
            var k := config.IndexOf(init.proposer);
            Verify(config, signing, ProposalParts(init, parts))
            == if k.None? then ProposerNotFound
               else if signing.verify(config.validators[k.value].key, digest, signing.sign(digest))
               then Accepted else InvalidSignature
  {
    hide SignedParts, Transcript, HasNotice, LastSignature, Config.IndexOf;
    SignedShape(config, signing, init, data, sidecars, requests);
  }

  // ----- Assembling -----

  datatype Assembled =
    | Assembled(data: Bytes, requests: seq<Bytes>, sidecars: seq<Sidecar>)
    | MismatchedRequests
    | InvalidRequests

  /** At most 64 requests, each a type byte and a payload, with strictly increasing types. */
  ghost predicate ValidRequests(requests: seq<Bytes>) {
    && |requests| <= MAX_EXECUTION_REQUESTS
    && (forall i :: 0 <= i < |requests| ==> |requests[i]| >= 2)
    && (forall i, j :: 0 <= i < j < |requests| ==> requests[i][0] < requests[j][0])
  }

  /** `validate_execution_requests`. */
  method ValidateExecutionRequests(requests: seq<Bytes>) returns (ok: bool)
    ensures ok <==> ValidRequests(requests)
  {
    if |requests| > MAX_EXECUTION_REQUESTS { return false; }
    var previous: Option<Byte> := None;
    for n := 0 to |requests|
      invariant forall i :: 0 <= i < n ==> |requests[i]| >= 2
      invariant forall i, j :: 0 <= i < j < n ==> requests[i][0] < requests[j][0]
      invariant previous == if n == 0 then None else Some(requests[n - 1][0])
    {
      if |requests[n]| <= 1 { return false; }
      if previous.Some? && requests[n][0] <= previous.value { return false; }
      previous := Some(requests[n][0]);
    }
    return true;
  }

  function JoinData(parts: seq<ProposalPart>): Bytes {
    if parts == [] then []
    else (if parts[0].DataPart? then parts[0].bytes else []) + JoinData(parts[1..])
  }

  function JoinSidecars(parts: seq<ProposalPart>): seq<Sidecar> {
    if parts == [] then []
    else (if parts[0].BlobPart? then [parts[0].sidecar] else []) + JoinSidecars(parts[1..])
  }

  /** The one request list that the data parts agree on, beginning with one already found. */
  function JoinRequests(parts: seq<ProposalPart>, found: seq<Bytes>): Option<seq<Bytes>> {
    if parts == [] then Some(found)
    else if !parts[0].DataPart? || parts[0].requests == [] then JoinRequests(parts[1..], found)
    else if found == [] then JoinRequests(parts[1..], parts[0].requests)
    else if found == parts[0].requests then JoinRequests(parts[1..], found)
    else None
  }

  predicate HasRequests(part: ProposalPart) {
    part.DataPart? && part.requests != []
  }

  /** The list is the one that all parts with requests carry, and was found first if one was. */
  ghost predicate Agreed(parts: seq<ProposalPart>, found: seq<Bytes>, requests: seq<Bytes>) {
    && (found != [] ==> found == requests)
    && (forall i :: 0 <= i < |parts| && HasRequests(parts[i]) ==> parts[i].requests == requests)
    && (requests != [] ==> found != [] || exists i :: 0 <= i < |parts| && HasRequests(parts[i]))
  }

  /** The requests are collected if and only if all parts that carry some carry the same. */
  lemma {:induction false} RequestsAgree(
    parts: seq<ProposalPart>, found: seq<Bytes>, requests: seq<Bytes>)
    ensures JoinRequests(parts, found) == Some(requests) <==> Agreed(parts, found, requests)
    decreases |parts|
  {
    if parts != [] {
      var rest := parts[1..];
      assert forall i :: 0 < i < |parts| ==> parts[i] == rest[i - 1];
      assert forall i :: 0 <= i < |rest| ==> rest[i] == parts[i + 1];
      if HasRequests(parts[0]) {
        RequestsAgree(rest, parts[0].requests, requests);
      } else {
        RequestsAgree(rest, found, requests);
      }
    }
  }

  ghost function Assemble(parts: seq<ProposalPart>): Assembled {
    var requests := JoinRequests(parts, []);
    if requests.None? then MismatchedRequests
    else if !ValidRequests(requests.value) then InvalidRequests
    else Assembled(JoinData(parts), requests.value, JoinSidecars(parts))
  }

  /** The extraction passes of `assemble_and_store_blobs`. */
  method AssembleParts(parts: seq<ProposalPart>) returns (r: Assembled)
    ensures r == Assemble(parts)
  {
    hide ValidRequests, JoinRequests, JoinData, JoinSidecars;
    var requests := CollectRequests(parts);
    if requests.None? { return MismatchedRequests; }
    var ok := ValidateExecutionRequests(requests.value);
    if !ok { return InvalidRequests; }
    var data := CollectData(parts);
    var sidecars := CollectSidecars(parts);
    r := Assembled(data, requests.value, sidecars);
  }

  method CollectRequests(parts: seq<ProposalPart>) returns (r: Option<seq<Bytes>>)
    ensures r == JoinRequests(parts, [])
  {
    assert parts[0..] == parts;
    var requests: seq<Bytes> := [];
    for n := 0 to |parts|
      invariant JoinRequests(parts[n..], requests) == JoinRequests(parts, [])
    {
      assert parts[n..][0] == parts[n] && parts[n..][1..] == parts[n + 1..];
      if parts[n].DataPart? && parts[n].requests != [] {
        if requests == [] {
          requests := parts[n].requests;
        } else if requests != parts[n].requests {
          return None;
        }
      }
    }
    r := Some(requests);
  }

  method CollectData(parts: seq<ProposalPart>) returns (data: Bytes)
    ensures data == JoinData(parts)
  {
    hide JoinData;
    data := [];
    assert parts[0..] == parts;
    for n := 0 to |parts|
      invariant data + JoinData(parts[n..]) == JoinData(parts)
    {
      JoinNext(parts, n);
      if parts[n].DataPart? { data := data + parts[n].bytes; }
    }
    JoinNone(parts[|parts|..]);
  }

  method CollectSidecars(parts: seq<ProposalPart>) returns (sidecars: seq<Sidecar>)
    ensures sidecars == JoinSidecars(parts)
  {
    hide JoinSidecars;
    sidecars := [];
    assert parts[0..] == parts;
    for n := 0 to |parts|
      invariant sidecars + JoinSidecars(parts[n..]) == JoinSidecars(parts)
    {
      JoinNext(parts, n);
      if parts[n].BlobPart? { sidecars := sidecars + [parts[n].sidecar]; }
    }
    JoinNone(parts[|parts|..]);
  }

  lemma JoinNext(parts: seq<ProposalPart>, n: nat)
    requires n < |parts|
    ensures JoinData(parts[n..])
            == (if parts[n].DataPart? then parts[n].bytes else []) + JoinData(parts[n + 1..])
    ensures JoinSidecars(parts[n..])
            == (if parts[n].BlobPart? then [parts[n].sidecar] else []) + JoinSidecars(parts[n + 1..])
  {
    assert parts[n..][0] == parts[n] && parts[n..][1..] == parts[n + 1..];
  }

  lemma JoinNone(parts: seq<ProposalPart>)
    requires parts == []
    ensures JoinData(parts) == [] && JoinSidecars(parts) == []
  {
  }

  // ----- Splitting and assembling is the identity -----

  lemma {:induction false} JoinBoth(a: seq<ProposalPart>, b: seq<ProposalPart>)
    ensures JoinData(a + b) == JoinData(a) + JoinData(b)
    ensures JoinSidecars(a + b) == JoinSidecars(a) + JoinSidecars(b)
    decreases |a|
  {
    hide JoinData, JoinSidecars;
    if a == [] {
      assert a + b == b;
      JoinNone(a);
    } else {
      assert (a + b)[0..] == a + b && a[0..] == a;
      assert (a + b)[1..] == a[1..] + b;
      JoinNext(a + b, 0);
      JoinNext(a, 0);
      JoinBoth(a[1..], b);
    }
  }

  /** Parts that carry no requests change nothing of what was found. */
  lemma {:induction false} NoMoreRequests(parts: seq<ProposalPart>, found: seq<Bytes>)
    requires forall i :: 0 <= i < |parts| ==> !parts[i].DataPart? || parts[i].requests == []
    ensures JoinRequests(parts, found) == Some(found)
    decreases |parts|
  {
    if parts != [] { NoMoreRequests(parts[1..], found); }
  }

  lemma {:induction false} PlainJoins(data: Bytes)
    ensures JoinData(PlainParts(data)) == data && JoinSidecars(PlainParts(data)) == []
    decreases |data|
  {
    if data != [] {
      var cut := Min(CHUNK_SIZE, |data|);
      var parts := PlainParts(data);
      assert parts[1..] == PlainParts(data[cut..]);
      PlainJoins(data[cut..]);
      assert data == data[..cut] + data[cut..];
    }
  }

  lemma DataJoins(data: Bytes, requests: seq<Bytes>)
    ensures JoinData(DataParts(data, requests)) == data
    ensures JoinSidecars(DataParts(data, requests)) == []
  {
    var parts := DataParts(data, requests);
    if data != [] {
      hide PlainParts;
      var cut := Min(CHUNK_SIZE, |data|);
      assert parts[1..] == PlainParts(data[cut..]);
      PlainJoins(data[cut..]);
      assert data == data[..cut] + data[cut..];
    }
  }

  lemma {:induction false} BlobsJoin(sidecars: seq<Sidecar>)
    ensures JoinSidecars(BlobParts(sidecars)) == sidecars && JoinData(BlobParts(sidecars)) == []
    decreases |sidecars|
  {
    if sidecars != [] {
      assert BlobParts(sidecars)[1..] == BlobParts(sidecars[1..]);
      BlobsJoin(sidecars[1..]);
    }
  }

  /** The first data part carries the requests and no later part does. */
  lemma RequestsJoin(parts: seq<ProposalPart>, data: Bytes, requests: seq<Bytes>,
                     rest: seq<ProposalPart>)
    requires parts == DataParts(data, requests) + rest
    requires forall i :: 0 <= i < |rest| ==> !rest[i].DataPart?
    ensures JoinRequests(parts, []) == Some(requests)
  {
    hide PlainParts;
    if data == [] && requests == [] {
      NoMoreRequests(parts, []);
    } else {
      var tail := if data == [] then [] else PlainParts(data[Min(CHUNK_SIZE, |data|)..]);
      assert parts[1..] == tail + rest;
      if data != [] { OnlyPlainData(data[Min(CHUNK_SIZE, |data|)..]); }
      NoMoreRequests(parts[1..], requests);
    }
  }

  lemma PartsJoin(
    init: ProposalInit, data: Bytes, sidecars: seq<Sidecar>, requests: seq<Bytes>,
    signature: Signature)
    ensures var parts := Unsigned(init, data, sidecars, requests) + [FinPart(signature)];
            && JoinData(parts) == data && JoinSidecars(parts) == sidecars
            && JoinRequests(parts, []) == Some(requests)
  {
    hide DataParts, BlobParts;
    var a, b, c, d := [InitPart(init)], DataParts(data, requests), BlobParts(sidecars),
                      [FinPart(signature)];
    assert a[1..] == [] && d[1..] == [];
    JoinBoth(a, b);
    JoinBoth(a + b, c);
    JoinBoth(a + b + c, d);
    DataJoins(data, requests);
    BlobsJoin(sidecars);
    assert (a + b + c + d)[1..] == b + (c + d);
    OnlyBlobs(sidecars);
    RequestsJoin(b + (c + d), data, requests, c + d);
  }

  lemma OnlyBlobs(sidecars: seq<Sidecar>)
    ensures forall i :: 0 <= i < |BlobParts(sidecars)| ==> BlobParts(sidecars)[i].BlobPart?
  {
  }

  /** Splitting and assembling is the identity for every payload, request list and sidecar list,
      empty or not; the receiver refuses exactly the request lists that are not valid. */
  lemma SplitThenAssemble(
    config: Config, signing: Signing, init: ProposalInit, data: Bytes, sidecars: seq<Sidecar>,
    requests: seq<Bytes>)
    ensures Assemble(SignedParts(config, signing, init, data, sidecars, requests))
            == if ValidRequests(requests) then Assembled(data, requests, sidecars)
               else InvalidRequests
  {
    hide ValidRequests, JoinData, JoinSidecars, JoinRequests, Unsigned;
    var unsigned := Unsigned(init, data, sidecars, requests);
    PartsJoin(init, data, sidecars, requests,
              signing.sign(config.crypto.keccak(Transcript(unsigned))));
  }

  lemma {:induction false} PlainChunksAreFull(data: Bytes, i: nat)
    requires i < |PlainParts(data)|
    ensures PlainParts(data)[i].DataPart?
    ensures 0 < |PlainParts(data)[i].bytes| <= CHUNK_SIZE
    ensures i < |PlainParts(data)| - 1 ==> |PlainParts(data)[i].bytes| == CHUNK_SIZE
    decreases |data|
  {
    var rest := data[Min(CHUNK_SIZE, |data|)..];
    assert PlainParts(data)[1..] == PlainParts(rest);
    if i > 0 {
      PlainChunksAreFull(rest, i - 1);
    }
  }

  /** No chunk of a payload is empty or exceeds the chunk size, only the last may fall short of it, and
      only the first carries the requests. */
  lemma ChunksAreFull(data: Bytes, requests: seq<Bytes>, i: nat)
    requires data != [] && i < |DataParts(data, requests)|
    ensures var parts := DataParts(data, requests);
            && parts[i].DataPart?
            && 0 < |parts[i].bytes| <= CHUNK_SIZE
            && (i < |parts| - 1 ==> |parts[i].bytes| == CHUNK_SIZE)
            && parts[i].requests == if i == 0 then requests else []
  {
    hide PlainParts;
    var rest := data[Min(CHUNK_SIZE, |data|)..];
    assert DataParts(data, requests)[1..] == PlainParts(rest);
    if i > 0 {
      PlainChunksAreFull(rest, i - 1);
      OnlyPlainData(rest);
    } else if rest == [] {
      NoPlainParts(rest);
    }
  }

  lemma NoPlainParts(data: Bytes)
    requires data == []
    ensures PlainParts(data) == []
  {
  }

  // ----- Streaming -----

  /** `stream_id`: height, round and nonce. The nonce counts the streams since the start. */
  function StreamId(h: U64Nat, round: nat, nonce: nat): (id: Bytes)
    requires round < U32 && nonce < U32
    ensures |id| == 16
  {
    WidthSizes();
    assert Pow256(4) == U32;
    BigEndian(h, 8) + BigEndian(round, 4) + BigEndian(nonce, 4)
  }

  /** Streams of one run of a node have different ids. */
  lemma StreamIdsDiffer(h: U64Nat, r: nat, n: nat, g: U64Nat, s: nat, m: nat)
    requires r < U32 && n < U32 && s < U32 && m < U32
    ensures StreamId(h, r, n) == StreamId(g, s, m) <==> h == g && r == s && n == m
  {
    WidthSizes();
    assert Pow256(4) == U32;
    var a, b := StreamId(h, r, n), StreamId(g, s, m);
    if a == b {
      assert a[..8] == BigEndian(h, 8) && b[..8] == BigEndian(g, 8);
      assert a[8..12] == BigEndian(r, 4) && b[8..12] == BigEndian(s, 4);
      assert a[12..] == BigEndian(n, 4) && b[12..] == BigEndian(m, 4);
      DecodesEncoded(h, 8);
      DecodesEncoded(g, 8);
      DecodesEncoded(r, 4);
      DecodesEncoded(s, 4);
      DecodesEncoded(n, 4);
      DecodesEncoded(m, 4);
    }
  }

  /** `stream_proposal`: numbers the parts and closes the stream. */
  method StreamProposal(parts: seq<ProposalPart>) returns (msgs: seq<Msg>)
    ensures |msgs| == |parts| + 1
    ensures forall i :: 0 <= i < |msgs| ==> msgs[i] == SentAt(parts, i)
  {
    msgs := [];
    var sequence := 0;
    for n := 0 to |parts|
      invariant sequence == n == |msgs|
      invariant forall i :: 0 <= i < n ==> msgs[i] == SentAt(parts, i)
    {
      msgs := msgs + [Msg(sequence, Data(parts[n]))];
      sequence := sequence + 1;
    }
    msgs := msgs + [Msg(sequence, Fin)];
  }

  /** From proposer to receiver: whatever the order, the repeats and the other traffic, the receiver
      gets the proposal with the last missing message, accepts its signature and recovers the same
      payload, requests and sidecars. */
  lemma ProposalArrives(
    config: Config, signing: Signing, init: ProposalInit, data: Bytes, sidecars: seq<Sidecar>,
    requests: seq<Bytes>, events: seq<Event>, key: Key, t: nat)
    requires ValidRequests(requests)
    requires var k := config.IndexOf(init.proposer);
             k.Some? && forall h: Hash ::
               signing.verify(config.validators[k.value].key, h, signing.sign(h))
    requires var parts := SignedParts(config, signing, init, data, sidecars, requests);
             && Carries(events, key, parts)
             && t < |events| && Completes(events, key, |parts|, t)
    ensures var out := Output(events, t);
            && out.Some? && out.value.init == init
            && Verify(config, signing, out.value) == Accepted
            && Assemble(out.value.parts) == Assembled(data, requests, sidecars)
  {
    hide SignedParts, Transcript, HasNotice, LastSignature, Config.IndexOf, ValidRequests,
         Output, Assemble, Verify, Carries;
    var parts := SignedParts(config, signing, init, data, sidecars, requests);
    SignedShape(config, signing, init, data, sidecars, requests);
    SentIsDelivered(events, key, parts, t);
    SignedVerifies(config, signing, init, data, sidecars, requests);
    SplitThenAssemble(config, signing, init, data, sidecars, requests);
  }
}
