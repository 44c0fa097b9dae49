/** Layer 2: the per-height blob metadata that outlives the blob bytes. */
module BlobMetadata {

  import opened Types

  datatype Metadata = Metadata(
    height: nat, parentRoot: Hash, commitments: Commitments, blobCount: nat, keccaks: seq<Hash>,
    records: seq<Option<ArchiveRecord>>, pruned: bool, exec: ExecutionHeader,
    proposerHint: Option<nat>)
  {
    ghost predicate Valid() {
      && blobCount == |commitments| == |keccaks| == |records|
      && forall i :: 0 <= i < |records| && records[i].Some? ==> records[i].value.body.index == i
    }

    /** No archive record and not pruned, as the constructors leave it. */
    ghost predicate Fresh() {
      !pruned && forall i :: 0 <= i < |records| ==> records[i] == None
    }

    /** The two entries describe the same block: equal in all that a header is built from. */
    ghost predicate SameBlock(other: Metadata) {
      && height == other.height && parentRoot == other.parentRoot
      && commitments == other.commitments && blobCount == other.blobCount
      && exec == other.exec && proposerHint == other.proposerHint
    }

    predicate IsArchived(i: nat) {
      i < |records| && records[i].Some?
    }

    predicate AllArchived() {
      forall i :: 0 <= i < blobCount ==> IsArchived(i)
    }

    function UpdateKeccak(i: nat, hash: Hash): (m: Metadata)
      ensures Valid() ==> m.Valid()
      ensures SameBlock(m) && m.records == records && m.pruned == pruned
    {
      if i < |keccaks| && keccaks[i] == ZERO_HASH then this.(keccaks := keccaks[i := hash]) else this
    }

    function SetRecord(record: ArchiveRecord): (m: Metadata)
      requires record.body.index < |records|
      ensures Valid() ==> m.Valid()
      ensures SameBlock(m) && m.keccaks == keccaks && m.pruned == pruned
    {
      this.(records := records[record.body.index := Some(record)])
    }

    function MarkPruned(): (m: Metadata)
      ensures Valid() ==> m.Valid()
      ensures SameBlock(m) && m.keccaks == keccaks && m.records == records
    {
      this.(pruned := true)
    }

    function ToBeaconHeader(crypto: Crypto): BeaconHeader {
      BeaconHeader(
        height, if proposerHint.Some? then proposerHint.value else 0, parentRoot, exec.stateRoot,
        crypto.bodyRoot(commitments, exec))
    }

    function HeaderRoot(crypto: Crypto): Hash {
      crypto.headerRoot(ToBeaconHeader(crypto))
    }

    /** The locators a pruned height is served with, in index order. */
    function Locators(from: nat := 0): seq<string>
      decreases blobCount - from
    {
      if from >= blobCount then []
      else (if IsArchived(from) then [records[from].value.body.locator] else []) + Locators(from + 1)
    }
  }

  /** `BlobMetadata::new`; the equal-length requirement is the constructor's assertion. */
  function New(height: nat, parentRoot: Hash, commitments: Commitments, keccaks: seq<Hash>,
               exec: ExecutionHeader, proposerHint: Option<nat>): (m: Metadata)
    requires |commitments| == |keccaks|
    ensures m.Valid() && m.Fresh()
  {
    Metadata(
      height, parentRoot, commitments, |commitments|, keccaks, seq(|commitments|, _ => None), false,
      exec, proposerHint)
  }

  function Blobless(height: nat, parentRoot: Hash, exec: ExecutionHeader,
                    proposerHint: Option<nat>): (m: Metadata)
    ensures m.Valid() && m.Fresh() && m.blobCount == 0
  {
    New(height, parentRoot, [], [], exec, proposerHint)
  }

  function Genesis(exec: ExecutionHeader): (m: Metadata)
    ensures m.Valid() && m.Fresh() && m.blobCount == 0 && m.height == 0 && m.parentRoot == ZERO_HASH
  {
    Blobless(0, ZERO_HASH, exec, Some(0))
  }

  /** A fully archived height is served with exactly one locator per blob, in index order. */
  lemma {:induction false} LocatorsInOrder(m: Metadata, from: nat := 0)
    requires m.Valid() && m.AllArchived() && from <= m.blobCount
    ensures |m.Locators(from)| == m.blobCount - from
    ensures forall i :: from <= i < m.blobCount ==>
      m.IsArchived(i) && m.Locators(from)[i - from] == m.records[i].value.body.locator
    decreases m.blobCount - from
  {
    if from < m.blobCount {
      LocatorsInOrder(m, from + 1);
      assert m.IsArchived(from);
      var rest := m.Locators(from + 1);
      assert m.Locators(from) == [m.records[from].value.body.locator] + rest;
      forall i | from <= i < m.blobCount
        ensures m.IsArchived(i) && m.Locators(from)[i - from] == m.records[i].value.body.locator
      {
        if i > from { assert m.Locators(from)[i - from] == rest[i - (from + 1)]; }
      }
    }
  }
}

/** The stored form of the metadata, at the level of protobuf messages. */
module MetadataCodec {

  import opened Types
  import opened BlobMetadata

  datatype Result<+T> = Ok(value: T) | Err

  const I32_MAX := 0x7FFF_FFFF
  const U32_SIZE := 0x1_0000_0000

  type I32 = x: int | -0x8000_0000 <= x <= I32_MAX

  datatype ProtoNotice = ProtoNotice(
    height: nat, round: I32, index: nat, commitment: Bytes, keccak: Hash, providerId: string,
    locator: string, archivedBy: Option<Address>, archivedAt: nat, signature: Option<Signature>)

  datatype ProtoMetadata = ProtoMetadata(
    height: nat, parentRoot: Hash, commitments: seq<Bytes>, keccaks: seq<Hash>, blobCount: nat,
    exec: Option<ExecutionHeader>, proposerHint: Option<nat>, records: seq<ProtoNotice>,
    pruned: bool)

  /** `i64 as i32` for the values a round can take (Nil, or an unsigned 32-bit number). */
  function RoundToProto(round: Round): I32 {
    if round == NIL_ROUND then -1
    else var low := round % U32_SIZE; if low <= I32_MAX then low else low - U32_SIZE
  }

  function RoundFromProto(value: I32): Round {
    if value < 0 then NIL_ROUND else value
  }

  predicate IsRound(round: Round) {
    NIL_ROUND <= round < U32_SIZE
  }

  function EncodeNotice(n: Notice): ProtoNotice {
    ProtoNotice(
      n.body.height, RoundToProto(n.body.round), n.body.index, n.body.commitment, n.body.keccak,
      n.body.providerId, n.body.locator, Some(n.body.archivedBy), n.body.archivedAt,
      Some(n.signature))
  }

  function DecodeNotice(p: ProtoNotice): Result<Notice> {
    if p.index > 0xFFFF || |p.commitment| != COMMITMENT_LENGTH || p.archivedBy.None?
       || p.signature.None?
    then Err
    else Ok(Notice(
              NoticeBody(
                p.height, RoundFromProto(p.round), p.index, p.commitment, p.keccak, p.providerId,
                p.locator, p.archivedBy.value, p.archivedAt),
              p.signature.value))
  }

  /** The stored list is sparse: pending indices are left out. */
  function EncodeRecords(records: seq<Option<ArchiveRecord>>): seq<ProtoNotice> {
    if records == [] then []
    else if records[|records| - 1].Some? then
      EncodeRecords(records[..|records| - 1]) + [EncodeNotice(records[|records| - 1].value)]
    else EncodeRecords(records[..|records| - 1])
  }

  function Encode(m: Metadata): ProtoMetadata {
    ProtoMetadata(
      m.height, m.parentRoot, m.commitments, m.keccaks, |m.commitments|, Some(m.exec),
      m.proposerHint, EncodeRecords(m.records), m.pruned)
  }

  /** Puts each record at its own blob index; fails on a bad record or an index out of range. */
  function Place(slots: seq<Option<ArchiveRecord>>, protos: seq<ProtoNotice>)
    : (r: Result<seq<Option<ArchiveRecord>>>)
    ensures r.Ok? ==> |r.value| == |slots|
  {
    if protos == [] then Ok(slots)
    else
      var n := |protos| - 1;
      var before := Place(slots, protos[..n]);
      if before.Err? then Err
      else
        var record := DecodeNotice(protos[n]);
        if record.Err? || record.value.body.index >= |before.value| then Err
        else Ok(before.value[record.value.body.index := Some(record.value)])
  }

  predicate AllCommitments(c: seq<Bytes>) {
    forall i :: 0 <= i < |c| ==> |c[i]| == COMMITMENT_LENGTH
  }

  function Decode(p: ProtoMetadata): Result<Metadata> {
    if !AllCommitments(p.commitments) || |p.keccaks| != |p.commitments| || p.blobCount > 0xFFFF
       || p.blobCount != |p.commitments| || p.exec.None?
    then Err
    else
      var records := Place(seq(|p.commitments|, _ => None), p.records);
      if records.Err? then Err
      else
        var commitments: Commitments := AsCommitments(p.commitments);
        Ok(Metadata(
             p.height, p.parentRoot, commitments, p.blobCount, p.keccaks, records.value, p.pruned,
             p.exec.value, p.proposerHint))
  }

  function AsCommitments(c: seq<Bytes>): (r: seq<Commitment>)
    requires AllCommitments(c)
    ensures r == c
  {
    seq(|c|, i requires 0 <= i < |c| => (var x: Commitment := c[i]; x))
  }

  /** `from_proto`, with the loop that fills the record slots. */
  method FromProto(p: ProtoMetadata) returns (r: Result<Metadata>)
    ensures r == Decode(p)
  {
    if !AllCommitments(p.commitments) || |p.keccaks| != |p.commitments| || p.blobCount > 0xFFFF
       || p.blobCount != |p.commitments| {
      return Err;
    }
    var slots: seq<Option<ArchiveRecord>> := seq(|p.commitments|, _ => None);
    ghost var start := slots;
    for k := 0 to |p.records|
      invariant Place(start, p.records[..k]) == Ok(slots)
    {
      assert p.records[..k + 1][..k] == p.records[..k];
      var record := DecodeNotice(p.records[k]);
      if record.Err? || record.value.body.index >= |slots| {
        PlaceFails(start, p.records, k + 1);
        return Err;
      }
      slots := slots[record.value.body.index := Some(record.value)];
    }
    assert p.records[..|p.records|] == p.records;
    if p.exec.None? {
      return Err;
    }
    r := Ok(Metadata(
              p.height, p.parentRoot, AsCommitments(p.commitments), p.blobCount, p.keccaks, slots,
              p.pruned, p.exec.value, p.proposerHint));
  }

  /** A record that cannot be placed fails the whole message. */
  lemma {:induction false} PlaceFails(
    slots: seq<Option<ArchiveRecord>>, protos: seq<ProtoNotice>, k: nat)
    requires k <= |protos| && Place(slots, protos[..k]).Err?
    ensures Place(slots, protos).Err?
    decreases |protos| - k
  {
    if k < |protos| {
      assert protos[..k + 1][..k] == protos[..k];
      PlaceFails(slots, protos, k + 1);
    } else {
      assert protos[..k] == protos;
    }
  }

  /** A record survives storage exactly when its round fits the signed 32-bit field. */
  lemma NoticeRoundTrip(n: Notice)
    requires IsRound(n.body.round) && n.body.index <= 0xFFFF
    ensures DecodeNotice(EncodeNotice(n)) == Ok(n) <==> n.body.round <= I32_MAX
    ensures DecodeNotice(EncodeNotice(n)).Ok?
    ensures DecodeNotice(EncodeNotice(n)).value.body.index == n.body.index
  {
  }

  ghost predicate RoundsFit(records: seq<Option<ArchiveRecord>>) {
    forall i :: 0 <= i < |records| && records[i].Some? ==> records[i].value.body.round <= I32_MAX
  }

  ghost predicate RecordsTyped(records: seq<Option<ArchiveRecord>>) {
    forall i :: 0 <= i < |records| && records[i].Some? ==>
      records[i].value.body.index == i && IsRound(records[i].value.body.round)
  }

  /** A record passed through its own codec; a pending slot stays pending. */
  function Through(record: Option<ArchiveRecord>): Option<ArchiveRecord> {
    if record.None? then None
    else var back := DecodeNotice(EncodeNotice(record.value)); if back.Ok? then Some(back.value) else None
  }

  function ThroughAll(records: seq<Option<ArchiveRecord>>, size: nat): seq<Option<ArchiveRecord>>
    requires |records| <= size
  {
    seq(|records|, i requires 0 <= i < |records| => Through(records[i]))
    + seq(size - |records|, _ => None)
  }

  lemma ThroughLast(records: seq<Option<ArchiveRecord>>, size: nat)
    requires 0 < |records| <= size
    ensures var n := |records| - 1;
            ThroughAll(records, size) == ThroughAll(records[..n], size)[n := Through(records[n])]
  {
  }

  /** Placing one more well-formed record fills its own slot. */
  lemma PlaceLast(slots: seq<Option<ArchiveRecord>>, protos: seq<ProtoNotice>, record: ArchiveRecord)
    requires Place(slots, protos).Ok?
    requires record.body.index < |slots| <= MAX_BLOB_COUNT && IsRound(record.body.round)
    ensures Place(slots, protos + [EncodeNotice(record)])
            == Ok(Place(slots, protos).value[record.body.index := Through(Some(record))])
  {
    NoticeRoundTrip(record);
    var all := protos + [EncodeNotice(record)];
    assert all[..|all| - 1] == protos;
  }

  /** What the sparse list decodes to: the same slots, each record passed through its own codec. */
  lemma {:induction false} PlaceEncoded(records: seq<Option<ArchiveRecord>>, size: nat)
    requires |records| <= size <= MAX_BLOB_COUNT && RecordsTyped(records)
    ensures Place(seq(size, _ => None), EncodeRecords(records)) == Ok(ThroughAll(records, size))
  {
    var empty: seq<Option<ArchiveRecord>> := seq(size, _ => None);
    if records == [] {
      assert ThroughAll(records, size) == empty;
    } else {
      var n := |records| - 1;
      PlaceEncoded(records[..n], size);
      ThroughLast(records, size);
      if records[n].Some? {
        PlaceLast(empty, EncodeRecords(records[..n]), records[n].value);
      } else {
        var before := ThroughAll(records[..n], size);
        assert before[n := None] == before;
      }
    }
  }

  /** Storing and loading metadata gives it back unchanged if and only if every record's round is
      Nil or below 2^31; a larger round comes back as Nil. */
  lemma MetadataRoundTrip(m: Metadata)
    requires m.Valid() && RecordsTyped(m.records)
    ensures Decode(Encode(m)).Ok?
    ensures Decode(Encode(m)) == Ok(m) <==> RoundsFit(m.records)
  {
    PlaceEncoded(m.records, |m.records|);
    var slots := ThroughAll(m.records, |m.records|);
    forall i | 0 <= i < |m.records| && m.records[i].Some?
      ensures slots[i] == m.records[i] <==> m.records[i].value.body.round <= I32_MAX
    {
      NoticeRoundTrip(m.records[i].value);
    }
    assert RoundsFit(m.records) ==> slots == m.records;
    assert AsCommitments(m.commitments) == m.commitments;
  }
}
