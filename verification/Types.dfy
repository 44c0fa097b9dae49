/** The values that every component of the node shares.

    Hashes, addresses and signatures are opaque to the node's logic: a 32-byte value is a natural
    number, with 0 standing for `B256::ZERO`. The functions that foreign code computes (SHA-256,
    Keccak, SSZ tree hashing, KZG and Ed25519) are the fields of `Crypto`, so every statement
    holds for all of them; nothing assumes that a hash is injective unless it says so. */
module Types {

  datatype Option<+T> = None | Some(value: T)

  const U16 := 0x1_0000

  const U32 := 0x1_0000_0000

  const U64 := 0x1_0000_0000_0000_0000

  type U16Nat = n: int | 0 <= n < U16

  type U64Nat = n: int | 0 <= n < U64

  type Byte = b: int | 0 <= b < 256

  type Bytes = seq<Byte>

  type Hash = nat

  type Address = nat

  type PublicKey = nat

  type Signature = nat

  /** `BYTES_PER_COMMITMENT`. */
  const COMMITMENT_LENGTH := 48

  type Commitment = b: Bytes | |b| == COMMITMENT_LENGTH witness seq(COMMITMENT_LENGTH, _ => 0)

  const ZERO_HASH: Hash := 0

  /** `u16::MAX`: the largest blob count a block can carry. */
  const MAX_BLOB_COUNT := 0xFFFF

  type Commitments = s: seq<Commitment> | |s| <= MAX_BLOB_COUNT

  /** A round as `Round::as_i64` gives it: -1 for `Nil`. */
  type Round = r: int | -0x8000_0000_0000_0000 <= r < 0x8000_0000_0000_0000

  const NIL_ROUND: Round := -1

  datatype ExecutionHeader = ExecutionHeader(blockHash: Hash, stateRoot: Hash)

  datatype BeaconHeader = BeaconHeader(
    slot: nat, proposerIndex: nat, parentRoot: Hash, stateRoot: Hash, bodyRoot: Hash)

  datatype Sidecar = Sidecar(
    index: U16Nat, blob: Bytes, commitment: Commitment, proof: Bytes,
    header: BeaconHeader, headerSignature: Signature, inclusionProof: seq<Hash>)

  datatype NoticeBody = NoticeBody(
    height: nat, round: Round, index: nat, commitment: Commitment, keccak: Hash,
    providerId: string, locator: string, archivedBy: Address, archivedAt: nat)

  datatype Notice = Notice(body: NoticeBody, signature: Signature)

  /** An archive record holds the body and signature of the notice it was made from. */
  type ArchiveRecord = Notice

  type Sidecars = s: seq<Sidecar> | |s| <= MAX_BLOB_COUNT

  /** One entry of a blobs bundle as the execution layer hands it over. */
  datatype BundleItem = BundleItem(blob: Bytes, commitment: Commitment, proof: Bytes)

  type Bundle = s: seq<BundleItem> | |s| <= MAX_BLOB_COUNT

  /** The value consensus agrees on: the execution header and the blob commitments. */
  datatype Value = Value(exec: ExecutionHeader, commitments: Commitments)

  datatype Proposal = Proposal(value: Value, proposer: Address)

  /** An execution payload as the store keeps it, with the blob hashes its transactions list. */
  datatype Payload = Payload(ssz: Bytes, requests: seq<Bytes>, blobHashes: seq<Hash>)

  datatype DecidedValue = DecidedValue(value: Value, round: Round)

  datatype ConsensusMetadata = ConsensusMetadata(round: Round, proposer: Address, blockHash: Hash)

  datatype Validator = Validator(address: Address, key: PublicKey)

  datatype Crypto = Crypto(
    headerRoot: BeaconHeader -> Hash,
    bodyRoot: (seq<Commitment>, ExecutionHeader) -> Hash,
    versionedHash: Commitment -> Hash,
    keccak: Bytes -> Hash,
    noticeSigned: (PublicKey, Notice) -> bool,
    signHeader: BeaconHeader -> Signature,
    headerSigned: (PublicKey, BeaconHeader, Signature) -> bool,
    proveIncluded: (seq<Commitment>, nat, ExecutionHeader) -> seq<Hash>,
    included: (Sidecar, Hash) -> bool,
    kzgValid: seq<Sidecar> -> bool)

  /** What a node is started with. */
  datatype Config = Config(
    crypto: Crypto, validators: seq<Validator>, address: Address,
    archiverEnabled: bool, retentionWindow: nat, genesisExec: ExecutionHeader)
  {
    /** `ValidatorSet::get_by_index`. */
    function AddressAt(index: nat): Option<Address> {
      if index < |validators| then Some(validators[index].address) else None
    }

    /** `validator_index`: the first position that holds the address. */
    function IndexOf(address: Address, from: nat := 0): (r: Option<nat>)
      ensures r.Some? ==> from <= r.value < |validators| && validators[r.value].address == address
      ensures r.None? ==> forall k :: from <= k < |validators| ==> validators[k].address != address
      decreases |validators| - from
    {
      if from >= |validators| then None
      else if validators[from].address == address then Some(from)
      else IndexOf(address, from + 1)
    }

    predicate KnowsSigner(notice: Notice) {
      var k := IndexOf(notice.body.archivedBy);
      k.Some? && crypto.noticeSigned(validators[k.value].key, notice)
    }
  }
}

/** Iteration order of the node's ordered sets and tables. */
module Ordering {

  ghost predicate StrictlyIncreasing(s: seq<nat>) {
    forall i, j :: 0 <= i < j < |s| ==> s[i] < s[j]
  }

  predicate Least(m: nat, s: set<nat>) {
    m in s && forall x :: x in s ==> m <= x
  }

  lemma LeastExists(s: set<nat>)
    requires s != {}
    ensures exists m :: Least(m, s)
  {
    var m :| m in s;
    var rest := s - {m};
    assert s == rest + {m};
    if rest == {} {
      assert Least(m, s);
    } else {
      LeastExists(rest);
      var k :| Least(k, rest);
      assert Least(if k < m then k else m, s);
    }
  }

  /** The elements of a set in ascending order. */
  function Ascending(s: set<nat>): (r: seq<nat>)
    ensures StrictlyIncreasing(r)
    ensures forall x :: x in r <==> x in s
    ensures |r| == |s|
  {
    if s == {} then []
    else
      LeastExists(s);
      var m :| Least(m, s);
      var rest := Ascending(s - {m});
      LeastInFront(s, m, rest);
      [m] + rest
  }

  lemma LeastInFront(s: set<nat>, m: nat, rest: seq<nat>)
    requires Least(m, s) && StrictlyIncreasing(rest) && |rest| == |s - {m}|
    requires forall x :: x in rest <==> x in s - {m}
    ensures StrictlyIncreasing([m] + rest) && |[m] + rest| == |s|
    ensures forall x :: x in [m] + rest <==> x in s
  {
    forall i | 0 <= i < |rest| ensures m < rest[i] {
      assert rest[i] in rest;
      assert rest[i] in s - {m};
    }
    assert |s - {m}| == |s| - 1;
  }

  /** The greatest element, or 0 for the empty set. */
  function MaxOrZero(s: set<nat>): (m: nat)
    ensures s == {} ==> m == 0
    ensures s != {} ==> m in s
    ensures forall x :: x in s ==> x <= m
  {
    var a := Ascending(s);
    if s == {} then 0
    else
      assert forall x :: x in s ==> x in a;
      a[|a| - 1]
  }
}
