/** What survives a crash: the tables of the consensus store and the two blob families, with the
    atomic writes that change them. A crash can fall between any two writes. */
module DiskState {

  import opened Types
  import opened Ordering
  import opened BlobMetadata
  import opened BlobFamilies

  datatype Disk = Disk(
    values: map<nat, DecidedValue>,
    proposals: map<(nat, Round), Proposal>,
    blocks: map<(nat, Round), Payload>,
    decidedBlocks: map<nat, Payload>,
    consensus: map<nat, ConsensusMetadata>,
    metas: map<nat, Metadata>,
    undecidedMetas: map<(nat, Round), Metadata>,
    latest: Option<nat>,
    records: map<(nat, nat), ArchiveRecord>,
    undecided: Undecided,
    decided: Decided)
  {
    /** `load_block_payload_record`: the undecided entry of the round, else the decided entry. */
    function BlockData(h: nat, r: Round): Option<Payload> {
      if (h, r) in blocks then Some(blocks[(h, r)])
      else if h in decidedBlocks then Some(decidedBlocks[h])
      else None
    }

    /** `get_blob_metadata`: the stored entry with the archive records of its height filled in. */
    function Meta(h: nat): Metadata
      requires h in metas
    {
      Hydrate(metas[h], records, h)
    }

    /** `resolve_parent_root_for_height`; `None` is its error. */
    function ParentRoot(crypto: Crypto, h: nat): Option<Hash> {
      if h == 0 then Some(ZERO_HASH)
      else if h - 1 in metas then Some(Meta(h - 1).HeaderRoot(crypto))
      else None
    }

    /** `proposer_address_for_height`. */
    function ProposerAt(config: Config, h: nat, hint: Option<nat>): Option<Address> {
      if hint.Some? && config.AddressAt(hint.value).Some? then config.AddressAt(hint.value)
      else if h in consensus then Some(consensus[h].proposer)
      else None
    }

    /** Every blob index of the height has a stored archive record. */
    ghost predicate Archived(h: nat) {
      h in metas && forall i :: 0 <= i < metas[h].blobCount ==> (h, i) in records
    }
  }

  const EMPTY_DISK := Disk(
    map[], map[], map[], map[], map[], map[], map[], None, map[], map[], map[])

  /** `hydrate_archival_records`. */
  function Hydrate(m: Metadata, records: map<(nat, nat), ArchiveRecord>, h: nat): (r: Metadata)
    ensures m.SameBlock(r) && r.keccaks == m.keccaks && r.pruned == m.pruned
    ensures |r.records| == |m.records|
  {
    m.(records := seq(|m.records|, i requires 0 <= i < |m.records| =>
      if (h, i) in records then Some(records[(h, i)]) else m.records[i]))
  }

  datatype Write =
    | PutProposal(h: nat, r: Round, proposal: Proposal)
    | DeleteProposal(h: nat, r: Round)
    | PutBlock(h: nat, r: Round, payload: Payload)
    | DeleteBlock(h: nat, r: Round)
    | PutDecidedBlock(h: nat, payload: Payload)
    | PutValue(h: nat, value: DecidedValue)
    | PutConsensus(h: nat, info: ConsensusMetadata)
    | PutUndecidedMeta(h: nat, r: Round, meta: Metadata)
    | DeleteUndecidedMeta(h: nat, r: Round)
    | PromoteMeta(h: nat, r: Round)
    | SeedGenesis(meta: Metadata)
    | UpdateMeta(h: nat, meta: Metadata)
    | PutRecord(h: nat, i: nat, record: ArchiveRecord)
    | PruneBelow(retain: nat)
    | PutBlob(h: nat, r: Round, sidecar: Sidecar)
    | DeleteBlob(h: nat, r: Round, i: nat)
    | PutDecidedBlob(h: nat, i: nat, sidecar: Sidecar)
    | DeleteDecidedBlob(h: nat, i: nat)

  /** The first writer of an undecided entry wins. */
  function PutIfAbsent<K, V>(m: map<K, V>, k: K, v: V): map<K, V> {
    if k in m then m else m[k := v]
  }

  /** `mark_blob_metadata_decided`: one transaction moves the entry and sets the pointer. Without
      an undecided entry nothing changes (already promoted, or the error that the caller reports). */
  function Promote(d: Disk, h: nat, r: Round): Disk {
    if (h, r) in d.undecidedMetas then
      d.(metas := d.metas[h := d.undecidedMetas[(h, r)]], latest := Some(h),
         undecidedMetas := d.undecidedMetas - {(h, r)})
    else d
  }

  /** `prune`: removes the keys ordered before (retain, Nil). */
  predicate OrderedBefore(k: (nat, Round), retain: nat) {
    k.0 < retain || (k.0 == retain && k.1 < NIL_ROUND)
  }

  function KeepFrom<V>(m: map<(nat, Round), V>, retain: nat): map<(nat, Round), V> {
    map k | k in m && !OrderedBefore(k, retain) :: m[k]
  }

  function Apply(d: Disk, w: Write): Disk {
    match w
    case PutProposal(h, r, p) => d.(proposals := PutIfAbsent(d.proposals, (h, r), p))
    case DeleteProposal(h, r) => d.(proposals := d.proposals - {(h, r)})
    case PutBlock(h, r, b) => d.(blocks := PutIfAbsent(d.blocks, (h, r), b))
    case DeleteBlock(h, r) => d.(blocks := d.blocks - {(h, r)})
    case PutDecidedBlock(h, b) => d.(decidedBlocks := PutIfAbsent(d.decidedBlocks, h, b))
    case PutValue(h, v) => d.(values := d.values[h := v])
    case PutConsensus(h, c) => d.(consensus := d.consensus[h := c])
    case PutUndecidedMeta(h, r, m) => d.(undecidedMetas := PutIfAbsent(d.undecidedMetas, (h, r), m))
    case DeleteUndecidedMeta(h, r) => d.(undecidedMetas := d.undecidedMetas - {(h, r)})
    case PromoteMeta(h, r) => Promote(d, h, r)
    case SeedGenesis(m) => if 0 in d.metas then d else d.(metas := d.metas[0 := m], latest := Some(0))
    case UpdateMeta(h, m) => d.(metas := d.metas[h := m])
    case PutRecord(h, i, record) => d.(records := d.records[(h, i) := record])
    case PruneBelow(retain) =>
      d.(proposals := KeepFrom(d.proposals, retain), blocks := KeepFrom(d.blocks, retain))
    case PutBlob(h, r, s) => d.(undecided := d.undecided[(h, r, s.index) := s])
    case DeleteBlob(h, r, i) => d.(undecided := d.undecided - {(h, r, i)})
    case PutDecidedBlob(h, i, s) => d.(decided := d.decided[(h, i) := s])
    case DeleteDecidedBlob(h, i) => d.(decided := d.decided - {(h, i)})
  }
}

/** The durable invariant: it holds of the disk between any two writes. */
module DiskInvariant {

  import opened Types
  import opened Ordering
  import opened BlobMetadata
  import opened DiskState

  /** A metadata entry carries the header root of the decided entry one height below. */
  ghost predicate ParentOk(crypto: Crypto, metas: map<nat, Metadata>, h: nat, m: Metadata) {
    && m.height == h
    && (h == 0 ==> m.parentRoot == ZERO_HASH)
    && (h > 0 ==> h - 1 in metas && m.parentRoot == metas[h - 1].HeaderRoot(crypto))
  }

  /** Decided heights are 0..H without a gap, `latest` is H, and every entry extends the chain. */
  ghost predicate ChainOk(crypto: Crypto, metas: map<nat, Metadata>, latest: Option<nat>) {
    && (latest.None? ==> metas == map[])
    && (latest.Some? ==> forall h: nat :: h in metas <==> h <= latest.value)
    && (forall h {:trigger ParentOk(crypto, metas, h, metas[h])} ::
          h in metas ==> ParentOk(crypto, metas, h, metas[h]))
    && (forall h :: h in metas ==> metas[h].Valid())
  }

  /** Undecided entries extend the decided chain; before promotion they are as constructed. */
  ghost predicate CandidatesOk(
    crypto: Crypto, metas: map<nat, Metadata>, undecided: map<(nat, Round), Metadata>)
  {
    forall k :: k in undecided ==>
      && ParentOk(crypto, metas, k.0, undecided[k]) && undecided[k].Valid()
      && (k.0 in metas || undecided[k].Fresh())
  }

  /** The archiver is the proposer that the entry names, if it names one of the validators. */
  ghost predicate ByProposer(config: Config, m: Metadata, archiver: Address) {
    m.proposerHint.Some? && config.AddressAt(m.proposerHint.value).Some? ==>
      archiver == config.AddressAt(m.proposerHint.value).value
  }

  /** The record matches the decided entry at its index: made by the entry's proposer, signed by a
      validator, same commitment, and the same blob hash unless the entry's hash is still the
      placeholder. */
  ghost predicate RecordOk(config: Config, h: nat, i: nat, m: Metadata, record: ArchiveRecord) {
    && record.body.height == h && record.body.index == i < |m.commitments|
    && config.KnowsSigner(record) && ByProposer(config, m, record.body.archivedBy)
    && record.body.commitment == m.commitments[i]
    && i < |m.keccaks| && (m.keccaks[i] == ZERO_HASH || m.keccaks[i] == record.body.keccak)
  }

  ghost predicate RecordsOk(
    config: Config, metas: map<nat, Metadata>, records: map<(nat, nat), ArchiveRecord>)
  {
    forall k :: k in records ==>
      k.0 in metas && RecordOk(config, k.0, k.1, metas[k.0], records[k])
  }

  /** Records kept inside a metadata entry are those of the record table. */
  ghost predicate InlineOk(h: nat, m: Metadata, records: map<(nat, nat), ArchiveRecord>) {
    forall i :: 0 <= i < |m.records| && m.records[i].Some? ==>
      (h, i) in records && records[(h, i)] == m.records[i].value
  }

  ghost predicate InlinesOk(metas: map<nat, Metadata>, records: map<(nat, nat), ArchiveRecord>) {
    forall h :: h in metas ==> InlineOk(h, metas[h], records)
  }

  ghost predicate AllRecorded(h: nat, m: Metadata, records: map<(nat, nat), ArchiveRecord>) {
    forall i :: 0 <= i < m.blobCount ==> (h, i) in records
  }

  /** Only fully archived heights at or below the highest decided value are marked pruned. */
  ghost predicate PrunedOk(
    metas: map<nat, Metadata>, records: map<(nat, nat), ArchiveRecord>, top: nat)
  {
    forall h :: h in metas && metas[h].pruned ==> AllRecorded(h, metas[h], records) && h <= top
  }

  /** A decided payload belongs to a decided height, and the committed round's undecided copy
      agrees with it as long as both exist. */
  ghost predicate BlocksOk(
    heights: set<nat>, values: map<nat, DecidedValue>, blocks: map<(nat, Round), Payload>,
    decidedBlocks: map<nat, Payload>)
  {
    forall h :: h in decidedBlocks ==>
      && h in heights && h in values
      && ((h, values[h].round) in blocks ==> blocks[(h, values[h].round)] == decidedBlocks[h])
  }

  ghost predicate DiskOk(config: Config, d: Disk) {
    && ChainOk(config.crypto, d.metas, d.latest)
    && CandidatesOk(config.crypto, d.metas, d.undecidedMetas)
    && RecordsOk(config, d.metas, d.records)
    && InlinesOk(d.metas, d.records)
    && PrunedOk(d.metas, d.records, MaxOrZero(d.values.Keys))
    && BlocksOk(d.metas.Keys, d.values, d.blocks, d.decidedBlocks)
  }

  /** A decided metadata entry keeps its block and its pruned flag. */
  ghost predicate MetaExtends(a: Metadata, b: Metadata) {
    a.SameBlock(b) && (a.pruned ==> b.pruned) && |a.keccaks| == |b.keccaks|
  }

  ghost predicate MetasExtend(a: map<nat, Metadata>, b: map<nat, Metadata>) {
    forall h :: h in a ==> h in b && MetaExtends(a[h], b[h])
  }

  ghost predicate Included<K, V>(a: map<K, V>, b: map<K, V>) {
    forall k :: k in a ==> k in b && b[k] == a[k]
  }

  /** The height has a decided value and decided metadata. */
  ghost predicate Committed(d: Disk, h: nat) {
    h in d.values && h in d.metas
  }

  /** The height is committed and no undecided blob of it is left. */
  ghost predicate Settled(d: Disk, h: nat) {
    Committed(d, h) && forall k :: k in d.undecided ==> k.0 != h
  }

  /** No decided blob is lost: its place is still taken, or its whole height is archived. */
  ghost predicate BlobsKept(a: Disk, b: Disk) {
    forall k :: k in a.decided ==> k in b.decided || b.Archived(k.0)
  }

  /** The disk holds this blob for this place, as the decided one or as one of some round. */
  ghost predicate HasBlob(d: Disk, k: (nat, nat), s: Sidecar) {
    || (k in d.decided && d.decided[k] == s)
    || exists r: Round :: (k.0, r, k.1) in d.undecided && d.undecided[(k.0, r, k.1)] == s
  }

  /** A committed height gets no new blobs: what it holds later it held already. */
  ghost predicate CommittedKept(a: Disk, b: Disk) {
    && (forall k :: k in b.undecided && Committed(a, k.0) ==>
          k in a.undecided && a.undecided[k] == b.undecided[k])
    && (forall k :: k in b.decided && Committed(a, k.0) ==> HasBlob(a, k, b.decided[k]))
  }

  /** No decided blob of the height is stored. */
  ghost predicate Gone(d: Disk, h: nat)
    requires h in d.metas
  {
    forall i :: 0 <= i < d.metas[h].blobCount ==> (h, i) !in d.decided
  }

  /** A settled height that has been marked pruned has lost its bytes. */
  ghost predicate PrunedGone(a: Disk, b: Disk) {
    forall h :: Settled(a, h) && !a.metas[h].pruned && h in b.metas && b.metas[h].pruned ==>
      Gone(b, h)
  }

  /** The payload of a committed round may be lost but never changes. */
  ghost predicate PayloadKept(a: Disk, b: Disk) {
    forall h :: Committed(a, h) && b.BlockData(h, a.values[h].round).Some? ==>
      b.BlockData(h, a.values[h].round) == a.BlockData(h, a.values[h].round)
  }

  /** The hash of an entry changes at most once, from the placeholder to that of the record which is
      stored along with it; after the record is there it never changes. */
  ghost predicate HashKept(a: Disk, b: Disk, h: nat, i: nat) {
    && h in a.metas && h in b.metas && i < |a.metas[h].keccaks| && i < |b.metas[h].keccaks|
    && (|| b.metas[h].keccaks[i] == a.metas[h].keccaks[i]
        || (&& a.metas[h].keccaks[i] == ZERO_HASH && (h, i) !in a.records && (h, i) in b.records
            && b.metas[h].keccaks[i] == b.records[(h, i)].body.keccak))
  }

  ghost predicate HashesKept(a: Disk, b: Disk) {
    forall h: nat, i: nat {:trigger HashKept(a, b, h, i)} ::
      h in a.metas && i < |a.metas[h].keccaks| ==> HashKept(a, b, h, i)
  }

  /** How the decided data of a disk may change over time, apart from learned hashes. */
  ghost predicate DataExtends(a: Disk, b: Disk) {
    && Included(a.values, b.values)
    && Included(a.decidedBlocks, b.decidedBlocks)
    && Included(a.records, b.records)
    && MetasExtend(a.metas, b.metas)
    && BlobsKept(a, b)
    && CommittedKept(a, b)
    && PrunedGone(a, b)
    && PayloadKept(a, b)
  }

  /** How the decided data of a disk may change over time. */
  ghost predicate Extends(a: Disk, b: Disk) {
    DataExtends(a, b) && HashesKept(a, b)
  }

  lemma ExtendsReflexive(d: Disk)
    ensures Extends(d, d)
  {
  }

  lemma ArchivedStays(a: Disk, b: Disk, h: nat)
    requires Included(a.records, b.records) && MetasExtend(a.metas, b.metas) && a.Archived(h)
    ensures b.Archived(h)
  {
  }

  lemma BlobsKeptTransitive(a: Disk, b: Disk, c: Disk)
    requires BlobsKept(a, b) && BlobsKept(b, c)
    requires Included(b.records, c.records) && MetasExtend(b.metas, c.metas)
    ensures BlobsKept(a, c)
  {
    forall k | k in a.decided ensures k in c.decided || c.Archived(k.0) {
      if k !in b.decided { ArchivedStays(b, c, k.0); }
    }
  }

  lemma CommittedStays(a: Disk, b: Disk, h: nat)
    requires Included(a.values, b.values) && MetasExtend(a.metas, b.metas) && Committed(a, h)
    ensures Committed(b, h)
  {
  }

  lemma CommittedKeptTransitive(a: Disk, b: Disk, c: Disk)
    requires CommittedKept(a, b) && CommittedKept(b, c)
    requires Included(a.values, b.values) && MetasExtend(a.metas, b.metas)
    ensures CommittedKept(a, c)
  {
    hide MetasExtend;
    forall k | k in c.undecided && Committed(a, k.0)
      ensures k in a.undecided && a.undecided[k] == c.undecided[k]
    {
      CommittedStays(a, b, k.0);
    }
    forall k | k in c.decided && Committed(a, k.0) ensures HasBlob(a, k, c.decided[k]) {
      CommittedStays(a, b, k.0);
      assert HasBlob(b, k, c.decided[k]);
      if !(k in b.decided && b.decided[k] == c.decided[k]) {
        var r: Round :| (k.0, r, k.1) in b.undecided && b.undecided[(k.0, r, k.1)] == c.decided[k];
        assert (k.0, r, k.1) in a.undecided;
      }
    }
  }

  /** A settled height stays settled, and its decided blobs never change, except by removal. */
  lemma SettledStays(a: Disk, b: Disk, h: nat)
    requires Included(a.values, b.values) && MetasExtend(a.metas, b.metas) && CommittedKept(a, b)
    requires Settled(a, h)
    ensures Settled(b, h)
    ensures forall i :: (h, i) in b.decided ==>
      (h, i) in a.decided && a.decided[(h, i)] == b.decided[(h, i)]
  {
    hide MetasExtend;
    CommittedStays(a, b, h);
    forall i | (h, i) in b.decided
      ensures (h, i) in a.decided && a.decided[(h, i)] == b.decided[(h, i)]
    {
      assert HasBlob(a, (h, i), b.decided[(h, i)]);
    }
  }

  lemma PrunedGoneTransitive(a: Disk, b: Disk, c: Disk)
    requires PrunedGone(a, b) && PrunedGone(b, c) && CommittedKept(a, b) && CommittedKept(b, c)
    requires Included(a.values, b.values) && MetasExtend(a.metas, b.metas)
    requires Included(b.values, c.values) && MetasExtend(b.metas, c.metas)
    ensures PrunedGone(a, c)
  {
    hide CommittedKept;
    forall h | Settled(a, h) && !a.metas[h].pruned && h in c.metas && c.metas[h].pruned
      ensures Gone(c, h)
    {
      SettledStays(a, b, h);
      assert h in b.metas;
      SettledStays(b, c, h);
      if b.metas[h].pruned {
        assert Gone(b, h);
        assert MetaExtends(b.metas[h], c.metas[h]);
      }
    }
  }

  lemma PayloadKeptTransitive(a: Disk, b: Disk, c: Disk)
    requires PayloadKept(a, b) && PayloadKept(b, c)
    requires Included(a.values, b.values) && MetasExtend(a.metas, b.metas)
    ensures PayloadKept(a, c)
  {
    hide MetasExtend;
    forall h | Committed(a, h) && c.BlockData(h, a.values[h].round).Some?
      ensures c.BlockData(h, a.values[h].round) == a.BlockData(h, a.values[h].round)
    {
      CommittedStays(a, b, h);
    }
  }

  lemma DataExtendsTransitive(a: Disk, b: Disk, c: Disk)
    requires DataExtends(a, b) && DataExtends(b, c)
    ensures DataExtends(a, c)
  {
    hide BlobsKept, CommittedKept, PrunedGone, PayloadKept;
    BlobsKeptTransitive(a, b, c);
    CommittedKeptTransitive(a, b, c);
    PrunedGoneTransitive(a, b, c);
    PayloadKeptTransitive(a, b, c);
  }

  lemma HashesKeptTransitive(a: Disk, b: Disk, c: Disk)
    requires HashesKept(a, b) && HashesKept(b, c)
    requires Included(a.records, b.records) && Included(b.records, c.records)
    ensures HashesKept(a, c)
  {
    forall h: nat, i: nat | h in a.metas && i < |a.metas[h].keccaks| ensures HashKept(a, c, h, i) {
      assert HashKept(a, b, h, i);
      assert HashKept(b, c, h, i);
    }
  }

  lemma ExtendsTransitive(a: Disk, b: Disk, c: Disk)
    requires Extends(a, b) && Extends(b, c)
    ensures Extends(a, c)
  {
    hide BlobsKept, CommittedKept, PrunedGone, PayloadKept, HashesKept, MetasExtend;
    DataExtendsTransitive(a, b, c);
    HashesKeptTransitive(a, b, c);
  }

  lemma MaxMonotone(a: set<nat>, b: set<nat>)
    requires a <= b
    ensures MaxOrZero(a) <= MaxOrZero(b)
  {
    if a != {} { assert MaxOrZero(a) in b; }
  }

  /** What a write must respect; each operation shows this at each of its writes. */
  ghost predicate Guard(config: Config, d: Disk, w: Write) {
    match w
    case PutBlock(h, r, b) => !Committed(d, h) || (h, r) in d.blocks
    case PutDecidedBlock(h, b) =>
      Committed(d, h) && d.BlockData(h, d.values[h].round) == Some(b)
    case PutValue(h, v) => h in d.values ==> d.values[h] == v
    case PutUndecidedMeta(h, r, m) =>
      (h, r) in d.undecidedMetas
      || (ParentOk(config.crypto, d.metas, h, m) && m.Valid() && (h in d.metas || m.Fresh()))
    case PromoteMeta(h, r) => (h, r) in d.undecidedMetas ==> h !in d.metas
    case SeedGenesis(m) =>
      && (0 in d.metas || d.metas == map[])
      && m.Valid() && m.Fresh() && m.height == 0 && m.parentRoot == ZERO_HASH
    case UpdateMeta(h, m) =>
      && h in d.metas && UpdateOk(d, h, m) && m.keccaks == d.metas[h].keccaks
      && (m.pruned && !d.metas[h].pruned ==> Gone(d, h))
    case PutRecord(h, i, record) =>
      (h, i) !in d.records && h in d.metas && RecordOk(config, h, i, d.metas[h], record)
    case PutBlob(h, r, s) => !Committed(d, h)
    case PutDecidedBlob(h, i, s) =>
      exists r: Round :: (h, r, i) in d.undecided && d.undecided[(h, r, i)] == s
    case DeleteDecidedBlob(h, i) => d.Archived(h)
    case _ => true
  }

  ghost predicate UpdateOk(d: Disk, h: nat, m: Metadata)
    requires h in d.metas
  {
    && m.Valid() && InlineOk(h, m, d.records) && MetaExtends(d.metas[h], m)
    && (m.pruned ==> AllRecorded(h, m, d.records) && h <= MaxOrZero(d.values.Keys))
    && forall i :: 0 <= i < |m.keccaks| && (h, i) in d.records ==>
         m.keccaks[i] == d.metas[h].keccaks[i] || m.keccaks[i] == d.records[(h, i)].body.keccak
  }

  // One conjunct at a time, over the tables it speaks of.

  lemma ChainAfterUpdate(
    crypto: Crypto, metas: map<nat, Metadata>, latest: Option<nat>, h: nat, m: Metadata)
    requires ChainOk(crypto, metas, latest) && h in metas && metas[h].SameBlock(m) && m.Valid()
    ensures ChainOk(crypto, metas[h := m], latest)
  {
    assert m.HeaderRoot(crypto) == metas[h].HeaderRoot(crypto);
    var metas' := metas[h := m];
    forall x | x in metas' ensures ParentOk(crypto, metas', x, metas'[x]) {
      assert ParentOk(crypto, metas, x, metas[x]);
    }
  }

  lemma ChainAfterPromote(
    crypto: Crypto, metas: map<nat, Metadata>, latest: Option<nat>, h: nat, m: Metadata)
    requires ChainOk(crypto, metas, latest) && h !in metas && ParentOk(crypto, metas, h, m) && m.Valid()
    ensures ChainOk(crypto, metas[h := m], Some(h))
  {
    assert latest.None? ==> h == 0;
    assert latest.Some? ==> h == latest.value + 1;
    var metas' := metas[h := m];
    forall x | x in metas' ensures ParentOk(crypto, metas', x, metas'[x]) {
      if x != h { assert ParentOk(crypto, metas, x, metas[x]); }
    }
  }

  lemma CandidatesAfter(
    crypto: Crypto, metas: map<nat, Metadata>, undecided: map<(nat, Round), Metadata>,
    h: nat, m: Metadata)
    requires CandidatesOk(crypto, metas, undecided)
    requires h in metas ==> metas[h].SameBlock(m)
    ensures CandidatesOk(crypto, metas[h := m], undecided)
  {
    assert h in metas ==> m.HeaderRoot(crypto) == metas[h].HeaderRoot(crypto);
    forall k | k in undecided
      ensures ParentOk(crypto, metas[h := m], k.0, undecided[k])
      ensures k.0 in metas[h := m] || undecided[k].Fresh()
    {
      assert ParentOk(crypto, metas, k.0, undecided[k]);
    }
  }

  lemma CandidatesFewer(
    crypto: Crypto, metas: map<nat, Metadata>, undecided: map<(nat, Round), Metadata>,
    k: (nat, Round))
    requires CandidatesOk(crypto, metas, undecided)
    ensures CandidatesOk(crypto, metas, undecided - {k})
  {
  }

  lemma RecordsAfterUpdate(config: Config, d: Disk, h: nat, m: Metadata)
    requires RecordsOk(config, d.metas, d.records) && InlinesOk(d.metas, d.records)
    requires h in d.metas && UpdateOk(d, h, m)
    ensures RecordsOk(config, d.metas[h := m], d.records) && InlinesOk(d.metas[h := m], d.records)
    ensures MetasExtend(d.metas, d.metas[h := m])
  {
    var metas' := d.metas[h := m];
    forall k | k in d.records
      ensures k.0 in metas' && RecordOk(config, k.0, k.1, metas'[k.0], d.records[k])
    {
      assert RecordOk(config, k.0, k.1, d.metas[k.0], d.records[k]);
      if k.0 == h { assert k == (h, k.1); }
    }
  }

  lemma RecordsAfterPromote(
    config: Config, metas: map<nat, Metadata>, records: map<(nat, nat), ArchiveRecord>,
    h: nat, m: Metadata)
    requires RecordsOk(config, metas, records) && InlinesOk(metas, records)
    requires h !in metas && m.Fresh()
    ensures RecordsOk(config, metas[h := m], records) && InlinesOk(metas[h := m], records)
    ensures MetasExtend(metas, metas[h := m])
  {
    var metas' := metas[h := m];
    forall x | x in metas' ensures InlineOk(x, metas'[x], records) {
      if x != h { assert InlineOk(x, metas[x], records); }
    }
  }

  lemma RecordsAfterPut(
    config: Config, metas: map<nat, Metadata>, records: map<(nat, nat), ArchiveRecord>,
    h: nat, i: nat, record: ArchiveRecord)
    requires RecordsOk(config, metas, records) && InlinesOk(metas, records)
    requires (h, i) !in records && h in metas && RecordOk(config, h, i, metas[h], record)
    ensures RecordsOk(config, metas, records[(h, i) := record])
    ensures InlinesOk(metas, records[(h, i) := record])
    ensures Included(records, records[(h, i) := record])
  {
    var records' := records[(h, i) := record];
    forall x | x in metas ensures InlineOk(x, metas[x], records') {
      assert InlineOk(x, metas[x], records);
    }
  }

  lemma PrunedAfter(
    metas: map<nat, Metadata>, records: map<(nat, nat), ArchiveRecord>, top: nat,
    records': map<(nat, nat), ArchiveRecord>, top': nat)
    requires PrunedOk(metas, records, top) && Included(records, records') && top <= top'
    ensures PrunedOk(metas, records', top')
  {
  }

  /** Decided blobs and undecided blobs are untouched. */
  lemma BlobsUntouched(a: Disk, b: Disk)
    requires a.decided == b.decided && a.undecided == b.undecided
    ensures BlobsKept(a, b) && CommittedKept(a, b)
  {
  }

  lemma PrunedSame(a: Disk, b: Disk)
    requires forall h :: h in a.metas ==> h in b.metas && b.metas[h].pruned == a.metas[h].pruned
    ensures PrunedGone(a, b)
  {
  }

  lemma PayloadsSame(a: Disk, b: Disk)
    requires b.blocks == a.blocks && b.decidedBlocks == a.decidedBlocks
    ensures PayloadKept(a, b)
  {
  }

  lemma HashesSame(a: Disk, b: Disk)
    requires forall h :: h in a.metas ==> h in b.metas && b.metas[h].keccaks == a.metas[h].keccaks
    ensures HashesKept(a, b)
  {
  }

  lemma MetasExtendSame(metas: map<nat, Metadata>)
    ensures MetasExtend(metas, metas)
  {
  }

  lemma BlocksMoreHeights(
    heights: set<nat>, more: set<nat>, values: map<nat, DecidedValue>,
    blocks: map<(nat, Round), Payload>, decidedBlocks: map<nat, Payload>)
    requires BlocksOk(heights, values, blocks, decidedBlocks) && heights <= more
    ensures BlocksOk(more, values, blocks, decidedBlocks)
  {
  }

  lemma PrunedAfterPromote(
    metas: map<nat, Metadata>, records: map<(nat, nat), ArchiveRecord>, top: nat,
    h: nat, m: Metadata)
    requires PrunedOk(metas, records, top)
    requires m.pruned ==> AllRecorded(h, m, records) && h <= top
    ensures PrunedOk(metas[h := m], records, top)
  {
  }

  lemma CandidateAt(
    crypto: Crypto, metas: map<nat, Metadata>, undecided: map<(nat, Round), Metadata>,
    h: nat, r: Round)
    requires CandidatesOk(crypto, metas, undecided) && (h, r) in undecided && h !in metas
    ensures ParentOk(crypto, metas, h, undecided[(h, r)])
    ensures undecided[(h, r)].Valid() && undecided[(h, r)].Fresh()
  {
  }

  lemma PromoteSafe(config: Config, d: Disk, h: nat, r: Round)
    requires DiskOk(config, d) && Guard(config, d, PromoteMeta(h, r))
    ensures DiskOk(config, Promote(d, h, r)) && Extends(d, Promote(d, h, r))
  {
    hide ChainOk, CandidatesOk, RecordsOk, InlinesOk, PrunedOk, BlocksOk, BlobsKept, CommittedKept,
         PrunedGone, PayloadKept, HashesKept, MetasExtend, MaxOrZero, Ascending;
    var d' := Promote(d, h, r);
    if (h, r) in d.undecidedMetas {
      var m := d.undecidedMetas[(h, r)];
      assert d'.metas == d.metas[h := m];
      CandidateAt(config.crypto, d.metas, d.undecidedMetas, h, r);
      NewHeightSafe(config, d, h, m);
      CandidatesFewer(config.crypto, d'.metas, d.undecidedMetas, (h, r));
    } else {
      MetasExtendSame(d.metas);
    }
    BlobsUntouched(d, d');
    PrunedSame(d, d');
    PayloadsSame(d, d');
    HashesSame(d, d');
  }

  lemma NewHeightSafe(config: Config, d: Disk, h: nat, m: Metadata)
    requires DiskOk(config, d) && h !in d.metas
    requires ParentOk(config.crypto, d.metas, h, m) && m.Valid() && m.Fresh()
    ensures var d' := d.(metas := d.metas[h := m], latest := Some(h));
            DiskOk(config, d') && MetasExtend(d.metas, d'.metas)
  {
    hide ChainOk, CandidatesOk, RecordsOk, InlinesOk, PrunedOk, BlocksOk, BlobsKept, CommittedKept,
         PrunedGone, PayloadKept, HashesKept, MetasExtend, MaxOrZero, Ascending;
    ChainAfterPromote(config.crypto, d.metas, d.latest, h, m);
    CandidatesAfter(config.crypto, d.metas, d.undecidedMetas, h, m);
    RecordsAfterPromote(config, d.metas, d.records, h, m);
    PrunedAfterPromote(d.metas, d.records, MaxOrZero(d.values.Keys), h, m);
    BlocksMoreHeights(
      d.metas.Keys, d.metas[h := m].Keys, d.values, d.blocks, d.decidedBlocks);
  }

  /** Replacing an entry by one that agrees with the records is safe; what it needs besides is that a
      newly pruned height has lost its bytes. */
  lemma UpdateMetaSafe(config: Config, d: Disk, h: nat, m: Metadata)
    requires DiskOk(config, d) && h in d.metas && UpdateOk(d, h, m)
    requires m.pruned && !d.metas[h].pruned ==> Gone(d, h)
    ensures DiskOk(config, Apply(d, UpdateMeta(h, m)))
    ensures DataExtends(d, Apply(d, UpdateMeta(h, m)))
  {
    hide ChainOk, CandidatesOk, RecordsOk, InlinesOk, PrunedOk, BlocksOk, BlobsKept, CommittedKept,
         PrunedGone, PayloadKept, HashesKept, MetasExtend, MaxOrZero, Ascending;
    var d' := Apply(d, UpdateMeta(h, m));
    assert d' == d.(metas := d.metas[h := m]);
    assert d'.metas.Keys == d.metas.Keys;
    ChainAfterUpdate(config.crypto, d.metas, d.latest, h, m);
    CandidatesAfter(config.crypto, d.metas, d.undecidedMetas, h, m);
    RecordsAfterUpdate(config, d, h, m);
    PrunedAfterPromote(d.metas, d.records, MaxOrZero(d.values.Keys), h, m);
    BlobsUntouched(d, d');
    PayloadsSame(d, d');
    UpdatePrunes(d, h, m);
  }

  lemma UpdatePrunes(d: Disk, h: nat, m: Metadata)
    requires h in d.metas && d.metas[h].SameBlock(m)
    requires m.pruned && !d.metas[h].pruned ==> Gone(d, h)
    ensures PrunedGone(d, Apply(d, UpdateMeta(h, m)))
  {
  }

  lemma PutRecordSafe(config: Config, d: Disk, h: nat, i: nat, record: ArchiveRecord)
    requires DiskOk(config, d) && Guard(config, d, PutRecord(h, i, record))
    ensures DiskOk(config, Apply(d, PutRecord(h, i, record)))
    ensures Extends(d, Apply(d, PutRecord(h, i, record)))
  {
    hide ChainOk, CandidatesOk, RecordsOk, InlinesOk, PrunedOk, BlocksOk, BlobsKept, CommittedKept,
         PrunedGone, PayloadKept, HashesKept, MetasExtend, MaxOrZero, Ascending;
    var d' := Apply(d, PutRecord(h, i, record));
    assert d' == d.(records := d.records[(h, i) := record]);
    RecordsAfterPut(config, d.metas, d.records, h, i, record);
    var top := MaxOrZero(d.values.Keys);
    PrunedAfter(d.metas, d.records, top, d'.records, top);
    MetasExtendSame(d.metas);
    BlobsUntouched(d, d');
    PrunedSame(d, d');
    PayloadsSame(d, d');
    HashesSame(d, d');
  }

  /** A record and the entry that learns its hash, written one after the other. */
  lemma LearnSafe(config: Config, d: Disk, h: nat, i: nat, record: ArchiveRecord, m: Metadata)
    requires DiskOk(config, d) && Guard(config, d, PutRecord(h, i, record))
    requires UpdateOk(Apply(d, PutRecord(h, i, record)), h, m) && m.pruned == d.metas[h].pruned
    requires |m.keccaks| == |d.metas[h].keccaks|
    requires forall j :: 0 <= j < |m.keccaks| ==>
      || m.keccaks[j] == d.metas[h].keccaks[j]
      || (j == i && d.metas[h].keccaks[j] == ZERO_HASH && m.keccaks[j] == record.body.keccak)
    ensures var d' := Apply(Apply(d, PutRecord(h, i, record)), UpdateMeta(h, m));
            DiskOk(config, d') && Extends(d, d')
  {
    hide DiskOk, DataExtends, HashesKept, UpdateOk;
    var d1 := Apply(d, PutRecord(h, i, record));
    var d' := Apply(d1, UpdateMeta(h, m));
    PutRecordSafe(config, d, h, i, record);
    UpdateMetaSafe(config, d1, h, m);
    DataExtendsTransitive(d, d1, d');
    LearnedHash(config, d, h, i, record, m);
  }

  lemma LearnedHash(config: Config, d: Disk, h: nat, i: nat, record: ArchiveRecord, m: Metadata)
    requires h in d.metas && (h, i) !in d.records && |m.keccaks| == |d.metas[h].keccaks|
    requires forall j :: 0 <= j < |m.keccaks| ==>
      || m.keccaks[j] == d.metas[h].keccaks[j]
      || (j == i && d.metas[h].keccaks[j] == ZERO_HASH && m.keccaks[j] == record.body.keccak)
    ensures HashesKept(d, Apply(Apply(d, PutRecord(h, i, record)), UpdateMeta(h, m)))
  {
  }

  lemma BlocksAfterValue(
    heights: set<nat>, values: map<nat, DecidedValue>, blocks: map<(nat, Round), Payload>,
    decidedBlocks: map<nat, Payload>, h: nat, v: DecidedValue)
    requires BlocksOk(heights, values, blocks, decidedBlocks) && (h in values ==> values[h] == v)
    ensures BlocksOk(heights, values[h := v], blocks, decidedBlocks)
  {
  }

  lemma PutValueSafe(config: Config, d: Disk, h: nat, v: DecidedValue)
    requires DiskOk(config, d) && Guard(config, d, PutValue(h, v))
    ensures DiskOk(config, Apply(d, PutValue(h, v))) && Extends(d, Apply(d, PutValue(h, v)))
  {
    hide ChainOk, CandidatesOk, RecordsOk, InlinesOk, PrunedOk, BlocksOk, BlobsKept, CommittedKept,
         PrunedGone, PayloadKept, HashesKept, MetasExtend, MaxOrZero, Ascending;
    var d' := Apply(d, PutValue(h, v));
    MaxMonotone(d.values.Keys, d'.values.Keys);
    PrunedAfter(
      d.metas, d.records, MaxOrZero(d.values.Keys), d.records, MaxOrZero(d'.values.Keys));
    BlocksAfterValue(d.metas.Keys, d.values, d.blocks, d.decidedBlocks, h, v);
    MetasExtendSame(d.metas);
    BlobsUntouched(d, d');
    PrunedSame(d, d');
    PayloadsSame(d, d');
    HashesSame(d, d');
  }

  lemma SeedGenesisSafe(config: Config, d: Disk, m: Metadata)
    requires DiskOk(config, d) && Guard(config, d, SeedGenesis(m))
    ensures DiskOk(config, Apply(d, SeedGenesis(m))) && Extends(d, Apply(d, SeedGenesis(m)))
  {
    hide ChainOk, CandidatesOk, RecordsOk, InlinesOk, PrunedOk, BlocksOk, BlobsKept, CommittedKept,
         PrunedGone, PayloadKept, HashesKept, MetasExtend, MaxOrZero, Ascending;
    var d' := Apply(d, SeedGenesis(m));
    BlobsUntouched(d, d');
    PrunedSame(d, d');
    PayloadsSame(d, d');
    HashesSame(d, d');
    if 0 in d.metas {
      MetasExtendSame(d.metas);
    } else {
      NewHeightSafe(config, d, 0, m);
    }
  }

  /** Every guarded write keeps the durable invariant and only extends the decided data. */
  lemma WriteSafe(config: Config, d: Disk, w: Write)
    requires DiskOk(config, d) && Guard(config, d, w)
    ensures DiskOk(config, Apply(d, w)) && Extends(d, Apply(d, w))
  {
    hide DiskOk, DataExtends, HashesKept, UpdateOk;
    match w
    case PromoteMeta(h, r) => PromoteSafe(config, d, h, r);
    case UpdateMeta(h, m) =>
      UpdateMetaSafe(config, d, h, m);
      HashesSame(d, Apply(d, w));
    case PutRecord(h, i, record) => PutRecordSafe(config, d, h, i, record);
    case PutValue(h, v) => PutValueSafe(config, d, h, v);
    case SeedGenesis(m) => SeedGenesisSafe(config, d, m);
    case _ => OtherWriteSafe(config, d, w);
  }

  ghost predicate TouchesDecidedTables(w: Write) {
    w.PromoteMeta? || w.UpdateMeta? || w.PutRecord? || w.PutValue? || w.SeedGenesis?
  }

  lemma OtherWriteSafe(config: Config, d: Disk, w: Write)
    requires !TouchesDecidedTables(w)
    requires DiskOk(config, d) && Guard(config, d, w)
    ensures DiskOk(config, Apply(d, w)) && Extends(d, Apply(d, w))
  {
    hide ChainOk, CandidatesOk, RecordsOk, InlinesOk, PrunedOk, BlocksOk, BlobsKept, CommittedKept,
         PrunedGone, PayloadKept, HashesKept, MetasExtend, MaxOrZero, Ascending;
    CandidatesGuarded(config, d, w);
    BlocksGuarded(config, d, w);
    PayloadsGuarded(config, d, w);
    BlobsGuarded(config, d, w);
    MetasExtendSame(d.metas);
    PrunedSame(d, Apply(d, w));
    HashesSame(d, Apply(d, w));
  }

  lemma CandidatesGuarded(config: Config, d: Disk, w: Write)
    requires !TouchesDecidedTables(w) && Guard(config, d, w)
    requires CandidatesOk(config.crypto, d.metas, d.undecidedMetas)
    ensures CandidatesOk(config.crypto, d.metas, Apply(d, w).undecidedMetas)
  {
  }

  lemma BlocksGuarded(config: Config, d: Disk, w: Write)
    requires !TouchesDecidedTables(w) && Guard(config, d, w)
    requires BlocksOk(d.metas.Keys, d.values, d.blocks, d.decidedBlocks)
    ensures BlocksOk(d.metas.Keys, d.values, Apply(d, w).blocks, Apply(d, w).decidedBlocks)
    ensures Included(d.decidedBlocks, Apply(d, w).decidedBlocks)
  {
  }

  lemma PayloadsGuarded(config: Config, d: Disk, w: Write)
    requires !TouchesDecidedTables(w) && Guard(config, d, w)
    requires BlocksOk(d.metas.Keys, d.values, d.blocks, d.decidedBlocks)
    ensures PayloadKept(d, Apply(d, w))
  {
  }

  lemma BlobsGuarded(config: Config, d: Disk, w: Write)
    requires !TouchesDecidedTables(w) && Guard(config, d, w)
    ensures BlobsKept(d, Apply(d, w)) && CommittedKept(d, Apply(d, w))
  {
    hide BlobsKept, CommittedKept;
    match w
    case PutBlob(h, r, s) => PutBlobKeeps(d, h, r, s);
    case DeleteBlob(h, r, i) => DeleteBlobKeeps(d, h, r, i);
    case PutDecidedBlob(h, i, s) => PutDecidedBlobKeeps(d, h, i, s);
    case DeleteDecidedBlob(h, i) => DeleteDecidedBlobKeeps(d, h, i);
    case _ => BlobsUntouched(d, Apply(d, w));
  }

  lemma PutBlobKeeps(d: Disk, h: nat, r: Round, s: Sidecar)
    requires !Committed(d, h)
    ensures BlobsKept(d, Apply(d, PutBlob(h, r, s))) && CommittedKept(d, Apply(d, PutBlob(h, r, s)))
  {
  }

  lemma DeleteBlobKeeps(d: Disk, h: nat, r: Round, i: nat)
    ensures BlobsKept(d, Apply(d, DeleteBlob(h, r, i)))
    ensures CommittedKept(d, Apply(d, DeleteBlob(h, r, i)))
  {
  }

  lemma PutDecidedBlobKeeps(d: Disk, h: nat, i: nat, s: Sidecar)
    requires exists r: Round :: (h, r, i) in d.undecided && d.undecided[(h, r, i)] == s
    ensures BlobsKept(d, Apply(d, PutDecidedBlob(h, i, s)))
    ensures CommittedKept(d, Apply(d, PutDecidedBlob(h, i, s)))
  {
  }

  lemma DeleteDecidedBlobKeeps(d: Disk, h: nat, i: nat)
    requires d.Archived(h)
    ensures BlobsKept(d, Apply(d, DeleteDecidedBlob(h, i)))
    ensures CommittedKept(d, Apply(d, DeleteDecidedBlob(h, i)))
  {
    assert Apply(d, DeleteDecidedBlob(h, i)).Archived(h);
  }
}
