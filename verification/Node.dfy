/** The node: what it keeps in memory, and each operation as a function of the state it starts in.

    An operation is a chain of atomic writes with changes of memory between them. `Exec` carries the
    disk, the memory and `points`, the disk after each write so far: the states in which a crash
    inside the operation can leave the node. */
module Node {

  import opened Types
  import opened Ordering
  import opened BlobMetadata
  import opened BlobFamilies
  import opened DiskState

  datatype Memory = Memory(
    currentHeight: nat, currentRound: Round, finalized: nat,
    pendingArchive: set<nat>, pendingPrune: set<nat>, blobRounds: map<nat, set<Round>>,
    cacheRoot: Hash, cacheHeight: nat)
  {
    /** The height up to which pruning is allowed: the larger of the two signals. */
    function Finality(): nat {
      var byProgress := if currentHeight == 0 then 0 else currentHeight - 1;
      if byProgress > finalized then byProgress else finalized
    }

    function Tracked(h: nat): set<Round> {
      if h in blobRounds then blobRounds[h] else {}
    }

    function Track(h: nat, r: Round): Memory {
      this.(blobRounds := blobRounds[h := Tracked(h) + {r}])
    }
  }

  datatype Exec = Exec(disk: Disk, mem: Memory, points: seq<Disk>)

  function Do(x: Exec, w: Write): Exec {
    var d := Apply(x.disk, w);
    x.(disk := d, points := x.points + [d])
  }

  // ----- Archive notices and pruning -----

  datatype Verdict = Record | AlreadyRecorded | Reject

  /** The checks of `handle_archive_notice`, in its order. */
  function Judge(config: Config, d: Disk, n: Notice): (v: Verdict)
    ensures v == Record ==> n.body.height in d.metas && n.body.index < |d.metas[n.body.height].records|
  {
    var h, i := n.body.height, n.body.index;
    if !config.KnowsSigner(n) || h !in d.metas then Reject
    else
      var m := d.Meta(h);
      var proposer := d.ProposerAt(config, h, m.proposerHint);
      if i >= m.blobCount || (proposer.Some? && n.body.archivedBy != proposer.value) then Reject
      else if i >= |m.commitments| || i >= |m.keccaks| || i >= |m.records| then Reject
      else if m.commitments[i] != n.body.commitment then Reject
      else if m.keccaks[i] != ZERO_HASH && m.keccaks[i] != n.body.keccak then Reject
      else if m.IsArchived(i) then
        var existing := m.records[i].value.body;
        if existing.providerId != n.body.providerId || existing.locator != n.body.locator
           || existing.keccak != n.body.keccak
        then Reject else AlreadyRecorded
      else Record
  }

  /** The entry with the notice's hash learned, if it was unknown, and its record filled in. */
  function NoticeMeta(d: Disk, n: Notice): (m: Metadata)
    requires n.body.height in d.metas && n.body.index < |d.metas[n.body.height].records|
    ensures d.metas[n.body.height].SameBlock(m) && m.pruned == d.metas[n.body.height].pruned
    ensures |m.keccaks| == |d.metas[n.body.height].keccaks|
    ensures |m.records| == |d.metas[n.body.height].records|
  {
    d.Meta(n.body.height).UpdateKeccak(n.body.index, n.body.keccak).SetRecord(n)
  }

  /** The two writes of a recorded notice: the record, then the entry. */
  function RecordNotice(x: Exec, n: Notice): Exec
    requires n.body.height in x.disk.metas
    requires n.body.index < |x.disk.metas[n.body.height].records|
  {
    Do(Do(x, PutRecord(n.body.height, n.body.index, n)),
       UpdateMeta(n.body.height, NoticeMeta(x.disk, n)))
  }

  /** `handle_archive_notice`. */
  function HandleNotice(config: Config, x: Exec, n: Notice): Exec {
    if Judge(config, x.disk, n) != Record then x
    else
      var h, m, x2 := n.body.height, NoticeMeta(x.disk, n), RecordNotice(x, n);
      if m.AllArchived() && m.blobCount > 0 then
        var x3 := x2.(mem := x2.mem.(pendingArchive := x2.mem.pendingArchive - {h}));
        if h <= x3.mem.Finality() then PruneHeight(x3, h, m)
        else x3.(mem := x3.mem.(pendingPrune := x3.mem.pendingPrune + {h}))
      else x2
  }

  /** `delete_archived` for indices i..n, one delete at a time. */
  function DeleteBlobs(x: Exec, h: nat, i: nat, n: nat): Exec
    decreases n - i
  {
    if i >= n then x else DeleteBlobs(Do(x, DeleteDecidedBlob(h, i)), h, i + 1, n)
  }

  function PruneHeight(x: Exec, h: nat, m: Metadata): Exec {
    if m.pruned || m.blobCount == 0 then x
    else
      var x1 := DeleteBlobs(x, h, 0, m.blobCount);
      var x2 := Do(x1, UpdateMeta(h, m.MarkPruned()));
      x2.(mem := x2.mem.(pendingArchive := x2.mem.pendingArchive - {h},
                         pendingPrune := x2.mem.pendingPrune - {h}))
  }

  function FlushHeight(x: Exec, h: nat): Exec {
    var x1 := x.(mem := x.mem.(pendingPrune := x.mem.pendingPrune - {h}));
    if h !in x1.disk.metas || x1.disk.Meta(h).blobCount == 0 then x1
    else if x1.disk.Meta(h).AllArchived() then PruneHeight(x1, h, x1.disk.Meta(h))
    else x
  }

  function FlushHeights(x: Exec, heights: seq<nat>): Exec
    decreases |heights|
  {
    if heights == [] then x else FlushHeights(FlushHeight(x, heights[0]), heights[1..])
  }

  /** The heights `flush_pending_prunes` works through, in ascending order. */
  function ReadyHeights(mem: Memory): seq<nat> {
    Ascending(set h | h in mem.pendingPrune && h <= mem.Finality())
  }

  function FlushPrunes(x: Exec): Exec {
    FlushHeights(x, ReadyHeights(x.mem))
  }

  function RehydrateHeight(config: Config, x: Exec, h: nat): Exec {
    if h !in x.disk.metas then x
    else
      var m := x.disk.Meta(h);
      if m.blobCount == 0 || m.pruned then x
      else if !m.AllArchived() then
        if config.archiverEnabled
           && x.disk.ProposerAt(config, h, m.proposerHint) == Some(config.address)
        then x.(mem := x.mem.(pendingArchive := x.mem.pendingArchive + {h}))
        else x
      else if h <= x.mem.Finality() then PruneHeight(x, h, m)
      else x.(mem := x.mem.(pendingPrune := x.mem.pendingPrune + {h}))
  }

  function RehydrateHeights(config: Config, x: Exec, heights: seq<nat>): Exec
    decreases |heights|
  {
    if heights == [] then x
    else RehydrateHeights(config, RehydrateHeight(config, x, heights[0]), heights[1..])
  }

  function Rehydrate(config: Config, x: Exec): Exec {
    var finalized :=
      if x.disk.values.Keys == {} then x.mem.finalized else MaxOrZero(x.disk.values.Keys);
    var x1 := x.(mem := x.mem.(finalized := finalized, pendingArchive := {}, pendingPrune := {}));
    RehydrateHeights(config, x1, Ascending(x1.disk.metas.Keys))
  }

  // ----- Blob engine -----

  function StoreSidecars(x: Exec, h: nat, r: Round, sidecars: seq<Sidecar>): Exec
    decreases |sidecars|
  {
    if sidecars == [] then x
    else StoreSidecars(Do(x, PutBlob(h, r, sidecars[0])), h, r, sidecars[1..])
  }

  /** Moves collected entries: each is written to the decided family, then deleted. */
  function MoveEntries(x: Exec, h: nat, entries: seq<(Round, nat, Sidecar)>): Exec
    decreases |entries|
  {
    if entries == [] then x
    else
      var (r, i, s) := entries[0];
      MoveEntries(Do(Do(x, PutDecidedBlob(h, i, s)), DeleteBlob(h, r, i)), h, entries[1..])
  }

  function PromoteBlobs(x: Exec, h: nat, r: Round): Exec {
    MoveEntries(x, h, Entries(x.disk.undecided, h, RoundsToMove(x.disk.undecided, h, r)))
  }

  function DropEntries(x: Exec, h: nat, entries: seq<(Round, nat, Sidecar)>): Exec
    decreases |entries|
  {
    if entries == [] then x
    else DropEntries(Do(x, DeleteBlob(h, entries[0].0, entries[0].1)), h, entries[1..])
  }

  function DropBlobs(x: Exec, h: nat, r: Round): Exec {
    DropEntries(x, h, RoundEntries(x.disk.undecided, h, r))
  }

  // ----- Round changes -----

  const STALE_ROUND_BLOB_RETENTION := 3

  function CleanRound(x: Exec, h: nat, r: Round): Exec {
    if r < 0 then x
    else
      DropBlobs(Do(Do(Do(x, DeleteUndecidedMeta(h, r)), DeleteProposal(h, r)), DeleteBlock(h, r)), h, r)
  }

  function CleanRounds(x: Exec, h: nat, rounds: seq<Round>): Exec
    decreases |rounds|
  {
    if rounds == [] then x else CleanRounds(CleanRound(x, h, rounds[0]), h, rounds[1..])
  }

  function StaleRounds(mem: Memory, h: nat, current: Round): set<Round> {
    set r | r in mem.Tracked(h) && r < current - STALE_ROUND_BLOB_RETENTION
  }

  /** `cleanup_stale_round_blobs`. */
  function CleanupStale(x: Exec, h: nat, current: Round): Exec {
    if current <= STALE_ROUND_BLOB_RETENTION || StaleRounds(x.mem, h, current) == {} then x
    else
      var stale := StaleRounds(x.mem, h, current);
      var x1 := CleanRounds(x, h, InKeyOrder(stale));
      x1.(mem := x1.mem.(blobRounds := x1.mem.blobRounds[h := x1.mem.Tracked(h) - stale]))
  }

  /** The `StartedRound` handler. */
  function StartRound(x: Exec, h: nat, r: Round): Exec {
    var x1 := if r > 0 then CleanupStale(x, h, r) else x;
    x1.(mem := x1.mem.(currentHeight := h, currentRound := r))
  }

  // ----- Producing candidates -----

  /** The blob hashes of a list of sidecars. */
  function Keccaks(crypto: Crypto, sidecars: Sidecars): (k: seq<Hash>)
    ensures |k| == |sidecars|
  {
    seq<Hash>(|sidecars|, i requires 0 <= i < |sidecars| => crypto.keccak(sidecars[i].blob))
  }

  function CommitmentsOf(sidecars: Sidecars): (c: Commitments)
    ensures |c| == |sidecars|
  {
    seq(|sidecars|, i requires 0 <= i < |sidecars| => sidecars[i].commitment)
  }

  function BundleCommitments(bundle: Bundle): (c: Commitments)
    ensures |c| == |bundle|
  {
    seq(|bundle|, i requires 0 <= i < |bundle| => bundle[i].commitment)
  }

  function BundleKeccaks(crypto: Crypto, bundle: Bundle): (k: seq<Hash>)
    ensures |k| == |bundle|
  {
    seq<Hash>(|bundle|, i requires 0 <= i < |bundle| => crypto.keccak(bundle[i].blob))
  }

  /** The sidecars of a bundle under one signed header, with indices in order. */
  function BuildSidecars(
    crypto: Crypto, bundle: Bundle, header: BeaconHeader, exec: ExecutionHeader): (s: Sidecars)
    ensures |s| == |bundle|
    ensures forall i :: 0 <= i < |s| ==> s[i].index == i && s[i].commitment == bundle[i].commitment
  {
    var commitments := BundleCommitments(bundle);
    var s := seq<Sidecar>(|bundle|, i requires 0 <= i < |bundle| =>
      Sidecar(i, bundle[i].blob, bundle[i].commitment, bundle[i].proof, header,
              crypto.signHeader(header), crypto.proveIncluded(commitments, i, exec)));
    s
  }

  /** `handle_get_value` with `propose_value_with_blobs` and `prepare_blob_sidecar_parts`. */
  function Propose(
    config: Config, x: Exec, h: nat, r: Round, exec: ExecutionHeader, bundle: Bundle,
    payload: Payload): Exec
  {
    if x.disk.BlockData(h, r).Some? then x
    else
      var commitments := BundleCommitments(bundle);
      var x1 := Do(x, PutProposal(h, r, Proposal(Value(exec, commitments), config.address)));
      var index := config.IndexOf(config.address);
      var parent := x1.disk.ParentRoot(config.crypto, h);
      if parent.None? then x1
      else
        var meta := New(
          h, parent.value, commitments, BundleKeccaks(config.crypto, bundle), exec, index);
        var x2 := Do(x1, PutUndecidedMeta(h, r, meta));
        var x3 := if bundle != [] then x2.(mem := x2.mem.Track(h, r)) else x2;
        var x4 := Do(x3, PutBlock(h, r, payload));
        if index.None? then x4
        else
          var header := BeaconHeader(
            h, index.value, parent.value, exec.stateRoot, config.crypto.bodyRoot(commitments, exec));
          var sidecars := BuildSidecars(config.crypto, bundle, header, exec);
          if !config.crypto.kzgValid(sidecars) then x4 else StoreSidecars(x4, h, r, sidecars)
  }

  /** `verify_blob_sidecars`: the conditions under which it returns the common header. */
  predicate SidecarsVerified(
    config: Config, d: Disk, h: nat, proposer: Address, value: Value, sidecars: Sidecars)
  {
    && sidecars != []
    && (forall s :: s in sidecars ==>
          s.header == sidecars[0].header && s.headerSignature == sidecars[0].headerSignature)
    && var header := sidecars[0].header;
    && header.slot == h
    && config.IndexOf(proposer) == Some(header.proposerIndex)
    && header.proposerIndex < |config.validators|
    && config.crypto.headerSigned(
         config.validators[header.proposerIndex].key, header, sidecars[0].headerSignature)
    && |value.commitments| == |sidecars|
    && header.bodyRoot == config.crypto.bodyRoot(value.commitments, value.exec)
    && d.ParentRoot(config.crypto, h) == Some(header.parentRoot)
    && (forall s :: s in sidecars ==>
          && s.index < |value.commitments| && value.commitments[s.index] == s.commitment
          && config.crypto.included(s, header.bodyRoot))
  }

  /** `received_proposal_part` from the point where the stream is complete and its signature
      checked; `assembled` says whether the payload decoded and passed the timestamp rules. */
  function Receive(
    config: Config, x: Exec, h: nat, r: Round, proposer: Address, exec: ExecutionHeader,
    sidecars: Sidecars, payload: Payload, assembled: bool): Exec
  {
    var value := Value(exec, CommitmentsOf(sidecars));
    var hint := config.IndexOf(proposer);
    var parent := x.disk.ParentRoot(config.crypto, h);
    if h < x.mem.currentHeight || !assembled then x
    else if sidecars != []
            && !(SidecarsVerified(config, x.disk, h, proposer, value, sidecars)
                 && config.crypto.kzgValid(sidecars)) then x
    else if parent.None? then x
    else
      var x1 := StoreSidecars(x, h, r, sidecars);
      var meta := New(
        h, if sidecars != [] then sidecars[0].header.parentRoot else parent.value,
        value.commitments, Keccaks(config.crypto, sidecars), exec, hint);
      var x2 := Do(x1, PutUndecidedMeta(h, r, meta));
      var x3 := if sidecars != [] then x2.(mem := x2.mem.Track(h, r)) else x2;
      Do(Do(x3, PutProposal(h, r, Proposal(value, proposer))), PutBlock(h, r, payload))
  }

  /** The metadata a restream starts from: the round's own entry, else the decided one. */
  function MetaForRound(d: Disk, h: nat, r: Round): Option<Metadata> {
    if (h, r) in d.undecidedMetas then Some(d.undecidedMetas[(h, r)])
    else if h in d.metas then Some(d.Meta(h))
    else None
  }

  /** `rebuild_blob_sidecars_for_restream`; `None` is its error. */
  function Rebuild(config: Config, m: Metadata, blobs: seq<Sidecar>): Option<Sidecars> {
    var index := if m.proposerHint.Some? then m.proposerHint else config.IndexOf(config.address);
    if m.blobCount != |blobs| || index.None? || m.blobCount != |m.commitments| then None
    else if exists i :: 0 <= i < |blobs| && blobs[i].commitment != m.commitments[i] then None
    else
      var header := BeaconHeader(
        m.height, index.value, m.parentRoot, m.exec.stateRoot,
        config.crypto.bodyRoot(m.commitments, m.exec));
      Some(seq<Sidecar>(|blobs|, i requires 0 <= i < |blobs| =>
        Sidecar(i, blobs[i].blob, m.commitments[i], blobs[i].proof, header,
                config.crypto.signHeader(header),
                config.crypto.proveIncluded(m.commitments, i, m.exec))))
  }

  /** The `RestreamProposal` handler: replicates a proposal of round `from` into round `r`. */
  function Restream(config: Config, x: Exec, h: nat, r: Round, from: Round): Exec {
    var d := x.disk;
    var meta := MetaForRound(d, h, from);
    if (h, from) !in d.proposals || d.BlockData(h, from).None? || meta.None? || r == from then x
    else
      var pruned := h in d.metas && d.metas[h].pruned && d.metas[h].blobCount > 0;
      var blobs := Listing(RoundBlobs(d.undecided, h, from));
      var noBlobs: Sidecars := [];
      var rebuilt :=
        if meta.value.blobCount == 0 || pruned then Some(noBlobs)
        else if blobs == [] then None
        else Rebuild(config, meta.value, blobs);
      if rebuilt.None? then x
      else
        var p := d.proposals[(h, from)];
        var x1 := Do(x, PutProposal(h, r, p.(proposer := config.address)));
        var x2 := Do(x1, PutBlock(h, r, d.BlockData(h, from).value));
        var x3 := Do(x2, PutUndecidedMeta(h, r, meta.value));
        if !config.crypto.kzgValid(rebuilt.value) then x3 else StoreSidecars(x3, h, r, rebuilt.value)
  }

  // ----- Synchronisation -----

  datatype Package =
    | Full(value: Value, payload: Payload, sidecars: Sidecars, notices: seq<Notice>)
    | MetadataOnly(value: Value, notices: seq<Notice>, payloadOpt: Option<Payload>)

  predicate DistinctIndices(sidecars: seq<Sidecar>) {
    forall i, j :: 0 <= i < j < |sidecars| ==> sidecars[i].index != sidecars[j].index
  }

  predicate MatchesValue(value: Value, sidecars: seq<Sidecar>) {
    forall s :: s in sidecars ==>
      s.index < |value.commitments| && value.commitments[s.index] == s.commitment
  }

  function HandleNotices(config: Config, x: Exec, notices: seq<Notice>): Exec
    decreases |notices|
  {
    if notices == [] then x
    else HandleNotices(config, HandleNotice(config, x, notices[0]), notices[1..])
  }

  /** Hashes for blobs that were pruned at the peer, taken from the notices that came along. */
  function NoticeKeccaks(hashes: seq<Hash>, notices: seq<Notice>): (r: seq<Hash>)
    ensures |r| == |hashes|
    decreases |notices|
  {
    if notices == [] then hashes
    else
      var b := notices[0].body;
      NoticeKeccaks(if b.index < |hashes| then hashes[b.index := b.keccak] else hashes, notices[1..])
  }

  /** Stores and promotes the metadata of a synced height and moves the cache to it. */
  function AdoptMeta(config: Config, x: Exec, h: nat, r: Round, meta: Metadata): Exec {
    var x1 := Do(Do(x, PutUndecidedMeta(h, r, meta)), PromoteMeta(h, r));
    x1.(mem := x1.mem.(cacheRoot := meta.HeaderRoot(config.crypto), cacheHeight := h))
  }

  /** The entry a package is stored under; `None` where it cannot be built. */
  function SyncedMeta(config: Config, d: Disk, h: nat, proposer: Address, package: Package)
    : (m: Option<Metadata>)
    ensures m.Some? ==>
      m.value.height == h && m.value.Valid() && m.value.Fresh()
      && d.ParentRoot(config.crypto, h) == Some(m.value.parentRoot)
  {
    var parent, hint := d.ParentRoot(config.crypto, h), config.IndexOf(proposer);
    var value := package.value;
    if parent.None? then None
    else if package.MetadataOnly? then
      var zeros := seq(|value.commitments|, _ => ZERO_HASH);
      Some(New(h, parent.value, value.commitments, NoticeKeccaks(zeros, package.notices), value.exec,
               hint))
    else if |value.commitments| != |package.sidecars| then None
    else
      Some(New(h, parent.value, value.commitments, Keccaks(config.crypto, package.sidecars),
               value.exec, hint))
  }

  /** `process_synced_package`. The flag tells whether the package was accepted. */
  function Sync(config: Config, x: Exec, h: nat, r: Round, proposer: Address, package: Package)
    : (Exec, bool)
  {
    match package
    case Full(value, payload, sidecars, notices) =>
      var x1 := Do(x, PutBlock(h, r, payload));
      if sidecars != [] && !config.crypto.kzgValid(sidecars) then (x1, false)
      else
        var x2 := StoreSidecars(x1, h, r, sidecars);
        if sidecars != [] && (|value.commitments| != |sidecars| || !DistinctIndices(sidecars)) then
          (DropBlobs(x2, h, r), false)
        else if sidecars != [] && !MatchesValue(value, sidecars) then
          (Do(DropBlobs(x2, h, r), DeleteUndecidedMeta(h, r)), false)
        else if sidecars != [] && !SidecarsVerified(config, x2.disk, h, proposer, value, sidecars) then
          (DropBlobs(x2, h, r), false)
        else
          var x3 := if sidecars != [] then PromoteBlobs(x2, h, r) else x2;
          var parent := x3.disk.ParentRoot(config.crypto, h);
          if parent.None? then (x3, false)
          else if sidecars != [] && sidecars[0].header.parentRoot != parent.value then
            (Do(DropBlobs(x3, h, r), DeleteUndecidedMeta(h, r)), false)
          else
            var meta := SyncedMeta(config, x3.disk, h, proposer, package);
            if meta.None? then (x3, false)
            else
              var x4 := AdoptMeta(config, x3, h, r, meta.value);
              var x5 := Do(x4, PutProposal(h, r, Proposal(value, proposer)));
              (HandleNotices(config, x5, notices), true)
    case MetadataOnly(value, notices, payload) =>
      if payload.None? then (HandleNotices(config, x, notices), false)
      else
        var x1 := Do(x, PutBlock(h, r, payload.value));
        var meta := SyncedMeta(config, x1.disk, h, proposer, package);
        if meta.None? then (x1, false)
        else
          var x2 := HandleNotices(config, AdoptMeta(config, x1, h, r, meta.value), notices);
          (Do(x2, PutProposal(h, r, Proposal(value, proposer))), true)
  }

  // ----- Deciding a height -----

  /** What happens outside the node: the payload may not decode, the execution layer may refuse. */
  datatype ElOutcome = BadPayload | Refused | Accepted

  function HashesOf(crypto: Crypto, commitments: seq<Commitment>): (r: seq<Hash>)
    ensures |r| == |commitments|
  {
    seq<Hash>(|commitments|, i requires 0 <= i < |commitments| => crypto.versionedHash(commitments[i]))
  }

  function SidecarHashes(crypto: Crypto, sidecars: seq<Sidecar>): (r: seq<Hash>)
    ensures |r| == |sidecars|
  {
    seq<Hash>(|sidecars|, i requires 0 <= i < |sidecars| => crypto.versionedHash(sidecars[i].commitment))
  }

  /** The blob hashes a decided block must be backed by. */
  function ExpectedHashes(crypto: Crypto, d: Disk, h: nat, r: Round, payload: Payload): seq<Hash> {
    if payload.blobHashes == [] && (h, r) in d.proposals
    then HashesOf(crypto, d.proposals[(h, r)].value.commitments)
    else payload.blobHashes
  }

  /** The blobs a decided block is checked against: the round's, else the decided ones. */
  function CandidateBlobs(d: Disk, h: nat, r: Round): seq<Sidecar> {
    var undecided := Listing(RoundBlobs(d.undecided, h, r));
    if undecided != [] then undecided else Listing(HeightBlobs(d.decided, h))
  }

  function Cache(config: Config, x: Exec, h: nat, m: Metadata): Exec {
    x.(mem := x.mem.(cacheRoot := m.HeaderRoot(config.crypto), cacheHeight := h))
  }

  /** The height below which `commit` prunes undecided data. */
  function RetainHeight(config: Config, mem: Memory, h: nat): nat {
    var window := if config.retentionWindow > 1 then config.retentionWindow else 1;
    var floor := if h >= window - 1 then h - (window - 1) else 0;
    var pending := Ascending(mem.pendingArchive);
    if pending != [] && pending[0] < floor then pending[0] else floor
  }

  function DropOrphan(x: Exec, h: nat, r: Round): Exec {
    if r < 0 then x else DropBlobs(Do(x, DeleteUndecidedMeta(h, r)), h, r)
  }

  function DropOrphans(x: Exec, h: nat, rounds: seq<Round>): Exec
    decreases |rounds|
  {
    if rounds == [] then x else DropOrphans(DropOrphan(x, h, rounds[0]), h, rounds[1..])
  }

  /** The end of `commit`: finality, pruning, next height. */
  function Finish(x: Exec, h: nat): Exec {
    var x1 := x.(mem := x.mem.(finalized := if h > x.mem.finalized then h else x.mem.finalized));
    var x2 := FlushPrunes(x1);
    var next := if x2.mem.currentHeight > h + 1 then x2.mem.currentHeight else h + 1;
    x2.(mem := x2.mem.(currentHeight := next, currentRound := 0))
  }

  function CommitFirst(config: Config, x: Exec, h: nat, r: Round): (Exec, bool)
    requires (h, r) in x.disk.proposals
  {
    var p := x.disk.proposals[(h, r)];
    var x1 := Do(x, PutValue(h, DecidedValue(p.value, r)));
    var x2 := Do(x1, PutConsensus(h, ConsensusMetadata(r, p.proposer, p.value.exec.blockHash)));
    if (h, r) !in x2.disk.undecidedMetas && h !in x2.disk.metas then (x2, false)
    else
      var x3 := Do(x2, PromoteMeta(h, r));
      var x4 := Cache(config, x3, h, x3.disk.Meta(h));
      var data := x4.disk.BlockData(h, r);
      var x5 := if data.Some? then Do(x4, PutDecidedBlock(h, data.value)) else x4;
      var x6 := Do(x5, PruneBelow(RetainHeight(config, x5.mem, h)));
      var x7 := DropOrphans(x6, h, InKeyOrder(x6.mem.Tracked(h) - {r}));
      (Finish(x7.(mem := x7.mem.(blobRounds := x7.mem.blobRounds - {h})), h), true)
  }

  /** `commit` when the decided value is already there and the proposal is gone. */
  function CommitReplay(config: Config, x: Exec, h: nat, r: Round): (Exec, bool) {
    var x1 := PromoteBlobs(x, h, r);
    var x2 :=
      if h in x1.disk.metas then Cache(config, x1, h, x1.disk.Meta(h))
      else if (h, r) in x1.disk.undecidedMetas then
        Cache(config, Do(x1, PromoteMeta(h, r)), h, x1.disk.undecidedMetas[(h, r)])
      else x1;
    (Finish(x2, h), true)
  }

  function Commit(config: Config, x: Exec, h: nat, r: Round): (Exec, bool) {
    if (h, r) in x.disk.proposals then CommitFirst(config, x, h, r)
    else if h in x.disk.values then CommitReplay(config, x, h, r)
    else (x, false)
  }

  /** The indices `build_archive_job` lists: decided blobs without an archive record. */
  function JobIndices(d: Disk, h: nat): set<nat> {
    if h in d.metas && d.metas[h].blobCount > 0
    then set i | i in HeightIndices(d.decided, h) && (h, i) !in d.records
    else {}
  }

  /** The blob part of the decision: the hashes expected and whether stored blobs back them. */
  predicate BlobsBack(crypto: Crypto, d: Disk, h: nat, r: Round, hashes: seq<Hash>) {
    hashes != [] ==> SidecarHashes(crypto, CandidateBlobs(d, h, r)) == hashes
  }

  /** Validated blobs came from the decided family, so they need no promotion. */
  predicate AlreadyDecided(d: Disk, h: nat, r: Round, hashes: seq<Hash>) {
    hashes != [] && RoundIndices(d.undecided, h, r) == {} && HeightIndices(d.decided, h) != {}
  }

  /** The `Decided` handler with `process_decided_certificate`. */
  function Decide(config: Config, x: Exec, h: nat, r: Round, el: ElOutcome): (Exec, bool) {
    var data := x.disk.BlockData(h, r);
    if data.None? || data.value.ssz == [] || el == BadPayload then (x, false)
    else
      var hashes := ExpectedHashes(config.crypto, x.disk, h, r, data.value);
      if !BlobsBack(config.crypto, x.disk, h, r, hashes) then (x, false)
      else
        var x1 := if AlreadyDecided(x.disk, h, r, hashes) then x else PromoteBlobs(x, h, r);
        if el == Refused then (x1, false)
        else
          var (x2, ok) := Commit(config, x1, h, r);
          if ok && hashes != [] && config.archiverEnabled && (h, r) in x2.disk.proposals
             && x2.disk.proposals[(h, r)].proposer == config.address
             && JobIndices(x2.disk, h) != {}
          then (x2.(mem := x2.mem.(pendingArchive := x2.mem.pendingArchive + {h})), true)
          else (x2, ok)
  }

  // ----- Start-up -----

  /** `Height::default()`, the height a node assumes before consensus names one. */
  const START_HEIGHT := 1

  /** `State::new`. */
  const FRESH_MEMORY := Memory(START_HEIGHT, 0, 0, {}, {}, map[], ZERO_HASH, 0)

  function DeleteMetas(x: Exec, keys: seq<Round>): Exec
    decreases |keys|
  {
    if keys == [] then x else DeleteMetas(Do(x, DeleteUndecidedMeta(0, keys[0])), keys[1..])
  }

  /** `hydrate_blob_parent_root`: load the newest entry or seed the genesis entry. */
  function HydrateCache(config: Config, x: Exec): Exec {
    if x.disk.latest.Some? && x.disk.latest.value in x.disk.metas then
      Cache(config, x, x.disk.latest.value, x.disk.Meta(x.disk.latest.value))
    else
      var genesis := Genesis(config.genesisExec);
      Cache(config, Do(x, SeedGenesis(genesis)), 0, genesis)
  }

  /** `cleanup_stale_blob_metadata` with the start height 1: entries of height 0 are removed. */
  function CleanupStaleMetas(x: Exec): Exec {
    DeleteMetas(x, InKeyOrder(set k | k in x.disk.undecidedMetas && k.0 < START_HEIGHT :: k.1))
  }

  function Restart(config: Config, d: Disk): Exec {
    Rehydrate(config, CleanupStaleMetas(HydrateCache(config, Exec(d, FRESH_MEMORY, []))))
  }
}
