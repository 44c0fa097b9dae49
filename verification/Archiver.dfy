/** Archive jobs: what a job lists and what processing one sends. */
module ArchiveJobs {

  import opened Types
  import opened Ordering
  import opened BlobFamilies
  import opened DiskState
  import opened Node

  datatype Job = Job(
    height: nat, round: Round, indices: seq<U16Nat>, commitments: seq<Commitment>,
    keccaks: seq<Hash>, versionedHashes: seq<Hash>)

  /** Each decided blob is stored under its own index: what the blob store keeps. */
  ghost predicate KeysMatch(d: Decided) {
    forall k :: k in d ==> d[k].index == k.1
  }

  /** A job lists, in ascending order, exactly the decided blobs of the height that have no archive
      record, each with the commitment and hashes of the stored blob. */
  ghost predicate Lists(config: Config, d: Disk, h: nat, r: Round, job: Job) {
    && job.height == h && job.round == r
    && StrictlyIncreasing(job.indices)
    && (forall i :: i in job.indices <==> i in JobIndices(d, h))
    && |job.commitments| == |job.indices| && |job.keccaks| == |job.indices|
    && |job.versionedHashes| == |job.indices|
    && (forall k :: 0 <= k < |job.indices| ==> Describes(config, d, h, job, k))
  }

  ghost predicate Describes(config: Config, d: Disk, h: nat, job: Job, k: nat)
    requires k < |job.indices| && |job.commitments| == |job.indices|
    requires |job.keccaks| == |job.indices| && |job.versionedHashes| == |job.indices|
  {
    && (h, job.indices[k]) in d.decided
    && var s := d.decided[(h, job.indices[k])];
    && job.commitments[k] == s.commitment
    && job.keccaks[k] == config.crypto.keccak(s.blob)
    && job.versionedHashes[k] == config.crypto.versionedHash(s.commitment)
  }

  /** The part of a job that the first `n` listed blobs give. */
  ghost predicate Partly(config: Config, d: Disk, h: nat, listed: seq<nat>, n: nat, job: Job)
    requires n <= |listed|
  {
    && StrictlyIncreasing(job.indices)
    && (forall i :: i in job.indices <==> i in listed[..n] && (h, i) !in d.records)
    && |job.commitments| == |job.indices| && |job.keccaks| == |job.indices|
    && |job.versionedHashes| == |job.indices|
    && (forall k :: 0 <= k < |job.indices| ==> Describes(config, d, h, job, k))
  }

  function Extended(config: Config, job: Job, s: Sidecar): Job {
    job.(indices := job.indices + [s.index],
         commitments := job.commitments + [s.commitment],
         keccaks := job.keccaks + [config.crypto.keccak(s.blob)],
         versionedHashes := job.versionedHashes + [config.crypto.versionedHash(s.commitment)])
  }

  lemma PartlyNext(config: Config, d: Disk, h: nat, listed: seq<nat>, n: nat, job: Job, s: Sidecar)
    requires n < |listed| && StrictlyIncreasing(listed)
    requires Partly(config, d, h, listed, n, job)
    requires (h, listed[n]) in d.decided && d.decided[(h, listed[n])] == s && s.index == listed[n]
    ensures (h, s.index) !in d.records ==>
      Partly(config, d, h, listed, n + 1, Extended(config, job, s))
    ensures (h, s.index) in d.records ==> Partly(config, d, h, listed, n + 1, job)
  {
    assert listed[..n + 1] == listed[..n] + [listed[n]];
    if (h, s.index) !in d.records {
      var more := Extended(config, job, s);
      assert forall k :: 0 <= k < |job.indices| ==> job.indices[k] in job.indices;
      forall k | 0 <= k < |more.indices| ensures Describes(config, d, h, more, k) {
        if k < |job.indices| { assert Describes(config, d, h, job, k); }
      }
    }
  }

  /** `build_archive_job`. */
  method BuildArchiveJob(config: Config, d: Disk, h: nat, r: Round) returns (job: Option<Job>)
    requires KeysMatch(d.decided)
    ensures job.Some? <==> JobIndices(d, h) != {}
    ensures job.Some? ==> Lists(config, d, h, r, job.value)
  {
    hide Ascending, Partly, Lists, Describes, Listing, HeightBlobs, HeightIndices;
    if h !in d.metas || d.metas[h].blobCount == 0 { return None; }
    hide JobIndices;
    var blobs := Listing(HeightBlobs(d.decided, h));
    ghost var listed := Ascending(HeightIndices(d.decided, h));
    ListedBlobs(d.decided, h);
    var built := Job(h, r, [], [], [], []);
    PartlyNone(config, d, h, listed, built);
    for n := 0 to |blobs|
      invariant built.height == h && built.round == r
      invariant Partly(config, d, h, listed, n, built)
    {
      PartlyNext(config, d, h, listed, n, built, blobs[n]);
      if (h, blobs[n].index) !in d.records {
        built := Extended(config, built, blobs[n]);
      }
    }
    PartlyAll(config, d, h, listed, built);
    job := if built.indices == [] then None else Some(built);
  }

  lemma ListedBlobs(d: Decided, h: nat)
    ensures var listed := Ascending(HeightIndices(d, h));
            var blobs := Listing(HeightBlobs(d, h));
            && |blobs| == |listed|
            && forall n :: 0 <= n < |listed| ==>
                 (h, listed[n]) in d && blobs[n] == d[(h, listed[n])]
  {
    hide Ascending;
    assert HeightBlobs(d, h).Keys == HeightIndices(d, h);
    var listed := Ascending(HeightIndices(d, h));
    assert forall n :: 0 <= n < |listed| ==> listed[n] in listed;
  }

  lemma PartlyNone(config: Config, d: Disk, h: nat, listed: seq<nat>, job: Job)
    requires job.indices == [] && job.commitments == [] && job.keccaks == []
    requires job.versionedHashes == []
    ensures Partly(config, d, h, listed, 0, job)
  {
  }

  lemma PartlyAll(config: Config, d: Disk, h: nat, listed: seq<nat>, job: Job)
    requires h in d.metas && d.metas[h].blobCount > 0
    requires forall i :: i in listed <==> i in HeightIndices(d.decided, h)
    requires Partly(config, d, h, listed, |listed|, job) && job.height == h
    ensures Lists(config, d, h, job.round, job)
    ensures job.indices == [] <==> JobIndices(d, h) == {}
  {
    assert listed[..|listed|] == listed;
    assert forall i :: i in job.indices <==> i in JobIndices(d, h);
    if job.indices != [] {
      assert job.indices[0] in JobIndices(d, h);
    }
    if JobIndices(d, h) != {} {
      var i :| i in JobIndices(d, h);
      assert i in job.indices;
    }
  }

  // ----- Processing a job -----

  /** The worker's identity: its address, the provider it uploads to and its notice signature. */
  datatype Identity = Identity(
    address: Address, providerId: string, sign: NoticeBody -> Signature)

  function NoticeFor(who: Identity, job: Job, k: nat, locator: string, now: nat): Notice
    requires k < |job.indices| && k < |job.commitments| && k < |job.keccaks|
  {
    var body := NoticeBody(job.height, job.round, job.indices[k], job.commitments[k],
                           job.keccaks[k], who.providerId, locator, who.address, now);
    Notice(body, who.sign(body))
  }

  predicate Aligned(job: Job) {
    && |job.commitments| == |job.indices| && |job.keccaks| == |job.indices|
    && |job.versionedHashes| == |job.indices|
  }

  /** The first sidecar with the index. */
  function Find(sidecars: seq<Sidecar>, index: U16Nat): (s: Option<Sidecar>)
    ensures s.Some? ==> s.value in sidecars && s.value.index == index
    ensures s.None? ==> forall t :: t in sidecars ==> t.index != index
  {
    if sidecars == [] then None
    else if sidecars[0].index == index then Some(sidecars[0])
    else Find(sidecars[1..], index)
  }

  /** Blob `k` of the job is stored, its upload succeeds and its notice is delivered. */
  ghost predicate Goes(
    job: Job, sidecars: seq<Sidecar>, upload: (nat, Bytes) -> Option<string>,
    deliver: nat -> bool, k: nat)
    requires k < |job.indices|
  {
    var s := Find(sidecars, job.indices[k]);
    s.Some? && upload(job.indices[k], s.value.blob).Some? && deliver(k)
  }

  /** The notice says of blob `k` of the job where this worker's provider has it, and is signed. */
  ghost predicate Announces(
    who: Identity, job: Job, k: nat, locator: string, now: nat, n: Notice)
    requires k < |job.indices| && Aligned(job)
  {
    && n.body.height == job.height && n.body.round == job.round && n.body.index == job.indices[k]
    && n.body.commitment == job.commitments[k] && n.body.keccak == job.keccaks[k]
    && n.body.providerId == who.providerId && n.body.locator == locator
    && n.body.archivedBy == who.address && n.body.archivedAt == now
    && n.signature == who.sign(n.body)
  }

  method FindSidecar(sidecars: seq<Sidecar>, index: U16Nat) returns (s: Option<Sidecar>)
    ensures s == Find(sidecars, index)
  {
    assert sidecars[0..] == sidecars;
    for at := 0 to |sidecars|
      invariant Find(sidecars[at..], index) == Find(sidecars, index)
    {
      assert sidecars[at..][0] == sidecars[at] && sidecars[at..][1..] == sidecars[at + 1..];
      if sidecars[at].index == index { return Some(sidecars[at]); }
    }
    s := None;
  }

  /** `process_job`: notices are sent in job order until the first failure, and the job succeeds
      exactly when there is none. Notice `k` carries the locator that the upload of the blob with its
      index returned. */
  method ProcessJob(
    who: Identity, job: Job, sidecars: seq<Sidecar>, upload: (nat, Bytes) -> Option<string>,
    deliver: nat -> bool, now: nat) returns (ok: bool, notices: seq<Notice>)
    ensures ok <==> Aligned(job) && sidecars != []
                    && forall k :: 0 <= k < |job.indices| ==> Goes(job, sidecars, upload, deliver, k)
    ensures |notices| <= |job.indices|
    ensures notices != [] ==> Aligned(job)
    ensures forall k :: 0 <= k < |notices| ==>
      Goes(job, sidecars, upload, deliver, k)
      && var blob := Find(sidecars, job.indices[k]).value.blob;
         Announces(who, job, k, upload(job.indices[k], blob).value, now, notices[k])
    ensures ok ==> |notices| == |job.indices|
    ensures !ok && Aligned(job) && sidecars != [] ==>
      |notices| < |job.indices| && !Goes(job, sidecars, upload, deliver, |notices|)
  {
    notices := [];
    if !Aligned(job) || sidecars == [] { return false, []; }
    for k := 0 to |job.indices|
      invariant |notices| == k
      invariant forall j :: 0 <= j < k ==>
        Goes(job, sidecars, upload, deliver, j)
        && var blob := Find(sidecars, job.indices[j]).value.blob;
           Announces(who, job, j, upload(job.indices[j], blob).value, now, notices[j])
    {
      var s := FindSidecar(sidecars, job.indices[k]);
      if s.None? {
        assert !Goes(job, sidecars, upload, deliver, k);
        return false, notices;
      }
      var locator := upload(job.indices[k], s.value.blob);
      if locator.None? || !deliver(k) {
        assert !Goes(job, sidecars, upload, deliver, k);
        return false, notices;
      }
      notices := notices + [NoticeFor(who, job, k, locator.value, now)];
    }
    ok := true;
  }

  /** For the job of a height, the blob uploaded under an index is the decided blob of that index, whose
      hash the notice announces. */
  lemma UploadsDecided(config: Config, d: Disk, h: nat, r: Round, job: Job, k: nat)
    requires KeysMatch(d.decided) && Lists(config, d, h, r, job) && k < |job.indices|
    ensures var s := Find(Listing(HeightBlobs(d.decided, h)), job.indices[k]);
            && s.Some? && (h, job.indices[k]) in d.decided
            && s.value == d.decided[(h, job.indices[k])]
            && job.keccaks[k] == config.crypto.keccak(s.value.blob)
            && job.commitments[k] == s.value.commitment
  {
    hide Ascending, Listing, Find, HeightBlobs;
    assert Describes(config, d, h, job, k);
    var i, listed := job.indices[k], Ascending(HeightIndices(d.decided, h));
    var blobs := Listing(HeightBlobs(d.decided, h));
    ListedBlobs(d.decided, h);
    assert i in HeightIndices(d.decided, h);
    var n :| 0 <= n < |listed| && listed[n] == i;
    assert blobs[n] in blobs && blobs[n].index == i;
    var s := Find(blobs, i);
    var m :| 0 <= m < |blobs| && blobs[m] == s.value;
    assert listed[m] == i;
  }
}

/** The archiver worker: jobs are processed, and failed ones wait in a retry queue. */
module Archiver {

  import opened Types
  import opened Merkle
  import opened ArchiveJobs

  const MAX_RETRY_BACKOFF_MS := 60000

  const MAX_DOUBLINGS := 16

  datatype RetryEntry = RetryEntry(job: Job, attempts: nat, retryAt: nat)

  function Min(a: nat, b: nat): nat {
    if a < b then a else b
  }

  /** Exponential backoff in milliseconds: at least one, at most a minute. */
  function Backoff(base: nat, attempts: nat): (ms: nat)
    ensures 1 <= ms <= MAX_RETRY_BACKOFF_MS
  {
    var first := if base == 0 then 1 else base;
    Grows(first, Pow2(Min(attempts, MAX_DOUBLINGS)));
    Min(first * Pow2(Min(attempts, MAX_DOUBLINGS)), MAX_RETRY_BACKOFF_MS)
  }

  lemma Grows(a: nat, b: nat)
    requires a >= 1 && b >= 1
    ensures a * b >= 1
  {
  }

  /** The first delay is the configured one, and each further failure doubles it up to a minute: the bound
      on the exponent never shows. */
  lemma BackoffDoubles(base: nat, attempts: nat)
    ensures Backoff(base, 0) == Min(if base == 0 then 1 else base, MAX_RETRY_BACKOFF_MS)
    ensures Backoff(base, attempts + 1) == Min(2 * Backoff(base, attempts), MAX_RETRY_BACKOFF_MS)
  {
    var first := if base == 0 then 1 else base;
    if attempts < MAX_DOUBLINGS {
      DoublesMin(first, Pow2(attempts));
    } else {
      FullDelay(first);
    }
  }

  lemma DoublesMin(a: nat, b: nat)
    ensures Min(a * (2 * b), MAX_RETRY_BACKOFF_MS)
            == Min(2 * Min(a * b, MAX_RETRY_BACKOFF_MS), MAX_RETRY_BACKOFF_MS)
  {
    assert a * (2 * b) == 2 * (a * b);
  }

  lemma FullDelay(first: nat)
    requires first >= 1
    ensures Min(first * Pow2(MAX_DOUBLINGS), MAX_RETRY_BACKOFF_MS) == MAX_RETRY_BACKOFF_MS
  {
    assert Pow2(8) == 256;
    assert Pow2(12) == 4096;
    assert Pow2(MAX_DOUBLINGS) == 65536;
    AtLeast(first, Pow2(MAX_DOUBLINGS));
  }

  lemma AtLeast(a: nat, b: nat)
    requires a >= 1
    ensures a * b >= b
  {
  }

  ghost function Queued(queue: seq<RetryEntry>): multiset<Job> {
    if queue == [] then multiset{} else multiset{queue[0].job} + Queued(queue[1..])
  }

  lemma {:induction false} QueuedJoin(a: seq<RetryEntry>, b: seq<RetryEntry>)
    ensures Queued(a + b) == Queued(a) + Queued(b)
    decreases |a|
  {
    if a == [] {
      assert a + b == b;
    } else {
      assert (a + b)[1..] == a[1..] + b;
      QueuedJoin(a[1..], b);
    }
  }

  lemma {:induction false} NothingQueued(queue: seq<RetryEntry>)
    ensures Queued(queue) == multiset{} <==> queue == []
  {
    if queue != [] { assert queue[0].job in Queued(queue); }
  }

  /** How many waiting entries are due. */
  ghost function Due(queue: seq<RetryEntry>, now: nat): nat {
    if queue == [] then 0
    else (if queue[0].retryAt <= now then 1 else 0) + Due(queue[1..], now)
  }

  lemma {:induction false} DueJoin(a: seq<RetryEntry>, b: seq<RetryEntry>, now: nat)
    ensures Due(a + b, now) == Due(a, now) + Due(b, now)
    decreases |a|
  {
    if a == [] {
      assert a + b == b;
    } else {
      assert (a + b)[1..] == a[1..] + b;
      DueJoin(a[1..], b, now);
    }
  }

  /** What the worker is woken by: a new job, the retry timer, or the closing of the channel. */
  datatype Wake = NewJob(job: Job) | Timer | Closed

  /** The outside world: the outcome and the clock reading of the n-th job attempt. */
  datatype World = World(succeeds: nat -> bool, clock: nat -> nat)

  /** The clock never runs backwards. */
  ghost predicate Monotone(w: World) {
    forall i, j :: 0 <= i <= j ==> w.clock(i) <= w.clock(j)
  }

  ghost function JobsIn(wakes: seq<Wake>): multiset<Job> {
    if wakes == [] then multiset{}
    else JobsIn(wakes[..|wakes| - 1])
         + match wakes[|wakes| - 1] { case NewJob(job) => multiset{job} case _ => multiset{} }
  }

  class ArchiverWorker {

    const base: nat
    var queue: seq<RetryEntry>
    var attempted: nat
    ghost var received: multiset<Job>
    ghost var succeeded: multiset<Job>

    /** Every job received has succeeded or waits to be retried, once each. */
    ghost predicate Conserved()
      reads this
    {
      received == succeeded + Queued(queue)
    }

    constructor (base: nat)
      ensures Conserved() && queue == [] && received == multiset{}
    {
      this.base := base;
      queue, attempted, received, succeeded := [], 0, multiset{}, multiset{};
    }

    /** `process_with_retry`: a failed job goes to the back of the queue, later than now. */
    method ProcessWithRetry(w: World, job: Job, attempts: nat)
      modifies this
      ensures attempted == old(attempted) + 1 && received == old(received)
      ensures w.succeeds(old(attempted)) ==>
        succeeded == old(succeeded) + multiset{job} && queue == old(queue)
      ensures !w.succeeds(old(attempted)) ==>
        && succeeded == old(succeeded)
        && queue == old(queue) + [RetryEntry(job, attempts + 1,
                                             w.clock(old(attempted)) + Backoff(base, attempts))]
      ensures succeeded + Queued(queue) == old(succeeded) + old(Queued(queue)) + multiset{job}
    {
      if w.succeeds(attempted) {
        succeeded := succeeded + multiset{job};
      } else {
        var entry := RetryEntry(job, attempts + 1, w.clock(attempted) + Backoff(base, attempts));
        QueuedJoin(queue, [entry]);
        assert [entry][1..] == [];
        assert Queued([entry]) == multiset{job};
        queue := queue + [entry];
      }
      attempted := attempted + 1;
    }

    /** The retry loop at the head of `run`: it works through the due entries at the front, and ends
        because a retried job is never due again at once. */
    method RetryDue(w: World, now: nat)
      requires Conserved() && Monotone(w) && now <= w.clock(attempted)
      modifies this
      ensures Conserved() && received == old(received) && attempted >= old(attempted)
      ensures queue != [] ==> queue[0].retryAt > now
    {
      while queue != [] && queue[0].retryAt <= now
        invariant Conserved() && received == old(received) && attempted >= old(attempted)
        invariant now <= w.clock(attempted)
        decreases Due(queue, now)
      {
        ghost var n, before := attempted, queue;
        var entry := queue[0];
        queue := queue[1..];
        ProcessWithRetry(w, entry.job, entry.attempts);
        assert w.clock(n) <= w.clock(attempted);
        if !w.succeeds(n) {
          ghost var back := queue[|queue| - 1];
          DueJoin(before[1..], [back], now);
          assert [back][1..] == [];
        }
      }
    }

    /** One turn of `run`: due retries first, then what woke the worker. */
    method Turn(w: World, now: nat, wake: Wake) returns (stop: bool)
      requires Conserved() && Monotone(w) && now <= w.clock(attempted)
      modifies this
      ensures Conserved() && attempted >= old(attempted)
      ensures received == old(received)
                          + (if wake.NewJob? then multiset{wake.job} else multiset{})
      ensures stop ==> queue == [] && wake.Closed?
    {
      RetryDue(w, now);
      stop := false;
      match wake {
        case NewJob(job) =>
          received := received + multiset{job};
          ProcessWithRetry(w, job, 0);
        case Timer =>
        case Closed => stop := queue == [];
      }
    }

    /** `run` over any sequence of wake-ups: no job is lost or duplicated, and the worker stops only
        when every job it received has succeeded. */
    method Run(w: World, wakes: seq<Wake>) returns (stopped: bool, turns: nat)
      requires Conserved() && Monotone(w)
      modifies this
      ensures turns <= |wakes|
      ensures received == succeeded + Queued(queue)
      ensures received == old(received) + JobsIn(wakes[..turns])
      ensures stopped ==> queue == [] && succeeded == received
      ensures !stopped ==> turns == |wakes|
    {
      turns := 0;
      stopped := false;
      while turns < |wakes| && !stopped
        invariant turns <= |wakes| && Conserved()
        invariant received == old(received) + JobsIn(wakes[..turns])
        invariant stopped ==> queue == []
        decreases |wakes| - turns
      {
        assert wakes[..turns + 1][..turns] == wakes[..turns];
        stopped := Turn(w, w.clock(attempted), wakes[turns]);
        turns := turns + 1;
      }
      NothingQueued(queue);
    }
  }
}

/** From a committed height through its archive job to pruning, and jobs after a restart. */
module ArchiveFlow {

  import opened Types
  import opened Ordering
  import opened BlobMetadata
  import opened BlobFamilies
  import opened DiskState
  import opened DiskInvariant
  import opened Node
  import opened NodeSafety
  import opened NodeMemory
  import opened NodeRuns
  import opened ArchiveCompletion
  import opened ArchiveJobs
  import opened BlobKeys
  import opened KeyedFamilies

  /** What the byte-keyed store guarantees of its decided family. */
  lemma StoreKeysMatch(m: Family)
    requires DecidedOk(m)
    ensures KeysMatch(Decideds(m))
  {
    hide DecidedKey, FromDecidedKey, Decideds;
    forall t | t in Decideds(m) ensures Decideds(m)[t].index == t.1 {
      DecidedsAt(m, t.0, t.1);
      DecidedKeyCodec(t.0, t.1, []);
    }
  }

  /** The decided blobs of the height carry the commitments and hashes of its metadata. */
  ghost predicate Backed(config: Config, d: Disk, h: nat) {
    h in d.metas && d.metas[h].Valid()
    && forall i: nat :: i < d.metas[h].blobCount && (h, i) in d.decided ==>
         && d.decided[(h, i)].commitment == d.metas[h].commitments[i]
         && d.metas[h].keccaks[i] in {ZERO_HASH, config.crypto.keccak(d.decided[(h, i)].blob)}
  }

  /** The same of the blobs that have no archive record yet. */
  ghost predicate OwedBacked(config: Config, d: Disk, h: nat) {
    h in d.metas && d.metas[h].Valid()
    && forall i: nat :: i < d.metas[h].blobCount && (h, i) in d.decided && (h, i) !in d.records ==>
         && d.decided[(h, i)].commitment == d.metas[h].commitments[i]
         && d.metas[h].keccaks[i] in {ZERO_HASH, config.crypto.keccak(d.decided[(h, i)].blob)}
  }

  /** A settled height stays backed as far as it still owes records: its blobs are the same, and its
      hashes change only along with a record. */
  lemma BackedStays(config: Config, a: Disk, b: Disk, h: nat)
    requires Extends(a, b) && DiskOk(config, b) && Settled(a, h) && OwedBacked(config, a, h)
    ensures OwedBacked(config, b, h)
  {
    hide CandidatesOk, RecordsOk, InlinesOk, PrunedOk, BlocksOk, MaxOrZero, BlobsKept, CommittedKept,
         PrunedGone, PayloadKept, Settled;
    SettledStays(a, b, h);
    assert h in a.metas && MetaExtends(a.metas[h], b.metas[h]);
    assert b.metas[h].Valid() by { assert ChainOk(config.crypto, b.metas, b.latest); }
    forall i: nat | i < b.metas[h].blobCount && (h, i) in b.decided && (h, i) !in b.records
      ensures b.decided[(h, i)].commitment == b.metas[h].commitments[i]
      ensures b.metas[h].keccaks[i] in {ZERO_HASH, config.crypto.keccak(b.decided[(h, i)].blob)}
    {
      assert HashKept(a, b, h, i);
      assert (h, i) !in a.records;
    }
  }

  /** The node's own notices verify under its validator key. */
  ghost predicate Recognised(config: Config, who: Identity) {
    && who.address == config.address
    && forall body: NoticeBody :: body.archivedBy == config.address ==>
         config.KnowsSigner(Notice(body, who.sign(body)))
  }

  /** `n` is a notice for entry `k` of the job, for some locator and time. */
  ghost predicate NoticeOf(who: Identity, job: Job, k: nat, n: Notice)
    requires Aligned(job) && k < |job.indices|
  {
    Announces(who, job, k, n.body.locator, n.body.archivedAt, n)
  }

  /** A notice for an entry of the height's job passes every check. */
  lemma JobNoticeWelcome(
    config: Config, d: Disk, who: Identity, h: nat, r: Round, job: Job, k: nat, n: Notice)
    requires Lists(config, d, h, r, job) && k < |job.indices| && NoticeOf(who, job, k, n)
    requires OwedBacked(config, d, h) && Recognised(config, who)
    requires job.indices[k] < d.metas[h].blobCount
    requires d.ProposerAt(config, h, d.metas[h].proposerHint) in {None, Some(config.address)}
    ensures Welcome(config, d, n)
  {
    hide Config.KnowsSigner, Disk.ProposerAt;
    assert Describes(config, d, h, job, k);
    assert job.indices[k] in job.indices;
  }

  /** Archiving completes, over every run: when the job of a locally proposed height has succeeded and
      each of its notices is handled at some later step, in any order, with any other events, crashes
      and restarts in between, every index is archived; and every later running state in which the
      height is final has it pruned, with its bytes gone if it was settled when the job was built. */
  lemma JobCompletes(
    config: Config, run: seq<State>, events: seq<Option<Event>>, i: nat, j: nat, who: Identity,
    h: nat, r: Round, job: Job, notices: seq<Notice>)
    requires IsTrace(config, run, events) && i <= j < |run| && run[j].Running?
    requires OwedBacked(config, run[i].disk, h) && run[i].disk.metas[h].blobCount > 0
    requires forall k: nat :: k < run[i].disk.metas[h].blobCount ==>
      (h, k) in run[i].disk.decided || (h, k) in run[i].disk.records
    requires Recognised(config, who)
    requires forall m :: i <= m <= j ==> MayArchive(config, run[m].disk, h, config.address)
    requires Lists(config, run[i].disk, h, r, job) && |notices| == |job.indices|
    requires forall k :: 0 <= k < |notices| ==> NoticeOf(who, job, k, notices[k])
    requires forall n :: n in notices ==> HandledSince(run, events, i, j, n)
    ensures var d, mem := run[j].disk, run[j].mem;
            && d.Archived(h) && d.metas[h].blobCount == run[i].disk.metas[h].blobCount
            && (h <= mem.Finality() ==> d.metas[h].pruned && h !in mem.pendingPrune)
            && (h <= mem.Finality() && Unsoiled(run[i].disk, h) ==> Gone(d, h))
  {
    hide IsTrace, IsRun, NoticeOf, MayArchive, Recognised, Describes, Unsoiled, Gone, Welcome;
    TraceIsRun(config, run, events);
    var a, d := run[i].disk, run[j].disk;
    RunExtends(config, run, i, j);
    BlockOf(a, d, h);
    forall k: nat | k < d.metas[h].blobCount ensures (h, k) in d.records {
      if (h, k) in a.records {
        KeptRecord(a, d, h, k);
      } else {
        assert k in JobIndices(a, h);
        var p :| 0 <= p < |job.indices| && job.indices[p] == k;
        assert notices[p] in notices;
        NoticeNames(who, job, p, notices[p]);
        MayArchiveNow(config, a, h, config.address);
        JobNoticeWelcome(config, a, who, h, r, job, p, notices[p]);
        OwnNotice(config, who, job, p, notices[p]);
        WelcomeIsHandled(config, run, events, i, j, notices[p]);
      }
    }
    NoticesComplete(config, run, events, i, j, h);
  }

  /** The address may archive the height: its proposer is unknown or has this address. */
  ghost predicate MayArchive(config: Config, d: Disk, h: nat, archiver: Address) {
    h in d.metas ==> d.ProposerAt(config, h, d.metas[h].proposerHint) in {None, Some(archiver)}
  }

  lemma MayArchiveNow(config: Config, d: Disk, h: nat, archiver: Address)
    requires MayArchive(config, d, h, archiver) && h in d.metas
    ensures d.ProposerAt(config, h, d.metas[h].proposerHint) in {None, Some(archiver)}
  {
  }

  ghost predicate HandledSince(
    run: seq<State>, events: seq<Option<Event>>, i: nat, j: nat, n: Notice)
  {
    exists m: nat :: i <= m < j && HandledAt(run, events, m, n)
  }

  lemma BlockOf(a: Disk, b: Disk, h: nat)
    requires Extends(a, b) && h in a.metas
    ensures h in b.metas && b.metas[h].blobCount == a.metas[h].blobCount
  {
    hide BlobsKept, CommittedKept, PrunedGone, PayloadKept, HashesKept;
    assert MetaExtends(a.metas[h], b.metas[h]);
  }

  lemma KeptRecord(a: Disk, b: Disk, h: nat, k: nat)
    requires Extends(a, b) && (h, k) in a.records
    ensures (h, k) in b.records
  {
    hide BlobsKept, CommittedKept, PrunedGone, PayloadKept, HashesKept, MetasExtend;
  }

  /** A notice that is welcome in state `i` and handled later on leaves its index recorded. */
  lemma WelcomeIsHandled(
    config: Config, run: seq<State>, events: seq<Option<Event>>, i: nat, j: nat, n: Notice)
    requires IsTrace(config, run, events) && i <= j < |run|
    requires Welcome(config, run[i].disk, n) && HandledSince(run, events, i, j, n)
    requires forall m :: i <= m <= j ==>
      MayArchive(config, run[m].disk, n.body.height, n.body.archivedBy)
    ensures Recorded(run[j].disk, n)
  {
    hide IsTrace, IsRun, Welcome, DiskOk, MemOk, Extends, Disk.ProposerAt;
    TraceIsRun(config, run, events);
    var m: nat :| i <= m < j && HandledAt(run, events, m, n);
    RunExtends(config, run, i, m);
    RunSound(config, run, m);
    WelcomeStays(config, run[i].disk, run[m].disk, n);
    HandledIsRecorded(config, run, events, m, j, n);
  }

  lemma OwnNotice(config: Config, who: Identity, job: Job, k: nat, n: Notice)
    requires Aligned(job) && k < |job.indices| && NoticeOf(who, job, k, n)
    requires Recognised(config, who)
    ensures n.body.archivedBy == config.address
  {
  }

  lemma NoticeNames(who: Identity, job: Job, k: nat, n: Notice)
    requires Aligned(job) && k < |job.indices| && NoticeOf(who, job, k, n)
    ensures n.body.height == job.height && n.body.index == job.indices[k]
  {
  }

  // ----- Jobs after a restart -----

  function RoundOf(d: Disk, h: nat): Option<Round> {
    if h in d.consensus then Some(d.consensus[h].round)
    else if h in d.values then Some(d.values[h].round)
    else None
  }

  predicate HintNames(config: Config, d: Disk, h: nat)
    requires h in d.metas
  {
    d.metas[h].proposerHint.Some?
    && config.AddressAt(d.metas[h].proposerHint.value) == Some(config.address)
  }

  /** The heights for which start-up rebuilds a job. */
  ghost predicate Recovers(config: Config, d: Disk, h: nat) {
    && h in d.metas && d.metas[h].blobCount > 0 && !d.metas[h].pruned && !d.Meta(h).AllArchived()
    && RoundOf(d, h).Some? && HintNames(config, d, h)
    && JobIndices(d, h) != {}
  }

  /** One job for every height of the list that calls for one, in ascending order. */
  ghost predicate JobsFor(config: Config, d: Disk, heights: seq<nat>, jobs: seq<Job>) {
    && (forall j :: 0 <= j < |jobs| ==> JobFor(config, d, jobs[j]) && jobs[j].height in heights)
    && (forall h :: h in heights && Recovers(config, d, h) ==> HasJob(jobs, h))
    && (forall i, j :: 0 <= i < j < |jobs| ==> jobs[i].height < jobs[j].height)
  }

  ghost predicate JobFor(config: Config, d: Disk, job: Job) {
    && Recovers(config, d, job.height)
    && Lists(config, d, job.height, RoundOf(d, job.height).value, job)
  }

  ghost predicate HasJob(jobs: seq<Job>, h: nat) {
    exists j :: 0 <= j < |jobs| && jobs[j].height == h
  }

  /** `recover_pending_archive_jobs`. */
  method RecoverPendingArchiveJobs(config: Config, d: Disk) returns (jobs: seq<Job>)
    requires KeysMatch(d.decided)
    ensures JobsFor(config, d, Ascending(d.metas.Keys), jobs)
  {
    hide Ascending, JobsFor, KeysMatch, Recovers, JobFor;
    jobs := [];
    var heights := Ascending(d.metas.Keys);
    NoJobs(config, d);
    assert heights[..0] == [];
    for n := 0 to |heights|
      invariant JobsFor(config, d, heights[..n], jobs)
    {
      var job := RecoverAt(config, d, heights[n]);
      NextJob(config, d, heights, n, jobs, job);
      if job.Some? {
        jobs := jobs + [job.value];
      }
    }
    assert heights[..|heights|] == heights;
  }

  method RecoverAt(config: Config, d: Disk, h: nat) returns (job: Option<Job>)
    requires KeysMatch(d.decided)
    ensures job.Some? <==> Recovers(config, d, h)
    ensures job.Some? ==> job.value.height == h && JobFor(config, d, job.value)
  {
    hide KeysMatch, JobIndices, Disk.Meta, Metadata.AllArchived, Config.AddressAt;
    if h !in d.metas || d.metas[h].blobCount == 0 || d.metas[h].pruned { return None; }
    var m := d.Meta(h);
    if m.AllArchived() || RoundOf(d, h).None? || !HintNames(config, d, h) { return None; }
    job := BuildArchiveJob(config, d, h, RoundOf(d, h).value);
  }

  lemma NoJobs(config: Config, d: Disk)
    ensures JobsFor(config, d, [], [])
  {
  }

  lemma NextJob(
    config: Config, d: Disk, heights: seq<nat>, n: nat, jobs: seq<Job>, job: Option<Job>)
    requires n < |heights| && StrictlyIncreasing(heights)
    requires JobsFor(config, d, heights[..n], jobs)
    requires job.Some? <==> Recovers(config, d, heights[n])
    requires job.Some? ==> job.value.height == heights[n] && JobFor(config, d, job.value)
    ensures JobsFor(config, d, heights[..n + 1], if job.Some? then jobs + [job.value] else jobs)
  {
    hide Recovers, JobFor, HasJob;
    var h, before := heights[n], heights[..n];
    assert heights[..n + 1] == before + [h];
    assert forall g :: g in before ==> g < h;
    if job.Some? {
      forall g | HasJob(jobs, g) || g == h ensures HasJob(jobs + [job.value], g) {
        JobAdded(jobs, job.value, g);
      }
    }
  }

  lemma JobAdded(jobs: seq<Job>, job: Job, h: nat)
    requires HasJob(jobs, h) || h == job.height
    ensures HasJob(jobs + [job], h)
  {
    var after := jobs + [job];
    if HasJob(jobs, h) {
      var j :| 0 <= j < |jobs| && jobs[j].height == h;
      assert after[j].height == h;
    } else {
      assert after[|jobs|].height == h;
    }
  }

  /** Start-up leaves no owed height behind: a height with all its blobs is waiting for its archive
      exactly when a job is rebuilt for it, as long as its proposer and round are on record. */
  lemma OwedIsRecovered(config: Config, d: Disk, h: nat)
    requires DiskOk(config, d) && config.archiverEnabled && h in d.metas
    requires HintNames(config, d, h) && RoundOf(d, h).Some?
    requires forall i: nat :: i < d.metas[h].blobCount ==> (h, i) in d.decided
    ensures OwesNow(config, d, h) <==> Recovers(config, d, h)
  {
    hide DiskOk;
    HydratedFacts(config, d, h);
    if OwesNow(config, d, h) {
      var i :| 0 <= i < d.metas[h].blobCount && (h, i) !in d.records;
      assert i in JobIndices(d, h);
    }
  }
}
