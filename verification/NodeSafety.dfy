/** Every write of every operation is guarded, so the durable invariant holds at each point where a
    crash can fall, and each such point extends the decided data the operation started from. */
module NodeSafety {

  import opened Types
  import opened Ordering
  import opened BlobMetadata
  import opened BlobFamilies
  import opened DiskState
  import opened DiskInvariant
  import opened Node

  ghost predicate PointOk(config: Config, base: Disk, d: Disk) {
    DiskOk(config, d) && Extends(base, d)
  }

  ghost predicate Safe(config: Config, base: Disk, x: Exec) {
    PointOk(config, base, x.disk) && forall p :: p in x.points ==> PointOk(config, base, p)
  }

  lemma DoSafe(config: Config, base: Disk, x: Exec, w: Write)
    requires Safe(config, base, x) && Guard(config, x.disk, w)
    ensures Safe(config, base, Do(x, w))
  {
    hide DiskOk, Extends, Guard, Apply;
    WriteSafe(config, x.disk, w);
    ExtendsTransitive(base, x.disk, Apply(x.disk, w));
  }

  // ----- Archive notices and pruning -----

  lemma DeleteBlobsSafe(config: Config, base: Disk, x: Exec, h: nat, i: nat, n: nat)
    requires Safe(config, base, x) && (i < n ==> x.disk.Archived(h))
    ensures Safe(config, base, DeleteBlobs(x, h, i, n))
    decreases n - i
  {
    hide Safe;
    if i < n {
      DoSafe(config, base, x, DeleteDecidedBlob(h, i));
      DeleteBlobsSafe(config, base, Do(x, DeleteDecidedBlob(h, i)), h, i + 1, n);
    }
  }

  /** Deleting a height's blobs touches only the decided family, and removes exactly i..n. */
  lemma DeleteBlobsEffect(x: Exec, h: nat, i: nat, n: nat)
    ensures var y := DeleteBlobs(x, h, i, n);
            && y.mem == x.mem
            && y.disk == x.disk.(decided := y.disk.decided)
            && forall k :: k in y.disk.decided <==> k in x.disk.decided && !(k.0 == h && i <= k.1 < n)
    ensures var y := DeleteBlobs(x, h, i, n);
            forall k :: k in y.disk.decided ==> y.disk.decided[k] == x.disk.decided[k]
    decreases n - i
  {
    if i < n {
      DeleteBlobsEffect(Do(x, DeleteDecidedBlob(h, i)), h, i + 1, n);
    }
  }

  lemma UpdateOkFrame(a: Disk, b: Disk, h: nat, m: Metadata)
    requires h in a.metas && UpdateOk(a, h, m)
    requires b.metas == a.metas && b.records == a.records && b.values == a.values
    ensures UpdateOk(b, h, m)
  {
  }

  lemma PruneHeightSafe(config: Config, base: Disk, x: Exec, h: nat, m: Metadata)
    requires Safe(config, base, x) && h in x.disk.metas
    requires UpdateOk(x.disk, h, m.MarkPruned()) && x.disk.Archived(h)
    requires m.blobCount == x.disk.metas[h].blobCount && m.keccaks == x.disk.metas[h].keccaks
    ensures Safe(config, base, PruneHeight(x, h, m))
  {
    hide Safe, UpdateOk, DeleteBlobs;
    if !m.pruned && m.blobCount != 0 {
      DeleteBlobsSafe(config, base, x, h, 0, m.blobCount);
      DeleteBlobsEffect(x, h, 0, m.blobCount);
      var y := DeleteBlobs(x, h, 0, m.blobCount);
      assert Gone(y.disk, h);
      UpdateOkFrame(x.disk, y.disk, h, m.MarkPruned());
      DoSafe(config, base, y, UpdateMeta(h, m.MarkPruned()));
      SafeMemory(config, base, Do(y, UpdateMeta(h, m.MarkPruned())), PruneHeight(x, h, m));
    }
  }

  lemma SafeMemory(config: Config, base: Disk, x: Exec, y: Exec)
    requires Safe(config, base, x) && y.disk == x.disk && y.points == x.points
    ensures Safe(config, base, y)
  {
  }

  /** A fully archived entry at or below the highest decided value may be marked pruned. */
  lemma HydratedPrunable(config: Config, d: Disk, h: nat)
    requires DiskOk(config, d) && h in d.metas && d.Meta(h).AllArchived()
    requires h <= MaxOrZero(d.values.Keys)
    ensures UpdateOk(d, h, d.Meta(h).MarkPruned()) && d.Archived(h)
  {
    hide MaxOrZero, Ascending, ChainOk, CandidatesOk, PrunedOk, BlocksOk;
    HydratedFacts(config, d, h);
  }

  /** Filling in the record table only adds what the table holds. */
  lemma HydratedFacts(config: Config, d: Disk, h: nat)
    requires DiskOk(config, d) && h in d.metas
    ensures var m := d.Meta(h);
            && m.Valid() && InlineOk(h, m, d.records) && MetaExtends(d.metas[h], m)
            && (forall i: nat :: m.IsArchived(i) <==> i < m.blobCount && (h, i) in d.records)
            && (m.AllArchived() <==> d.Archived(h))
  {
    hide MaxOrZero, Ascending, CandidatesOk, PrunedOk, BlocksOk;
    var was, m := d.metas[h], d.Meta(h);
    assert was.Valid() by { assert ChainOk(config.crypto, d.metas, d.latest); }
    assert InlineOk(h, was, d.records);
    forall i | 0 <= i < |m.records| && m.records[i].Some?
      ensures (h, i) in d.records && d.records[(h, i)] == m.records[i].value
      ensures m.records[i].value.body.index == i
    {
      assert RecordOk(config, h, i, was, d.records[(h, i)]);
    }
  }

  ghost predicate FinalityBound(x: Exec) {
    x.mem.Finality() <= MaxOrZero(x.disk.values.Keys)
  }

  /** What a recorded notice brings: a valid record and a valid new entry. */
  lemma NoticeFacts(config: Config, d: Disk, n: Notice)
    requires DiskOk(config, d) && Judge(config, d, n) == Record
    ensures var h, i := n.body.height, n.body.index;
            var m := NoticeMeta(d, n);
            && Guard(config, d, PutRecord(h, i, n))
            && var d1 := d.(records := d.records[(h, i) := n]);
            && UpdateOk(d1, h, m)
            && (m.AllArchived() <==> d1.Archived(h))
            && (forall j :: 0 <= j < |m.keccaks| ==>
                  || m.keccaks[j] == d.metas[h].keccaks[j]
                  || (&& j == i && d.metas[h].keccaks[j] == ZERO_HASH
                      && m.keccaks[j] == n.body.keccak))
  {
    hide MaxOrZero, Ascending, ChainOk, CandidatesOk, BlocksOk;
    var h, i := n.body.height, n.body.index;
    HydratedFacts(config, d, h);
    var was := d.Meta(h);
    var m := NoticeMeta(d, n);
    assert !was.IsArchived(i);
    var d1 := d.(records := d.records[(h, i) := n]);
    assert forall j: nat :: j != i ==> m.IsArchived(j) == was.IsArchived(j);
    assert InlineOk(h, m, d1.records);
  }

  /** The two writes of a notice. Only the second learns a hash, and it does so together with the first:
      between them the record is there and the hash is not. */
  lemma RecordNoticeSafe(config: Config, base: Disk, x: Exec, n: Notice)
    requires Safe(config, base, x) && Judge(config, x.disk, n) == Record
    ensures Safe(config, base, RecordNotice(x, n))
  {
    hide DiskOk, Extends, UpdateOk, Judge, NoticeMeta, Apply;
    var h, i, m := n.body.height, n.body.index, NoticeMeta(x.disk, n);
    RecordedDisk(x.disk, h, i, n);
    NoticeFacts(config, x.disk, n);
    DoSafe(config, base, x, PutRecord(h, i, n));
    LearnSafe(config, x.disk, h, i, n, m);
    ExtendsTransitive(
      base, x.disk, Apply(Apply(x.disk, PutRecord(h, i, n)), UpdateMeta(h, m)));
  }

  lemma RecordedDisk(d: Disk, h: nat, i: nat, record: ArchiveRecord)
    ensures Apply(d, PutRecord(h, i, record)) == d.(records := d.records[(h, i) := record])
  {
  }

  lemma PruneNoticeSafe(config: Config, base: Disk, x: Exec, y: Exec, n: Notice)
    requires DiskOk(config, x.disk) && Judge(config, x.disk, n) == Record
    requires NoticeMeta(x.disk, n).AllArchived()
    requires n.body.height <= MaxOrZero(x.disk.values.Keys)
    requires Safe(config, base, y) && y.disk == RecordNotice(x, n).disk
    ensures Safe(config, base, PruneHeight(y, n.body.height, NoticeMeta(x.disk, n)))
  {
    hide Safe, DiskOk, UpdateOk, MaxOrZero, Ascending, Judge, PruneHeight, NoticeMeta,
         Metadata.AllArchived;
    var h, i, m := n.body.height, n.body.index, NoticeMeta(x.disk, n);
    NoticeFacts(config, x.disk, n);
    StoredPrunable(config, x.disk.(records := x.disk.records[(h, i) := n]), h, m);
    PruneHeightSafe(config, base, y, h, m);
  }

  lemma HandleNoticeSafe(config: Config, base: Disk, x: Exec, n: Notice)
    requires Safe(config, base, x) && FinalityBound(x)
    ensures Safe(config, base, HandleNotice(config, x, n))
  {
    hide Safe, DiskOk, MaxOrZero, Ascending, Judge, PruneHeight, NoticeMeta, Metadata.AllArchived,
         RecordNotice;
    if Judge(config, x.disk, n) == Record {
      var h, m, x2 := n.body.height, NoticeMeta(x.disk, n), RecordNotice(x, n);
      RecordNoticeSafe(config, base, x, n);
      RecordedMemory(x, n);
      if m.AllArchived() && m.blobCount > 0 {
        var x3 := x2.(mem := x2.mem.(pendingArchive := x2.mem.pendingArchive - {h}));
        SafeMemory(config, base, x2, x3);
        if h <= x3.mem.Finality() {
          SafeDisk(config, base, x);
          PruneNoticeSafe(config, base, x, x3, n);
        } else {
          SafeMemory(config, base, x3, HandleNotice(config, x, n));
        }
      }
    }
  }

  lemma RecordedMemory(x: Exec, n: Notice)
    requires n.body.height in x.disk.metas
    requires n.body.index < |x.disk.metas[n.body.height].records|
    ensures RecordNotice(x, n).mem == x.mem && RecordNotice(x, n).disk.values == x.disk.values
  {
  }

  lemma SafeDisk(config: Config, base: Disk, x: Exec)
    requires Safe(config, base, x)
    ensures DiskOk(config, x.disk)
  {
  }

  lemma StoredPrunable(config: Config, d: Disk, h: nat, m: Metadata)
    requires h in d.metas && UpdateOk(d, h, m) && d.Archived(h) && h <= MaxOrZero(d.values.Keys)
    ensures var d' := Apply(d, UpdateMeta(h, m));
            UpdateOk(d', h, m.MarkPruned()) && d'.Archived(h)
  {
    hide MaxOrZero, Ascending;
  }
}
