/** The chain of blob headers binds: what one header root fixes of all entries below it. */
module HeaderChain {

  import opened Types
  import opened Ordering
  import opened BlobMetadata
  import opened DiskState
  import opened DiskInvariant
  import opened Node
  import opened NodeRuns

  /** No two headers and no two bodies share a root. */
  ghost predicate CollisionFree(crypto: Crypto) {
    && (forall a, b :: crypto.headerRoot(a) == crypto.headerRoot(b) ==> a == b)
    && (forall c, e, c', e' :: crypto.bodyRoot(c, e) == crypto.bodyRoot(c', e') ==> c == c' && e == e')
  }

  /** Two nodes compute the same functions, except that each signs with its own key. */
  ghost predicate SameRules(a: Crypto, b: Crypto) {
    b == a.(signHeader := b.signHeader)
  }

  /** The proposer index a header carries: a missing hint counts as 0. */
  function HintIndex(m: Metadata): nat {
    if m.proposerHint.Some? then m.proposerHint.value else 0
  }

  /** All that a header is built from. */
  ghost predicate SameHeader(a: Metadata, b: Metadata) {
    && a.height == b.height && a.parentRoot == b.parentRoot && a.commitments == b.commitments
    && a.exec == b.exec && HintIndex(a) == HintIndex(b)
  }

  /** Equal header roots mean equal height, parent root, state root, commitments and proposer index. */
  lemma RootsBind(crypto: Crypto, a: Metadata, b: Metadata)
    requires CollisionFree(crypto)
    ensures a.HeaderRoot(crypto) == b.HeaderRoot(crypto) <==> SameHeader(a, b)
  {
    if a.HeaderRoot(crypto) == b.HeaderRoot(crypto) {
      assert a.ToBeaconHeader(crypto) == b.ToBeaconHeader(crypto);
      assert crypto.bodyRoot(a.commitments, a.exec) == crypto.bodyRoot(b.commitments, b.exec);
    }
  }

  lemma SameRoot(a: Crypto, b: Crypto, m: Metadata)
    requires SameRules(a, b)
    ensures m.HeaderRoot(a) == m.HeaderRoot(b)
  {
  }

  /** Two sound stores with the same header root at a height agree on every entry up to it. */
  lemma {:induction false} ChainsAgree(a: Config, b: Config, d: Disk, e: Disk, h: nat, g: nat)
    requires SameRules(a.crypto, b.crypto) && CollisionFree(a.crypto)
    requires DiskOk(a, d) && DiskOk(b, e) && h in d.metas && h in e.metas && g <= h
    requires d.metas[h].HeaderRoot(a.crypto) == e.metas[h].HeaderRoot(b.crypto)
    ensures g in d.metas && g in e.metas && SameHeader(d.metas[g], e.metas[g])
    decreases h - g
  {
    hide DiskOk, CollisionFree, Metadata.HeaderRoot;
    if g == h {
      SameRoot(a.crypto, b.crypto, e.metas[h]);
      RootsBind(a.crypto, d.metas[h], e.metas[h]);
    } else {
      ChainsAgree(a, b, d, e, h, g + 1);
      LinkedBelow(a, d, g + 1);
      LinkedBelow(b, e, g + 1);
      SameRoot(a.crypto, b.crypto, e.metas[g]);
      RootsBind(a.crypto, d.metas[g], e.metas[g]);
    }
  }

  lemma LinkedBelow(config: Config, d: Disk, h: nat)
    requires DiskOk(config, d) && h in d.metas && h > 0
    ensures h - 1 in d.metas
            && d.metas[h].parentRoot == d.metas[h - 1].HeaderRoot(config.crypto)
  {
    hide CandidatesOk, RecordsOk, InlinesOk, PrunedOk, BlocksOk, Metadata.HeaderRoot;
    assert ParentOk(config.crypto, d.metas, h, d.metas[h]);
  }

  /** Two nodes, at any moments of any runs of theirs, whose entries of one height have the same header
      root have the same decided headers at every height up to it. */
  lemma NodesAgree(
    a: Config, b: Config, run: seq<State>, other: seq<State>, i: nat, j: nat, h: nat, g: nat)
    requires SameRules(a.crypto, b.crypto) && CollisionFree(a.crypto)
    requires IsRun(a, run) && i < |run| && IsRun(b, other) && j < |other|
    requires h in run[i].disk.metas && h in other[j].disk.metas && g <= h
    requires run[i].disk.metas[h].HeaderRoot(a.crypto) == other[j].disk.metas[h].HeaderRoot(b.crypto)
    ensures g in run[i].disk.metas && g in other[j].disk.metas
            && SameHeader(run[i].disk.metas[g], other[j].disk.metas[g])
  {
    hide IsRun, DiskOk, CollisionFree, Metadata.HeaderRoot, SameHeader;
    RunSound(a, run, i);
    RunSound(b, other, j);
    ChainsAgree(a, b, run[i].disk, other[j].disk, h, g);
  }
}
