/** Inclusion proofs for KZG commitments: 13 siblings up the commitment list, whose length is mixed
    in as the last one, then 4 siblings up the block body. */
module Merkle {

  import opened Types

  /** The foreign hash functions: a pair of nodes, a commitment as a leaf, a length as a node. */
  datatype Hasher = Hasher(pair: (Hash, Hash) -> Hash, leaf: Commitment -> Hash, length: nat -> Hash)

  /** `MAX_BLOB_COMMITMENTS_PER_BLOCK`. */
  const MAX_COMMITMENTS := 4096
  const COMMITMENTS_DEPTH := 12
  const BODY_DEPTH := 4
  const BLOB_KZG_COMMITMENTS_INDEX := 11
  const PROOF_DEPTH := 17

  function Pow2(n: nat): (p: nat)
    ensures p > 0
  {
    if n == 0 then 1 else 2 * Pow2(n - 1)
  }

  function Step(hasher: Hasher, value: Hash, sibling: Hash, index: nat): Hash {
    if index % 2 == 1 then hasher.pair(sibling, value) else hasher.pair(value, sibling)
  }

  /** The root that a branch leads to, taking one index bit per sibling, lowest first. */
  function Fold(hasher: Hasher, value: Hash, branch: seq<Hash>, index: nat): Hash
    decreases |branch|
  {
    if branch == [] then value
    else Fold(hasher, Step(hasher, value, branch[0], index), branch[1..], index / 2)
  }

  /** `merkle_root_from_branch`. */
  method MerkleRootFromBranch(hasher: Hasher, leaf: Hash, branch: seq<Hash>, start: nat)
    returns (value: Hash)
    ensures value == Fold(hasher, leaf, branch, start)
  {
    value := leaf;
    var index := start;
    for k := 0 to |branch|
      invariant Fold(hasher, value, branch[k..], index) == Fold(hasher, leaf, branch, start)
    {
      assert branch[k..][1..] == branch[k + 1..];
      if index % 2 == 1 {
        value := hasher.pair(branch[k], value);
      } else {
        value := hasher.pair(value, branch[k]);
      }
      index := index / 2;
    }
  }

  // ----- The fold -----

  lemma HalfShift(i: nat, k: nat, p: nat)
    ensures (i + k * (2 * p)) % 2 == i % 2
    ensures (i + k * (2 * p)) / 2 == i / 2 + k * p
  {
    assert k * (2 * p) == 2 * (k * p);
  }

  /** A branch of length n reads only the n lowest bits of the index. */
  lemma {:induction false} FoldLowBits(
    hasher: Hasher, value: Hash, branch: seq<Hash>, index: nat, k: nat)
    ensures Fold(hasher, value, branch, index + k * Pow2(|branch|)) == Fold(hasher, value, branch, index)
    decreases |branch|
  {
    if branch != [] {
      var p := Pow2(|branch| - 1);
      HalfShift(index, k, p);
      FoldLowBits(hasher, Step(hasher, value, branch[0], index), branch[1..], index / 2, k);
    }
  }

  /** The index after n steps of a fold. */
  function Shift(index: nat, n: nat): nat
    decreases n
  {
    if n == 0 then index else Shift(index / 2, n - 1)
  }

  lemma {:induction false} ShiftDropsLowBits(i: nat, k: nat, n: nat)
    requires i < Pow2(n)
    ensures Shift(i + k * Pow2(n), n) == k
    decreases n
  {
    if n > 0 {
      HalfShift(i, k, Pow2(n - 1));
      ShiftDropsLowBits(i / 2, k, n - 1);
    }
  }

  /** Folding in two stages is one fold. */
  lemma {:induction false} FoldStages(
    hasher: Hasher, value: Hash, a: seq<Hash>, b: seq<Hash>, index: nat)
    ensures Fold(hasher, value, a + b, index)
            == Fold(hasher, Fold(hasher, value, a, index), b, Shift(index, |a|))
    decreases |a|
  {
    if a == [] {
      assert a + b == b;
    } else {
      assert (a + b)[0] == a[0] && (a + b)[1..] == a[1..] + b;
      FoldStages(hasher, Step(hasher, value, a[0], index), a[1..], b, index / 2);
    }
  }

  lemma FoldLast(hasher: Hasher, value: Hash, branch: seq<Hash>, sibling: Hash, index: nat)
    ensures Fold(hasher, value, branch + [sibling], index)
            == Step(hasher, Fold(hasher, value, branch, index), sibling, Shift(index, |branch|))
  {
    FoldStages(hasher, value, branch, [sibling], index);
    var v, i := Fold(hasher, value, branch, index), Shift(index, |branch|);
    assert [sibling][1..] == [];
    assert Fold(hasher, v, [sibling], i) == Fold(hasher, Step(hasher, v, sibling, i), [], i / 2);
  }

  /** Two pairs with the same hash are the same pair. */
  ghost predicate Injective(hasher: Hasher) {
    forall a, b, c, d :: hasher.pair(a, b) == hasher.pair(c, d) ==> a == c && b == d
  }

  /** Under an injective hash, equal roots at equal index and depth force equal leaf and branch. */
  lemma {:induction false} FoldInjective(
    hasher: Hasher, v: Hash, a: seq<Hash>, w: Hash, b: seq<Hash>, index: nat)
    requires Injective(hasher) && |a| == |b|
    requires Fold(hasher, v, a, index) == Fold(hasher, w, b, index)
    ensures v == w && a == b
    decreases |a|
  {
    if a != [] {
      FoldInjective(
        hasher, Step(hasher, v, a[0], index), a[1..], Step(hasher, w, b[0], index), b[1..],
        index / 2);
      assert a == [a[0]] + a[1..] && b == [b[0]] + b[1..];
    }
  }

  lemma FoldNothing(hasher: Hasher, value: Hash, index: nat)
    ensures Fold(hasher, value, [], index) == value
  {
  }

  // ----- Perfect trees -----

  /** The root of a perfect tree of the given depth. */
  function Root(hasher: Hasher, leaves: seq<Hash>, depth: nat): Hash
    requires |leaves| == Pow2(depth)
  {
    if depth == 0 then leaves[0]
    else
      var half := Pow2(depth - 1);
      hasher.pair(Root(hasher, leaves[..half], depth - 1), Root(hasher, leaves[half..], depth - 1))
  }

  /** The siblings from a leaf up to the root. */
  function Branch(hasher: Hasher, leaves: seq<Hash>, depth: nat, index: nat): (b: seq<Hash>)
    requires |leaves| == Pow2(depth) && index < |leaves|
    ensures |b| == depth
  {
    if depth == 0 then []
    else
      var half := Pow2(depth - 1);
      var left, right := leaves[..half], leaves[half..];
      if index < half then
        Branch(hasher, left, depth - 1, index) + [Root(hasher, right, depth - 1)]
      else
        Branch(hasher, right, depth - 1, index - half) + [Root(hasher, left, depth - 1)]
  }

  lemma LeftStep(
    hasher: Hasher, value: Hash, branch: seq<Hash>, left: Hash, right: Hash, index: nat)
    requires index < Pow2(|branch|) && Fold(hasher, value, branch, index) == left
    ensures Fold(hasher, value, branch + [right], index) == hasher.pair(left, right)
  {
    hide Fold;
    FoldLast(hasher, value, branch, right, index);
    ShiftDropsLowBits(index, 0, |branch|);
  }

  lemma RightStep(
    hasher: Hasher, value: Hash, branch: seq<Hash>, left: Hash, right: Hash, index: nat)
    requires index < Pow2(|branch|) && Fold(hasher, value, branch, index) == right
    ensures Fold(hasher, value, branch + [left], index + Pow2(|branch|)) == hasher.pair(left, right)
  {
    hide Fold;
    FoldLowBits(hasher, value, branch, index, 1);
    FoldLast(hasher, value, branch, left, index + Pow2(|branch|));
    ShiftDropsLowBits(index, 1, |branch|);
  }

  /** A branch taken from a perfect tree leads from its leaf to the root. */
  lemma {:induction false} BranchLeadsToRoot(
    hasher: Hasher, leaves: seq<Hash>, depth: nat, index: nat)
    requires |leaves| == Pow2(depth) && index < |leaves|
    ensures Fold(hasher, leaves[index], Branch(hasher, leaves, depth, index), index)
            == Root(hasher, leaves, depth)
    decreases depth
  {
    hide Fold;
    if depth == 0 {
      FoldNothing(hasher, leaves[index], index);
    } else {
      var half := Pow2(depth - 1);
      var left, right := leaves[..half], leaves[half..];
      var l, r := Root(hasher, left, depth - 1), Root(hasher, right, depth - 1);
      if index < half {
        BranchLeadsToRoot(hasher, left, depth - 1, index);
        LeftStep(hasher, leaves[index], Branch(hasher, left, depth - 1, index), l, r, index);
      } else {
        var i := index - half;
        BranchLeadsToRoot(hasher, right, depth - 1, i);
        RightStep(hasher, right[i], Branch(hasher, right, depth - 1, i), l, r, i);
      }
    }
  }

  // ----- Inclusion proofs -----

  /** The commitment list as leaves, padded with zero to its capacity. */
  function ListLeaves(hasher: Hasher, commitments: seq<Commitment>): (leaves: seq<Hash>)
    requires |commitments| <= MAX_COMMITMENTS
    ensures |leaves| == MAX_COMMITMENTS == Pow2(COMMITMENTS_DEPTH)
  {
    PowersHold();
    seq(MAX_COMMITMENTS, i requires 0 <= i < MAX_COMMITMENTS => LeafAt(hasher, commitments, i))
  }

  function LeafAt(hasher: Hasher, commitments: seq<Commitment>, i: nat): Hash {
    if i < |commitments| then hasher.leaf(commitments[i]) else ZERO_HASH
  }

  lemma PowersHold()
    ensures Pow2(4) == 16 && Pow2(12) == 4096 && Pow2(13) == 8192
  {
    assert Pow2(4) == 16;
    assert Pow2(8) == 256;
    assert Pow2(12) == 4096;
  }

  /** The list root with the length mixed in. */
  function ListRoot(hasher: Hasher, commitments: seq<Commitment>): Hash
    requires |commitments| <= MAX_COMMITMENTS
  {
    hasher.pair(
      Root(hasher, ListLeaves(hasher, commitments), COMMITMENTS_DEPTH),
      hasher.length(|commitments|))
  }

  /** The 16 leaves of the body, with the commitment list at its place. */
  function BodyLeaves(hasher: Hasher, body: seq<Hash>, commitments: seq<Commitment>): (b: seq<Hash>)
    requires |body| == 16 && |commitments| <= MAX_COMMITMENTS
    ensures |b| == 16 == Pow2(BODY_DEPTH)
  {
    PowersHold();
    body[BLOB_KZG_COMMITMENTS_INDEX := ListRoot(hasher, commitments)]
  }

  function BodyRoot(hasher: Hasher, body: seq<Hash>, commitments: seq<Commitment>): Hash
    requires |body| == 16 && |commitments| <= MAX_COMMITMENTS
  {
    Root(hasher, BodyLeaves(hasher, body, commitments), BODY_DEPTH)
  }

  /** `generate_kzg_commitment_inclusion_proof`; `None` is its error. */
  function GenerateProof(
    hasher: Hasher, body: seq<Hash>, commitments: seq<Commitment>, index: nat)
    : (proof: Option<seq<Hash>>)
    requires |body| == 16
    ensures proof.Some? ==> |proof.value| == PROOF_DEPTH
  {
    if commitments == [] || index >= |commitments| || |commitments| > MAX_COMMITMENTS then None
    else
      Some(ListBranch(hasher, commitments, index)
           + Branch(hasher, BodyLeaves(hasher, body, commitments), BODY_DEPTH,
                    BLOB_KZG_COMMITMENTS_INDEX))
  }

  function ListBranch(hasher: Hasher, commitments: seq<Commitment>, index: nat): (b: seq<Hash>)
    requires |commitments| <= MAX_COMMITMENTS && index < MAX_COMMITMENTS
    ensures |b| == COMMITMENTS_DEPTH + 1
  {
    Branch(hasher, ListLeaves(hasher, commitments), COMMITMENTS_DEPTH, index)
    + [hasher.length(|commitments|)]
  }

  /** `reconstruct_roots_from_proof`: the list root and the body root, or an error. */
  method ReconstructRoots(hasher: Hasher, commitment: Commitment, proof: seq<Hash>, index: nat)
    returns (roots: Option<(Hash, Hash)>)
    ensures roots.Some? <==> |proof| == PROOF_DEPTH && index < MAX_COMMITMENTS
    ensures roots.Some? ==>
      && roots.value.0
         == Fold(hasher, hasher.leaf(commitment), proof[..COMMITMENTS_DEPTH + 1], index)
      && roots.value.1
         == Fold(hasher, hasher.leaf(commitment), proof,
                 index + BLOB_KZG_COMMITMENTS_INDEX * Pow2(COMMITMENTS_DEPTH + 1))
  {
    if |proof| != PROOF_DEPTH || index >= MAX_COMMITMENTS {
      return None;
    }
    var split := COMMITMENTS_DEPTH + 1;
    var leaf := hasher.leaf(commitment);
    var listRoot := MerkleRootFromBranch(hasher, leaf, proof[..split], index);
    var bodyRoot := MerkleRootFromBranch(
      hasher, listRoot, proof[split..], BLOB_KZG_COMMITMENTS_INDEX);
    StagedFold(hasher, leaf, proof, index);
    return Some((listRoot, bodyRoot));
  }

  /** Folding 13 siblings at the blob index and then 4 at index 11 is one 17-level fold at
      index + 11 * 2^13. */
  lemma StagedFold(hasher: Hasher, leaf: Hash, proof: seq<Hash>, index: nat)
    requires |proof| == PROOF_DEPTH && index < MAX_COMMITMENTS
    ensures Fold(hasher, Fold(hasher, leaf, proof[..13], index), proof[13..],
                 BLOB_KZG_COMMITMENTS_INDEX)
            == Fold(hasher, leaf, proof, index + BLOB_KZG_COMMITMENTS_INDEX * Pow2(13))
  {
    PowersHold();
    var i := index + BLOB_KZG_COMMITMENTS_INDEX * Pow2(13);
    assert proof == proof[..13] + proof[13..];
    FoldStages(hasher, leaf, proof[..13], proof[13..], i);
    FoldLowBits(hasher, leaf, proof[..13], index, BLOB_KZG_COMMITMENTS_INDEX);
    ShiftDropsLowBits(index, BLOB_KZG_COMMITMENTS_INDEX, 13);
  }

  /** `verify_kzg_commitment_inclusion_proof`. */
  predicate VerifyProof(
    hasher: Hasher, commitment: Commitment, proof: seq<Hash>, index: nat, bodyRoot: Hash)
  {
    && |proof| == PROOF_DEPTH && index < MAX_COMMITMENTS
    && Fold(hasher, Fold(hasher, hasher.leaf(commitment), proof[..COMMITMENTS_DEPTH + 1], index),
            proof[COMMITMENTS_DEPTH + 1..], BLOB_KZG_COMMITMENTS_INDEX)
       == bodyRoot
  }

  lemma ListBranchLeadsToRoot(hasher: Hasher, commitments: seq<Commitment>, index: nat)
    requires |commitments| <= MAX_COMMITMENTS && index < MAX_COMMITMENTS
    ensures Fold(hasher, ListLeaves(hasher, commitments)[index],
                 ListBranch(hasher, commitments, index), index)
            == ListRoot(hasher, commitments)
  {
    hide Branch, Root, Fold, Pow2;
    PowersHold();
    var leaves := ListLeaves(hasher, commitments);
    BranchLeadsToRoot(hasher, leaves, COMMITMENTS_DEPTH, index);
    FoldLast(hasher, leaves[index], Branch(hasher, leaves, COMMITMENTS_DEPTH, index),
             hasher.length(|commitments|), index);
    ShiftDropsLowBits(index, 0, COMMITMENTS_DEPTH);
  }

  lemma BodyBranchLeadsToRoot(hasher: Hasher, body: seq<Hash>, commitments: seq<Commitment>)
    requires |body| == 16 && |commitments| <= MAX_COMMITMENTS
    ensures var leaves := BodyLeaves(hasher, body, commitments);
            Fold(hasher, ListRoot(hasher, commitments),
                 Branch(hasher, leaves, BODY_DEPTH, BLOB_KZG_COMMITMENTS_INDEX),
                 BLOB_KZG_COMMITMENTS_INDEX)
            == BodyRoot(hasher, body, commitments)
  {
    hide Branch, Root, Fold, Pow2, ListRoot;
    BranchLeadsToRoot(
      hasher, BodyLeaves(hasher, body, commitments), BODY_DEPTH, BLOB_KZG_COMMITMENTS_INDEX);
  }

  /** Every generated proof verifies against the body root. */
  lemma GeneratedProofVerifies(
    hasher: Hasher, body: seq<Hash>, commitments: seq<Commitment>, index: nat)
    requires |body| == 16 && index < |commitments| <= MAX_COMMITMENTS
    ensures GenerateProof(hasher, body, commitments, index).Some?
    ensures VerifyProof(hasher, commitments[index],
                        GenerateProof(hasher, body, commitments, index).value, index,
                        BodyRoot(hasher, body, commitments))
  {
    hide Branch, Root, Fold, Pow2, ListRoot, ListBranch, BodyLeaves, BodyRoot;
    ListBranchLeadsToRoot(hasher, commitments, index);
    BodyBranchLeadsToRoot(hasher, body, commitments);
    var proof := GenerateProof(hasher, body, commitments, index).value;
    assert proof[..13] == ListBranch(hasher, commitments, index);
    assert proof[13..] == Branch(hasher, BodyLeaves(hasher, body, commitments), BODY_DEPTH,
                                 BLOB_KZG_COMMITMENTS_INDEX);
  }

  /** Under an injective hash a proof that verifies is the generated one, and the commitment it
      vouches for is the one in the list at that index; beyond the list only a commitment whose leaf
      is the padding could verify. */
  lemma VerifiedProofIsSound(
    hasher: Hasher, body: seq<Hash>, commitments: seq<Commitment>, commitment: Commitment,
    proof: seq<Hash>, index: nat)
    requires Injective(hasher) && |body| == 16 && |commitments| <= MAX_COMMITMENTS
    requires VerifyProof(hasher, commitment, proof, index, BodyRoot(hasher, body, commitments))
    ensures index < |commitments| ==>
      && hasher.leaf(commitment) == hasher.leaf(commitments[index])
      && GenerateProof(hasher, body, commitments, index) == Some(proof)
    ensures index >= |commitments| ==> hasher.leaf(commitment) == ZERO_HASH
  {
    hide Branch, Root, Fold, Pow2, ListRoot, ListBranch, BodyLeaves, BodyRoot;
    ListBranchLeadsToRoot(hasher, commitments, index);
    BodyBranchLeadsToRoot(hasher, body, commitments);
    var leaf := hasher.leaf(commitment);
    var bodyBranch := Branch(hasher, BodyLeaves(hasher, body, commitments), BODY_DEPTH,
                             BLOB_KZG_COMMITMENTS_INDEX);
    FoldInjective(hasher, Fold(hasher, leaf, proof[..13], index), proof[13..],
                  ListRoot(hasher, commitments), bodyBranch, BLOB_KZG_COMMITMENTS_INDEX);
    FoldInjective(hasher, leaf, proof[..13], ListLeaves(hasher, commitments)[index],
                  ListBranch(hasher, commitments, index), index);
    assert proof == proof[..13] + proof[13..];
  }
}
