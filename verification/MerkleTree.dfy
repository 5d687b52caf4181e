/**
The incremental Merkle tree of `hook_manager`: a 32-entry branch and a leaf count.
`Node` and `FullRoot` are the reference: the complete tree of depth 32 over all inserted
leaves, padded with zero leaves. `InsertLeaf` and `FoldRoot` are the two unrolled passes of
`post_dispatch`, folded back into loops over the level.
 */
module MerkleTree {
  import opened Prelude
  import opened Bytes

  const ZERO_LEAF: Digest := (0, 0)

  type Hash = (Digest, Digest) -> Digest

  // ---------------------------------------------------------------------------
  // Reference: the full tree
  // ---------------------------------------------------------------------------

  /** Root of the all-zero tree of height `level`; the literal constants of the program. */
  function Zero(hash: Hash, level: nat): Digest {
    if level == 0 then ZERO_LEAF else hash(Zero(hash, level - 1), Zero(hash, level - 1))
  }

  /** Root of the `index`-th subtree of height `level` over `leaves` padded with zeros. */
  function Node(hash: Hash, leaves: seq<Digest>, level: nat, index: nat): Digest {
    if level == 0 then
      if index < |leaves| then leaves[index] else ZERO_LEAF
    else
      hash(Node(hash, leaves, level - 1, 2 * index), Node(hash, leaves, level - 1, 2 * index + 1))
  }

  function FullRoot(hash: Hash, leaves: seq<Digest>, depth: nat): Digest {
    Node(hash, leaves, depth, 0)
  }

  /** `shr n k`. */
  function Shr(n: nat, k: nat): nat {
    if k == 0 then n else Shr(n, k - 1) / 2
  }

  function Pow2(k: nat): nat {
    if k == 0 then 1 else 2 * Pow2(k - 1)
  }

  lemma {:induction false} ShrBound(n: nat, k: nat)
    ensures Shr(n, k) * Pow2(k) <= n
  {
    if k > 0 {
      ShrBound(n, k - 1);
      var q, p := Shr(n, k - 1), Pow2(k - 1);
      MulAssoc(q / 2, 2, p);
      MulLe(q / 2 * 2, q, p);
    }
  }

  /** A count below 2^k has no bit at level k or above. */
  lemma ShrVanishes(n: nat, k: nat)
    requires n < Pow2(k)
    ensures Shr(n, k) == 0
  {
    ShrBound(n, k);
    if Shr(n, k) > 0 {
      MulLe(1, Shr(n, k), Pow2(k));
    }
  }

  /** Appending a leaf leaves every complete subtree alone. */
  lemma {:induction false} AppendKeepsNode(hash: Hash, leaves: seq<Digest>, x: Digest, level: nat, index: nat)
    requires index < Shr(|leaves|, level)
    ensures Node(hash, leaves + [x], level, index) == Node(hash, leaves, level, index)
  {
    if level > 0 {
      AppendKeepsNode(hash, leaves, x, level - 1, 2 * index);
      AppendKeepsNode(hash, leaves, x, level - 1, 2 * index + 1);
    }
  }

  /** A subtree that lies past the last leaf is the zero subtree. */
  lemma {:induction false} BeyondIsZero(hash: Hash, leaves: seq<Digest>, level: nat, index: nat)
    requires Shr(|leaves|, level) < index || (level == 0 && |leaves| == index)
    ensures Node(hash, leaves, level, index) == Zero(hash, level)
  {
    if level > 0 {
      BeyondIsZero(hash, leaves, level - 1, 2 * index);
      BeyondIsZero(hash, leaves, level - 1, 2 * index + 1);
    }
  }

  /** The tree over no leaves is the zero tower, at every level and position. */
  lemma {:induction false} EmptyTreeIsZero(hash: Hash, level: nat, index: nat)
    ensures Node(hash, [], level, index) == Zero(hash, level)
  {
    if level > 0 {
      EmptyTreeIsZero(hash, level - 1, 2 * index);
      EmptyTreeIsZero(hash, level - 1, 2 * index + 1);
    }
  }

  // ---------------------------------------------------------------------------
  // Implementation
  // ---------------------------------------------------------------------------

  datatype Tree = Tree(branch: seq<Digest>, count: nat)

  /** What the branch records: for each bit set in the count, the last complete subtree there. */
  ghost predicate Represents(hash: Hash, t: Tree, leaves: seq<Digest>) {
    && t.count == |leaves| < Pow2(|t.branch|)
    && forall i :: 0 <= i < |t.branch| && Shr(t.count, i) % 2 == 1 ==>
                     t.branch[i] == Node(hash, leaves, i, Shr(t.count, i) - 1)
  }

  /** The tree `init_merkle_tree` stores: the zero tower as branch, no leaves. */
  function EmptyTree(hash: Hash, depth: nat): Tree {
    Tree(seq(depth, i requires 0 <= i => Zero(hash, i)), 0)
  }

  lemma ShrOfZero(k: nat)
    ensures Shr(0, k) == 0
  {
  }

  lemma EmptyTreeRepresents(hash: Hash, depth: nat)
    ensures Represents(hash, EmptyTree(hash, depth), [])
    ensures Zero(hash, depth) == FullRoot(hash, [], depth)
  {
    forall i: nat ensures Shr(0, i) == 0 { ShrOfZero(i); }
    ShrBound(0, depth);
    EmptyTreeIsZero(hash, depth, 0);
  }

  /** Bits 0 to k - 1 of `n` are clear. */
  ghost predicate LowBitsClear(n: nat, k: nat) {
    forall j: nat {:trigger Shr(n, j)} :: j < k ==> Shr(n, j) % 2 == 0
  }

  /** `node` is the complete subtree of height `i` that ends with the new leaf. */
  ghost predicate Carrying(hash: Hash, after: seq<Digest>, i: nat, node: Digest, size: nat)
    requires |after| > 0
  {
    && size == Shr(|after|, i) == Shr(|after| - 1, i) + 1
    && node == Node(hash, after, i, size - 1)
    && LowBitsClear(|after|, i)
  }

  /** The leaf has come to rest below level `i`, and the branch is right there. */
  ghost predicate Settled(hash: Hash, after: seq<Digest>, branch: seq<Digest>, i: nat)
    requires |after| > 0 && i <= |branch|
  {
    && Shr(|after|, i) == Shr(|after| - 1, i)
    && forall j :: 0 <= j < i && Shr(|after|, j) % 2 == 1 ==>
                     branch[j] == Node(hash, after, j, Shr(|after|, j) - 1)
  }

  /** An even size means the sibling on the left is in the branch: hash and go up. */
  lemma CarryUp(hash: Hash, t: Tree, leaves: seq<Digest>, leaf: Digest, i: nat, node: Digest, size: nat)
    requires Represents(hash, t, leaves) && i < |t.branch|
    requires Carrying(hash, leaves + [leaf], i, node, size) && size % 2 == 0
    ensures Carrying(hash, leaves + [leaf], i + 1, hash(t.branch[i], node), size / 2)
  {
    AppendKeepsNode(hash, leaves, leaf, i, size - 2);
  }

  /** An odd size is the resting place: no higher bit of the count has changed. */
  lemma Settle(hash: Hash, after: seq<Digest>, branch: seq<Digest>, i: nat, node: Digest, size: nat)
    requires |after| > 0 && i < |branch| && branch[i] == node
    requires Carrying(hash, after, i, node, size) && size % 2 == 1
    ensures Settled(hash, after, branch, i + 1)
  {
  }

  lemma StaySettled(hash: Hash, t: Tree, leaves: seq<Digest>, leaf: Digest, branch: seq<Digest>, i: nat)
    requires Represents(hash, t, leaves) && i < |t.branch| == |branch| && branch[i] == t.branch[i]
    requires Settled(hash, leaves + [leaf], branch, i)
    ensures Settled(hash, leaves + [leaf], branch, i + 1)
  {
    if Shr(t.count, i) % 2 == 1 {
      AppendKeepsNode(hash, leaves, leaf, i, Shr(t.count, i) - 1);
    }
  }

  /**
  First pass of `post_dispatch`: carry the new leaf up to the lowest clear bit of the old
  count. As in the program, all levels are visited and `done` masks the later ones.
   */
  method InsertLeaf(hash: Hash, t: Tree, leaf: Digest, ghost leaves: seq<Digest>) returns (t': Tree)
    requires Represents(hash, t, leaves) && t.count + 1 < Pow2(|t.branch|)
    ensures Represents(hash, t', leaves + [leaf]) && |t'.branch| == |t.branch|
  {
    ghost var after := leaves + [leaf];
    var branch := t.branch;
    var node: Digest, size: nat, done := leaf, t.count + 1, false;
    for i := 0 to |t.branch|
      invariant |branch| == |t.branch|
      invariant forall j :: i <= j < |t.branch| ==> branch[j] == t.branch[j]
      invariant !done ==> Carrying(hash, after, i, node, size)
      invariant done ==> Settled(hash, after, branch, i)
    {
      var hit := size % 2 > 0 && !done;
      var combined := hash(t.branch[i], node);
      branch := branch[i := if hit then node else t.branch[i]];
      if done {
        StaySettled(hash, t, leaves, leaf, branch, i);
      } else if hit {
        Settle(hash, after, branch, i, node, size);
      } else {
        CarryUp(hash, t, leaves, leaf, i, node, size);
      }
      done := done || hit;
      if !hit {
        node, size := combined, size / 2;
      }
    }
    ShrVanishes(t.count + 1, |t.branch|);
    t' := Tree(branch, t.count + 1);
  }

  /** Second pass: fold the branch and the zero constants into a root, low bit first. */
  method FoldRoot(hash: Hash, t: Tree, ghost leaves: seq<Digest>) returns (root: Digest)
    requires Represents(hash, t, leaves)
    ensures root == FullRoot(hash, leaves, |t.branch|)
  {
    root := ZERO_LEAF;
    for i := 0 to |t.branch|
      invariant root == Node(hash, leaves, i, Shr(t.count, i))
    {
      if Shr(t.count, i) % 2 == 1 {
        root := hash(t.branch[i], root);
      } else {
        BeyondIsZero(hash, leaves, i, Shr(t.count, i) + 1);
        root := hash(root, Zero(hash, i));
      }
    }
    ShrVanishes(t.count, |t.branch|);
  }

}
