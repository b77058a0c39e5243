// The Merkle tree that Hasher::concat_and_hash drives: a node without a right sibling is hashed with itself.
//
// Hashes are symbolic. Leaf and inner hashes are injective and disjoint (inner hashes carry a prefix byte),
// and Raw stands for any 32 bytes that are no known hash, which a prover may put in a proof.
module Merkle {
  import opened Prelude

  datatype Digest<+L> = Leaf(content: L) | Node(left: Digest<L>, right: Digest<L>) | Raw(id: nat)

  function ConcatAndHash<L>(left: Digest<L>, right: Option<Digest<L>>): Digest<L> {
    Node(left, right.GetOr(left))
  }

  /** The number of inner layers; a single leaf still gets one. */
  function TreeDepth(leavesCount: nat): nat {
    if leavesCount == 1 then 1 else CeilLog2(leavesCount)
  }

  function CeilLog2(n: nat): nat {
    if n <= 1 then 0 else 1 + CeilLog2((n + 1) / 2)
  }

  function ParentLayer<L>(layer: seq<Digest<L>>): seq<Digest<L>> {
    seq((|layer| + 1) / 2, i requires 0 <= i < (|layer| + 1) / 2 =>
      ConcatAndHash(layer[2 * i], if 2 * i + 1 < |layer| then Some(layer[2 * i + 1]) else None))
  }

  function RootOfLayer<L>(layer: seq<Digest<L>>, depth: nat): Digest<L>
    requires |layer| > 0
    decreases depth
  {
    if depth == 0 then layer[0] else RootOfLayer(ParentLayer(layer), depth - 1)
  }

  function LeafHashes<L>(leaves: seq<L>): (hashes: seq<Digest<L>>)
    ensures |hashes| == |leaves|
  {
    seq(|leaves|, i requires 0 <= i < |leaves| => Leaf(leaves[i]))
  }

  /** The root of the tree; an empty tree has none. */
  function Root<L>(leaves: seq<L>): Option<Digest<L>> {
    if |leaves| == 0 then None
    else Some(RootOfLayer(LeafHashes(leaves), TreeDepth(|leaves|)))
  }

  // The helper hash an index needs in its layer; the last node of an odd layer has no sibling.
  function Sibling<L>(layer: seq<Digest<L>>, index: nat): seq<Digest<L>>
    requires index < |layer|
  {
    if index % 2 == 1 then [layer[index - 1]]
    else if index + 1 < |layer| then [layer[index + 1]]
    else []
  }

  // All helper hashes for one index, from the leaves upwards.
  function ProofInLayer<L>(layer: seq<Digest<L>>, index: nat, depth: nat): seq<Digest<L>>
    requires index < |layer|
    decreases depth
  {
    if depth == 0 then []
    else Sibling(layer, index) + ProofInLayer(ParentLayer(layer), index / 2, depth - 1)
  }

  function Proof<L>(leaves: seq<L>, index: nat): seq<Digest<L>>
    requires index < |leaves|
  {
    ProofInLayer(LeafHashes(leaves), index, TreeDepth(|leaves|))
  }

  // One layer of a proof: the parent hash, and the helper hashes left for the layers above.
  function Climb<L>(current: Digest<L>, index: nat, layerSize: nat, proof: seq<Digest<L>>)
    : Option<(Digest<L>, seq<Digest<L>>)>
  {
    if layerSize % 2 == 1 && index == layerSize - 1 then Some((ConcatAndHash(current, None), proof))
    else if |proof| == 0 then None
    else if index % 2 == 0 then Some((Node(current, proof[0]), proof[1..]))
    else Some((Node(proof[0], current), proof[1..]))
  }

  // The root a proof leads to. Neither the index nor the layer size is trusted: both come from the leaf.
  function RootFromProof<L>(current: Digest<L>, index: nat, layerSize: nat, depth: nat, proof: seq<Digest<L>>)
    : Option<Digest<L>>
    decreases depth
  {
    if depth == 0 then Some(current)
    else
      match Climb(current, index, layerSize, proof)
      case None => None
      case Some((parent, rest)) => RootFromProof(parent, index / 2, (layerSize + 1) / 2, depth - 1, rest)
  }

  predicate Verify<L(==)>(root: Digest<L>, index: nat, leafHash: Digest<L>, leavesCount: nat, proof: seq<Digest<L>>) {
    && leavesCount > 0
    && RootFromProof(leafHash, index, leavesCount, TreeDepth(leavesCount), proof) == Some(root)
  }

  // ---------- Every generated proof verifies ----------

  // A node and its helper hash lead to the parent node, where the rest of the proof starts.
  lemma OneLevelUp<L>(layer: seq<Digest<L>>, index: nat, above: seq<Digest<L>>)
    requires index < |layer|
    ensures index / 2 < |ParentLayer(layer)|
    ensures Climb(layer[index], index, |layer|, Sibling(layer, index) + above)
         == Some((ParentLayer(layer)[index / 2], above))
  {
    var parent := ParentLayer(layer)[index / 2];
    if index % 2 == 1 {
      assert parent == Node(layer[index - 1], layer[index]);
      assert ([layer[index - 1]] + above)[1..] == above;
    } else if index + 1 < |layer| {
      assert parent == Node(layer[index], layer[index + 1]);
      assert ([layer[index + 1]] + above)[1..] == above;
    } else {
      assert parent == Node(layer[index], layer[index]);
      assert Sibling(layer, index) + above == above;
    }
  }

  lemma ProofOneLevelUp<L>(layer: seq<Digest<L>>, index: nat, depth: nat)
    requires index < |layer| && depth > 0
    ensures index / 2 < |ParentLayer(layer)|
    ensures RootFromProof(layer[index], index, |layer|, depth, ProofInLayer(layer, index, depth))
         == RootFromProof(ParentLayer(layer)[index / 2], index / 2, |ParentLayer(layer)|, depth - 1,
                          ProofInLayer(ParentLayer(layer), index / 2, depth - 1))
  {
    OneLevelUp(layer, index, ProofInLayer(ParentLayer(layer), index / 2, depth - 1));
  }

  lemma {:induction false} GeneratedProofLeadsToRoot<L>(layer: seq<Digest<L>>, index: nat, depth: nat)
    requires index < |layer| && CeilLog2(|layer|) <= depth
    ensures RootFromProof(layer[index], index, |layer|, depth, ProofInLayer(layer, index, depth))
         == Some(RootOfLayer(layer, depth))
    decreases depth
  {
    if depth == 0 {
      assert index == 0;
    } else {
      ProofOneLevelUp(layer, index, depth);
      ParentsFit(|layer|, depth);
      GeneratedProofLeadsToRoot(ParentLayer(layer), index / 2, depth - 1);
    }
  }

  lemma ParentsFit(layerSize: nat, depth: nat)
    requires depth > 0 && CeilLog2(layerSize) <= depth
    ensures CeilLog2((layerSize + 1) / 2) <= depth - 1
  {}

  /** Completeness: the proof generated for a leaf verifies against the root of its tree. */
  lemma ProofVerifies<L>(leaves: seq<L>, index: nat)
    requires index < |leaves|
    ensures Verify(Root(leaves).value, index, Leaf(leaves[index]), |leaves|, Proof(leaves, index))
  {
    GeneratedProofLeadsToRoot(LeafHashes(leaves), index, TreeDepth(|leaves|));
  }

  // ---------- Only leaves of the tree verify ----------

  // x is one of the nodes exactly depth levels below root.
  ghost predicate AtDepth<L>(root: Digest<L>, depth: nat, x: Digest<L>) {
    if depth == 0 then x == root
    else root.Node? && (AtDepth(root.left, depth - 1, x) || AtDepth(root.right, depth - 1, x))
  }

  // All nodes depth levels below root are leaf hashes.
  ghost predicate Complete<L>(root: Digest<L>, depth: nat) {
    if depth == 0 then root.Leaf?
    else root.Node? && Complete(root.left, depth - 1) && Complete(root.right, depth - 1)
  }

  lemma {:induction false} ChildrenAtDepth<L>(root: Digest<L>, depth: nat, a: Digest<L>, b: Digest<L>)
    requires AtDepth(root, depth, Node(a, b))
    ensures AtDepth(root, depth + 1, a) && AtDepth(root, depth + 1, b)
    decreases depth
  {
    if depth == 0 {
    } else {
      if AtDepth(root.left, depth - 1, Node(a, b)) {
        ChildrenAtDepth(root.left, depth - 1, a, b);
      } else {
        ChildrenAtDepth(root.right, depth - 1, a, b);
      }
    }
  }

  lemma {:induction false} VerifiedIsAtDepth<L>(
    current: Digest<L>, index: nat, layerSize: nat, depth: nat, proof: seq<Digest<L>>, root: Digest<L>)
    requires RootFromProof(current, index, layerSize, depth, proof) == Some(root)
    ensures AtDepth(root, depth, current)
    decreases depth
  {
    if depth == 0 {
    } else {
      var (parent, rest) := Climb(current, index, layerSize, proof).value;
      VerifiedIsAtDepth(parent, index / 2, (layerSize + 1) / 2, depth - 1, rest, root);
      ChildrenAtDepth(root, depth - 1, parent.left, parent.right);
    }
  }

  lemma {:induction false} LeavesOfCompleteTree<L>(root: Digest<L>, full: nat, depth: nat, x: Digest<L>)
    requires Complete(root, full) && AtDepth(root, depth, x) && x.Leaf?
    ensures depth == full
    decreases depth
  {
    if depth > 0 && full > 0 {
      if AtDepth(root.left, depth - 1, x) {
        LeavesOfCompleteTree(root.left, full - 1, depth - 1, x);
      } else {
        LeavesOfCompleteTree(root.right, full - 1, depth - 1, x);
      }
    }
  }

  // What lies under a root depth levels above a layer is that layer, node by node.
  lemma {:induction false} UnderTheRoot<L>(layer: seq<Digest<L>>, depth: nat, x: Digest<L>)
    requires |layer| > 0 && CeilLog2(|layer|) <= depth
    requires AtDepth(RootOfLayer(layer, depth), depth, x)
    ensures x in layer
    decreases depth
  {
    if depth == 0 {
    } else {
      var parents := ParentLayer(layer);
      var parent := NodeAbove(RootOfLayer(layer, depth), depth, x);
      UnderTheRoot(parents, depth - 1, parent);
      var k :| 0 <= k < |parents| && parents[k] == parent;
      ChildIsInTheLayer(layer, k, x);
    }
  }

  lemma ChildIsInTheLayer<L>(layer: seq<Digest<L>>, k: nat, x: Digest<L>)
    requires k < |ParentLayer(layer)| && ParentLayer(layer)[k].Node?
    requires x == ParentLayer(layer)[k].left || x == ParentLayer(layer)[k].right
    ensures x in layer
  {
    assert x == layer[2 * k] || (2 * k + 1 < |layer| && x == layer[2 * k + 1]);
  }

  lemma {:induction false} NodeAbove<L>(root: Digest<L>, depth: nat, x: Digest<L>) returns (parent: Digest<L>)
    requires depth > 0 && AtDepth(root, depth, x)
    ensures AtDepth(root, depth - 1, parent) && parent.Node? && (x == parent.left || x == parent.right)
    decreases depth
  {
    if depth == 1 {
      parent := root;
    } else if AtDepth(root.left, depth - 1, x) {
      parent := NodeAbove(root.left, depth - 1, x);
    } else {
      parent := NodeAbove(root.right, depth - 1, x);
    }
  }

  // above(k): every node of the layer roots a complete tree of height k.
  lemma {:induction false} RootIsComplete<L>(layer: seq<Digest<L>>, height: nat, depth: nat)
    requires |layer| > 0 && CeilLog2(|layer|) <= depth
    requires forall i :: 0 <= i < |layer| ==> Complete(layer[i], height)
    ensures Complete(RootOfLayer(layer, depth), height + depth)
    decreases depth
  {
    if depth == 0 {
    } else {
      RootIsComplete(ParentLayer(layer), height + 1, depth - 1);
    }
  }

  /** Soundness, without any trust in the index or the leaf count the prover claims:
      what verifies as a leaf is the hash of one of the leaves the tree was built from. */
  lemma VerifiedIsALeaf<L>(leaves: seq<L>, index: nat, content: L, leavesCount: nat, proof: seq<Digest<L>>)
    requires |leaves| > 0
    requires Verify(Root(leaves).value, index, Leaf(content), leavesCount, proof)
    ensures content in leaves
  {
    var root, full, depth := Root(leaves).value, TreeDepth(|leaves|), TreeDepth(leavesCount);
    VerifiedIsAtDepth(Leaf(content), index, leavesCount, depth, proof, root);
    RootIsComplete(LeafHashes(leaves), 0, full);
    LeavesOfCompleteTree(root, full, depth, Leaf(content));
    UnderTheRoot(LeafHashes(leaves), depth, Leaf(content));
  }

  // ---------- Leaves that carry their own position and set size ----------

  /** The leaves of merkle_tree_leaves: each one states where it stands and how many there are. */
  ghost predicate Positioned<L(!new)>(leaves: seq<L>, position: L -> nat, setSize: L -> nat) {
    forall i :: 0 <= i < |leaves| ==> position(leaves[i]) == i && setSize(leaves[i]) == |leaves|
  }

  /** A leaf that verifies with its own position and set size is exactly the leaf at that position. */
  lemma VerifiedLeafIsTheOneAtItsPosition<L(!new)>(
    leaves: seq<L>, position: L -> nat, setSize: L -> nat, content: L, proof: seq<Digest<L>>)
    requires |leaves| > 0 && Positioned(leaves, position, setSize)
    requires Verify(Root(leaves).value, position(content), Leaf(content), setSize(content), proof)
    ensures position(content) < |leaves| == setSize(content)
    ensures leaves[position(content)] == content
  {
    VerifiedIsALeaf(leaves, position(content), content, setSize(content), proof);
  }

  /** Binding: equal roots mean equal leaf lists. Each leaf of one list verifies in the tree of the other. */
  lemma EqualRootsMeanEqualLeaves<L(!new)>(a: seq<L>, b: seq<L>, position: L -> nat, setSize: L -> nat)
    requires |a| > 0 && |b| > 0 && Positioned(a, position, setSize) && Positioned(b, position, setSize)
    requires Root(a) == Root(b)
    ensures a == b
  {
    forall i | 0 <= i < |a|
      ensures i < |b| == |a| && a[i] == b[i]
    {
      ProofVerifies(a, i);
      VerifiedLeafIsTheOneAtItsPosition(b, position, setSize, a[i], Proof(a, i));
    }
    assert |a| == |b|;
  }

  /** Without positions the odd-node rule alone does not bind: repeating the last of three leaves keeps the root. */
  lemma DuplicationAloneDoesNotBind<L>(x: L, y: L, z: L)
    ensures Root([x, y, z]) == Root([x, y, z, z])
  {
    var three, four := LeafHashes([x, y, z]), LeafHashes([x, y, z, z]);
    assert TreeDepth(3) == TreeDepth(4) == 2;
    assert ParentLayer(three) == [Node(Leaf(x), Leaf(y)), Node(Leaf(z), Leaf(z))];
    assert ParentLayer(four) == [Node(Leaf(x), Leaf(y)), Node(Leaf(z), Leaf(z))];
  }
}
