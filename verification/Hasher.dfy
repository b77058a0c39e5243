// The bytes behind the symbolic hashes of the Merkle tree.
module Hasher {
  import opened Prelude
  import opened Bytes
  import opened Merkle

  // What an inner node is hashed from: the prefix, the left hash, and the right one or the left one again.
  function NodeBytes(left: Key32, right: Option<Key32>): (b: Bytes)
    ensures |b| == 65
  {
    [1] + left + right.GetOr(left)
  }

  method Concatenate(left: Key32, right: Option<Key32>) returns (concatenated: array<u8>)
    ensures fresh(concatenated) && concatenated[..] == NodeBytes(left, right)
  {
    concatenated := new u8[65](_ => 0);
    concatenated[0] := 1;
    for i := 0 to 32
      invariant concatenated[0] == 1
      invariant forall j :: 0 <= j < i ==> concatenated[1 + j] == left[j]
    {
      concatenated[1 + i] := left[i];
    }
    var rightNode := if right.Some? then right.value else left;
    for i := 0 to 32
      invariant concatenated[0] == 1
      invariant forall j :: 0 <= j < 32 ==> concatenated[1 + j] == left[j]
      invariant forall j :: 0 <= j < i ==> concatenated[33 + j] == rightNode[j]
    {
      concatenated[33 + i] := rightNode[i];
    }
  }

  lemma NodeBytesDetermineTheirHalves(left: Key32, right: Option<Key32>, otherLeft: Key32, otherRight: Option<Key32>)
    ensures NodeBytes(left, right) == NodeBytes(otherLeft, otherRight)
      <==> left == otherLeft && right.GetOr(left) == otherRight.GetOr(otherLeft)
  {
    if NodeBytes(left, right) == NodeBytes(otherLeft, otherRight) {
      assert left == NodeBytes(left, right)[1..33] && otherLeft == NodeBytes(otherLeft, otherRight)[1..33];
      assert right.GetOr(left) == NodeBytes(left, right)[33..]
        && otherRight.GetOr(otherLeft) == NodeBytes(otherLeft, otherRight)[33..];
    }
  }

  function BytesOfSibling<L>(bytesOf: Digest<L> -> Key32, right: Option<Digest<L>>): Option<Key32> {
    match right
    case None => None
    case Some(d) => Some(bytesOf(d))
  }

  // No two of these hashes share their bytes.
  ghost predicate NoCollision<L>(bytesOf: Digest<L> -> Key32, hashes: set<Digest<L>>) {
    forall x, y :: x in hashes && y in hashes && bytesOf(x) == bytesOf(y) ==> x == y
  }

  /** The symbolic inner nodes identify exactly what the hashed bytes identify: if the hashes involved do not collide,
      two nodes are equal if and only if the same 65 bytes are hashed for them. */
  lemma NodesMatchTheirBytes<L>(
    bytesOf: Digest<L> -> Key32, a: Digest<L>, b: Option<Digest<L>>, c: Digest<L>, d: Option<Digest<L>>)
    requires NoCollision(bytesOf, {a, b.GetOr(a), c, d.GetOr(c)})
    ensures ConcatAndHash(a, b) == ConcatAndHash(c, d)
      <==> NodeBytes(bytesOf(a), BytesOfSibling(bytesOf, b)) == NodeBytes(bytesOf(c), BytesOfSibling(bytesOf, d))
  {
    NodeBytesDetermineTheirHalves(bytesOf(a), BytesOfSibling(bytesOf, b), bytesOf(c), BytesOfSibling(bytesOf, d));
  }
}
