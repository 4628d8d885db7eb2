/** The sparse Merkle tree of statetrie/statetrie.go as mathematics: the hash of the tree over a
    leaf map, and what a Merkle branch proves about it. */
module SparseMerkle {
  import opened Basics

  /** utils.Hash256(0x00 ‖ path ‖ valueHash); an absent leaf is zeros32. */
  function LeafHash(H: Hasher, path: Digest, valueHash: Digest): (r: Digest) {
    if IsZero(valueHash) then Zeros(32) else H([0x00] + path + valueHash)
  }

  function InternalHash(H: Hasher, left: Digest, right: Digest): (r: Digest) {
    H([0x01] + left + right)
  }

  /** The hash of an empty subtree of the given height. */
  function Default(H: Hasher, height: nat): (r: Digest) {
    if height == 0 then Zeros(32)
    else InternalHash(H, Default(H, height - 1), Default(H, height - 1))
  }

  // ---- bits of a path ----

  /** Bit k of a byte, most significant first: (x >> (7 - k)) & 1. */
  function ByteBit(x: bv8, k: nat): bool
    requires k < 8
  {
    match k
    case 0 => (x >> 7) & 1 == 1
    case 1 => (x >> 6) & 1 == 1
    case 2 => (x >> 5) & 1 == 1
    case 3 => (x >> 4) & 1 == 1
    case 4 => (x >> 3) & 1 == 1
    case 5 => (x >> 2) & 1 == 1
    case 6 => (x >> 1) & 1 == 1
    case _ => (x >> 0) & 1 == 1
  }

  /** pathBit: bit i of the path, bit 0 being the root's branching decision. */
  function Bit(path: Bytes, i: nat): bool
    requires i < 8 * |path|
  {
    ByteBit(path[i / 8], i % 8)
  }

  function Bits(path: Bytes): (r: seq<bool>)
    ensures |r| == 8 * |path|
    ensures forall i :: 0 <= i < |r| ==> r[i] == Bit(path, i)
  {
    seq(8 * |path|, i requires 0 <= i < 8 * |path| => Bit(path, i))
  }

  function PackByte(b: seq<bool>): (x: bv8)
    requires |b| == 8
    ensures forall k :: 0 <= k < 8 ==> ByteBit(x, k) == b[k]
  {
    (if b[0] then 0x80 else 0) | (if b[1] then 0x40 else 0) | (if b[2] then 0x20 else 0) | (if b[3] then 0x10 else 0)
    | (if b[4] then 0x08 else 0) | (if b[5] then 0x04 else 0) | (if b[6] then 0x02 else 0) | (if b[7] then 0x01 else 0)
  }

  /** The byte path a full-depth bit prefix names. */
  function Pack(bits: seq<bool>): (r: Bytes)
    ensures |r| == |bits| / 8
    ensures forall j :: 0 <= j < |r| ==> r[j] == PackByte(bits[8 * j..8 * j + 8])
  {
    seq(|bits| / 8, j requires 0 <= j < |bits| / 8 => PackByte(bits[8 * j..8 * j + 8]))
  }

  lemma SameByte(x: bv8, y: bv8)
    requires ByteBit(x, 0) == ByteBit(y, 0) && ByteBit(x, 1) == ByteBit(y, 1) && ByteBit(x, 2) == ByteBit(y, 2)
    requires ByteBit(x, 3) == ByteBit(y, 3) && ByteBit(x, 4) == ByteBit(y, 4) && ByteBit(x, 5) == ByteBit(y, 5)
    requires ByteBit(x, 6) == ByteBit(y, 6) && ByteBit(x, 7) == ByteBit(y, 7)
    ensures x == y
  {}

  /** Two paths with the same bits are the same path. */
  lemma SameBits(p: Bytes, q: Bytes)
    requires |p| == |q|
    requires forall i :: 0 <= i < 8 * |p| ==> Bit(p, i) == Bit(q, i)
    ensures p == q
  {
    forall j | 0 <= j < |p| ensures p[j] == q[j] {
      forall k | 0 <= k < 8 ensures ByteBit(p[j], k) == ByteBit(q[j], k) {
        var i := 8 * j + k;
        assert i / 8 == j && i % 8 == k;
        assert Bit(p, i) == Bit(q, i);
      }
      SameByte(p[j], q[j]);
    }
  }

  lemma BitsPack(bits: seq<bool>)
    requires |bits| % 8 == 0
    ensures Bits(Pack(bits)) == bits
  {
    var path := Pack(bits);
    forall i | 0 <= i < |bits| ensures Bit(path, i) == bits[i] {
      var j, k := i / 8, i % 8;
      assert path[j] == PackByte(bits[8 * j..8 * j + 8]);
      assert bits[8 * j..8 * j + 8][k] == bits[i];
    }
  }

  lemma PackBits(path: Bytes)
    ensures Pack(Bits(path)) == path
  {
    BitsPack(Bits(path));
    var p := Pack(Bits(path));
    forall i | 0 <= i < 8 * |path| ensures Bit(p, i) == Bit(path, i) {
      assert Bits(p)[i] == Bits(path)[i];
    }
    SameBits(p, path);
  }

  // ---- the tree over a leaf map ----

  /** The number of levels below the root, one per path bit. */
  const DEPTH: nat := 256

  /** A node position: the bits leading to it from the root. */
  type Prefix = p: seq<bool> | |p| <= 256

  /** The live leaves: path -> valueHash. A zero valueHash never occurs: it means absent. */
  type Leaves = map<Digest, Digest>

  predicate Proper(leaves: Leaves) {
    forall p :: p in leaves ==> !IsZero(leaves[p])
  }

  function LeafValue(leaves: Leaves, path: Digest): (r: Digest) {
    if path in leaves then leaves[path] else Zeros(32)
  }

  /** What one Update means for the leaf map: the zero hash deletes. */
  function SetLeaf(leaves: Leaves, path: Digest, valueHash: Digest): (r: Leaves)
    ensures Proper(leaves) ==> Proper(r)
    ensures LeafValue(r, path) == valueHash
    ensures forall p: Digest :: p != path ==> LeafValue(r, p) == LeafValue(leaves, p)
  {
    if IsZero(valueHash) then
      assert valueHash == Zeros(32); leaves - {path}
    else leaves[path := valueHash]
  }

  /** The recursive hash of the subtree under a prefix. */
  function TreeHash(H: Hasher, leaves: Leaves, prefix: Prefix): (r: Digest)
    decreases DEPTH - |prefix|
  {
    if |prefix| == DEPTH then LeafHash(H, Pack(prefix), LeafValue(leaves, Pack(prefix)))
    else InternalHash(H, TreeHash(H, leaves, prefix + [false]), TreeHash(H, leaves, prefix + [true]))
  }

  /** The root commits the whole leaf map. */
  function TreeRoot(H: Hasher, leaves: Leaves): (r: Digest) {
    TreeHash(H, leaves, [])
  }

  /** The empty tree hashes to the precomputed default at every height. */
  lemma {:induction false} EmptyTree(H: Hasher, prefix: Prefix)
    ensures TreeHash(H, map[], prefix) == Default(H, DEPTH - |prefix|)
    decreases DEPTH - |prefix|
  {
    if |prefix| < DEPTH {
      EmptyTree(H, prefix + [false]);
      EmptyTree(H, prefix + [true]);
    }
  }

  /** A subtree off the changed path keeps its hash. */
  lemma {:induction false} TreeFrame(H: Hasher, leaves: Leaves, leaves': Leaves, path: Digest, prefix: Prefix)
    requires !(prefix <= Bits(path))
    requires forall p: Digest :: p != path ==> LeafValue(leaves, p) == LeafValue(leaves', p)
    ensures TreeHash(H, leaves, prefix) == TreeHash(H, leaves', prefix)
    decreases DEPTH - |prefix|
  {
    if |prefix| == DEPTH {
      BitsPack(prefix);
      assert Pack(prefix) != path;
    } else {
      TreeFrame(H, leaves, leaves', path, prefix + [false]);
      TreeFrame(H, leaves, leaves', path, prefix + [true]);
    }
  }

  /** The sibling position: the same prefix with its last bit flipped. */
  function Sibling(prefix: Prefix): (r: Prefix)
    requires prefix != []
    ensures |r| == |prefix|
  {
    prefix[..|prefix| - 1] + [!prefix[|prefix| - 1]]
  }

  /** The parent's hash from the child on the path and its sibling. */
  function Join(H: Hasher, bit: bool, cur: Digest, sib: Digest): (r: Digest) {
    if bit then InternalHash(H, sib, cur) else InternalHash(H, cur, sib)
  }

  lemma JoinTree(H: Hasher, leaves: Leaves, prefix: Prefix)
    requires prefix != []
    ensures TreeHash(H, leaves, prefix[..|prefix| - 1])
         == Join(H, prefix[|prefix| - 1], TreeHash(H, leaves, prefix), TreeHash(H, leaves, Sibling(prefix)))
  {
    var up := prefix[..|prefix| - 1];
    assert prefix == up + [prefix[|prefix| - 1]];
  }

  // ---- Merkle branches ----

  /** The hash the fold reaches at the given height of the path, from the leaf and the siblings bottom-up. */
  function Climb(H: Hasher, path: Digest, leaf: Digest, proof: seq<Digest>, height: nat): (r: Digest)
    requires height <= DEPTH == |proof|
  {
    if height == 0 then leaf
    else Join(H, Bit(path, DEPTH - height), Climb(H, path, leaf, proof, height - 1), proof[height - 1])
  }

  /** The position of the path's node at the given height. */
  function PathPrefix(path: Digest, height: nat): (r: Prefix)
    requires height <= DEPTH
    ensures |r| == DEPTH - height
  {
    Bits(path)[..DEPTH - height]
  }

  lemma PathPrefixUp(path: Digest, height: nat)
    requires 0 < height <= DEPTH
    ensures PathPrefix(path, height) == PathPrefix(path, height - 1)[..DEPTH - height]
    ensures PathPrefix(path, height - 1)[DEPTH - height] == Bit(path, DEPTH - height)
  {}

  ghost function SiblingHash(H: Hasher, leaves: Leaves, path: Digest, height: nat): Digest
    requires height < DEPTH
  {
    TreeHash(H, leaves, Sibling(PathPrefix(path, height)))
  }

  lemma PathJoin(H: Hasher, leaves: Leaves, path: Digest, height: nat)
    requires 0 < height <= DEPTH
    ensures TreeHash(H, leaves, PathPrefix(path, height))
         == Join(H, Bit(path, DEPTH - height),
                 TreeHash(H, leaves, PathPrefix(path, height - 1)), SiblingHash(H, leaves, path, height - 1))
  {
    PathPrefixUp(path, height);
    JoinTree(H, leaves, PathPrefix(path, height - 1));
  }

  /** The 256 siblings of the path, bottom-up. */
  ghost predicate IsBranch(H: Hasher, leaves: Leaves, path: Digest, proof: seq<Digest>) {
    |proof| == DEPTH && forall h :: 0 <= h < DEPTH ==> proof[h] == SiblingHash(H, leaves, path, h)
  }

  /** Completeness: the tree's own branch folds back to every node hash on the path. */
  lemma {:induction false} BranchClimbs(H: Hasher, leaves: Leaves, path: Digest, proof: seq<Digest>, height: nat)
    requires height <= DEPTH
    requires IsBranch(H, leaves, path, proof)
    ensures Climb(H, path, LeafHash(H, path, LeafValue(leaves, path)), proof, height)
         == TreeHash(H, leaves, PathPrefix(path, height))
  {
    if height == 0 {
      PackBits(path);
      assert PathPrefix(path, 0) == Bits(path);
    } else {
      BranchClimbs(H, leaves, path, proof, height - 1);
      PathJoin(H, leaves, path, height);
    }
  }

  // ---- what an accepted branch shows ----

  /** What a node hashes: its own child on the path and the sibling, in order. */
  function JoinInput(bit: bool, own: Digest, sib: Digest): (r: Bytes) {
    [0x01] + if bit then sib + own else own + sib
  }

  function LeafInput(path: Digest, valueHash: Digest): (r: Bytes) {
    [0x00] + path + valueHash
  }

  /** What the fold of this proof hashes at a height of the path; the leaf at height 0. */
  function FoldInput(H: Hasher, path: Digest, v: Digest, proof: seq<Digest>, height: nat): (r: Bytes)
    requires height <= DEPTH == |proof|
  {
    if height == 0 then LeafInput(path, v)
    else
      JoinInput(Bit(path, DEPTH - height), Climb(H, path, LeafHash(H, path, v), proof, height - 1), proof[height - 1])
  }

  /** What the tree hashes there. */
  ghost function TreeInput(H: Hasher, leaves: Leaves, path: Digest, height: nat): (r: Bytes)
    requires height <= DEPTH
  {
    if height == 0 then LeafInput(path, LeafValue(leaves, path))
    else
      JoinInput(Bit(path, DEPTH - height), TreeHash(H, leaves, PathPrefix(path, height - 1)),
                SiblingHash(H, leaves, path, height - 1))
  }

  /** At this height fold and tree hash different bytes to the same digest. */
  ghost predicate ClashAt(H: Hasher, leaves: Leaves, path: Digest, v: Digest, proof: seq<Digest>, height: nat)
    requires height <= DEPTH == |proof|
  {
    Collides(H, FoldInput(H, path, v, proof, height), TreeInput(H, leaves, path, height))
  }

  /** One of the two leaves is absent and the bytes of the other hash to zeros32. */
  predicate ZeroLeaf(H: Hasher, path: Digest, v: Digest, w: Digest) {
    IsZero(v) != IsZero(w) && H(LeafInput(path, if IsZero(v) then w else v)) == Zeros(32)
  }

  /** The fold of this very proof exhibits a collision of the hash function with the tree at one of the heights up
      to the given one, or the leaf a preimage of zeros32. */
  ghost predicate Broken(H: Hasher, leaves: Leaves, path: Digest, v: Digest, proof: seq<Digest>, height: nat)
    requires height <= DEPTH == |proof|
  {
    || ZeroLeaf(H, path, v, LeafValue(leaves, path))
    || exists k: nat :: k <= height && ClashAt(H, leaves, path, v, proof, k)
  }

  lemma JoinHashes(H: Hasher, bit: bool, own: Digest, sib: Digest)
    ensures Join(H, bit, own, sib) == H(JoinInput(bit, own, sib))
  {
    assert [0x01] + (if bit then sib else own) + (if bit then own else sib) == JoinInput(bit, own, sib);
  }

  lemma JoinInputInjective(bit: bool, a: Digest, s: Digest, b: Digest, t: Digest)
    requires JoinInput(bit, a, s) == JoinInput(bit, b, t)
    ensures a == b && s == t
  {
    var x, y := JoinInput(bit, a, s), JoinInput(bit, b, t);
    assert x[1..33] == (if bit then s else a) && y[1..33] == (if bit then t else b);
    assert x[33..] == (if bit then a else s) && y[33..] == (if bit then b else t);
  }

  /** Equal leaf hashes: the same leaf, or their bytes collide, or one of them hashes to zero. */
  lemma LeafEvidence(H: Hasher, path: Digest, v: Digest, w: Digest)
    requires LeafHash(H, path, v) == LeafHash(H, path, w)
    ensures v == w || ZeroLeaf(H, path, v, w) || Collides(H, LeafInput(path, v), LeafInput(path, w))
  {
    if LeafInput(path, v) == LeafInput(path, w) {
      assert v == LeafInput(path, v)[33..] && w == LeafInput(path, w)[33..];
    }
  }

  /** Soundness: a branch that folds the leaf into the tree's hash proves the leaf, unless the hash function is
      broken on the bytes of this very fold. */
  lemma {:induction false} ClimbEvidence(H: Hasher, leaves: Leaves, path: Digest, v: Digest, proof: seq<Digest>,
                                         height: nat)
    requires height <= DEPTH == |proof|
    requires Climb(H, path, LeafHash(H, path, v), proof, height) == TreeHash(H, leaves, PathPrefix(path, height))
    ensures LeafValue(leaves, path) == v || Broken(H, leaves, path, v, proof, height)
  {
    if height == 0 {
      PackBits(path);
      assert PathPrefix(path, 0) == Bits(path);
      LeafEvidence(H, path, v, LeafValue(leaves, path));
      assert Collides(H, LeafInput(path, v), LeafInput(path, LeafValue(leaves, path))) ==>
          ClashAt(H, leaves, path, v, proof, 0);
    } else {
      PathJoin(H, leaves, path, height);
      var bit, cur := Bit(path, DEPTH - height), Climb(H, path, LeafHash(H, path, v), proof, height - 1);
      var own, sib := TreeHash(H, leaves, PathPrefix(path, height - 1)), SiblingHash(H, leaves, path, height - 1);
      JoinHashes(H, bit, cur, proof[height - 1]);
      JoinHashes(H, bit, own, sib);
      if FoldInput(H, path, v, proof, height) == TreeInput(H, leaves, path, height) {
        JoinInputInjective(bit, cur, proof[height - 1], own, sib);
        ClimbEvidence(H, leaves, path, v, proof, height - 1);
      } else {
        assert ClashAt(H, leaves, path, v, proof, height);
      }
    }
  }

  // ---- one root, one leaf map ----

  /** The siblings of a path in the tree. */
  ghost function BranchOf(H: Hasher, leaves: Leaves, path: Digest): (r: seq<Digest>)
    ensures |r| == DEPTH && IsBranch(H, leaves, path, r)
  {
    seq(DEPTH, i requires 0 <= i < DEPTH => SiblingHash(H, leaves, path, i))
  }

  /** Along this path the two trees hash different bytes to the same digest, or one leaf's bytes to zeros32. */
  ghost predicate TreesClash(H: Hasher, a: Leaves, b: Leaves, path: Digest) {
    || ZeroLeaf(H, path, LeafValue(b, path), LeafValue(a, path))
    || exists k: nat :: k <= DEPTH && Collides(H, TreeInput(H, b, path, k), TreeInput(H, a, path, k))
  }

  /** The fold of the tree's own branch hashes what the tree hashes. */
  lemma BranchFolds(H: Hasher, leaves: Leaves, path: Digest, proof: seq<Digest>, k: nat)
    requires k <= DEPTH && |proof| == DEPTH && IsBranch(H, leaves, path, proof)
    ensures FoldInput(H, path, LeafValue(leaves, path), proof, k) == TreeInput(H, leaves, path, k)
  {
    if k > 0 {
      BranchClimbs(H, leaves, path, proof, k - 1);
    }
  }

  /** Two leaf maps with the same root hold the same leaf at every path, unless the two trees clash on it. */
  lemma SameRootSameLeaf(H: Hasher, a: Leaves, b: Leaves, path: Digest)
    requires TreeRoot(H, a) == TreeRoot(H, b)
    ensures LeafValue(a, path) == LeafValue(b, path) || TreesClash(H, a, b, path)
  {
    var proof, v := BranchOf(H, b, path), LeafValue(b, path);
    BranchClimbs(H, b, path, proof, DEPTH);
    assert PathPrefix(path, DEPTH) == [];
    ClimbEvidence(H, a, path, v, proof, DEPTH);
    if LeafValue(a, path) != v && !ZeroLeaf(H, path, v, LeafValue(a, path)) {
      var k: nat :| k <= DEPTH && ClashAt(H, a, path, v, proof, k);
      BranchFolds(H, b, path, proof, k);
      assert Collides(H, TreeInput(H, b, path, k), TreeInput(H, a, path, k));
    }
  }
}
