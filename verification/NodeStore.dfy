/** The node store of statetrie/statetrie.go over byte-string keys: Update, Root, Prove and Verify. */
module NodeStore {
  import opened Basics
  import opened SparseMerkle
  import opened NodeKeys
  import TreeStore

  /** The byte store holds, under each node key, exactly the position's node. */
  ghost predicate Encodes(m: map<Bytes, Digest>, n: TreeStore.Nodes) {
    && (forall p: Prefix :: Lookup(m, KeyOf(p)) == Lookup(n, p))
    && (forall k :: k in m ==> exists p: Prefix :: k == KeyOf(p))
  }

  lemma EncodesAssign(m: map<Bytes, Digest>, n: TreeStore.Nodes, p: Prefix, v: Option<Digest>)
    requires Encodes(m, n)
    ensures Encodes(Assign(m, KeyOf(p), v), Assign(n, p, v))
  {
    forall q: Prefix ensures Lookup(Assign(m, KeyOf(p), v), KeyOf(q)) == Lookup(Assign(n, p, v), q) {
      assert Lookup(m, KeyOf(q)) == Lookup(n, q);
      if KeyOf(q) == KeyOf(p) {
        KeyOfInjective(p, q);
      }
    }
  }

  /** Two byte stores of the same nodes are equal. */
  lemma EncodesFunctional(m: map<Bytes, Digest>, m': map<Bytes, Digest>, n: TreeStore.Nodes)
    requires Encodes(m, n) && Encodes(m', n)
    ensures m == m'
  {
    forall k ensures Lookup(m, k) == Lookup(m', k) {
      if k in m || k in m' {
        var p: Prefix :| k == KeyOf(p);
        assert Lookup(m, KeyOf(p)) == Lookup(n, p) == Lookup(m', KeyOf(p));
      }
    }
    SameLookups(m, m');
  }

  /** The byte store commits the leaf map: it encodes the tree's nodes. */
  ghost predicate Commits(H: Hasher, m: map<Bytes, Digest>, leaves: Leaves) {
    forall seal {:trigger Opened(NODES, seal)} :: Opened(NODES, seal) ==>
      exists n :: Encodes(m, n) && TreeStore.Represents(H, n, leaves)
  }

  lemma CommitsEmpty(H: Hasher)
    ensures Commits(H, map[], map[])
  {
    TreeStore.EmptyStore(H);
    var none: TreeStore.Nodes := map[];
    assert Encodes(map[], none);
  }

  /** The stored bytes are a function of the leaf set alone. */
  lemma CommitsFunctional(H: Hasher, m: map<Bytes, Digest>, m': map<Bytes, Digest>, leaves: Leaves)
    requires Commits(H, m, leaves) && Commits(H, m', leaves)
    ensures m == m'
  {
    assert Opened(NODES, true);
    var n :| Encodes(m, n) && TreeStore.Represents(H, n, leaves);
    var n' :| Encodes(m', n') && TreeStore.Represents(H, n', leaves);
    TreeStore.Canonical(H, n, n', leaves);
    EncodesFunctional(m, m', n);
  }

  class Store {
    const H: Hasher
    var nodes: map<Bytes, Digest>

    constructor (H: Hasher)
      ensures this.H == H && nodes == map[]
    {
      this.H := H;
      nodes := map[];
    }

    method Clear()
      modifies this
      ensures nodes == map[]
    {
      nodes := map[];
    }

    /** getNode: the stored node, or the default of its height. */
    method GetNode(key: Bytes, height: nat, ghost n: TreeStore.Nodes, ghost p: Prefix) returns (r: Digest)
      requires key == KeyOf(p) && height == DEPTH - |p| && Encodes(nodes, n)
      ensures r == TreeStore.NodeAt(H, n, p)
    {
      assert Lookup(nodes, KeyOf(p)) == Lookup(n, p);
      r := if key in nodes then nodes[key] else Default(H, height);
    }

    method GetSibling(depth: nat, path: Digest, ghost n: TreeStore.Nodes) returns (r: Digest)
      requires 0 < depth <= DEPTH && Encodes(nodes, n)
      ensures r == TreeStore.NodeAt(H, n, Sibling(PathPrefix(path, DEPTH - depth)))
    {
      SiblingKeyIsPosition(depth, path);
      r := GetNode(SiblingKey(depth, path), DEPTH - depth, n, Sibling(PathPrefix(path, DEPTH - depth)));
    }

    /** setNode: the default is deleted, anything else stored. */
    method PutNode(key: Bytes, height: nat, val: Digest, ghost n: TreeStore.Nodes, ghost p: Prefix)
      requires key == KeyOf(p) && height == DEPTH - |p| && Encodes(nodes, n)
      modifies this
      ensures Encodes(nodes, TreeStore.SetNode(H, n, p, val))
    {
      EncodesAssign(nodes, n, p, if val == Default(H, height) then None else Some(val));
      if val == Default(H, height) {
        nodes := nodes - {key};
      } else {
        nodes := nodes[key := val];
      }
    }

    /** setNode at the path's node at depth. */
    method SetNode(depth: nat, path: Digest, val: Digest, ghost n: TreeStore.Nodes)
      requires depth <= DEPTH && Encodes(nodes, n)
      modifies this
      ensures Encodes(nodes, TreeStore.SetNode(H, n, PathPrefix(path, DEPTH - depth), val))
    {
      NodeKeyIsPosition(depth, path);
      PutNode(NodeKey(depth, path), DEPTH - depth, val, n, PathPrefix(path, DEPTH - depth));
    }

    /** One turn of Update's loop: hash with the sibling and write the parent. */
    method RehashParent(depth: nat, path: Digest, child: Digest, ghost n: TreeStore.Nodes) returns (cur: Digest)
      requires 0 < depth <= DEPTH && Encodes(nodes, n)
      modifies this
      ensures cur == Join(H, Bit(path, depth - 1), child,
                          TreeStore.NodeAt(H, n, Sibling(PathPrefix(path, DEPTH - depth))))
      ensures Encodes(nodes, TreeStore.SetNode(H, n, PathPrefix(path, DEPTH - depth + 1), cur))
    {
      var sib := GetSibling(depth, path, n);
      if !Bit(path, depth - 1) {
        cur := InternalHash(H, child, sib);
      } else {
        cur := InternalHash(H, sib, child);
      }
      SetNode(depth - 1, path, cur, n);
    }

    /** Update sets the leaf (the zero hash deletes) and rehashes its branch up to the root. */
    method Update(path: Digest, valueHash: Digest, ghost leaves: Leaves)
      requires Commits(H, nodes, leaves)
      modifies this
      ensures Commits(H, nodes, SetLeaf(leaves, path, valueHash))
    {
      assert Opened(NODES, true);
      ghost var n :| Encodes(nodes, n) && TreeStore.Represents(H, n, leaves);
      ghost var goal := TreeStore.UpdateNodes(H, n, path, valueHash);
      TreeStore.UpdateRefines(H, n, leaves, path, valueHash);

      var cur := LeafHash(H, path, valueHash);
      assert PathPrefix(path, 0) == Bits(path);
      SetNode(DEPTH, path, cur, n);
      n := TreeStore.SetNode(H, n, Bits(path), cur);

      var depth := DEPTH;
      while depth >= 1
        invariant 0 <= depth <= DEPTH
        invariant Encodes(nodes, n)
        invariant TreeStore.Rehash(H, n, PathPrefix(path, DEPTH - depth), cur) == goal
      {
        ghost var p := PathPrefix(path, DEPTH - depth);
        PathPrefixUp(path, DEPTH - depth + 1);
        cur := RehashParent(depth, path, cur, n);
        n := TreeStore.SetNode(H, n, PathPrefix(path, DEPTH - depth + 1), cur);
        depth := depth - 1;
      }
    }

    /** Root reads the node at depth zero. */
    method Root(ghost leaves: Leaves) returns (root: Digest)
      requires Commits(H, nodes, leaves)
      ensures root == TreeRoot(H, leaves)
    {
      assert Opened(NODES, true);
      ghost var n: TreeStore.Nodes :| Encodes(nodes, n) && TreeStore.Represents(H, n, leaves);
      NodeKeyIsPosition(0, Zeros(32));
      assert Bits(Zeros(32))[..0] == [];
      root := GetNode(NodeKey(0, Zeros(32)), DEPTH, n, []);
    }

    /** Prove collects the siblings of the path, bottom-up. */
    method Prove(path: Digest, ghost leaves: Leaves) returns (proof: seq<Digest>)
      requires Commits(H, nodes, leaves)
      ensures IsBranch(H, leaves, path, proof)
    {
      proof := [];
      var depth := DEPTH;
      while depth >= 1
        invariant 0 <= depth <= DEPTH && |proof| == DEPTH - depth
        invariant forall h :: 0 <= h < DEPTH - depth ==> proof[h] == SiblingHash(H, leaves, path, h)
      {
        var sib := ReadSibling(depth, path, leaves);
        proof := proof + [sib];
        depth := depth - 1;
      }
    }

    method ReadSibling(depth: nat, path: Digest, ghost leaves: Leaves) returns (sib: Digest)
      requires 0 < depth <= DEPTH && Commits(H, nodes, leaves)
      ensures sib == SiblingHash(H, leaves, path, DEPTH - depth)
    {
      assert Opened(NODES, true);
      ghost var n :| Encodes(nodes, n) && TreeStore.Represents(H, n, leaves);
      sib := GetSibling(depth, path, n);
    }
  }

  // ---- Verify ----

  ghost predicate Sized(root: Bytes, path: Bytes, valueHash: Bytes, proof: seq<Bytes>) {
    |root| == 32 && |path| == 32 && |valueHash| == 32 && |proof| == DEPTH && forall s :: s in proof ==> |s| == 32
  }

  /** The branch folds the leaf into the root, and every piece has its right length. */
  ghost predicate Accepts(H: Hasher, root: Bytes, path: Bytes, valueHash: Bytes, proof: seq<Bytes>) {
    Sized(root, path, valueHash, proof) && Climb(H, path, LeafHash(H, path, valueHash), proof, DEPTH) == root
  }

  method Verify(H: Hasher, root: Bytes, path: Bytes, valueHash: Bytes, proof: seq<Bytes>) returns (ok: bool)
    ensures ok <==> Accepts(H, root, path, valueHash, proof)
  {
    if |root| != 32 || |path| != 32 || |valueHash| != 32 || |proof| != DEPTH {
      return false;
    }
    var cur := LeafHash(H, path, valueHash);
    var height := 0;
    while height < DEPTH
      invariant 0 <= height <= DEPTH
      invariant forall h :: 0 <= h < height ==> |proof[h]| == 32
      invariant Sized(root, path, valueHash, proof) ==>
                  cur == Climb(H, path, LeafHash(H, path, valueHash), proof, height)
    {
      var sib := proof[height];
      if |sib| != 32 {
        return false;
      }
      var depth := DEPTH - height;
      if !Bit(path, depth - 1) {
        cur := InternalHash(H, cur, sib);
      } else {
        cur := InternalHash(H, sib, cur);
      }
      height := height + 1;
    }
    return cur == root;
  }

  /** Prove's branch always verifies against the tree's root, for present and absent leaves alike. */
  lemma ProvenVerifies(H: Hasher, leaves: Leaves, path: Digest, proof: seq<Digest>)
    requires IsBranch(H, leaves, path, proof)
    ensures Accepts(H, TreeRoot(H, leaves), path, LeafValue(leaves, path), proof)
  {
    BranchClimbs(H, leaves, path, proof, DEPTH);
    assert PathPrefix(path, DEPTH) == [];
  }

  /** An accepted branch against the root of a leaf map shows that leaf (none for the zero hash), unless the hash
      function is broken on the bytes that the fold of this branch and the tree hash along this path. */
  lemma AcceptedMeansLeaf(H: Hasher, leaves: Leaves, path: Bytes, valueHash: Bytes, proof: seq<Bytes>)
    requires Accepts(H, TreeRoot(H, leaves), path, valueHash, proof)
    ensures LeafValue(leaves, path) == valueHash || Broken(H, leaves, path, valueHash, proof, DEPTH)
    ensures Proper(leaves) && !Broken(H, leaves, path, valueHash, proof, DEPTH) ==>
              (path in leaves <==> !IsZero(valueHash))
  {
    assert PathPrefix(path, DEPTH) == [];
    ClimbEvidence(H, leaves, path, valueHash, proof, DEPTH);
  }
}
