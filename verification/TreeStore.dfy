/** The tree as a store of node hashes, keyed by position: only non-default nodes are kept, and one
    Update rehashes one branch. It refines the recursive tree over the live leaves. */
module TreeStore {
  import opened Basics
  import opened SparseMerkle

  type Nodes = map<Prefix, Digest>

  /** getNode: the stored hash, or the empty default of that height. */
  function NodeAt(H: Hasher, m: Nodes, p: Prefix): (r: Digest) {
    if p in m then m[p] else Default(H, DEPTH - |p|)
  }

  /** setNode: an entry equal to the default is deleted. */
  function SetNode(H: Hasher, m: Nodes, p: Prefix, val: Digest): (r: Nodes) {
    if val == Default(H, DEPTH - |p|) then m - {p} else m[p := val]
  }

  /** Only non-default nodes are stored. */
  ghost predicate Lean(H: Hasher, m: Nodes) {
    forall p :: p in m ==> m[p] != Default(H, DEPTH - |p|)
  }

  /** Every node read is the recursive tree hash, and no default is stored. */
  ghost predicate Represents(H: Hasher, m: Nodes, leaves: Leaves) {
    && Lean(H, m)
    && forall p: Prefix {:trigger NodeAt(H, m, p)} :: NodeAt(H, m, p) == TreeHash(H, leaves, p)
  }

  /** The same set of entries always yields the same stored nodes: exactly the non-default ones. */
  lemma Canonical(H: Hasher, m: Nodes, n: Nodes, leaves: Leaves)
    requires Represents(H, m, leaves) && Represents(H, n, leaves)
    ensures m == n
    ensures forall p: Prefix :: p in m <==> TreeHash(H, leaves, p) != Default(H, DEPTH - |p|)
  {
    forall p: Prefix
      ensures p in m <==> TreeHash(H, leaves, p) != Default(H, DEPTH - |p|)
      ensures p in n <==> p in m
      ensures p in m ==> m[p] == n[p]
    {
      CanonicalAt(H, m, leaves, p);
      CanonicalAt(H, n, leaves, p);
    }
  }

  lemma CanonicalAt(H: Hasher, m: Nodes, leaves: Leaves, p: Prefix)
    requires Represents(H, m, leaves)
    ensures p in m <==> TreeHash(H, leaves, p) != Default(H, DEPTH - |p|)
    ensures p in m ==> m[p] == TreeHash(H, leaves, p)
  {
    assert NodeAt(H, m, p) == TreeHash(H, leaves, p);
  }

  lemma EmptyStore(H: Hasher)
    ensures Represents(H, map[], map[])
  {
    forall p: Prefix ensures NodeAt(H, map[], p) == TreeHash(H, map[], p) {
      EmptyTree(H, p);
    }
  }

  // ---- Update ----

  /** The store after rehashing the branch above p up to the root; cur is the node at p. */
  function Rehash(H: Hasher, m: Nodes, p: Prefix, cur: Digest): (r: Nodes)
    decreases |p|
  {
    if p == [] then m
    else
      var d := |p| - 1;
      var up := Join(H, p[d], cur, NodeAt(H, m, Sibling(p)));
      Rehash(H, SetNode(H, m, p[..d], up), p[..d], up)
  }

  /** Update as a function of the store. */
  function UpdateNodes(H: Hasher, m: Nodes, path: Digest, valueHash: Digest): (r: Nodes) {
    var leaf := LeafHash(H, path, valueHash);
    Rehash(H, SetNode(H, m, Bits(path), leaf), Bits(path), leaf)
  }

  /** Halfway up: strict ancestors of q are still the old nodes, everything else is new. */
  ghost predicate Halfway(H: Hasher, m: Nodes, was: Leaves, now: Leaves, q: Prefix) {
    && Lean(H, m)
    && forall p: Prefix {:trigger NodeAt(H, m, p)} :: NodeAt(H, m, p) == TreeHash(H, if p < q then was else now, p)
  }

  lemma RehashStep(H: Hasher, m: Nodes, was: Leaves, now: Leaves, q: Prefix)
    requires q != []
    requires Halfway(H, m, was, now, q)
    ensures var d := |q| - 1;
            var up := Join(H, q[d], TreeHash(H, now, q), NodeAt(H, m, Sibling(q)));
            && up == TreeHash(H, now, q[..d])
            && Halfway(H, SetNode(H, m, q[..d], up), was, now, q[..d])
  {
    var above: Prefix := q[..|q| - 1];
    JoinTree(H, now, q);
    assert NodeAt(H, m, Sibling(q)) == TreeHash(H, now, Sibling(q));
    SetHalfway(H, m, was, now, q, above);
  }

  lemma SetHalfway(H: Hasher, m: Nodes, was: Leaves, now: Leaves, q: Prefix, above: Prefix)
    requires q != [] && above == q[..|q| - 1]
    requires Halfway(H, m, was, now, q)
    ensures Halfway(H, SetNode(H, m, above, TreeHash(H, now, above)), was, now, above)
  {
    SetLean(H, m, above, TreeHash(H, now, above));
    var r := SetNode(H, m, above, TreeHash(H, now, above));
    forall p: Prefix ensures NodeAt(H, r, p) == TreeHash(H, if p < above then was else now, p) {
      SetHalfwayAt(H, m, was, now, q, above, p, NodeAt(H, m, p));
    }
  }

  lemma SetLean(H: Hasher, m: Nodes, q: Prefix, v: Digest)
    requires Lean(H, m)
    ensures Lean(H, SetNode(H, m, q, v))
  {}

  lemma SetHalfwayAt(H: Hasher, m: Nodes, was: Leaves, now: Leaves, q: Prefix, above: Prefix, p: Prefix, v: Digest)
    requires q != [] && above == q[..|q| - 1]
    requires v == NodeAt(H, m, p) && v == TreeHash(H, if p < q then was else now, p)
    ensures NodeAt(H, SetNode(H, m, above, TreeHash(H, now, above)), p)
              == TreeHash(H, if p < above then was else now, p)
  {
    StrictPrefixes(p, q, above);
    SetNodeAt(H, m, above, TreeHash(H, now, above), p);
  }

  lemma SetNodeAt(H: Hasher, m: Nodes, q: Prefix, v: Digest, p: Prefix)
    ensures NodeAt(H, SetNode(H, m, q, v), p) == if p == q then v else NodeAt(H, m, p)
  {}

  lemma StrictPrefixes(p: Prefix, q: Prefix, above: Prefix)
    requires q != [] && above == q[..|q| - 1]
    ensures p < q <==> p < above || p == above
    ensures !(above < above)
  {
    if p < q {
      assert p == above[..|p|];
    }
  }

  lemma {:induction false} RehashRefines(H: Hasher, m: Nodes, was: Leaves, now: Leaves, q: Prefix)
    requires Halfway(H, m, was, now, q)
    ensures Represents(H, Rehash(H, m, q, TreeHash(H, now, q)), now)
    decreases |q|
  {
    if q != [] {
      RehashStep(H, m, was, now, q);
      var above: Prefix := q[..|q| - 1];
      RehashRefines(H, SetNode(H, m, above, TreeHash(H, now, above)), was, now, above);
    }
  }

  /** One Update of one branch turns the canonical store of the leaves into that of the changed leaves. */
  lemma UpdateRefines(H: Hasher, m: Nodes, leaves: Leaves, path: Digest, valueHash: Digest)
    requires Represents(H, m, leaves)
    ensures Represents(H, UpdateNodes(H, m, path, valueHash), SetLeaf(leaves, path, valueHash))
  {
    var bits: Prefix, leaves' := Bits(path), SetLeaf(leaves, path, valueHash);
    PackBits(path);
    var leaf := LeafHash(H, path, valueHash);
    assert leaf == TreeHash(H, leaves', bits);
    forall p: Prefix
      ensures NodeAt(H, SetNode(H, m, bits, leaf), p) == TreeHash(H, if p < bits then leaves else leaves', p) {
      assert NodeAt(H, m, p) == TreeHash(H, leaves, p);
      if !(p <= bits) {
        TreeFrame(H, leaves, leaves', path, p);
      } else if |p| == |bits| {
        assert p == bits;
      }
    }
    RehashRefines(H, SetNode(H, m, bits, leaf), leaves, leaves', bits);
  }

  // ---- whole runs ----

  datatype Write = Write(path: Digest, valueHash: Digest)

  /** A run of Updates on the store. */
  function Run(H: Hasher, m: Nodes, writes: seq<Write>): (r: Nodes) {
    if writes == [] then m
    else var w := writes[|writes| - 1];
         UpdateNodes(H, Run(H, m, writes[..|writes| - 1]), w.path, w.valueHash)
  }

  /** The same run on the leaf map. */
  function RunLeaves(leaves: Leaves, writes: seq<Write>): (r: Leaves) {
    if writes == [] then leaves
    else var w := writes[|writes| - 1];
         SetLeaf(RunLeaves(leaves, writes[..|writes| - 1]), w.path, w.valueHash)
  }

  /** After any sequence of Updates from empty, the store is the canonical one of the live leaves. */
  lemma {:induction false} RunRefines(H: Hasher, writes: seq<Write>)
    ensures Represents(H, Run(H, map[], writes), RunLeaves(map[], writes))
  {
    if writes == [] {
      EmptyStore(H);
    } else {
      var w := writes[|writes| - 1];
      RunRefines(H, writes[..|writes| - 1]);
      UpdateRefines(H, Run(H, map[], writes[..|writes| - 1]),
                    RunLeaves(map[], writes[..|writes| - 1]), w.path, w.valueHash);
    }
  }

  /** Root and stored nodes depend only on the final leaf set, not on the writes or their order. */
  lemma OrderIndependent(H: Hasher, ws: seq<Write>, vs: seq<Write>)
    requires RunLeaves(map[], ws) == RunLeaves(map[], vs)
    ensures Run(H, map[], ws) == Run(H, map[], vs)
  {
    RunRefines(H, ws);
    RunRefines(H, vs);
    Canonical(H, Run(H, map[], ws), Run(H, map[], vs), RunLeaves(map[], ws));
  }

  /** A delete undoes an insert of a path that was absent, whatever ran in between elsewhere. */
  lemma DeleteUndoesInsert(H: Hasher, before: seq<Write>, between: seq<Write>, path: Digest, valueHash: Digest)
    requires path !in RunLeaves(map[], before)
    requires forall w :: w in between ==> w.path != path
    ensures Run(H, map[], before + [Write(path, valueHash)] + between + [Write(path, Zeros(32))])
         == Run(H, map[], before + between)
  {
    var inserted := before + [Write(path, valueHash)];
    var deleted := inserted + between + [Write(path, Zeros(32))];
    assert deleted[..|deleted| - 1] == inserted + between;
    assert inserted[..|inserted| - 1] == before;
    var base := RunLeaves(map[], before);
    DeleteCommutes(base, SetLeaf(base, path, valueHash), between, path);
    RunLeavesAppend(map[], before, between);
    RunLeavesAppend(map[], inserted, between);
    OrderIndependent(H, deleted, before + between);
  }

  lemma {:induction false} RunLeavesAppend(leaves: Leaves, a: seq<Write>, b: seq<Write>)
    ensures RunLeaves(leaves, a + b) == RunLeaves(RunLeaves(leaves, a), b)
  {
    if b == [] {
      assert a + b == a;
    } else {
      assert (a + b)[..|a + b| - 1] == a + b[..|b| - 1];
      RunLeavesAppend(leaves, a, b[..|b| - 1]);
    }
  }

  lemma {:induction false} DeleteCommutes(x: Leaves, y: Leaves, between: seq<Write>, path: Digest)
    requires path !in x && y - {path} == x
    requires forall w :: w in between ==> w.path != path
    ensures path !in RunLeaves(x, between) && RunLeaves(y, between) - {path} == RunLeaves(x, between)
  {
    if between != [] {
      DeleteCommutes(x, y, between[..|between| - 1], path);
      assert between[|between| - 1] in between;
    }
  }
}
