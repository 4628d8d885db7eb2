/** The consensus state commitment of ngstate/statetrie.go: every write to a committed bucket is mirrored
    as one leaf, keyed by a hashed domain-tagged key. */
module StateTrie {
  import opened Basics
  import opened SparseMerkle
  import NodeStore

  /** A committed entry: its domain tag and raw bucket key. */
  datatype LeafKey = LeafKey(tag: bv8, key: Bytes)

  /** statetrie.LeafPath */
  function Path(H: Hasher, k: LeafKey): (r: Digest) {
    H([k.tag] + k.key)
  }

  /** The live committed entries with their encoded, never empty, values. */
  type Flat = map<LeafKey, Bytes>

  function ValueHash(H: Hasher, flat: Flat, k: LeafKey): (r: Digest) {
    if k in flat then H(flat[k]) else Zeros(32)
  }

  /** No two of these keys hash to the same leaf position. */
  ghost predicate NoCollision(H: Hasher, keys: set<LeafKey>) {
    forall a, b :: a in keys && b in keys && Path(H, a) == Path(H, b) ==> a == b
  }

  /** The leaf map holds exactly the entries, all of whose keys are among those ever written. */
  ghost predicate Mirrors(H: Hasher, leaves: Leaves, flat: Flat, keys: set<LeafKey>) {
    && flat.Keys <= keys
    && Proper(leaves)
    && (forall k :: k in keys ==> LeafValue(leaves, Path(H, k)) == ValueHash(H, flat, k))
    && (forall p :: p in leaves ==> exists k :: k in keys && p == Path(H, k))
  }

  /** One mirrored write. An empty value is an absent leaf. */
  lemma MirrorsWrite(H: Hasher, leaves: Leaves, flat: Flat, keys: set<LeafKey>, k: LeafKey, value: Bytes)
    requires NoCollision(H, keys + {k}) && Mirrors(H, leaves, flat, keys)
    ensures Mirrors(H, SetLeaf(leaves, Path(H, k), if value == [] then Zeros(32) else H(value)),
                    Assign(flat, k, if value == [] then None else Some(value)), keys + {k})
  {
    var hash: Digest := if value == [] then Zeros(32) else H(value);
    var leaves' := SetLeaf(leaves, Path(H, k), hash);
    var flat' := Assign(flat, k, if value == [] then None else Some(value));
    forall x | x in keys + {k} ensures LeafValue(leaves', Path(H, x)) == ValueHash(H, flat', x) {
      MirrorsWriteAt(H, leaves, flat, keys, k, value, x);
    }
    forall p | p in leaves' ensures exists x :: x in keys + {k} && p == Path(H, x) {
      MirrorsOwner(H, leaves, flat, keys, k, hash, p);
    }
    forall x | x in flat' ensures x in keys + {k} {
      assert Lookup(flat', x) == if x == k then (if value == [] then None else Some(value)) else Lookup(flat, x);
    }
  }

  lemma MirrorsWriteAt(H: Hasher, leaves: Leaves, flat: Flat, keys: set<LeafKey>, k: LeafKey, value: Bytes, x: LeafKey)
    requires NoCollision(H, keys + {k}) && Mirrors(H, leaves, flat, keys) && x in keys + {k}
    ensures LeafValue(SetLeaf(leaves, Path(H, k), if value == [] then Zeros(32) else H(value)), Path(H, x))
         == ValueHash(H, Assign(flat, k, if value == [] then None else Some(value)), x)
  {
    var flat' := Assign(flat, k, if value == [] then None else Some(value));
    assert Lookup(flat', x) == if x == k then (if value == [] then None else Some(value)) else Lookup(flat, x);
    if x != k {
      assert k in keys + {k};
      assert Path(H, x) != Path(H, k);
    }
  }

  lemma MirrorsOwner(H: Hasher, leaves: Leaves, flat: Flat, keys: set<LeafKey>, k: LeafKey, hash: Digest, p: Digest)
    requires Mirrors(H, leaves, flat, keys) && p in SetLeaf(leaves, Path(H, k), hash)
    ensures exists x :: x in keys + {k} && p == Path(H, x)
  {
    if p in leaves {
      var x :| x in keys && p == Path(H, x);
      assert x in keys + {k};
    } else {
      assert k in keys + {k} && p == Path(H, k);
    }
  }

  /** The leaf map is a function of the live entries: history does not matter. */
  lemma MirrorsUnique(H: Hasher, a: Leaves, b: Leaves, flat: Flat, j: set<LeafKey>, k: set<LeafKey>)
    requires NoCollision(H, j + k) && Mirrors(H, a, flat, j) && Mirrors(H, b, flat, k)
    ensures a == b
  {
    forall p ensures Lookup(a, p) == Lookup(b, p) {
      if p in a {
        OwnedOnBoth(H, a, b, flat, j, k, p);
      } else if p in b {
        OwnedOnBoth(H, b, a, flat, k, j, p);
      }
    }
    SameLookups(a, b);
  }

  lemma OwnedOnBoth(H: Hasher, a: Leaves, b: Leaves, flat: Flat, j: set<LeafKey>, k: set<LeafKey>, p: Digest)
    requires NoCollision(H, j + k) && Mirrors(H, a, flat, j) && Mirrors(H, b, flat, k) && p in a
    ensures p in b && b[p] == a[p]
  {
    var x :| x in j && p == Path(H, x);
    assert LeafValue(a, p) == ValueHash(H, flat, x);
    assert x in flat;
    assert x in k;
    assert LeafValue(b, p) == ValueHash(H, flat, x);
  }

  // ---- the leaf map as a function of the entries ----

  ghost predicate Owns(H: Hasher, flat: Flat, k: LeafKey, p: Digest) {
    k in flat && Path(H, k) == p && H(flat[k]) != Zeros(32)
  }

  ghost function Owner(H: Hasher, flat: Flat, p: Digest): (k: LeafKey)
    requires exists k :: Owns(H, flat, k, p)
    ensures Owns(H, flat, k, p)
  {
    var k :| Owns(H, flat, k, p);
    k
  }

  ghost function Paths(H: Hasher, flat: Flat): (r: set<Digest>)
    ensures forall p :: p in r <==> exists k :: Owns(H, flat, k, p)
  {
    set k | k in flat && Owns(H, flat, k, Path(H, k)) :: Path(H, k)
  }

  /** The leaves of the entries alone. */
  ghost function LeavesOf(H: Hasher, flat: Flat): (r: Leaves) {
    map p | p in Paths(H, flat) :: H(flat[Owner(H, flat, p)])
  }

  lemma OwnLeaf(H: Hasher, flat: Flat, keys: set<LeafKey>, k: LeafKey)
    requires flat.Keys <= keys && NoCollision(H, keys) && k in keys
    ensures LeafValue(LeavesOf(H, flat), Path(H, k)) == ValueHash(H, flat, k)
  {
    var p := Path(H, k);
    if p in Paths(H, flat) {
      assert Owner(H, flat, p) == k;
    } else if k in flat {
      assert !Owns(H, flat, k, p);
    }
  }

  lemma LeavesMirror(H: Hasher, flat: Flat, keys: set<LeafKey>)
    requires flat.Keys <= keys && NoCollision(H, keys)
    ensures Mirrors(H, LeavesOf(H, flat), flat, keys)
  {
    forall k | k in keys ensures LeafValue(LeavesOf(H, flat), Path(H, k)) == ValueHash(H, flat, k) {
      OwnLeaf(H, flat, keys, k);
    }
    forall p | p in LeavesOf(H, flat) ensures exists k :: k in keys && p == Path(H, k) {
      assert Owner(H, flat, p) in keys;
    }
  }

  /** Unless written keys collide, the leaf map is that of the entries. */
  lemma FaithfulLeaves(H: Hasher, leaves: Leaves, flat: Flat, keys: set<LeafKey>)
    requires Faithful(H, leaves, flat, keys) && NoCollision(H, keys)
    ensures leaves == LeavesOf(H, flat)
  {
    assert Opened(LEAVES, true);
    LeavesMirror(H, flat, keys);
    assert keys + keys == keys;
    MirrorsUnique(H, leaves, LeavesOf(H, flat), flat, keys, keys);
  }

  /** Unless written keys collide, the leaf map mirrors the entries. (Sealed like NodeStore.Commits.) */
  ghost predicate Faithful(H: Hasher, leaves: Leaves, flat: Flat, keys: set<LeafKey>) {
    forall seal {:trigger Opened(LEAVES, seal)} ::
      Opened(LEAVES, seal) && NoCollision(H, keys) ==> Mirrors(H, leaves, flat, keys)
  }

  class Trie {
    const store: NodeStore.Store
    ghost var leaves: Leaves
    /** Everything mirrored so far, and every key ever mirrored. */
    ghost var flat: Flat
    ghost var touched: set<LeafKey>

    ghost predicate Valid()
      reads this, store
    {
      && NodeStore.Commits(store.H, store.nodes, leaves)
      && Faithful(store.H, leaves, flat, touched)
    }

    constructor (H: Hasher)
      ensures Valid() && fresh(store) && store.H == H && flat == map[] && touched == {}
    {
      store := new NodeStore.Store(H);
      leaves := map[];
      flat := map[];
      touched := {};
      new;
      NodeStore.CommitsEmpty(H);
    }

    /** trieSetLeaf: an empty value deletes the leaf. */
    method SetLeaf(tag: bv8, key: Bytes, value: Bytes)
      requires Valid()
      modifies this, store
      ensures Valid()
      ensures touched == old(touched) + {LeafKey(tag, key)}
      ensures flat == Assign(old(flat), LeafKey(tag, key), if value == [] then None else Some(value))
    {
      ghost var k := LeafKey(tag, key);
      var path := Path(store.H, LeafKey(tag, key));
      var vh: Digest := if |value| == 0 then Zeros(32) else store.H(value);
      store.Update(path, vh, leaves);
      assert Opened(LEAVES, true);
      if NoCollision(store.H, touched + {k}) {
        assert NoCollision(store.H, touched);
        MirrorsWrite(store.H, leaves, flat, touched, k, value);
      }
      leaves := SparseMerkle.SetLeaf(leaves, path, vh);
      flat := Assign(flat, k, if value == [] then None else Some(value));
      touched := touched + {k};
    }

    /** Roll back to a saved node bucket. */
    method Load(nodes: map<Bytes, Digest>, ghost leaves: Leaves, ghost flat: Flat, ghost touched: set<LeafKey>)
      requires NodeStore.Commits(store.H, nodes, leaves) && Faithful(store.H, leaves, flat, touched)
      modifies this, store
      ensures Valid() && this.leaves == leaves && this.flat == flat && this.touched == touched
    {
      store.nodes := nodes;
      this.leaves, this.flat, this.touched := leaves, flat, touched;
    }

    /** DeleteBucket and CreateBucket of the node bucket. */
    method Clear()
      modifies this, store
      ensures Valid() && flat == map[] && touched == {}
    {
      store.Clear();
      leaves, flat, touched := map[], map[], {};
      NodeStore.CommitsEmpty(store.H);
    }

    /** StateRoot */
    method Root() returns (root: Digest)
      requires Valid()
      ensures root == TreeRoot(store.H, leaves)
    {
      root := store.Root(leaves);
    }
  }

  // ---- one root, one set of entries ----

  /** The hash function is broken on what the two tries hash for this key: the trees clash along its path, the two
      values collide, or the value of an entry only one of them has hashes to zeros32. */
  ghost predicate KeyClash(H: Hasher, a: Leaves, b: Leaves, f: Flat, g: Flat, k: LeafKey) {
    || TreesClash(H, a, b, Path(H, k))
    || (k in f && k in g && Collides(H, f[k], g[k]))
    || (k in f && k !in g && H(f[k]) == Zeros(32))
    || (k in g && k !in f && H(g[k]) == Zeros(32))
  }

  /** Two tries with the same root hold the same entry under a key, unless the hash function is broken on it. */
  lemma SameRootSameEntry(H: Hasher, a: Leaves, b: Leaves, f: Flat, g: Flat, keys: set<LeafKey>, k: LeafKey)
    requires Mirrors(H, a, f, keys) && Mirrors(H, b, g, keys) && TreeRoot(H, a) == TreeRoot(H, b)
    ensures Lookup(f, k) == Lookup(g, k) || KeyClash(H, a, b, f, g, k)
  {
    if k in keys {
      SameRootSameLeaf(H, a, b, Path(H, k));
      assert LeafValue(a, Path(H, k)) == ValueHash(H, f, k) && LeafValue(b, Path(H, k)) == ValueHash(H, g, k);
    }
  }

  /** Two tries over the same live entries have the same root when no written keys collide. */
  lemma SameRoot(H: Hasher, a: Leaves, b: Leaves, flat: Flat, j: set<LeafKey>, k: set<LeafKey>)
    requires NoCollision(H, j + k)
    requires Faithful(H, a, flat, j) && Faithful(H, b, flat, k)
    ensures TreeRoot(H, a) == TreeRoot(H, b)
  {
    assert Opened(LEAVES, true);
    MirrorsUnique(H, a, b, flat, j, k);
  }
}
