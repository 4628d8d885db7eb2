/** What every reachable block store satisfies, and that each bucket operation keeps it. */
module ChainState {
  import opened Basics
  import opened BlockTree
  import opened BlockStore
  import opened Uncles

  /** The fixed surroundings of a node: the block each hash names, the height each tx carries, the retarget
      rule and the origin. */
  datatype Env = Env(t: Tree, stamp: Digest -> nat, next: Retarget, o: Origin)

  /** The canonical block above the origin that holds tx y. */
  ghost function Home(e: Env, index: map<nat, Digest>, y: Digest): Option<Digest> {
    var k: nat := e.stamp(y);
    if k > e.o.height && k in index && y in e.t(index[k]).txs then Some(index[k]) else None
  }

  /** The tx-to-block index covers exactly the canonical blocks above the origin. */
  ghost predicate TxsIndexed(e: Env, db: Db) {
    forall y :: Lookup(db.txs, y) == Home(e, db.index, y)
  }

  /** The header is later than its parent's and has the difficulty of its slot. The child of the origin is taken
      without that check on the fast path. */
  ghost predicate Timely(e: Env, b: Block) {
    var parent := e.t(b.head.prev).head;
    b.head.prev != e.o.hash ==>
      b.head.timestamp > parent.timestamp && b.head.difficulty == e.next(b.head.height, b.head.timestamp, parent)
  }

  /** What was checked of a block before it was accepted. */
  ghost predicate Vetted(e: Env, h: Digest) {
    h != e.o.hash ==> Stamped(e.stamp, e.t(h)) && UnclesOk(e.t, e.next, e.t(h)) && Timely(e, e.t(h))
  }

  ghost predicate AllVetted(e: Env, known: set<Digest>) {
    forall h :: h in known ==> Vetted(e, h)
  }

  /** Well-formedness of the store relative to every block ever accepted. */
  ghost predicate Sound(e: Env, known: set<Digest>, db: Db) {
    && Rooted(e.t, e.o, known)
    && AllVetted(e, known)
    && db.tipHash in known
    && Stored(e.t, known, db.bodies)
    && OnSpine(e.t, e.o, db)
    && Marked(e.t, db)
    && Memos(e.t, e.o, known, db.work)
    && TxsIndexed(e, db)
  }

  /** The tip beats every other accepted block. */
  ghost predicate Best(e: Env, known: set<Digest>, tip: Digest) {
    forall h :: h in known ==> h == tip || Better(e.t, e.o, tip, h)
  }

  // ---- reading the invariant ----

  /** Each canonical height resolves to a stored body of that height, linked to the one below. */
  lemma CanonicalChain(e: Env, known: set<Digest>, db: Db, k: nat)
    requires Sound(e, known, db) && e.o.height <= k <= db.tipHeight
    ensures k in db.index && db.index[k] in db.bodies && db.index[k] in known
    ensures db.bodies[db.index[k]] == e.t(db.index[k]) && e.t(db.index[k]).head.hash == db.index[k]
    ensures Ht(e.t, db.index[k]) == k
    ensures k > e.o.height ==> k - 1 in db.index && Up(e.t, db.index[k]) == db.index[k - 1]
    ensures k == e.o.height ==> db.index[k] == e.o.hash
    ensures k == db.tipHeight ==> db.index[k] == db.tipHash
  {
    CanonicalHere(e, known, db, k);
    if k > e.o.height {
      CanonicalBelow(e, known, db, k);
    }
  }

  lemma CanonicalHere(e: Env, known: set<Digest>, db: Db, k: nat)
    requires Rooted(e.t, e.o, known) && db.tipHash in known && OnSpine(e.t, e.o, db) && Marked(e.t, db)
    requires Stored(e.t, known, db.bodies) && e.o.height <= k <= db.tipHeight
    ensures k in db.index && db.index[k] in db.bodies && db.index[k] in known
    ensures db.bodies[db.index[k]] == e.t(db.index[k]) && e.t(db.index[k]).head.hash == db.index[k]
    ensures Ht(e.t, db.index[k]) == k
    ensures k == e.o.height ==> db.index[k] == e.o.hash
    ensures k == db.tipHeight ==> db.index[k] == db.tipHash
  {
    assert Lookup(db.index, k) == Some(AncestorAt(e.t, db.tipHash, k));
    AncestorKnown(e.t, e.o, known, db.tipHash, k);
  }

  lemma CanonicalBelow(e: Env, known: set<Digest>, db: Db, k: nat)
    requires Rooted(e.t, e.o, known) && db.tipHash in known && OnSpine(e.t, e.o, db) && Marked(e.t, db)
    requires Stored(e.t, known, db.bodies) && e.o.height < k <= db.tipHeight
    ensures k in db.index && k - 1 in db.index && Up(e.t, db.index[k]) == db.index[k - 1]
  {
    var p: nat := k - 1;
    CanonicalLink(e, known, db, p, k);
    assert p == k - 1;
  }

  /** Neighbouring heights of the index are linked. */
  lemma CanonicalLink(e: Env, known: set<Digest>, db: Db, p: nat, k: nat)
    requires Rooted(e.t, e.o, known) && db.tipHash in known && OnSpine(e.t, e.o, db) && Marked(e.t, db)
    requires Stored(e.t, known, db.bodies) && e.o.height <= p < k == p + 1 <= db.tipHeight
    ensures p in db.index && k in db.index && Up(e.t, db.index[k]) == db.index[p]
    ensures db.index[p] in db.bodies && Ht(e.t, db.index[p]) == p && Ht(e.t, db.index[k]) == k
  {
    assert Lookup(db.index, k) == Some(AncestorAt(e.t, db.tipHash, k));
    assert Lookup(db.index, p) == Some(AncestorAt(e.t, db.tipHash, p));
    AncestorLinked(e.t, e.o, known, db.tipHash, p, k);
    AncestorKnown(e.t, e.o, known, db.tipHash, p);
    AncestorKnown(e.t, e.o, known, db.tipHash, k);
  }

  lemma CanonicalWhole(e: Env, known: set<Digest>, db: Db, f: nat)
    requires Sound(e, known, db) && e.o.height <= f
    ensures Whole(e.t, e.stamp, db.bodies, db.index, f, db.tipHeight)
  {
    forall k: nat | f < k <= db.tipHeight ensures WholeAt(e.t, e.stamp, db.bodies, db.index, k) {
      CanonicalChain(e, known, db, k);
      AboveOrigin(e.t, e.o, known, db.index[k]);
      assert Vetted(e, db.index[k]);
    }
  }

  // ---- one operation at a time ----

  /** A block that builds on a known one and passed the checks. */
  ghost predicate Admissible(e: Env, known: set<Digest>, b: Block) {
    && e.t(b.head.hash) == b && b.head.prev in known
    && b.head.height == Ht(e.t, b.head.prev) + 1 && b.head.difficulty > 0
    && Stamped(e.stamp, b) && UnclesOk(e.t, e.next, b) && Timely(e, b)
  }

  lemma KnownGrows(e: Env, known: set<Digest>, b: Block)
    requires Rooted(e.t, e.o, known) && AllVetted(e, known) && Admissible(e, known, b)
    ensures Rooted(e.t, e.o, known + {b.head.hash}) && AllVetted(e, known + {b.head.hash}) && b.head.hash != e.o.hash
  {
    RootedGrows(e.t, e.o, known, b);
  }

  lemma ExtendedSpine(e: Env, known: set<Digest>, db: Db, b: Block, d: Db)
    requires Rooted(e.t, e.o, known) && db.tipHash in known && OnSpine(e.t, e.o, db)
    requires e.t(b.head.hash) == b && b.head.prev == db.tipHash && b.head.height == db.tipHeight + 1
    requires d.index == db.index[b.head.height := b.head.hash]
    requires d.tipHeight == b.head.height && d.tipHash == b.head.hash
    ensures OnSpine(e.t, e.o, d)
  {
    forall k: nat
      ensures Lookup(d.index, k)
          == if e.o.height <= k <= b.head.height then Some(AncestorAt(e.t, b.head.hash, k)) else None
    {
      assert Lookup(db.index, k)
          == if e.o.height <= k <= db.tipHeight then Some(AncestorAt(e.t, db.tipHash, k)) else None;
    }
  }

  /** PutNewBlock on top of the tip. */
  lemma PutNewSound(e: Env, known: set<Digest>, db: Db, b: Block, d: Db)
    requires Sound(e, known, db) && Admissible(e, known, b) && b.head.prev == db.tipHash
    requires d.bodies == db.bodies[b.head.hash := b] && d.index == db.index[b.head.height := b.head.hash]
    requires d.side == db.side - {b.head.hash} && d.tipHeight == b.head.height && d.tipHash == b.head.hash
    requires d.work == db.work
    requires forall y :: Lookup(d.txs, y) == if y in b.txs then Some(b.head.hash) else Lookup(db.txs, y)
    ensures Sound(e, known + {b.head.hash}, d)
  {
    KnownGrows(e, known, b);
    ExtendedSpine(e, known, db, b, d);
    PutNewMarked(e, known, db, b, d);
    PutNewTxs(e, known, db, b, d);
    PutNewMemos(e, known, b.head.hash, db.work);
  }

  lemma PutNewMemos(e: Env, known: set<Digest>, h: Digest, work: map<Digest, nat>)
    requires Memos(e.t, e.o, known, work)
    ensures Memos(e.t, e.o, known + {h}, work)
  {}

  lemma PutNewMarked(e: Env, known: set<Digest>, db: Db, b: Block, d: Db)
    requires Marked(e.t, db) && OnSpine(e.t, e.o, db) && e.t(b.head.hash) == b && b.head.height == db.tipHeight + 1
    requires d.bodies == db.bodies[b.head.hash := b] && d.index == db.index[b.head.height := b.head.hash]
    requires d.side == db.side - {b.head.hash}
    ensures Marked(e.t, d)
  {
    var top: nat := db.tipHeight + 1;
    assert Lookup(db.index, top).None?;
  }

  lemma PutNewTxs(e: Env, known: set<Digest>, db: Db, b: Block, d: Db)
    requires TxsIndexed(e, db) && OnSpine(e.t, e.o, db) && e.t(b.head.hash) == b && b.head.height == db.tipHeight + 1
    requires Stamped(e.stamp, b)
    requires d.index == db.index[b.head.height := b.head.hash]
    requires forall y :: Lookup(d.txs, y) == if y in b.txs then Some(b.head.hash) else Lookup(db.txs, y)
    ensures TxsIndexed(e, d)
  {
    var top: nat := db.tipHeight + 1;
    assert Lookup(db.index, top).None?;
    forall y ensures Lookup(d.txs, y) == Home(e, d.index, y) {
      assert Lookup(db.txs, y) == Home(e, db.index, y);
    }
  }

  /** PutSideBlock, also of a block that is already stored, canonical or not. */
  lemma PutSideSound(e: Env, known: set<Digest>, db: Db, b: Block)
    requires Sound(e, known, db) && Admissible(e, known, b)
    ensures Sound(e, known + {b.head.hash},
                  db.(bodies := db.bodies[b.head.hash := b], side := db.side[b.head.hash := b.head.height]))
  {
    KnownGrows(e, known, b);
    PutSideMarked(e, known, db, b,
                  db.(bodies := db.bodies[b.head.hash := b], side := db.side[b.head.hash := b.head.height]));
  }

  lemma PutSideMarked(e: Env, known: set<Digest>, db: Db, b: Block, d: Db)
    requires Marked(e.t, db) && Stored(e.t, known, db.bodies) && e.t(b.head.hash) == b
    requires d == db.(bodies := db.bodies[b.head.hash := b], side := db.side[b.head.hash := b.head.height])
    ensures Marked(e.t, d) && Stored(e.t, known + {b.head.hash}, d.bodies)
  {}

  lemma MemoSound(e: Env, known: set<Digest>, db: Db, work: map<Digest, nat>)
    requires Sound(e, known, db) && Memos(e.t, e.o, known, work)
    ensures Sound(e, known, db.(work := work))
  {}

  lemma PruneSound(e: Env, known: set<Digest>, db: Db, below: nat)
    requires Sound(e, known, db)
    ensures Sound(e, known, Pruned(db, below))
  {
    forall k | k in db.index ensures Ht(e.t, db.index[k]) == k {
      assert Lookup(db.index, k).Some?;
      CanonicalChain(e, known, db, k);
    }
    PruneMarked(e, db, below);
  }

  /** Pruning never removes a canonical body. */
  lemma PruneMarked(e: Env, db: Db, below: nat)
    requires Marked(e.t, db)
    requires forall k :: k in db.index ==> Ht(e.t, db.index[k]) == k
    ensures Marked(e.t, Pruned(db, below))
    ensures forall k :: k in db.index ==> db.index[k] in Pruned(db, below).bodies
  {
    forall k | k in db.index ensures db.index[k] !in Victims(db, below) {
    }
  }

  /** A prune leaves exactly the bodies at or above the line and those on the canonical chain, as they were, and
      nothing of the others: no body, no work and no mark. */
  lemma PruneLeaves(e: Env, db: Db, below: nat, h: Digest)
    requires OnSpine(e.t, e.o, db) && Marked(e.t, db)
    ensures var d, k := Pruned(db, below), Ht(e.t, h);
            var stays := k >= below || (e.o.height <= k <= db.tipHeight && AncestorAt(e.t, db.tipHash, k) == h);
            && (h in db.bodies ==> Lookup(d.bodies, h) == if stays then Some(db.bodies[h]) else None)
            && (h in db.bodies && !stays ==> h !in d.work && h !in d.side)
            && (h !in db.bodies || stays ==> Lookup(d.work, h) == Lookup(db.work, h))
  {
    assert Lookup(db.index, Ht(e.t, h)).Some? ==> Canonical(db.index, db.index[Ht(e.t, h)], Ht(e.t, h));
  }

  // ---- the branch switch ----

  /** A branch that leaves the canonical chain at height f. */
  ghost predicate Forks(e: Env, known: set<Digest>, db: Db, branch: seq<Block>, f: nat) {
    && branch != [] && Ascends(e.t, known, branch, f)
    && e.o.height <= f && Canonical(db.index, branch[0].head.prev, f)
  }

  /** Below the fork the branch has the canonical ancestors, above it its own blocks. */
  lemma {:induction false} BranchAncestor(e: Env, known: set<Digest>, db: Db, branch: seq<Block>, f: nat, n: nat,
                                          k: nat)
    requires Rooted(e.t, e.o, known) && Forks(e, known, db, branch, f) && 0 < n <= |branch|
    requires e.o.height <= k <= f + n
    ensures AncestorAt(e.t, branch[n - 1].head.hash, k)
         == if k > f then branch[k - f - 1].head.hash else AncestorAt(e.t, branch[0].head.prev, k)
    decreases n
  {
    assert AscendsAt(e.t, known, branch, f, n - 1);
    var h := branch[n - 1].head.hash;
    assert Attached(e.t, e.o, known, h);
    if h == e.o.hash {
      assert false;
    }
    if k < f + n && n > 1 {
      BranchAncestor(e, known, db, branch, f, n - 1, k);
    }
  }

  lemma SwitchSpine(e: Env, known: set<Digest>, grown: set<Digest>, db: Db, branch: seq<Block>, f: nat, d: Db)
    requires Rooted(e.t, e.o, known) && db.tipHash in known && OnSpine(e.t, e.o, db)
    requires known <= grown && Rooted(e.t, e.o, grown) && Forks(e, grown, db, branch, f)
    requires IndexSwitched(db.index, d.index, branch, f)
    requires d.tipHeight == f + |branch| && d.tipHash == branch[|branch| - 1].head.hash
    ensures OnSpine(e.t, e.o, d)
  {
    var n := |branch|;
    assert AscendsAt(e.t, grown, branch, f, n - 1);
    assert Lookup(db.index, f).Some?;
    forall k: nat
      ensures Lookup(d.index, k) == if e.o.height <= k <= d.tipHeight then Some(AncestorAt(e.t, d.tipHash, k)) else None
    {
      SpineAt(e, known, grown, db, branch, f, n, d, k);
    }
  }

  lemma SpineAt(e: Env, known: set<Digest>, grown: set<Digest>, db: Db, branch: seq<Block>, f: nat, n: nat, d: Db,
                k: nat)
    requires Rooted(e.t, e.o, known) && db.tipHash in known && OnSpine(e.t, e.o, db)
    requires known <= grown && Rooted(e.t, e.o, grown) && Forks(e, grown, db, branch, f) && n == |branch|
    requires f <= db.tipHeight && d.tipHeight == f + n && d.tipHash == branch[n - 1].head.hash
    requires Lookup(d.index, k) == if k > f + n then None else IndexedAt(db.index, branch, f, n, k)
    ensures Lookup(d.index, k) == if e.o.height <= k <= d.tipHeight then Some(AncestorAt(e.t, d.tipHash, k)) else None
  {
    assert Lookup(db.index, k)
        == if e.o.height <= k <= db.tipHeight then Some(AncestorAt(e.t, db.tipHash, k)) else None;
    if e.o.height <= k <= f + n {
      BranchAncestor(e, grown, db, branch, f, n, k);
      if k <= f {
        assert Lookup(db.index, f) == Some(AncestorAt(e.t, db.tipHash, f));
        AncestorOfAncestor(e.t, e.o, known, db.tipHash, f, k);
      }
    }
  }

  lemma SwitchStored(e: Env, known: set<Digest>, grown: set<Digest>, db: Db, branch: seq<Block>, f: nat, d: Db)
    requires Stored(e.t, known, db.bodies) && known <= grown && Ascends(e.t, grown, branch, f)
    requires BodiesSwitched(e.t, db.bodies, d.bodies, branch, f)
    ensures Stored(e.t, grown, d.bodies)
  {
    forall h | h in d.bodies ensures h in grown && d.bodies[h] == e.t(h) && d.bodies[h].head.hash == h {
      assert Lookup(d.bodies, h)
          == if InBranch(e.t, branch, f, |branch|, h) then Some(e.t(h)) else Lookup(db.bodies, h);
      if InBranch(e.t, branch, f, |branch|, h) {
        assert AscendsAt(e.t, grown, branch, f, Ht(e.t, h) - f - 1);
      }
    }
  }

  /** A stored block is canonical after the switch, or marked. */
  lemma SwitchMark(e: Env, db: Db, branch: seq<Block>, f: nat, d: Db, h: Digest)
    requires Marked(e.t, db) && OnSpine(e.t, e.o, db) && SwitchedTo(e.t, e.stamp, db, d, branch, f)
    ensures h in d.bodies ==> h in d.side || Canonical(d.index, h, Ht(e.t, h))
    ensures h in d.side ==> h in d.bodies && d.side[h] == Ht(e.t, h)
  {
    var k: nat := Ht(e.t, h);
    assert Lookup(d.bodies, h) == if InBranch(e.t, branch, f, |branch|, h) then Some(e.t(h)) else Lookup(db.bodies, h);
    assert Lookup(d.side, h) == if InBranch(e.t, branch, f, |branch|, h) then None
                                else if Replaced(e.t, db.index, f, db.tipHeight + 1, h) then Some(k)
                                  else Lookup(db.side, h);
    assert Lookup(d.index, k) == if k > f + |branch| then None else IndexedAt(db.index, branch, f, |branch|, k);
    assert Lookup(db.index, k).Some? ==> k <= db.tipHeight;
  }

  lemma SwitchMarked(e: Env, grown: set<Digest>, db: Db, branch: seq<Block>, f: nat, d: Db)
    requires Marked(e.t, db) && OnSpine(e.t, e.o, db) && SwitchedTo(e.t, e.stamp, db, d, branch, f)
    requires Ascends(e.t, grown, branch, f)
    ensures Marked(e.t, d)
  {
    forall k: nat | k in d.index ensures d.index[k] in d.bodies {
      assert Lookup(d.index, k) == if k > f + |branch| then None else IndexedAt(db.index, branch, f, |branch|, k);
      var h := d.index[k];
      assert Lookup(d.bodies, h)
          == if InBranch(e.t, branch, f, |branch|, h) then Some(e.t(h)) else Lookup(db.bodies, h);
      if k > f {
        assert AscendsAt(e.t, grown, branch, f, k - f - 1);
      }
    }
    forall h ensures h in d.bodies ==> h in d.side || Canonical(d.index, h, Ht(e.t, h))
             ensures h in d.side ==> h in d.bodies && d.side[h] == Ht(e.t, h) {
      SwitchMark(e, db, branch, f, d, h);
    }
  }

  lemma SwitchTxs(e: Env, grown: set<Digest>, db: Db, branch: seq<Block>, f: nat, d: Db)
    requires TxsIndexed(e, db) && OnSpine(e.t, e.o, db) && SwitchedTo(e.t, e.stamp, db, d, branch, f)
    requires Ascends(e.t, grown, branch, f)
    requires e.o.height <= f
    ensures TxsIndexed(e, d)
  {
    forall y ensures Lookup(d.txs, y) == Home(e, d.index, y) {
      var k: nat := e.stamp(y);
      assert Lookup(d.txs, y) == if TxInBranch(e.stamp, branch, f, |branch|, y) then Some(branch[k - f - 1].head.hash)
                                 else if TxReplaced(e.t, e.stamp, db.index, f, db.tipHeight + 1, y) then None
                                   else Lookup(db.txs, y);
      assert Lookup(db.txs, y) == Home(e, db.index, y);
      assert Lookup(d.index, k) == if k > f + |branch| then None else IndexedAt(db.index, branch, f, |branch|, k);
      assert Lookup(db.index, k).Some? ==> k <= db.tipHeight;
      if f < k <= f + |branch| {
        assert AscendsAt(e.t, grown, branch, f, k - f - 1);
      }
    }
  }

  /** ngblocks.SwitchToBranch keeps the store well formed and makes the branch's last block the tip. */
  lemma SwitchSound(e: Env, known: set<Digest>, grown: set<Digest>, db: Db, branch: seq<Block>, f: nat, d: Db)
    requires Sound(e, known, db) && known <= grown && Rooted(e.t, e.o, grown) && AllVetted(e, grown)
    requires Forks(e, grown, db, branch, f) && SwitchedTo(e.t, e.stamp, db, d, branch, f)
    ensures Sound(e, grown, d)
  {
    assert AscendsAt(e.t, grown, branch, f, |branch| - 1);
    SwitchSpine(e, known, grown, db, branch, f, d);
    SwitchStored(e, known, grown, db, branch, f, d);
    SwitchMarked(e, grown, db, branch, f, d);
    SwitchTxs(e, grown, db, branch, f, d);
  }
}
