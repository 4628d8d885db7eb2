/** The tree of blocks below one origin: ancestors, cumulative work and the order of fork choice. */
module BlockTree {
  import opened Basics
  import KeyOrder

  datatype Header = Header(hash: Digest, prev: Digest, height: nat, timestamp: nat, difficulty: nat)

  /** A block: its header, the uncle headers it references and the ids of its txs. */
  datatype Block = Block(head: Header, uncles: seq<Header>, txs: seq<Digest>)

  /** The block a hash stands for. That there is at most one is the collision-freedom of block hashes. */
  type Tree = Digest -> Block

  /** The block a node's chain starts from: the genesis, or a checkpoint block. */
  datatype Origin = Origin(hash: Digest, height: nat)

  function Ht(t: Tree, h: Digest): nat { t(h).head.height }
  function Up(t: Tree, h: Digest): Digest { t(h).head.prev }

  /** h is the origin or builds on a known block. */
  ghost predicate Attached(t: Tree, o: Origin, known: set<Digest>, h: Digest) {
    && t(h).head.hash == h
    && (h == o.hash || (Up(t, h) in known && Ht(t, h) == Ht(t, Up(t, h)) + 1 && t(h).head.difficulty > 0))
  }

  /** The known blocks are a tree rooted at the origin. */
  ghost predicate Rooted(t: Tree, o: Origin, known: set<Digest>) {
    && o.hash in known
    && Ht(t, o.hash) == o.height
    && Up(t, o.hash) != o.hash && Ht(t, Up(t, o.hash)) <= o.height
    && forall h {:trigger Attached(t, o, known, h)} :: h in known ==> Attached(t, o, known, h)
  }

  /** The difficulties summed along the prev links down to the origin. */
  ghost function Work(t: Tree, o: Origin, h: Digest): (w: nat)
    decreases Ht(t, h)
  {
    t(h).head.difficulty + (if h == o.hash || Ht(t, Up(t, h)) >= Ht(t, h) then 0 else Work(t, o, Up(t, h)))
  }

  /** The ancestor-or-self of h at height k. */
  ghost function AncestorAt(t: Tree, h: Digest, k: nat): (r: Digest)
    decreases Ht(t, h)
  {
    if Ht(t, h) <= k || Ht(t, Up(t, h)) >= Ht(t, h) then h else AncestorAt(t, Up(t, h), k)
  }

  /** Fork choice: more work wins, then the smaller hash. */
  ghost predicate Better(t: Tree, o: Origin, a: Digest, b: Digest) {
    Work(t, o, a) > Work(t, o, b) || (Work(t, o, a) == Work(t, o, b) && KeyOrder.Less(a, b))
  }

  lemma {:induction false} AboveOrigin(t: Tree, o: Origin, known: set<Digest>, h: Digest)
    requires Rooted(t, o, known) && h in known
    ensures Ht(t, h) >= o.height && (Ht(t, h) == o.height ==> h == o.hash)
    decreases Ht(t, h)
  {
    assert Attached(t, o, known, h);
    if h != o.hash {
      AboveOrigin(t, o, known, Up(t, h));
    }
  }

  lemma {:induction false} AncestorKnown(t: Tree, o: Origin, known: set<Digest>, h: Digest, k: nat)
    requires Rooted(t, o, known) && h in known && o.height <= k <= Ht(t, h)
    ensures AncestorAt(t, h, k) in known && Ht(t, AncestorAt(t, h, k)) == k
    ensures k == o.height ==> AncestorAt(t, h, k) == o.hash
    decreases Ht(t, h)
  {
    assert Attached(t, o, known, h);
    if k < Ht(t, h) {
      AncestorKnown(t, o, known, Up(t, h), k);
    } else {
      AboveOrigin(t, o, known, h);
    }
  }

  lemma {:induction false} AncestorOfAncestor(t: Tree, o: Origin, known: set<Digest>, h: Digest, j: nat, k: nat)
    requires Rooted(t, o, known) && h in known && o.height <= k <= j <= Ht(t, h)
    ensures AncestorAt(t, AncestorAt(t, h, j), k) == AncestorAt(t, h, k)
    decreases Ht(t, h)
  {
    assert Attached(t, o, known, h);
    if j < Ht(t, h) {
      AncestorOfAncestor(t, o, known, Up(t, h), j, k);
    }
  }

  /** The ancestor at one height is the parent of the ancestor above it. */
  lemma AncestorLinked(t: Tree, o: Origin, known: set<Digest>, h: Digest, k: nat, j: nat)
    requires Rooted(t, o, known) && h in known && o.height <= k < j == k + 1 <= Ht(t, h)
    ensures AncestorAt(t, h, k) == Up(t, AncestorAt(t, h, j))
  {
    AncestorKnown(t, o, known, h, j);
    var c := AncestorAt(t, h, j);
    AncestorOfAncestor(t, o, known, h, j, k);
    assert Attached(t, o, known, c);
    if c == o.hash {
      AboveOrigin(t, o, known, h);
    }
    assert AncestorAt(t, Up(t, c), k) == Up(t, c);
  }

  lemma NothingBelowOrigin(t: Tree, o: Origin, known: set<Digest>)
    requires Rooted(t, o, known)
    ensures Up(t, o.hash) !in known
  {
    if Up(t, o.hash) in known {
      AboveOrigin(t, o, known, Up(t, o.hash));
    }
  }

  /** Every block adds work to its parent's chain. */
  lemma WorkGrows(t: Tree, o: Origin, known: set<Digest>, h: Digest)
    requires Rooted(t, o, known) && h in known && h != o.hash
    ensures Work(t, o, h) == t(h).head.difficulty + Work(t, o, Up(t, h)) > Work(t, o, Up(t, h))
  {
    assert Attached(t, o, known, h);
  }

  /** The difficulties of the ancestors of h at the heights low .. high. */
  ghost function Difficulties(t: Tree, h: Digest, low: nat, high: nat): nat
    decreases high
  {
    if high < low then 0
    else t(AncestorAt(t, h, high)).head.difficulty + if high == 0 then 0 else Difficulties(t, h, low, high - 1)
  }

  lemma {:induction false} SameDifficulties(t: Tree, h: Digest, low: nat, high: nat)
    requires high < Ht(t, h) && Ht(t, Up(t, h)) < Ht(t, h)
    ensures Difficulties(t, h, low, high) == Difficulties(t, Up(t, h), low, high)
    decreases high
  {
    if low <= high && high > 0 {
      SameDifficulties(t, h, low, high - 1);
    }
  }

  /** The work of a block is the sum of the difficulties of its chain, the origin included. */
  lemma {:induction false} WorkIsSum(t: Tree, o: Origin, known: set<Digest>, h: Digest)
    requires Rooted(t, o, known) && h in known
    ensures Work(t, o, h) == Difficulties(t, h, o.height, Ht(t, h))
    decreases Ht(t, h)
  {
    assert Attached(t, o, known, h);
    AboveOrigin(t, o, known, h);
    if h != o.hash {
      var k: nat := Ht(t, h) - 1;
      AboveOrigin(t, o, known, Up(t, h));
      WorkIsSum(t, o, known, Up(t, h));
      SameDifficulties(t, h, o.height, k);
    }
  }

  /** A proper ancestor carries less work. */
  lemma {:induction false} AncestorLighter(t: Tree, o: Origin, known: set<Digest>, h: Digest, k: nat)
    requires Rooted(t, o, known) && h in known && o.height <= k < Ht(t, h)
    ensures Work(t, o, AncestorAt(t, h, k)) < Work(t, o, h)
    decreases Ht(t, h)
  {
    assert Attached(t, o, known, h);
    WorkGrows(t, o, known, h);
    if k < Ht(t, Up(t, h)) {
      AncestorLighter(t, o, known, Up(t, h), k);
    }
  }

  lemma BetterTotal(t: Tree, o: Origin, a: Digest, b: Digest)
    ensures a == b || Better(t, o, a, b) || Better(t, o, b, a)
  {
    KeyOrder.LessTotal(a, b);
  }

  lemma BetterAsymmetric(t: Tree, o: Origin, a: Digest, b: Digest)
    requires Better(t, o, a, b)
    ensures a != b && !Better(t, o, b, a)
  {
    KeyOrder.LessIrreflexive(a);
    if KeyOrder.Less(a, b) && KeyOrder.Less(b, a) {
      KeyOrder.LessTransitive(a, b, a);
    }
  }

  lemma BetterTransitive(t: Tree, o: Origin, a: Digest, b: Digest, c: Digest)
    requires Better(t, o, a, b) && Better(t, o, b, c)
    ensures Better(t, o, a, c)
  {
    if KeyOrder.Less(a, b) && KeyOrder.Less(b, c) {
      KeyOrder.LessTransitive(a, b, c);
    }
  }

  /** A new block that builds on a known one keeps the tree rooted. */
  lemma RootedGrows(t: Tree, o: Origin, known: set<Digest>, b: Block)
    requires Rooted(t, o, known)
    requires t(b.head.hash) == b && b.head.prev in known
    requires b.head.height == Ht(t, b.head.prev) + 1 && b.head.difficulty > 0
    ensures Rooted(t, o, known + {b.head.hash}) && b.head.hash != o.hash
  {
    AboveOrigin(t, o, known, b.head.prev);
    var grown := known + {b.head.hash};
    forall h | h in grown ensures Attached(t, o, grown, h) {
      if h in known {
        assert Attached(t, o, known, h);
      }
    }
  }
}
