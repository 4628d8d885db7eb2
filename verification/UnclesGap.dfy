/** Where CollectUncles and validateUncles part ways: an origin one above the low end of the ancestor window. A node
    started on the checkpoint at height 10 shows it once its tip is at height 39: a chain of blocks 10 to 39, and
    one block aside the tip. */
module UnclesGap {
  import opened Basics
  import opened BlockTree
  import opened BlockStore
  import opened Uncles

  const FIRST: nat := 10
  const TIP: nat := 39

  /** The block hashes: names[k] of the chain's block at height k, down to the origin's parent names[9]; names[40] of
      the block aside, names[41] of the next block. */
  predicate Distinct(names: seq<Digest>) {
    |names| == 42 && forall i, j :: 0 <= i < j < 42 ==> names[i] != names[j]
  }

  function BlockOf(names: seq<Digest>, k: nat): (b: Block)
    requires |names| == 42 && FIRST <= k <= TIP + 1
  {
    if k <= TIP then Block(Header(names[k], names[k - 1], k, 10 * k, 5), [], [])
    else Block(Header(names[40], names[TIP - 1], TIP, 10 * TIP, 5), [], [])
  }

  function Aside(names: seq<Digest>): Block
    requires |names| == 42
  {
    BlockOf(names, TIP + 1)
  }

  ghost predicate IsName(names: seq<Digest>, k: nat, h: Digest)
    requires |names| == 42
  {
    FIRST <= k <= TIP + 1 && names[k] == h
  }

  ghost function Named(names: seq<Digest>, h: Digest): (b: Block)
    requires |names| == 42
  {
    if exists k: nat :: IsName(names, k, h) then
      var k: nat :| IsName(names, k, h);
      BlockOf(names, k)
    else Block(Header(h, h, 0, 0, 0), [], [])
  }

  ghost function TreeOf(names: seq<Digest>): Tree
    requires |names| == 42
  {
    (h: Digest) => Named(names, h)
  }

  lemma TreeAt(names: seq<Digest>, k: nat)
    requires Distinct(names) && FIRST <= k <= TIP + 1
    ensures TreeOf(names)(names[k]) == BlockOf(names, k)
  {
    assert IsName(names, k, names[k]);
    var j: nat :| IsName(names, j, names[k]) && Named(names, names[k]) == BlockOf(names, j);
  }

  ghost function Known(names: seq<Digest>): set<Digest>
    requires |names| == 42
  {
    set k: nat | FIRST <= k <= TIP + 1 :: names[k]
  }

  ghost function StoreOf(names: seq<Digest>): Db
    requires |names| == 42
  {
    var t := TreeOf(names);
    Db(map h | h in Known(names) ::
       t(h), map k: nat | FIRST <= k <= TIP :: names[k], map[names[40] := TIP], map[], map[],
       TIP, names[TIP])
  }

  ghost function Start(names: seq<Digest>): Origin
    requires |names| == 42
  {
    Origin(names[FIRST], FIRST)
  }

  /** The next block, carrying what CollectUncles finds. */
  function NextBlock(names: seq<Digest>): Block
    requires |names| == 42
  {
    Block(Header(names[41], names[TIP], TIP + 1, 10 * (TIP + 1), 5), [Aside(names).head], [])
  }

  lemma BelowOrigin(names: seq<Digest>)
    requires Distinct(names)
    ensures Ht(TreeOf(names), names[9]) == 0
  {
    assert forall k: nat :: !IsName(names, k, names[9]);
  }

  lemma GapRooted(names: seq<Digest>)
    requires Distinct(names)
    ensures Rooted(TreeOf(names), Start(names), Known(names))
    ensures Stored(TreeOf(names), Known(names), StoreOf(names).bodies)
  {
    var t, o, known := TreeOf(names), Start(names), Known(names);
    forall k: nat | FIRST <= k <= TIP + 1 ensures names[k] in known && Attached(t, o, known, names[k]) {
      TreeAt(names, k);
      if k > FIRST {
        var p: nat := if k <= TIP then k - 1 else TIP - 1;
        TreeAt(names, p);
        assert names[p] in known;
      }
    }
    TreeAt(names, FIRST);
    BelowOrigin(names);
  }

  lemma {:induction false} Spine(names: seq<Digest>, j: nat, k: nat)
    requires Distinct(names) && FIRST <= k <= j <= TIP
    ensures AncestorAt(TreeOf(names), names[j], k) == names[k]
    decreases j
  {
    TreeAt(names, j);
    if k < j {
      TreeAt(names, j - 1);
      Spine(names, j - 1, k);
    }
  }

  lemma GapIndexed(names: seq<Digest>)
    requires Distinct(names)
    ensures OnSpine(TreeOf(names), Start(names), StoreOf(names)) && Marked(TreeOf(names), StoreOf(names))
  {
    var t, db := TreeOf(names), StoreOf(names);
    TreeAt(names, TIP);
    forall k: nat
      ensures Lookup(db.index, k) == if FIRST <= k <= TIP then Some(AncestorAt(t, names[TIP], k)) else None
    {
      if FIRST <= k <= TIP {
        Spine(names, TIP, k);
      }
    }
    forall k: nat | FIRST <= k <= TIP + 1
      ensures names[k] in db.bodies && (names[k] in db.side || Canonical(db.index, names[k], Ht(t, names[k])))
    {
      TreeAt(names, k);
    }
    TreeAt(names, TIP + 1);
  }

  /** The block aside is an uncle CollectUncles may return. */
  lemma GapCollected(names: seq<Digest>)
    requires Distinct(names)
    ensures CollectedOk(TreeOf(names), StoreOf(names), [Aside(names).head])
  {
    var t, db := TreeOf(names), StoreOf(names);
    TreeAt(names, TIP + 1);
    forall k: nat | k in db.index ensures !Refers(t(db.index[k]), names[40]) {
      TreeAt(names, k);
    }
    assert Eligible(t, db, names[40]);
  }

  /** Yet the next block with that uncle is refused: the ancestor walk runs past the origin. */
  lemma GapRefused(names: seq<Digest>)
    requires Distinct(names)
    ensures !Walkable(TreeOf(names), Start(names), StoreOf(names).bodies, NextBlock(names))
    ensures NextBlock(names).uncles != []
  {
    assert Lowest(TIP + 1) == FIRST - 1;
  }
}
