/** The uncle rules of blockchain/fork.go: validateUncles walks a block's own ancestors, CollectUncles
    gathers eligible side blocks for the next block. */
module Uncles {
  import opened Basics
  import opened BlockTree
  import opened BlockStore

  const UNCLE_MAX_DEPTH: nat := 30
  const MAX_UNCLES: nat := 2

  /** ngtypes.GetNextDiff, a function of height, timestamp and parent header. */
  type Retarget = (nat, nat, Header) -> nat

  /** The lowest ancestor height the check looks at. */
  function Lowest(height: nat): (r: nat)
    ensures height > 0 ==> r < height
  {
    if height > UNCLE_MAX_DEPTH + 1 then height - (UNCLE_MAX_DEPTH + 1) else 0
  }

  predicate Refers(b: Block, h: Digest) {
    exists i :: 0 <= i < |b.uncles| && b.uncles[i].hash == h
  }

  /** A header's timestamp is later than its parent's and its difficulty is right for its slot. */
  predicate OnTarget(next: Retarget, u: Header, parent: Header) {
    u.timestamp > parent.timestamp && u.difficulty == next(u.height, u.timestamp, parent)
  }

  /** h is referenced by an ancestor of the block at height from or above. */
  ghost predicate ReferencedFrom(t: Tree, b: Block, from: nat, h: Digest) {
    exists k: nat :: from <= k < b.head.height && Refers(t(AncestorAt(t, b.head.prev, k)), h)
  }

  /** The rules for the i-th uncle, in terms of the block's own ancestor chain. */
  ghost predicate UncleOk(t: Tree, next: Retarget, b: Block, i: nat)
    requires i < |b.uncles|
  {
    var u := b.uncles[i];
    && 1 <= u.height < b.head.height <= u.height + UNCLE_MAX_DEPTH
    && AncestorAt(t, b.head.prev, u.height - 1) == u.prev
    && AncestorAt(t, b.head.prev, u.height) != u.hash
    && !ReferencedFrom(t, b, Lowest(b.head.height), u.hash)
    && (forall j :: 0 <= j < i ==> b.uncles[j].hash != u.hash)
    && OnTarget(next, u, t(u.prev).head)
  }

  /** Every ancestor in the window is stored. */
  ghost predicate Walkable(t: Tree, o: Origin, bodies: map<Digest, Block>, b: Block) {
    && o.height <= Lowest(b.head.height)
    && forall k: nat :: Lowest(b.head.height) <= k < b.head.height ==> AncestorAt(t, b.head.prev, k) in bodies
  }

  ghost predicate UnclesOk(t: Tree, next: Retarget, b: Block) {
    forall i :: 0 <= i < |b.uncles| ==> UncleOk(t, next, b, i)
  }

  /** What the walk has gathered once it stands at height low: the ancestors from low up to the parent,
      and everything they refer to. */
  ghost predicate Gathered(t: Tree, b: Block, low: nat, ancestors: map<nat, Block>, referenced: set<Digest>) {
    && (forall k: nat :: k in ancestors <==> low <= k < b.head.height)
    && (forall k: nat :: k in ancestors ==> ancestors[k] == t(AncestorAt(t, b.head.prev, k)))
    && (forall h :: h in referenced <==> ReferencedFrom(t, b, low, h))
  }

  function UncleHashes(us: seq<Header>): (r: set<Digest>)
    ensures forall h :: h in r <==> exists i :: 0 <= i < |us| && us[i].hash == h
  {
    set i | 0 <= i < |us| :: us[i].hash
  }

  lemma GatherOne(t: Tree, b: Block, low: nat, ancestors: map<nat, Block>, referenced: set<Digest>)
    requires Gathered(t, b, low, ancestors, referenced) && 0 < low <= b.head.height
    ensures var p := t(AncestorAt(t, b.head.prev, low - 1));
            Gathered(t, b, low - 1, ancestors[low - 1 := p], referenced + UncleHashes(p.uncles))
  {
    var p := t(AncestorAt(t, b.head.prev, low - 1));
    var r := referenced + UncleHashes(p.uncles);
    forall h ensures h in r <==> ReferencedFrom(t, b, low - 1, h) {
      if ReferencedFrom(t, b, low - 1, h) {
        var k: nat :| low - 1 <= k < b.head.height && Refers(t(AncestorAt(t, b.head.prev, k)), h);
        if k >= low {
          assert ReferencedFrom(t, b, low, h);
        }
      }
      if h in UncleHashes(p.uncles) {
        assert Refers(t(AncestorAt(t, b.head.prev, low - 1)), h);
      }
    }
  }

  ghost predicate Placed(bodies: map<Digest, Block>, b: Block) {
    b.head.prev in bodies && b.head.height == bodies[b.head.prev].head.height + 1
  }

  ghost predicate StoredFrom(t: Tree, bodies: map<Digest, Block>, b: Block, low: nat) {
    forall k: nat :: low <= k < b.head.height ==> AncestorAt(t, b.head.prev, k) in bodies
  }

  /** The ancestor walk of validateUncles; none when a body is missing on the way. */
  method WalkAncestors(bodies: map<Digest, Block>, b: Block, ghost t: Tree, ghost o: Origin, ghost known: set<Digest>)
    returns (found: bool, ancestors: map<nat, Block>, referenced: set<Digest>)
    requires Rooted(t, o, known) && Stored(t, known, bodies)
    ensures Placed(bodies, b) ==> (found <==> Walkable(t, o, bodies, b))
    ensures Placed(bodies, b) && found ==> Gathered(t, b, Lowest(b.head.height), ancestors, referenced)
  {
    ghost var placed := Placed(bodies, b);
    ancestors, referenced := map[], {};
    var lowest := Lowest(b.head.height);
    var cur := b.head;
    var first := true;
    while cur.height > lowest
      invariant first ==> cur == b.head
      invariant !first ==> cur.hash in known && t(cur.hash).head == cur
      invariant placed ==> lowest <= cur.height && StoredFrom(t, bodies, b, cur.height)
      invariant placed ==> Gathered(t, b, cur.height, ancestors, referenced)
      invariant placed && !first ==>
                  o.height <= cur.height < b.head.height && cur.hash == AncestorAt(t, b.head.prev, cur.height)
      decreases first, cur.height
    {
      if !first {
        assert Attached(t, o, known, cur.hash);
        NothingBelowOrigin(t, o, known);
      }
      if placed {
        WalkStep(t, o, known, bodies, b, cur, first);
      }
      if cur.prev !in bodies {
        return false, map[], {};
      }
      if placed {
        GatherOne(t, b, cur.height, ancestors, referenced);
      }
      var parent := bodies[cur.prev];
      ancestors := ancestors[parent.head.height := parent];
      referenced := referenced + UncleHashes(parent.uncles);
      cur := parent.head;
      first := false;
    }
    found := true;
  }

  /** One step of the walk: the block's parent-to-be is the next ancestor; if it is not stored the walk cannot end. */
  lemma WalkStep(t: Tree, o: Origin, known: set<Digest>, bodies: map<Digest, Block>, b: Block, cur: Header, first: bool)
    requires Rooted(t, o, known) && Stored(t, known, bodies) && Placed(bodies, b)
    requires first ==> cur == b.head
    requires !first ==> cur.hash in known && t(cur.hash).head == cur
    requires !first ==> o.height <= cur.height < b.head.height && cur.hash == AncestorAt(t, b.head.prev, cur.height)
    requires cur.height > Lowest(b.head.height)
    ensures cur.prev in bodies ==>
      && bodies[cur.prev].head.height == cur.height - 1 >= o.height && bodies[cur.prev] == t(cur.prev)
      && AncestorAt(t, b.head.prev, cur.height - 1) == cur.prev
    ensures cur.prev !in bodies ==> !Walkable(t, o, bodies, b)
  {
    if first {
      AboveOrigin(t, o, known, b.head.prev);
    } else {
      assert Attached(t, o, known, cur.hash);
      NothingBelowOrigin(t, o, known);
      Descend(t, o, known, b, cur);
    }
    if cur.prev in bodies {
      AboveOrigin(t, o, known, cur.prev);
    }
  }

  /** The uncle loop of validateUncles. */
  method CheckUncles(ancestors: map<nat, Block>, referenced: set<Digest>, b: Block, next: Retarget, ghost t: Tree,
                     ghost placed: bool)
    returns (ok: bool)
    requires placed ==> Gathered(t, b, Lowest(b.head.height), ancestors, referenced)
    requires placed ==> forall k :: k in ancestors ==> ancestors[k].head.hash == AncestorAt(t, b.head.prev, k)
    ensures placed ==> (ok <==> UnclesOk(t, next, b))
  {
    var seen := referenced;
    for i := 0 to |b.uncles|
      invariant placed ==> forall j :: 0 <= j < i ==> UncleOk(t, next, b, j)
      invariant forall h :: h in seen <==> h in referenced || exists j :: 0 <= j < i && b.uncles[j].hash == h
    {
      var u := b.uncles[i];
      ok := CheckUncle(ancestors, seen, u, b, next);
      if placed {
        UncleVerdict(t, next, b, i, ancestors, referenced, seen);
      }
      if !ok {
        return false;
      }
      seen := seen + {u.hash};
    }
    ok := true;
  }

  /** The five refusals for one uncle. */
  method CheckUncle(ancestors: map<nat, Block>, seen: set<Digest>, u: Header, b: Block, next: Retarget)
    returns (ok: bool)
    ensures ok <==> UnclePasses(ancestors, seen, u, b, next)
  {
    if !(1 <= b.head.height - u.height <= UNCLE_MAX_DEPTH) {
      return false;
    }
    if u.height == 0 || u.height - 1 !in ancestors || ancestors[u.height - 1].head.hash != u.prev {
      return false;
    }
    if u.height in ancestors && ancestors[u.height].head.hash == u.hash {
      return false;
    }
    if u.hash in seen {
      return false;
    }
    ok := OnTarget(next, u, ancestors[u.height - 1].head);
  }

  ghost predicate UnclePasses(ancestors: map<nat, Block>, seen: set<Digest>, u: Header, b: Block, next: Retarget) {
    && 1 <= u.height < b.head.height <= u.height + UNCLE_MAX_DEPTH
    && u.height - 1 in ancestors && ancestors[u.height - 1].head.hash == u.prev
    && (u.height in ancestors ==> ancestors[u.height].head.hash != u.hash)
    && u.hash !in seen
    && OnTarget(next, u, ancestors[u.height - 1].head)
  }

  lemma UncleVerdict(t: Tree, next: Retarget, b: Block, i: nat, ancestors: map<nat, Block>, referenced: set<Digest>,
                     seen: set<Digest>)
    requires i < |b.uncles| && Gathered(t, b, Lowest(b.head.height), ancestors, referenced)
    requires forall k :: k in ancestors ==> ancestors[k].head.hash == AncestorAt(t, b.head.prev, k)
    requires forall h :: h in seen <==> h in referenced || exists j :: 0 <= j < i && b.uncles[j].hash == h
    ensures UnclePasses(ancestors, seen, b.uncles[i], b, next) <==> UncleOk(t, next, b, i)
  {
    var u := b.uncles[i];
    if 1 <= u.height < b.head.height <= u.height + UNCLE_MAX_DEPTH {
      assert u.height in ancestors && u.height - 1 in ancestors;
      assert u.hash in seen <==> ReferencedFrom(t, b, Lowest(b.head.height), u.hash) || exists j ::
               0 <= j < i && b.uncles[j].hash == u.hash;
    }
  }

  /** validateUncles: the verdict over the store, for a block that sits right above its parent. */
  method ValidateUncles(bodies: map<Digest, Block>, b: Block, next: Retarget, ghost t: Tree, ghost o: Origin,
                        ghost known: set<Digest>)
    returns (ok: bool)
    requires Rooted(t, o, known) && Stored(t, known, bodies)
    ensures Placed(bodies, b) ==> (ok <==> b.uncles == [] || (Walkable(t, o, bodies, b) && UnclesOk(t, next, b)))
  {
    if |b.uncles| == 0 {
      return true;
    }
    var found, ancestors, referenced := WalkAncestors(bodies, b, t, o, known);
    if !found {
      return false;
    }
    ghost var placed := Placed(bodies, b);
    if placed {
      forall k | k in ancestors ensures ancestors[k].head.hash == AncestorAt(t, b.head.prev, k) {
        assert AncestorAt(t, b.head.prev, k) in bodies;
      }
    }
    ok := CheckUncles(ancestors, referenced, b, next, t, placed);
  }

  /** One step of the walk: below the current ancestor there is either its parent or, under the origin, nothing. */
  lemma Descend(t: Tree, o: Origin, known: set<Digest>, b: Block, cur: Header)
    requires Rooted(t, o, known) && b.head.prev in known && cur.hash in known && t(cur.hash).head == cur
    requires 0 < cur.height <= Ht(t, b.head.prev) && cur.hash == AncestorAt(t, b.head.prev, cur.height)
    requires o.height <= cur.height
    ensures cur.hash != o.hash ==> AncestorAt(t, b.head.prev, cur.height - 1) == cur.prev && o.height < cur.height
  {
    if cur.hash != o.hash {
      AboveOrigin(t, o, known, cur.hash);
      AncestorLinked(t, o, known, b.head.prev, cur.height - 1, cur.height);
    }
  }

  // ---- no uncle is referenced twice ----

  /** Uncle headers are named by their hash and lie below the block that refers to them. */
  ghost predicate Named(t: Tree, b: Block) {
    forall i :: 0 <= i < |b.uncles| ==> t(b.uncles[i].hash).head == b.uncles[i] && b.uncles[i].height < b.head.height
  }

  /** What a block referenced is out of reach of every validated descendant, at any distance. */
  lemma NeverTwice(t: Tree, o: Origin, known: set<Digest>, next: Retarget, h: Digest, k: nat, i: nat, j: nat)
    requires Rooted(t, o, known) && h in known && o.height <= k < Ht(t, h)
    requires UnclesOk(t, next, t(h)) && Named(t, t(h)) && Named(t, t(AncestorAt(t, h, k)))
    requires i < |t(AncestorAt(t, h, k)).uncles| && j < |t(h).uncles|
    ensures t(AncestorAt(t, h, k)).uncles[i].hash != t(h).uncles[j].hash
  {
    var b, a := t(h), t(AncestorAt(t, h, k));
    assert Attached(t, o, known, h);
    AncestorKnown(t, o, known, h, k);
    if h == o.hash {
      AboveOrigin(t, o, known, h);
    }
    assert AncestorAt(t, h, k) == AncestorAt(t, b.head.prev, k);
    assert Refers(t(AncestorAt(t, b.head.prev, k)), a.uncles[i].hash);
    assert UncleOk(t, next, b, j);
    assert ReferencedFrom(t, b, k, a.uncles[i].hash);
  }

  /** Nor does one block refer to an uncle twice. */
  lemma NotTwiceInOne(t: Tree, next: Retarget, b: Block, i: nat, j: nat)
    requires UnclesOk(t, next, b) && i < j < |b.uncles|
    ensures b.uncles[i].hash != b.uncles[j].hash
  {
    assert UncleOk(t, next, b, j);
  }

  // ---- collecting uncles for the next block ----

  function MinHeight(next: nat): nat {
    if next > UNCLE_MAX_DEPTH then next - UNCLE_MAX_DEPTH else 1
  }

  /** A canonical block above the given height refers to h. */
  ghost predicate CanonRefers(t: Tree, db: Db, above: nat, h: Digest) {
    exists k: nat :: above < k <= db.tipHeight && k in db.index && Refers(t(db.index[k]), h)
  }

  /** A side block the next block may refer to. */
  ghost predicate Eligible(t: Tree, db: Db, h: Digest) {
    && h in db.side && MinHeight(db.tipHeight + 1) <= Ht(t, h) <= db.tipHeight
    && Ht(t, h) > 0 && Canonical(db.index, Up(t, h), Ht(t, h) - 1)
    && !Canonical(db.index, h, Ht(t, h))
    && !CanonRefers(t, db, Lowest(db.tipHeight + 1), h)
  }

  ghost predicate CollectedOk(t: Tree, db: Db, us: seq<Header>) {
    && |us| <= MAX_UNCLES
    && (forall i :: 0 <= i < |us| ==> Eligible(t, db, us[i].hash) && t(us[i].hash).head == us[i])
    && (forall i, j :: 0 <= i < j < |us| ==> us[i].hash != us[j].hash)
  }

  /** The dedup window of CollectUncles: what canonical blocks strictly above lowest refer to. */
  method ReferencedByCanon(db: Db, lowest: nat, ghost t: Tree, ghost o: Origin, ghost known: set<Digest>)
    returns (r: Option<set<Digest>>)
    requires Rooted(t, o, known) && Stored(t, known, db.bodies) && OnSpine(t, o, db) && Marked(t, db)
    ensures r.None? <==> lowest < db.tipHeight && lowest + 1 < o.height
    ensures r.Some? ==> forall h :: h in r.value <==> CanonRefers(t, db, lowest, h)
  {
    var found: set<Digest> := {};
    var k: nat := db.tipHeight;
    while k > lowest
      invariant k <= db.tipHeight
      invariant k >= lowest ==> k + 1 >= o.height
      invariant k >= lowest || k == db.tipHeight
      invariant forall h :: h in found <==> CanonRefers(t, db, if k > lowest then k else lowest, h)
    {
      assert Lookup(db.index, k).Some? <==> o.height <= k;
      if k !in db.index {
        return None;
      }
      var anc := db.bodies[db.index[k]];
      CanonOne(t, db, k, found);
      found := found + UncleHashes(anc.uncles);
      k := k - 1;
    }
    r := Some(found);
  }

  lemma CanonOne(t: Tree, db: Db, k: nat, found: set<Digest>)
    requires k > 0 && k in db.index && k <= db.tipHeight && db.index[k] in db.bodies
    requires db.bodies[db.index[k]] == t(db.index[k])
    requires forall h :: h in found <==> CanonRefers(t, db, k, h)
    ensures forall h :: h in found + UncleHashes(t(db.index[k]).uncles) <==> CanonRefers(t, db, k - 1, h)
  {
    forall h ensures h in found + UncleHashes(t(db.index[k]).uncles) <==> CanonRefers(t, db, k - 1, h) {
      if CanonRefers(t, db, k - 1, h) {
        var j: nat :| k - 1 < j <= db.tipHeight && j in db.index && Refers(t(db.index[j]), h);
        if j > k {
          assert CanonRefers(t, db, k, h);
        }
      }
      if h in UncleHashes(t(db.index[k]).uncles) {
        assert Refers(t(db.index[k]), h);
      }
    }
  }

  ghost predicate Seen(t: Tree, db: Db, referenced: set<Digest>, r: seq<Header>) {
    forall h :: h in referenced <==> CanonRefers(t, db, Lowest(db.tipHeight + 1), h) || h in UncleHashes(r)
  }

  ghost predicate Remaining(t: Tree, db: Db, todo: set<Digest>, r: seq<Header>) {
    forall h :: Eligible(t, db, h) ==> h in todo || h in UncleHashes(r)
  }

  lemma TakeOne(t: Tree, db: Db, referenced: set<Digest>, todo: set<Digest>, r: seq<Header>, u: Header)
    requires CollectedOk(t, db, r) && |r| < MAX_UNCLES && Seen(t, db, referenced, r) && Remaining(t, db, todo, r)
    requires Eligible(t, db, u.hash) && t(u.hash).head == u && u.hash !in referenced
    ensures CollectedOk(t, db, r + [u]) && Seen(t, db, referenced + {u.hash}, r + [u])
    ensures Remaining(t, db, todo - {u.hash}, r + [u])
  {
    var q := r + [u];
    forall h ensures h in UncleHashes(q) <==> h in UncleHashes(r) || h == u.hash {
      if h in UncleHashes(r) {
        var i :| 0 <= i < |r| && r[i].hash == h;
        assert q[i].hash == h;
      }
      assert q[|r|].hash == u.hash;
    }
    forall i | 0 <= i < |r| ensures r[i].hash != u.hash {
      assert r[i].hash in UncleHashes(r);
    }
  }

  /** CollectUncles: eligible side blocks in ascending height, at most MaxUncles of them. */
  method CollectUncles(db: Db, ghost t: Tree, ghost o: Origin, ghost known: set<Digest>)
    returns (us: Option<seq<Header>>)
    requires Rooted(t, o, known) && Stored(t, known, db.bodies) && OnSpine(t, o, db) && Marked(t, db)
    ensures us.None? <==> db.tipHeight > 0 && Lowest(db.tipHeight + 1) + 1 < o.height
    ensures us.Some? ==> CollectedOk(t, db, us.value)
    ensures us.Some? && |us.value| < MAX_UNCLES && db.tipHeight > 0 ==>
      forall h :: Eligible(t, db, h) ==> exists i :: 0 <= i < |us.value| && us.value[i].hash == h
  {
    if db.tipHeight + 1 < 2 {
      return Some([]);
    }
    var canon := ReferencedByCanon(db, Lowest(db.tipHeight + 1), t, o, known);
    if canon.None? {
      return None;
    }
    var r := SelectUncles(db, canon.value, t);
    us := Some(r);
  }

  /** The candidate loop of CollectUncles. */
  method SelectUncles(db: Db, canon: set<Digest>, ghost t: Tree) returns (r: seq<Header>)
    requires forall h :: h in db.side ==>
               h in db.bodies && db.bodies[h] == t(h) && t(h).head.hash == h && db.side[h] == Ht(t, h)
    requires Seen(t, db, canon, [])
    ensures CollectedOk(t, db, r)
    ensures |r| < MAX_UNCLES ==> Remaining(t, db, {}, r)
  {
    var todo := set h | h in db.side && MinHeight(db.tipHeight + 1) <= db.side[h] <= db.tipHeight;
    var referenced := canon;
    r := [];
    while todo != {} && |r| < MAX_UNCLES
      invariant forall h :: h in todo ==> h in db.side && MinHeight(db.tipHeight + 1) <= Ht(t, h) <= db.tipHeight
      invariant CollectedOk(t, db, r) && Seen(t, db, referenced, r) && Remaining(t, db, todo, r)
      decreases |todo|
    {
      var c := PickLowest(todo, db.side);
      var take := IsEligible(db, c, referenced, r, t);
      if take {
        TakeOne(t, db, referenced, todo, r, t(c).head);
        r := r + [db.bodies[c].head];
        referenced := referenced + {c};
      }
      todo := todo - {c};
    }
  }

  /** The refusals of CollectUncles for one candidate in range. */
  method IsEligible(db: Db, c: Digest, referenced: set<Digest>, ghost r: seq<Header>, ghost t: Tree) returns (ok: bool)
    requires c in db.side && c in db.bodies && db.bodies[c] == t(c) && t(c).head.hash == c
    requires MinHeight(db.tipHeight + 1) <= Ht(t, c) <= db.tipHeight && Seen(t, db, referenced, r)
    ensures ok ==> Eligible(t, db, c) && c !in referenced
    ensures !ok && Eligible(t, db, c) ==> c in UncleHashes(r)
  {
    var b := db.bodies[c];
    ok := b.head.height > 0 && Canonical(db.index, b.head.prev, b.head.height - 1)
          && !Canonical(db.index, c, b.head.height) && c !in referenced;
  }

  /** A candidate of least height; sort.Slice fixes no order among equals. */
  method PickLowest(todo: set<Digest>, side: map<Digest, nat>) returns (c: Digest)
    requires todo != {} && forall d :: d in todo ==> d in side
    ensures c in todo && forall d :: d in todo ==> side[c] <= side[d]
  {
    c :| c in todo;
    var rest := todo - {c};
    while rest != {}
      invariant c in todo && rest <= todo
      invariant forall d :: d in todo && d !in rest ==> side[c] <= side[d]
    {
      var d :| d in rest;
      if side[d] < side[c] {
        c := d;
      }
      rest := rest - {d};
    }
  }

  /** The collected set passes validateUncles for a block on top of the tip exactly when the ancestor walk does
      not run past the origin. Side blocks are taken to have passed the target check against their parent. */
  lemma CollectedPass(t: Tree, o: Origin, known: set<Digest>, db: Db, next: Retarget, us: seq<Header>, b: Block)
    requires Rooted(t, o, known) && Stored(t, known, db.bodies) && OnSpine(t, o, db) && Marked(t, db)
    requires db.tipHash in known
    requires CollectedOk(t, db, us) && us != []
    requires b.head.prev == db.tipHash && b.head.height == db.tipHeight + 1 && b.uncles == us
    requires forall i :: 0 <= i < |us| ==> OnTarget(next, us[i], t(us[i].prev).head)
    requires forall k :: k in db.index ==> Named(t, t(db.index[k]))
    ensures Walkable(t, o, db.bodies, b) && UnclesOk(t, next, b) <==> o.height <= Lowest(db.tipHeight + 1)
  {
    if o.height <= Lowest(db.tipHeight + 1) {
      forall k: nat | Lowest(b.head.height) <= k < b.head.height ensures AncestorAt(t, b.head.prev, k) in db.bodies {
        assert Lookup(db.index, k) == Some(AncestorAt(t, db.tipHash, k));
      }
      forall i | 0 <= i < |us| ensures UncleOk(t, next, b, i) {
        CollectedUncle(t, o, known, db, next, us, b, i);
      }
    }
  }

  lemma CollectedUncle(t: Tree, o: Origin, known: set<Digest>, db: Db, next: Retarget, us: seq<Header>, b: Block,
                       i: nat)
    requires Rooted(t, o, known) && OnSpine(t, o, db) && db.tipHash in known && o.height <= Lowest(db.tipHeight + 1)
    requires CollectedOk(t, db, us) && i < |us|
    requires b.head.prev == db.tipHash && b.head.height == db.tipHeight + 1 && b.uncles == us
    requires OnTarget(next, us[i], t(us[i].prev).head)
    requires forall k :: k in db.index ==> Named(t, t(db.index[k]))
    ensures UncleOk(t, next, b, i)
  {
    var u := us[i];
    assert Eligible(t, db, u.hash);
    assert Lookup(db.index, u.height) == Some(AncestorAt(t, db.tipHash, u.height));
    assert Lookup(db.index, u.height - 1) == Some(AncestorAt(t, db.tipHash, u.height - 1));
    forall k: nat | Lowest(b.head.height) <= k < b.head.height
      ensures !Refers(t(AncestorAt(t, b.head.prev, k)), u.hash) {
      NotReferenced(t, o, known, db, u, k);
    }
  }

  /** The block at the low end of the window, which only the validator looks at, refers to nothing that high. */
  lemma NotReferenced(t: Tree, o: Origin, known: set<Digest>, db: Db, u: Header, k: nat)
    requires Rooted(t, o, known) && OnSpine(t, o, db) && db.tipHash in known
    requires Eligible(t, db, u.hash) && t(u.hash).head == u
    requires o.height <= Lowest(db.tipHeight + 1) <= k <= db.tipHeight
    requires forall k :: k in db.index ==> Named(t, t(db.index[k]))
    ensures !Refers(t(AncestorAt(t, db.tipHash, k)), u.hash)
  {
    assert Lookup(db.index, k) == Some(AncestorAt(t, db.tipHash, k));
    var a := t(db.index[k]);
    AncestorKnown(t, o, known, db.tipHash, k);
    assert Named(t, a) && a.head.height == k;
    if k == Lowest(db.tipHeight + 1) {
      assert forall i :: 0 <= i < |a.uncles| ==> t(a.uncles[i].hash).head.height < k;
    }
  }
}
