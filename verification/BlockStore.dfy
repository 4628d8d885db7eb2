/** The block and tx buckets inside one write transaction: bodies by hash, the canonical height index,
    side marks, memoized work, the tx-to-block index and the latest tags (ngblocks, blockchain/fork.go). */
module BlockStore {
  import opened Basics
  import opened BlockTree

  /** The committed contents of the two buckets. */
  datatype Db = Db(
    bodies: map<Digest, Block>,
    index: map<nat, Digest>,
    side: map<Digest, nat>,
    work: map<Digest, nat>,
    txs: map<Digest, Digest>,
    tipHeight: nat,
    tipHash: Digest)

  /** Stored bodies are known blocks under their own hash. */
  ghost predicate Stored(t: Tree, known: set<Digest>, bodies: map<Digest, Block>) {
    forall h :: h in bodies ==> h in known && bodies[h] == t(h) && bodies[h].head.hash == h
  }

  /** Every memo is the true cumulative work of its block. */
  ghost predicate Memos(t: Tree, o: Origin, known: set<Digest>, work: map<Digest, nat>) {
    forall h :: h in work ==> h in known && work[h] == Work(t, o, h)
  }

  /** The walk down from h meets a memo or the origin before a missing body. */
  ghost predicate Grounded(t: Tree, o: Origin, bodies: map<Digest, Block>, work: map<Digest, nat>, h: Digest)
    decreases Ht(t, h)
  {
    h in work || h == o.hash
    || (Up(t, h) in bodies && Ht(t, Up(t, h)) < Ht(t, h) && Grounded(t, o, bodies, work, Up(t, h)))
  }

  /** p lists unmemoized blocks from the top down, each the child of the next; cur comes after the last. */
  ghost predicate Descends(t: Tree, o: Origin, known: set<Digest>, p: seq<Block>, cur: Digest) {
    forall i :: 0 <= i < |p| ==> DescendsAt(t, o, known, p, cur, i)
  }

  ghost predicate DescendsAt(t: Tree, o: Origin, known: set<Digest>, p: seq<Block>, cur: Digest, i: nat)
    requires i < |p|
  {
    && p[i].head.hash in known && t(p[i].head.hash) == p[i] && p[i].head.hash != o.hash
    && p[i].head.prev == if i + 1 < |p| then p[i + 1].head.hash else cur
  }

  /** The work of each listed block is its own difficulty on top of the next one's, the last on top of base. */
  ghost predicate Stacks(t: Tree, o: Origin, known: set<Digest>, p: seq<Block>, base: nat) {
    forall i :: 0 <= i < |p| ==> StacksAt(t, o, known, p, base, i)
  }

  ghost predicate StacksAt(t: Tree, o: Origin, known: set<Digest>, p: seq<Block>, base: nat, i: nat)
    requires i < |p|
  {
    && p[i].head.hash in known
    && Work(t, o, p[i].head.hash) == p[i].head.difficulty + if i + 1 < |p| then Work(t, o, p[i + 1].head.hash) else base
  }

  lemma DescentStacks(t: Tree, o: Origin, known: set<Digest>, p: seq<Block>, cur: Digest)
    requires Rooted(t, o, known) && Descends(t, o, known, p, cur)
    ensures Stacks(t, o, known, p, Work(t, o, cur))
  {
    forall i | 0 <= i < |p| ensures StacksAt(t, o, known, p, Work(t, o, cur), i) {
      assert DescendsAt(t, o, known, p, cur, i);
      WorkGrows(t, o, known, p[i].head.hash);
    }
  }

  lemma DescendFurther(t: Tree, o: Origin, known: set<Digest>, p: seq<Block>, cur: Block)
    requires Descends(t, o, known, p, cur.head.hash)
    requires cur.head.hash in known && t(cur.head.hash) == cur && cur.head.hash != o.hash
    ensures Descends(t, o, known, p + [cur], cur.head.prev)
  {
    var q := p + [cur];
    forall i | 0 <= i < |q| ensures DescendsAt(t, o, known, q, cur.head.prev, i) {
      if i < |p| {
        assert DescendsAt(t, o, known, p, cur.head.hash, i);
      }
    }
  }

  lemma StackOrigin(t: Tree, o: Origin, known: set<Digest>, p: seq<Block>, cur: Block)
    requires Stacks(t, o, known, p, Work(t, o, cur.head.hash))
    requires cur.head.hash in known && t(cur.head.hash) == cur && cur.head.hash == o.hash
    ensures Stacks(t, o, known, p + [cur], 0)
  {
    var q := p + [cur];
    forall i | 0 <= i < |q| ensures StacksAt(t, o, known, q, 0, i) {
      if i < |p| {
        assert StacksAt(t, o, known, p, Work(t, o, cur.head.hash), i);
      }
    }
  }

  /** Branch blocks ascend one height at a time from just above f. */
  ghost predicate Ascends(t: Tree, known: set<Digest>, branch: seq<Block>, f: nat) {
    forall i :: 0 <= i < |branch| ==> AscendsAt(t, known, branch, f, i)
  }

  ghost predicate AscendsAt(t: Tree, known: set<Digest>, branch: seq<Block>, f: nat, i: nat)
    requires i < |branch|
  {
    && branch[i].head.hash in known && t(branch[i].head.hash) == branch[i]
    && branch[i].head.height == f + 1 + i
    && (i > 0 ==> branch[i].head.prev == branch[i - 1].head.hash)
  }

  /** x is one of the first n blocks of a branch that leaves the chain at f. */
  ghost predicate InBranch(t: Tree, branch: seq<Block>, f: nat, n: nat, x: Digest)
    requires n <= |branch|
  {
    f < Ht(t, x) <= f + n && branch[Ht(t, x) - f - 1].head.hash == x
  }

  /** Tx y belongs to one of the first n blocks of the branch; stamp is the height a tx carries. */
  ghost predicate TxInBranch(stamp: Digest -> nat, branch: seq<Block>, f: nat, n: nat, y: Digest)
    requires n <= |branch|
  {
    f < stamp(y) <= f + n && y in branch[stamp(y) - f - 1].txs
  }

  ghost predicate StampedAll(stamp: Digest -> nat, branch: seq<Block>) {
    forall i :: 0 <= i < |branch| ==> Stamped(stamp, branch[i])
  }

  /** Every tx of the block carries the block's height. */
  ghost predicate Stamped(stamp: Digest -> nat, b: Block) {
    forall y :: y in b.txs ==> stamp(y) == b.head.height
  }

  ghost predicate LinksAt(branch: seq<Block>, i: nat)
    requires 1 <= i < |branch|
  {
    branch[i].head.height == branch[i - 1].head.height + 1 && branch[i].head.prev == branch[i - 1].head.hash
  }

  ghost predicate Connected(branch: seq<Block>) {
    forall i :: 1 <= i < |branch| ==> LinksAt(branch, i)
  }

  /** The branch builds on the canonical block right below its first. */
  predicate Attaches(index: map<nat, Digest>, branch: seq<Block>) {
    branch != [] && branch[0].head.height > 0 && Canonical(index, branch[0].head.prev, branch[0].head.height - 1)
  }

  lemma {:induction false} ConnectedHeight(branch: seq<Block>, i: nat)
    requires Connected(branch) && i < |branch|
    ensures branch[i].head.height == branch[0].head.height + i
  {
    if i > 0 {
      assert LinksAt(branch, i);
      ConnectedHeight(branch, i - 1);
    }
  }

  lemma ConnectedAscends(t: Tree, known: set<Digest>, branch: seq<Block>, f: nat)
    requires Connected(branch) && (branch != [] ==> branch[0].head.height == f + 1)
    requires forall i :: 0 <= i < |branch| ==> branch[i].head.hash in known && t(branch[i].head.hash) == branch[i]
    ensures Ascends(t, known, branch, f)
  {
    forall i | 0 <= i < |branch| ensures AscendsAt(t, known, branch, f, i) {
      ConnectedHeight(branch, i);
      assert i > 0 ==> LinksAt(branch, i);
    }
  }

  predicate Canonical(index: map<nat, Digest>, h: Digest, height: nat) {
    Lookup(index, height) == Some(h)
  }

  /** x was canonical strictly between heights f and n. */
  ghost predicate Replaced(t: Tree, index: map<nat, Digest>, f: nat, n: nat, x: Digest) {
    f < Ht(t, x) < n && Canonical(index, x, Ht(t, x))
  }

  ghost predicate TxReplaced(t: Tree, stamp: Digest -> nat, index: map<nat, Digest>, f: nat, n: nat, y: Digest) {
    f < stamp(y) < n && stamp(y) in index && y in t(index[stamp(y)]).txs
  }

  /** The canonical height k holds a stored body of that height whose txs carry it. */
  ghost predicate WholeAt(t: Tree, stamp: Digest -> nat, bodies: map<Digest, Block>, index: map<nat, Digest>, k: nat) {
    && k in index && index[k] in bodies && bodies[index[k]] == t(index[k]) && t(index[k]).head.hash == index[k]
    && Ht(t, index[k]) == k && Stamped(stamp, t(index[k]))
  }

  ghost predicate Whole(t: Tree, stamp: Digest -> nat, bodies: map<Digest, Block>, index: map<nat, Digest>, f: nat,
                        top: nat) {
    forall k: nat :: f < k <= top ==> WholeAt(t, stamp, bodies, index, k)
  }

  /** Blocks canonical strictly between f and n are side-marked; other marks are as before. */
  ghost predicate Demoted(t: Tree, index: map<nat, Digest>, f: nat, n: nat, a: map<Digest, nat>, b: map<Digest, nat>) {
    forall x :: Lookup(b, x) == if Replaced(t, index, f, n, x) then Some(Ht(t, x)) else Lookup(a, x)
  }

  /** The txs of those blocks are unindexed; others are as before. */
  ghost predicate TxsDropped(t: Tree, stamp: Digest -> nat, index: map<nat, Digest>, f: nat, n: nat,
                             a: map<Digest, Digest>, b: map<Digest, Digest>) {
    forall y :: Lookup(b, y) == if TxReplaced(t, stamp, index, f, n, y) then None else Lookup(a, y)
  }

  lemma DemoteStep(t: Tree, index: map<nat, Digest>, f: nat, h: nat, a: map<Digest, nat>, b: map<Digest, nat>)
    requires f < h && h in index && Ht(t, index[h]) == h && Demoted(t, index, f, h, a, b)
    ensures Demoted(t, index, f, h + 1, a, b[index[h] := h])
  {
    var c := b[index[h] := h];
    forall x ensures Lookup(c, x) == if Replaced(t, index, f, h + 1, x) then Some(Ht(t, x)) else Lookup(a, x) {
      assert Lookup(b, x) == if Replaced(t, index, f, h, x) then Some(Ht(t, x)) else Lookup(a, x);
    }
  }

  lemma DropStep(t: Tree, stamp: Digest -> nat, index: map<nat, Digest>, f: nat, h: nat,
                 a: map<Digest, Digest>, b: map<Digest, Digest>, c: map<Digest, Digest>)
    requires f < h && h in index && Ht(t, index[h]) == h && Stamped(stamp, t(index[h]))
    requires TxsDropped(t, stamp, index, f, h, a, b)
    requires forall y :: Lookup(c, y) == if y in t(index[h]).txs then None else Lookup(b, y)
    ensures TxsDropped(t, stamp, index, f, h + 1, a, c)
  {
    forall y ensures Lookup(c, y) == if TxReplaced(t, stamp, index, f, h + 1, y) then None else Lookup(a, y) {
      assert Lookup(b, y) == if TxReplaced(t, stamp, index, f, h, y) then None else Lookup(a, y);
    }
  }

  ghost predicate BodiesSwitched(t: Tree, a: map<Digest, Block>, b: map<Digest, Block>, branch: seq<Block>, f: nat) {
    forall x :: Lookup(b, x) == if InBranch(t, branch, f, |branch|, x) then Some(t(x)) else Lookup(a, x)
  }

  /** The first n branch blocks are indexed; every other height is as before. */
  ghost predicate Reindexed(a: map<nat, Digest>, b: map<nat, Digest>, branch: seq<Block>, f: nat, n: nat)
    requires n <= |branch|
  {
    forall k: nat :: Lookup(b, k) == IndexedAt(a, branch, f, n, k)
  }

  ghost function IndexedAt(a: map<nat, Digest>, branch: seq<Block>, f: nat, n: nat, k: nat): Option<Digest>
    requires n <= |branch|
  {
    if f < k <= f + n then Some(branch[k - f - 1].head.hash) else Lookup(a, k)
  }

  lemma IndexStep(a: map<nat, Digest>, b: map<nat, Digest>, branch: seq<Block>, f: nat, i: nat)
    requires i < |branch| && branch[i].head.height == f + 1 + i && Reindexed(a, b, branch, f, i)
    ensures Reindexed(a, b[branch[i].head.height := branch[i].head.hash], branch, f, i + 1)
  {
    var c := b[branch[i].head.height := branch[i].head.hash];
    forall k: nat ensures Lookup(c, k) == IndexedAt(a, branch, f, i + 1, k) {
      assert Lookup(b, k) == IndexedAt(a, branch, f, i, k);
    }
  }

  ghost predicate IndexSwitched(a: map<nat, Digest>, b: map<nat, Digest>, branch: seq<Block>, f: nat) {
    forall k: nat :: Lookup(b, k) == if k > f + |branch| then None else IndexedAt(a, branch, f, |branch|, k)
  }

  ghost predicate SideSwitched(t: Tree, a: Db, b: map<Digest, nat>, branch: seq<Block>, f: nat) {
    forall x :: Lookup(b, x) ==
      if InBranch(t, branch, f, |branch|, x) then None
      else if Replaced(t, a.index, f, a.tipHeight + 1, x) then Some(Ht(t, x)) else Lookup(a.side, x)
  }

  ghost predicate TxsSwitched(t: Tree, stamp: Digest -> nat, a: Db, b: map<Digest, Digest>, branch: seq<Block>,
                              f: nat) {
    forall y :: Lookup(b, y) ==
      if TxInBranch(stamp, branch, f, |branch|, y) then Some(branch[stamp(y) - f - 1].head.hash)
      else if TxReplaced(t, stamp, a.index, f, a.tipHeight + 1, y) then None else Lookup(a.txs, y)
  }

  /** What SwitchToBranch turns the buckets into. */
  ghost predicate SwitchedTo(t: Tree, stamp: Digest -> nat, a: Db, b: Db, branch: seq<Block>, f: nat) {
    && branch != []
    && BodiesSwitched(t, a.bodies, b.bodies, branch, f)
    && IndexSwitched(a.index, b.index, branch, f)
    && SideSwitched(t, a, b.side, branch, f)
    && TxsSwitched(t, stamp, a, b.txs, branch, f)
    && b.work == a.work
    && b.tipHeight == f + |branch| && b.tipHash == branch[|branch| - 1].head.hash
  }

  /** The height index is exactly the ancestor chain of the tip down to the origin, and the tags match. */
  ghost predicate OnSpine(t: Tree, o: Origin, db: Db) {
    && o.height <= db.tipHeight == Ht(t, db.tipHash)
    && forall k: nat ::
         Lookup(db.index, k) == if o.height <= k <= db.tipHeight then Some(AncestorAt(t, db.tipHash, k)) else None
  }

  /** Canonical bodies are stored; every other stored body is side-marked; marks name stored bodies. */
  ghost predicate Marked(t: Tree, db: Db) {
    && (forall k :: k in db.index ==> db.index[k] in db.bodies)
    && (forall h :: h in db.bodies ==> h in db.side || Canonical(db.index, h, Ht(t, h)))
    && (forall h :: h in db.side ==> h in db.bodies && db.side[h] == Ht(t, h))
  }

  /** The side blocks a prune removes: marked below the line and not under the canonical index. */
  function Victims(db: Db, below: nat): (r: set<Digest>) {
    set h | h in db.side && db.side[h] < below && !Canonical(db.index, h, db.side[h])
  }

  function Pruned(db: Db, below: nat): (r: Db) {
    var v := Victims(db, below);
    db.(bodies := db.bodies - v, work := db.work - v, side := db.side - v)
  }

  lemma AscendBelow(t: Tree, known: set<Digest>, s: seq<Block>, cur: Block)
    requires cur.head.hash in known && t(cur.head.hash) == cur && cur.head.height > 0
    requires Ascends(t, known, s, cur.head.height) && (s != [] ==> s[0].head.prev == cur.head.hash)
    ensures Ascends(t, known, [cur] + s, cur.head.height - 1)
  {
    var r, f := [cur] + s, cur.head.height - 1;
    forall i | 0 <= i < |r| ensures AscendsAt(t, known, r, f, i) {
      if i > 0 {
        assert AscendsAt(t, known, s, cur.head.height, i - 1);
        assert i > 1 ==> r[i - 1] == s[i - 2];
      }
    }
  }

  lemma DropOne<K, V>(m: map<K, V>, all: set<K>, todo: set<K>, k: K)
    requires k in todo && todo <= all
    ensures (m - (all - todo)) - {k} == m - (all - (todo - {k}))
  {}

  /** The chain of h has, at height k, a block that is not canonical and whose parent is not stored. */
  ghost predicate BrokenAt(t: Tree, index: map<nat, Digest>, bodies: map<Digest, Block>, h: Digest, k: nat) {
    var x := AncestorAt(t, h, k);
    !Canonical(index, x, k) && Up(t, x) !in bodies
  }

  method CheckConnected(branch: seq<Block>) returns (ok: bool)
    ensures ok <==> Connected(branch)
  {
    var i := 1;
    while i < |branch|
      invariant 1 <= i && forall j :: 1 <= j < i && j < |branch| ==> LinksAt(branch, j)
    {
      if branch[i].head.height != branch[i - 1].head.height + 1 || branch[i].head.prev != branch[i - 1].head.hash {
        assert !LinksAt(branch, i);
        return false;
      }
      i := i + 1;
    }
    return true;
  }

  datatype BranchError = Empty | Disconnected | Detached

  class Txn {
    ghost const t: Tree
    ghost const stamp: Digest -> nat
    const origin: Origin
    var bodies: map<Digest, Block>
    var index: map<nat, Digest>
    var side: map<Digest, nat>
    var work: map<Digest, nat>
    var txs: map<Digest, Digest>
    var tipHeight: nat
    var tipHash: Digest

    function View(): Db
      reads this
    {
      Db(bodies, index, side, work, txs, tipHeight, tipHash)
    }

    constructor (origin: Origin, db: Db, ghost t: Tree, ghost stamp: Digest -> nat)
      ensures this.origin == origin && this.t == t && this.stamp == stamp && View() == db
    {
      this.origin, this.t, this.stamp := origin, t, stamp;
      bodies, index, side, work, txs := db.bodies, db.index, db.side, db.work, db.txs;
      tipHeight, tipHash := db.tipHeight, db.tipHash;
    }

    /** putBlock: a block that becomes canonical loses any stale side mark. */
    method PutBlock(b: Block)
      modifies `bodies, `index, `side
      ensures bodies == old(bodies)[b.head.hash := b]
      ensures index == old(index)[b.head.height := b.head.hash]
      ensures side == old(side) - {b.head.hash}
    {
      bodies := bodies[b.head.hash := b];
      index := index[b.head.height := b.head.hash];
      side := side - {b.head.hash};
    }

    /** putTxs */
    method PutTxs(b: Block)
      modifies `txs
      ensures forall y :: Lookup(txs, y) == if y in b.txs then Some(b.head.hash) else Lookup(old(txs), y)
    {
      for i := 0 to |b.txs|
        invariant forall y :: Lookup(txs, y) == if y in b.txs[..i] then Some(b.head.hash) else Lookup(old(txs), y)
      {
        txs := txs[b.txs[i] := b.head.hash];
        assert b.txs[..i + 1] == b.txs[..i] + [b.txs[i]];
      }
      assert b.txs[..|b.txs|] == b.txs;
    }

    /** delTxs */
    method DelTxs(b: Block)
      modifies `txs
      ensures forall y :: Lookup(txs, y) == if y in b.txs then None else Lookup(old(txs), y)
    {
      for i := 0 to |b.txs|
        invariant forall y :: Lookup(txs, y) == if y in b.txs[..i] then None else Lookup(old(txs), y)
      {
        txs := txs - {b.txs[i]};
        assert b.txs[..i + 1] == b.txs[..i] + [b.txs[i]];
      }
      assert b.txs[..|b.txs|] == b.txs;
    }

    /** PutNewBlock: refuses an occupied height (the genesis height always counts as one) and a block
        whose parent is not stored one height below. */
    method PutNewBlock(b: Block) returns (ok: bool)
      modifies `bodies, `index, `side, `txs, `tipHeight, `tipHash
      ensures ok <==>
        && b.head.height > 0 && !(old(b.head.height in index && index[b.head.height] in bodies))
        && b.head.prev in old(bodies) && old(bodies)[b.head.prev].head.height == b.head.height - 1
      ensures !ok ==> View() == old(View())
      ensures ok ==>
        && bodies == old(bodies)[b.head.hash := b] && index == old(index)[b.head.height := b.head.hash]
        && side == old(side) - {b.head.hash} && tipHeight == b.head.height && tipHash == b.head.hash
        && forall y :: Lookup(txs, y) == if y in b.txs then Some(b.head.hash) else Lookup(old(txs), y)
    {
      if b.head.height == 0 || (b.head.height in index && index[b.head.height] in bodies) {
        return false;
      }
      if !(b.head.prev in bodies && bodies[b.head.prev].head.height == b.head.height - 1) {
        return false;
      }
      PutBlock(b);
      PutTxs(b);
      tipHeight, tipHash := b.head.height, b.head.hash;
      ok := true;
    }

    /** PutSideBlock: by hash only; index, tx index and tags stay. */
    method PutSideBlock(b: Block)
      modifies `bodies, `side
      ensures bodies == old(bodies)[b.head.hash := b]
      ensures side == old(side)[b.head.hash := b.head.height]
    {
      bodies := bodies[b.head.hash := b];
      side := side[b.head.hash := b.head.height];
    }

    /** cumulativeWork: walks prev links to a memo or the origin and stores the sums back on the way. */
    method CumulativeWork(b: Block, ghost known: set<Digest>) returns (w: Option<nat>)
      requires Rooted(t, origin, known) && Stored(t, known, bodies) && Memos(t, origin, known, work)
      requires b.head.hash in known && t(b.head.hash) == b
      modifies `work
      ensures Memos(t, origin, known, work)
      ensures forall x :: x in old(work) ==> x in work
      ensures w == if Grounded(t, origin, bodies, old(work), b.head.hash)
                   then Some(Work(t, origin, b.head.hash)) else None
      ensures w.Some? ==> b.head.hash in work
    {
      var pending: seq<Block> := [];
      var cur := b;
      var base: nat := 0;
      while true
        invariant cur.head.hash in known && t(cur.head.hash) == cur
        invariant pending == [] ==> cur == b
        invariant pending != [] ==> pending[0] == b
        invariant Descends(t, origin, known, pending, cur.head.hash)
        invariant Grounded(t, origin, bodies, work, b.head.hash) == Grounded(t, origin, bodies, work, cur.head.hash)
        invariant work == old(work)
        decreases cur.head.height
      {
        if cur.head.hash in work {
          base := work[cur.head.hash];
          DescentStacks(t, origin, known, pending, cur.head.hash);
          break;
        }
        if cur.head.hash == origin.hash {
          DescentStacks(t, origin, known, pending, cur.head.hash);
          StackOrigin(t, origin, known, pending, cur);
          pending := pending + [cur];
          break;
        }
        assert Attached(t, origin, known, cur.head.hash);
        DescendFurther(t, origin, known, pending, cur);
        pending := pending + [cur];
        if cur.head.prev !in bodies {
          return None;
        }
        cur := bodies[cur.head.prev];
      }
      var sum := StoreSums(pending, base, known);
      w := Some(sum);
    }

    /** cumulativeWork's way back up: memoize the sum of every block walked over. */
    method StoreSums(pending: seq<Block>, base: nat, ghost known: set<Digest>) returns (sum: nat)
      requires Stacks(t, origin, known, pending, base) && Memos(t, origin, known, work)
      modifies `work
      ensures Memos(t, origin, known, work)
      ensures forall x :: x in old(work) ==> x in work
      ensures pending == [] ==> sum == base
      ensures pending != [] ==> sum == Work(t, origin, pending[0].head.hash) && pending[0].head.hash in work
    {
      sum := base;
      var i := |pending|;
      while i > 0
        invariant 0 <= i <= |pending|
        invariant sum == if i < |pending| then Work(t, origin, pending[i].head.hash) else base
        invariant i < |pending| ==> pending[i].head.hash in work
        invariant Memos(t, origin, known, work)
        invariant forall x :: x in old(work) ==> x in work
      {
        i := i - 1;
        assert StacksAt(t, origin, known, pending, base, i);
        sum := sum + pending[i].head.difficulty;
        work := work[pending[i].head.hash := sum];
      }
    }

    /** isCanonical */
    predicate IsCanonical(b: Block)
      reads this
    {
      Canonical(index, b.head.hash, b.head.height)
    }

    /** collectBranch: the ascending branch from just above the canonical chain up to the tip. None when a
        body is missing on the way or the branch leaves the chain below the origin. */
    method CollectBranch(tip: Block, ghost known: set<Digest>) returns (branch: Option<seq<Block>>)
      requires Rooted(t, origin, known) && Stored(t, known, bodies)
      requires tip.head.hash in bodies && t(tip.head.hash) == tip
      requires Lookup(index, origin.height) == Some(origin.hash)
      ensures branch.Some? && branch.value == [] ==> IsCanonical(tip)
      ensures branch.Some? && branch.value != [] ==>
        var s := branch.value;
        && s[|s| - 1] == tip && s[0].head.height > 0
        && Ascends(t, known, s, s[0].head.height - 1)
        && (forall i :: 0 <= i < |s| ==> !IsCanonical(s[i]) && s[i].head.hash in bodies)
        && Canonical(index, s[0].head.prev, s[0].head.height - 1)
      ensures branch.None? ==>
                exists k: nat :: origin.height < k <= tip.head.height && BrokenAt(t, index, bodies, tip.head.hash, k)
    {
      var cur := tip;
      AboveOrigin(t, origin, known, tip.head.hash);
      var s: seq<Block> := [];
      while !IsCanonical(cur)
        invariant cur.head.hash in bodies && t(cur.head.hash) == cur
        invariant origin.height <= cur.head.height <= tip.head.height
        invariant cur.head.hash == AncestorAt(t, tip.head.hash, cur.head.height)
        invariant s == [] ==> cur == tip
        invariant s != [] ==> s[|s| - 1] == tip && s[0].head.prev == cur.head.hash
        invariant s != [] ==> s[0].head.height == cur.head.height + 1 && Ascends(t, known, s, cur.head.height)
        invariant forall i :: 0 <= i < |s| ==> !IsCanonical(s[i]) && s[i].head.hash in bodies
        decreases cur.head.height
      {
        assert Attached(t, origin, known, cur.head.hash);
        AboveOrigin(t, origin, known, cur.head.hash);
        AboveOrigin(t, origin, known, if cur.head.hash == origin.hash then cur.head.hash else cur.head.prev);
        AscendBelow(t, known, s, cur);
        s := [cur] + s;
        if cur.head.height <= origin.height + 1 {
          if cur.head.prev != origin.hash {
            assert false;
          }
          return Some(s);
        }
        if cur.head.prev !in bodies {
          assert BrokenAt(t, index, bodies, tip.head.hash, cur.head.height);
          return None;
        }
        AncestorLinked(t, origin, known, tip.head.hash, cur.head.height - 1, cur.head.height);
        cur := bodies[cur.head.prev];
      }
      branch := Some(s);
    }

    /** SwitchToBranch, first loop: unlink the txs of every replaced canonical block and mark it as a side block. */
    method Unlink(f: nat)
      requires Whole(t, stamp, bodies, index, f, tipHeight)
      modifies `txs, `side
      ensures Demoted(t, index, f, tipHeight + 1, old(side), side)
      ensures TxsDropped(t, stamp, index, f, tipHeight + 1, old(txs), txs)
    {
      var h: nat := f + 1;
      while h <= tipHeight
        invariant f + 1 <= h
        invariant h <= tipHeight + 1 || h == f + 1
        invariant Demoted(t, index, f, h, old(side), side)
        invariant TxsDropped(t, stamp, index, f, h, old(txs), txs)
      {
        assert WholeAt(t, stamp, bodies, index, h);
        var gone := bodies[index[h]];
        ghost var before := txs;
        DelTxs(gone);
        DemoteStep(t, index, f, h, old(side), side);
        DropStep(t, stamp, index, f, h, old(txs), before, txs);
        side := side[gone.head.hash := gone.head.height];
        h := h + 1;
      }
    }

    /** SwitchToBranch, second loop: connect the branch. */
    method Connect(branch: seq<Block>, f: nat, ghost known: set<Digest>)
      requires Ascends(t, known, branch, f) && StampedAll(stamp, branch)
      modifies `bodies, `index, `side, `txs
      ensures forall x ::
                Lookup(bodies, x) == if InBranch(t, branch, f, |branch|, x) then Some(t(x)) else Lookup(old(bodies), x)
      ensures Reindexed(old(index), index, branch, f, |branch|)
      ensures forall x :: Lookup(side, x) == if InBranch(t, branch, f, |branch|, x) then None else Lookup(old(side), x)
      ensures forall y ::
                Lookup(txs, y) == if TxInBranch(stamp, branch, f, |branch|, y)
                                  then Some(branch[stamp(y) - f - 1].head.hash) else Lookup(old(txs), y)
    {
      for i := 0 to |branch|
        invariant forall x ::
                    Lookup(bodies, x) == if InBranch(t, branch, f, i, x) then Some(t(x)) else Lookup(old(bodies), x)
        invariant Reindexed(old(index), index, branch, f, i)
        invariant forall x :: Lookup(side, x) == if InBranch(t, branch, f, i, x) then None else Lookup(old(side), x)
        invariant forall y ::
                    Lookup(txs, y) == if TxInBranch(stamp, branch, f, i, y)
                                      then Some(branch[stamp(y) - f - 1].head.hash) else Lookup(old(txs), y)
      {
        var b := branch[i];
        assert AscendsAt(t, known, branch, f, i) && Stamped(stamp, b);
        IndexStep(old(index), index, branch, f, i);
        PutBlock(b);
        PutTxs(b);
      }
    }

    /** SwitchToBranch, third loop: drop the stale canonical heights above the new tip. */
    method DropStale(from: nat)
      requires forall k :: k in index && k > from ==> k <= tipHeight
      modifies `index
      ensures forall k: nat :: Lookup(index, k) == if k > from then None else Lookup(old(index), k)
    {
      var h := from + 1;
      while h <= tipHeight
        invariant from < h
        invariant forall k: nat :: Lookup(index, k) == if from < k < h then None else Lookup(old(index), k)
      {
        ghost var before := index;
        index := index - {h};
        assert forall k: nat :: Lookup(index, k) == if k == h then None else Lookup(before, k);
        h := h + 1;
      }
      forall k: nat ensures Lookup(index, k) == if k > from then None else Lookup(old(index), k) {
        assert k in old(index) && k > from ==> k <= tipHeight;
      }
    }

    /** ngblocks.SwitchToBranch: rewrites the canonical chain to a connected branch that attaches to it. */
    method SwitchToBranch(branch: seq<Block>, ghost known: set<Digest>, ghost f: int)
      returns (error: Option<BranchError>)
      requires branch != [] ==> f == branch[0].head.height - 1
      requires forall i :: 0 <= i < |branch| ==> branch[i].head.hash in known && t(branch[i].head.hash) == branch[i]
      requires StampedAll(stamp, branch)
      requires forall k :: k in index ==> k <= tipHeight
      requires Attaches(index, branch) ==> Whole(t, stamp, bodies, index, f, tipHeight)
      modifies `bodies, `index, `side, `txs, `tipHeight, `tipHash
      ensures error == if branch == [] then Some(Empty)
                       else if !Connected(branch) then Some(Disconnected)
                       else if !Attaches(old(index), branch) then Some(Detached) else None
      ensures error.Some? ==> View() == old(View())
      ensures error.None? ==> SwitchedTo(t, stamp, old(View()), View(), branch, f)
    {
      if |branch| == 0 {
        return Some(Empty);
      }
      var connected := CheckConnected(branch);
      if !connected {
        return Some(Disconnected);
      }
      if branch[0].head.height == 0 || !Canonical(index, branch[0].head.prev, branch[0].head.height - 1) {
        return Some(Detached);
      }
      ConnectedAscends(t, known, branch, f);
      Rewrite(branch, branch[0].head.height - 1, known);
      error := None;
    }

    /** The three loops and the new tags. */
    method Rewrite(branch: seq<Block>, f: nat, ghost known: set<Digest>)
      requires branch != [] && Ascends(t, known, branch, f) && StampedAll(stamp, branch)
      requires forall k :: k in index ==> k <= tipHeight
      requires Whole(t, stamp, bodies, index, f, tipHeight)
      modifies `bodies, `index, `side, `txs, `tipHeight, `tipHash
      ensures SwitchedTo(t, stamp, old(View()), View(), branch, f)
    {
      Unlink(f);
      Connect(branch, f, known);
      var tip := branch[|branch| - 1].head;
      assert AscendsAt(t, known, branch, f, |branch| - 1);
      forall k | k in index && k > tip.height ensures k <= tipHeight {
        assert Lookup(index, k) == IndexedAt(old(index), branch, f, |branch|, k);
      }
      DropStale(tip.height);
      tipHeight, tipHash := tip.height, tip.hash;
      assert BodiesSwitched(t, old(bodies), bodies, branch, f);
      assert IndexSwitched(old(index), index, branch, f);
      assert SideSwitched(t, old(View()), side, branch, f);
      assert TxsSwitched(t, stamp, old(View()), txs, branch, f);
    }

    /** PruneSideBlocks: collect the victims, then delete body, work and mark of each. */
    method PruneSideBlocks(below: nat) returns (pruned: nat)
      modifies `bodies, `work, `side
      ensures View() == Pruned(old(View()), below)
      ensures pruned == |Victims(old(View()), below)|
    {
      var victims := set h | h in side && side[h] < below && !Canonical(index, h, side[h]);
      assert victims == Victims(View(), below);
      var todo := victims;
      pruned := 0;
      while todo != {}
        invariant todo <= victims && pruned + |todo| == |victims|
        invariant bodies == old(bodies) - (victims - todo)
        invariant work == old(work) - (victims - todo)
        invariant side == old(side) - (victims - todo)
      {
        var h :| h in todo;
        DropOne(old(bodies), victims, todo, h);
        DropOne(old(work), victims, todo, h);
        DropOne(old(side), victims, todo, h);
        bodies, work, side := bodies - {h}, work - {h}, side - {h};
        pruned := pruned + 1;
        todo := todo - {h};
      }
      assert victims - todo == victims;
    }
  }
}
