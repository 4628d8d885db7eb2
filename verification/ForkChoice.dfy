/** Importing blocks with fork choice (blockchain/pow_chain.go, blockchain/fork.go): each call works on a write
    transaction and commits it only when nothing failed. */
module ForkChoice {
  import opened Basics
  import opened BlockTree
  import opened BlockStore
  import opened Uncles
  import opened ChainState
  import KeyOrder

  const BLOCK_CHECK_ROUND: nat := 10

  /** The last checkpoint strictly below the tip: no gossip reorg may go under it. */
  function FinalityHeight(tip: nat): (r: nat)
    ensures r <= tip && r % BLOCK_CHECK_ROUND == 0
    ensures tip > 0 ==> r < tip <= r + BLOCK_CHECK_ROUND
  {
    if tip == 0 then 0 else (tip - 1) / BLOCK_CHECK_ROUND * BLOCK_CHECK_ROUND
  }

  /** Side blocks below this height may be dropped: finalized, and too deep to be an uncle. */
  function SideBlockPruneHeight(tip: nat): (r: nat)
    ensures r <= FinalityHeight(tip)
    ensures r > 0 ==> r + UNCLE_MAX_DEPTH <= tip
  {
    if tip <= UNCLE_MAX_DEPTH then 0
    else if tip - UNCLE_MAX_DEPTH < FinalityHeight(tip) then tip - UNCLE_MAX_DEPTH else FinalityHeight(tip)
  }

  /** Verdicts of checks that are not modelled: a block on its own and its proof of work, txs, state replay. */
  datatype Checks = Checks(self: Block -> bool, target: Block -> bool, txs: bool, state: bool)

  datatype Reject =
    | Failed | Orphan | Misplaced | Unweighed | Unconnected | BeyondFinality | NotHeavier | NotCanonical | StateRefused

  datatype Outcome = Applied | Aside | Reorged | Rejected(why: Reject)

  // ---- the invariant, carried unopened ----

  ghost predicate Well(e: Env, known: set<Digest>, db: Db) {
    forall seal {:trigger Opened(CHAIN, seal)} :: Opened(CHAIN, seal) ==> Sound(e, known, db)
  }

  lemma WellTree(e: Env, known: set<Digest>, db: Db)
    requires Well(e, known, db)
    ensures Rooted(e.t, e.o, known) && AllVetted(e, known) && Stored(e.t, known, db.bodies)
    ensures Memos(e.t, e.o, known, db.work)
    ensures db.tipHash in known && e.o.height <= db.tipHeight == Ht(e.t, db.tipHash)
    ensures Lookup(db.index, e.o.height) == Some(e.o.hash)
    ensures forall k :: k in db.index ==> k <= db.tipHeight
  {
    assert Opened(CHAIN, true);
    CanonicalChain(e, known, db, e.o.height);
    forall k: nat | k in db.index ensures k <= db.tipHeight {
      assert Lookup(db.index, k).Some?;
    }
  }

  lemma WellTip(e: Env, known: set<Digest>, db: Db)
    requires Well(e, known, db)
    ensures db.tipHash in db.bodies && db.bodies[db.tipHash] == e.t(db.tipHash)
    ensures e.t(db.tipHash).head.hash == db.tipHash
    ensures Grounded(e.t, e.o, db.bodies, db.work, db.tipHash)
    ensures !(db.tipHeight + 1 in db.index)
  {
    assert Opened(CHAIN, true);
    CanonicalChain(e, known, db, db.tipHeight);
    CanonicalGrounded(e, known, db, db.tipHeight);
    var top: nat := db.tipHeight + 1;
    assert Lookup(db.index, top).None?;
  }

  lemma PutNewWell(e: Env, known: set<Digest>, db: Db, b: Block, d: Db)
    requires Well(e, known, db) && Admissible(e, known, b) && b.head.prev == db.tipHash
    requires d.bodies == db.bodies[b.head.hash := b] && d.index == db.index[b.head.height := b.head.hash]
    requires d.side == db.side - {b.head.hash} && d.tipHeight == b.head.height && d.tipHash == b.head.hash
    requires d.work == db.work
    requires forall y :: Lookup(d.txs, y) == if y in b.txs then Some(b.head.hash) else Lookup(db.txs, y)
    ensures Well(e, known + {b.head.hash}, d)
  {
    assert Opened(CHAIN, true);
    PutNewSound(e, known, db, b, d);
  }

  lemma PutSideWell(e: Env, known: set<Digest>, db: Db, b: Block)
    requires Well(e, known, db) && Admissible(e, known, b)
    ensures Well(e, known + {b.head.hash},
                 db.(bodies := db.bodies[b.head.hash := b], side := db.side[b.head.hash := b.head.height]))
  {
    assert Opened(CHAIN, true);
    PutSideSound(e, known, db, b);
  }

  lemma MemoWell(e: Env, known: set<Digest>, db: Db, work: map<Digest, nat>)
    requires Well(e, known, db) && Memos(e.t, e.o, known, work)
    ensures Well(e, known, db.(work := work))
  {
    assert Opened(CHAIN, true);
    MemoSound(e, known, db, work);
  }

  lemma PruneWell(e: Env, known: set<Digest>, db: Db, below: nat)
    requires Well(e, known, db)
    ensures Well(e, known, Pruned(db, below))
  {
    assert Opened(CHAIN, true);
    PruneSound(e, known, db, below);
  }

  lemma SwitchWell(e: Env, known: set<Digest>, grown: set<Digest>, db: Db, branch: seq<Block>, f: nat, d: Db)
    requires Well(e, known, db) && known <= grown && Rooted(e.t, e.o, grown) && AllVetted(e, grown)
    requires Forks(e, grown, db, branch, f) && SwitchedTo(e.t, e.stamp, db, d, branch, f)
    ensures Well(e, grown, d)
  {
    assert Opened(CHAIN, true);
    SwitchSound(e, known, grown, db, branch, f, d);
  }

  lemma WholeWell(e: Env, known: set<Digest>, db: Db, f: nat)
    requires Well(e, known, db) && e.o.height <= f
    ensures Whole(e.t, e.stamp, db.bodies, db.index, f, db.tipHeight)
  {
    assert Opened(CHAIN, true);
    CanonicalWhole(e, known, db, f);
  }

  // ---- finality ----

  /** From a to b the finality line did not go back and nothing canonical at or below it changed. */
  ghost predicate Final(a: Db, b: Db) {
    && FinalityHeight(a.tipHeight) <= FinalityHeight(b.tipHeight)
    && forall k: nat :: k <= FinalityHeight(a.tipHeight) ==> Lookup(b.index, k) == Lookup(a.index, k)
  }

  lemma FinalityMonotone(a: nat, b: nat)
    requires b > FinalityHeight(a) || b >= a
    ensures FinalityHeight(a) <= FinalityHeight(b)
  {
    if a > 0 {
      var x, y := (a - 1) / BLOCK_CHECK_ROUND, (b - 1) / BLOCK_CHECK_ROUND;
      assert b - 1 >= x * BLOCK_CHECK_ROUND;
    }
  }

  // ---- memo coverage ----

  /** Every stored block other than the origin has its work recorded. */
  ghost predicate Covered(o: Origin, db: Db) {
    forall h :: h in db.bodies ==> h in db.work || h == o.hash
  }

  lemma CoveredGrounded(t: Tree, o: Origin, known: set<Digest>, db: Db, bodies: map<Digest, Block>, h: Digest)
    requires Rooted(t, o, known) && h in known && Covered(o, db)
    requires h == o.hash || (Up(t, h) in db.bodies && Up(t, h) in bodies)
    ensures Grounded(t, o, bodies, db.work, h)
  {
    assert Attached(t, o, known, h);
    if h != o.hash {
      var p := Up(t, h);
      assert p in db.work || p == o.hash;
      assert Grounded(t, o, bodies, db.work, p);
    }
  }

  /** The canonical chain is stored down to the origin, so the tip can always be weighed. */
  lemma {:induction false} CanonicalGrounded(e: Env, known: set<Digest>, db: Db, k: nat)
    requires Sound(e, known, db) && e.o.height <= k <= db.tipHeight
    ensures k in db.index && Grounded(e.t, e.o, db.bodies, db.work, db.index[k])
    decreases k
  {
    CanonicalChain(e, known, db, k);
    if k > e.o.height {
      var p: nat := k - 1;
      CanonicalLink(e, known, db, p, k);
      CanonicalGrounded(e, known, db, p);
    }
  }

  // ---- the steps inside a transaction ----

  /** The transaction sees this environment and a well-formed store. */
  ghost predicate At(txn: Txn, e: Env, known: set<Digest>)
    reads txn
  {
    txn.t == e.t && txn.stamp == e.stamp && txn.origin == e.o && Well(e, known, txn.View())
  }

  /** Hypotheses on a delivered block: its hash names it and its txs carry its height. */
  ghost predicate Genuine(e: Env, b: Block) {
    e.t(b.head.hash) == b && Stamped(e.stamp, b)
  }

  ghost predicate TargetOk(e: Env, bodies: map<Digest, Block>, b: Block, checks: Checks)
    requires b.head.prev in bodies
  {
    OnTarget(e.next, b.head, bodies[b.head.prev].head) && checks.target(b)
  }

  /** Weighs a known block inside the transaction. */
  method Weigh(txn: Txn, b: Block, ghost e: Env, ghost known: set<Digest>) returns (w: Option<nat>)
    requires At(txn, e, known) && b.head.hash in known && e.t(b.head.hash) == b
    modifies txn`work
    ensures At(txn, e, known)
    ensures forall x :: x in old(txn.work) ==> x in txn.work
    ensures w == if Grounded(e.t, e.o, txn.bodies, old(txn.work), b.head.hash)
                 then Some(Work(e.t, e.o, b.head.hash)) else None
    ensures w.Some? ==> b.head.hash in txn.work
  {
    WellTree(e, known, txn.View());
    w := txn.CumulativeWork(b, known);
    MemoWell(e, known, old(txn.View()), txn.work);
  }

  /** What the fast path demands of a block before it is put. */
  ghost predicate TipChecks(e: Env, bodies: map<Digest, Block>, b: Block, checks: Checks)
    requires b.head.prev in bodies
  {
    && checks.self(b) && b.head.difficulty > 0 && checks.txs
    && (b.head.prev == e.o.hash || TargetOk(e, bodies, b, checks))
    && (b.uncles == [] || (Walkable(e.t, e.o, bodies, b) && UnclesOk(e.t, e.next, b)))
  }

  /** checkBlockTxn: a direct child of the origin skips the target check. */
  method CheckOnTip(txn: Txn, b: Block, checks: Checks, next: Retarget, ghost e: Env, ghost known: set<Digest>)
    returns (ok: bool)
    requires Rooted(e.t, e.o, known) && Stored(e.t, known, txn.bodies) && txn.origin == e.o
    requires next == e.next && b.head.prev in txn.bodies
    ensures Placed(txn.bodies, b) ==> (ok <==> TipChecks(e, txn.bodies, b, checks))
  {
    if !checks.self(b) || b.head.difficulty == 0 {
      return false;
    }
    if b.head.prev != txn.origin.hash {
      if !(OnTarget(next, b.head, txn.bodies[b.head.prev].head) && checks.target(b)) {
        return false;
      }
    }
    var uncles := ValidateUncles(txn.bodies, b, next, e.t, e.o, known);
    ok := uncles && checks.txs;
  }

  /** PutNewBlock and the memo of the new tip. */
  method Append(txn: Txn, b: Block, ghost e: Env, ghost known: set<Digest>) returns (ok: bool)
    requires At(txn, e, known) && Genuine(e, b) && b.head.prev == txn.tipHash
    requires Placed(txn.bodies, b) ==> Admissible(e, known, b)
    modifies txn
    ensures ok <==> Placed(old(txn.bodies), b)
    ensures ok ==> At(txn, e, known + {b.head.hash}) && txn.tipHash == b.head.hash && txn.tipHeight == b.head.height
    ensures ok ==> txn.index == old(txn.index)[b.head.height := b.head.hash]
    ensures ok && Covered(e.o, old(txn.View())) ==> Covered(e.o, txn.View())
    ensures ok ==> txn.bodies == old(txn.bodies)[b.head.hash := b]
  {
    WellTree(e, known, txn.View());
    WellTip(e, known, txn.View());
    ok := txn.PutNewBlock(b);
    if !ok {
      return;
    }
    ghost var grown := known + {b.head.hash};
    PutNewWell(e, known, old(txn.View()), b, txn.View());
    WellTree(e, grown, txn.View());
    WellTip(e, grown, txn.View());
    var w := Weigh(txn, b, e, grown);
  }

  /** A checkpoint tip reclaims the side blocks below the prune line. */
  method Reclaim(txn: Txn, ghost e: Env, ghost known: set<Digest>)
    requires At(txn, e, known)
    modifies txn`bodies, txn`work, txn`side
    ensures At(txn, e, known)
    ensures Covered(e.o, old(txn.View())) ==> Covered(e.o, txn.View())
    ensures Kept(e, known, old(txn.View())) ==> Kept(e, known, txn.View())
    ensures txn.View() == if txn.tipHeight % BLOCK_CHECK_ROUND == 0
                          then Pruned(old(txn.View()), SideBlockPruneHeight(txn.tipHeight)) else old(txn.View())
  {
    if txn.tipHeight % BLOCK_CHECK_ROUND == 0 {
      PruneWell(e, known, txn.View(), SideBlockPruneHeight(txn.tipHeight));
      if Kept(e, known, txn.View()) {
        PruneKept(e, known, txn.View());
      }
      var n := txn.PruneSideBlocks(SideBlockPruneHeight(txn.tipHeight));
    }
  }

  /** The fast path of ApplyBlock: the block extends the canonical tip. */
  method Extend(txn: Txn, b: Block, checks: Checks, next: Retarget, ghost e: Env, ghost known: set<Digest>)
    returns (why: Option<Reject>)
    requires At(txn, e, known) && next == e.next && Genuine(e, b) && b.head.prev == txn.tipHash
    modifies txn
    ensures b.head.prev in old(txn.bodies)
    ensures why.None? <==> Placed(old(txn.bodies), b) && TipChecks(e, old(txn.bodies), b, checks) && checks.state
    ensures why.None? ==>
              At(txn, e, known + {b.head.hash}) && txn.tipHash == b.head.hash && txn.tipHeight == old(txn.tipHeight) + 1
    ensures why.None? ==>
              txn.index == old(txn.index)[b.head.height := b.head.hash] && b.head.height == old(txn.tipHeight) + 1
    ensures why.None? && Full(e, known, old(txn.View())) ==> Full(e, known + {b.head.hash}, txn.View())
  {
    assert Opened(FULL, true);
    WellTree(e, known, txn.View());
    WellTip(e, known, txn.View());
    var ok := CheckOnTip(txn, b, checks, next, e, known);
    if !ok {
      return Some(Failed);
    }
    var put := Append(txn, b, e, known);
    if !put {
      return Some(Misplaced);
    }
    if !checks.state {
      return Some(StateRefused);
    }
    FinalityMonotone(old(txn.tipHeight), txn.tipHeight);
    Reclaim(txn, e, known + {b.head.hash});
    why := None;
  }

  /** What the side path and the converge path demand of a block against its own parent. */
  ghost predicate BranchChecks(e: Env, bodies: map<Digest, Block>, b: Block, prev: Block, checks: Checks) {
    && checks.self(b) && b.head.difficulty > 0
    && b.head.height == prev.head.height + 1 && b.head.prev == prev.head.hash
    && OnTarget(e.next, b.head, prev.head) && checks.target(b)
    && (b.uncles == [] || (Walkable(e.t, e.o, bodies, b) && UnclesOk(e.t, e.next, b)))
  }

  /** checkBranchBlock */
  method CheckBranchBlock(bodies: map<Digest, Block>, b: Block, prev: Block, checks: Checks, next: Retarget,
                          ghost e: Env, ghost known: set<Digest>)
    returns (ok: bool)
    requires Rooted(e.t, e.o, known) && Stored(e.t, known, bodies) && next == e.next
    requires prev.head.hash in bodies && bodies[prev.head.hash] == prev
    ensures ok <==> BranchChecks(e, bodies, b, prev, checks)
  {
    if !checks.self(b) || b.head.difficulty == 0 {
      return false;
    }
    if b.head.height != prev.head.height + 1 || b.head.prev != prev.head.hash {
      return false;
    }
    if !(OnTarget(next, b.head, prev.head) && checks.target(b)) {
      return false;
    }
    ok := ValidateUncles(bodies, b, next, e.t, e.o, known);
  }

  /** PutSideBlock, then the work of the block and of the tip. */
  method StoreAside(txn: Txn, b: Block, ghost e: Env, ghost known: set<Digest>) returns (works: Option<(nat, nat)>)
    requires At(txn, e, known) && Admissible(e, known, b)
    modifies txn`bodies, txn`side, txn`work
    ensures At(txn, e, known + {b.head.hash})
    ensures works.Some? ==> works.value == (Work(e.t, e.o, b.head.hash), Work(e.t, e.o, txn.tipHash))
    ensures txn.bodies == old(txn.bodies)[b.head.hash := b]
    ensures works.Some? && Covered(e.o, old(txn.View())) ==> Covered(e.o, txn.View())
    ensures Covered(e.o, old(txn.View())) && b.head.prev in old(txn.bodies) ==> works.Some?
  {
    ghost var grown := known + {b.head.hash};
    PutSideWell(e, known, txn.View(), b);
    txn.PutSideBlock(b);
    WellTree(e, grown, txn.View());
    if Covered(e.o, old(txn.View())) && b.head.prev in old(txn.bodies) {
      CoveredGrounded(e.t, e.o, grown, old(txn.View()), txn.bodies, b.head.hash);
    }
    var w := Weigh(txn, b, e, grown);
    if w.None? {
      return None;
    }
    WellTip(e, grown, txn.View());
    var v := Weigh(txn, txn.bodies[txn.tipHash], e, grown);
    works := Some((w.value, v.value));
  }

  lemma AfterSwitch(e: Env, known: set<Digest>, grown: set<Digest>, a: Db, d: Db, branch: seq<Block>, f: nat)
    requires Well(e, known, a) && known <= grown && Rooted(e.t, e.o, grown) && AllVetted(e, grown)
    requires branch != [] && branch[0].head.height == f + 1 && e.o.height <= f && Connected(branch)
    requires Attaches(a.index, branch)
    requires forall i :: 0 <= i < |branch| ==> branch[i].head.hash in grown && e.t(branch[i].head.hash) == branch[i]
    requires SwitchedTo(e.t, e.stamp, a, d, branch, f)
    ensures Well(e, grown, d) && d.tipHeight == branch[|branch| - 1].head.height
    ensures forall k: nat :: k <= f ==> Lookup(d.index, k) == Lookup(a.index, k)
    ensures forall h :: h in a.bodies ==> h in d.bodies
    ensures Covered(e.o, a) && (forall i :: 0 <= i < |branch| ==> branch[i].head.hash in a.work) ==> Covered(e.o, d)
  {
    ConnectedAscends(e.t, grown, branch, f);
    SwitchWell(e, known, grown, a, branch, f, d);
    ConnectedHeight(branch, |branch| - 1);
    forall h | h in a.bodies ensures h in d.bodies {
      assert Lookup(d.bodies, h) == if InBranch(e.t, branch, f, |branch|, h) then Some(e.t(h)) else Lookup(a.bodies, h);
    }
    forall k: nat | k <= f ensures Lookup(d.index, k) == Lookup(a.index, k) {
      assert Lookup(d.index, k) == if k > f + |branch| then None else IndexedAt(a.index, branch, f, |branch|, k);
    }
    if Covered(e.o, a) && (forall i :: 0 <= i < |branch| ==> branch[i].head.hash in a.work) {
      SwitchCovered(e, a, d, branch, f);
    }
  }

  lemma SwitchCovered(e: Env, a: Db, d: Db, branch: seq<Block>, f: nat)
    requires Covered(e.o, a) && SwitchedTo(e.t, e.stamp, a, d, branch, f)
    requires forall i :: 0 <= i < |branch| ==> branch[i].head.hash in a.work
    ensures Covered(e.o, d)
  {
    forall h | h in d.bodies ensures h in d.work || h == e.o.hash {
      assert Lookup(d.bodies, h) == if InBranch(e.t, branch, f, |branch|, h) then Some(e.t(h)) else Lookup(a.bodies, h);
    }
  }

  /** switchToBranchTxn: the store switch, the state replay and the reclaim. */
  method SwitchTxn(txn: Txn, branch: seq<Block>, state: bool, ghost e: Env, ghost known: set<Digest>,
                   ghost grown: set<Digest>)
    returns (why: Option<Reject>)
    requires At(txn, e, known) && known <= grown && Rooted(e.t, e.o, grown) && AllVetted(e, grown)
    requires branch != [] && branch[0].head.height > e.o.height && Connected(branch)
    requires forall i :: 0 <= i < |branch| ==>
               branch[i].head.hash in grown && e.t(branch[i].head.hash) == branch[i] && branch[i].head.hash != e.o.hash
    modifies txn
    ensures why.None? <==> state && Attaches(old(txn.index), branch)
    ensures why == Some(NotCanonical) <==> !Attaches(old(txn.index), branch)
    ensures why.None? ==> At(txn, e, grown) && txn.tipHash == branch[|branch| - 1].head.hash
    ensures why.None? ==> txn.tipHeight == branch[|branch| - 1].head.height
    ensures why.None? ==>
              forall k: nat :: k < branch[0].head.height ==> Lookup(txn.index, k) == Lookup(old(txn.index), k)
    ensures why.None? && Kept(e, grown, old(txn.View())) ==>
              FinalityHeight(old(txn.tipHeight)) <= FinalityHeight(txn.tipHeight) ==> Kept(e, grown, txn.View())
    ensures why.None? && Covered(e.o, old(txn.View())) ==>
              (forall i :: 0 <= i < |branch| ==> branch[i].head.hash in old(txn.work)) ==> Covered(e.o, txn.View())
  {
    ghost var f: nat := branch[0].head.height - 1;
    WellTree(e, known, txn.View());
    WholeWell(e, known, txn.View(), f);
    forall i | 0 <= i < |branch| ensures Stamped(e.stamp, branch[i]) {
      assert Vetted(e, branch[i].head.hash);
    }
    var error := txn.SwitchToBranch(branch, grown, f);
    if error.Some? {
      return Some(NotCanonical);
    }
    AfterSwitch(e, known, grown, old(txn.View()), txn.View(), branch, f);
    if !state {
      return Some(StateRefused);
    }
    Reclaim(txn, e, grown);
    why := None;
  }

  // ---- finality and retention ----

  /** The block's chain contains the canonical block at the finality line. */
  ghost predicate ThroughFinal(e: Env, index: map<nat, Digest>, tip: nat, h: Digest) {
    var f := FinalityHeight(tip);
    f < e.o.height || (f <= Ht(e.t, h) && Canonical(index, AncestorAt(e.t, h, f), f))
  }

  /** Every accepted block at or above the finality line is still stored. */
  ghost predicate Kept(e: Env, known: set<Digest>, db: Db) {
    forall h :: h in known ==> h in db.bodies || Ht(e.t, h) < FinalityHeight(db.tipHeight)
  }

  /** Nothing above the finality line is missing and everything stored is weighed: so it is in every run
      of ApplyBlock alone. (Carried unopened like Well.) */
  ghost predicate Full(e: Env, known: set<Digest>, db: Db) {
    forall seal {:trigger Opened(FULL, seal)} :: Opened(FULL, seal) ==> Covered(e.o, db) && Kept(e, known, db)
  }

  /** Once a chain is off the canonical one it stays off: what is not canonical at k is not canonical above. */
  lemma OffChain(e: Env, known: set<Digest>, db: Db, h: Digest, k: nat)
    requires Well(e, known, db) && h in known && e.o.height <= k <= Ht(e.t, h) && k <= FinalityHeight(db.tipHeight)
    requires !Canonical(db.index, AncestorAt(e.t, h, k), k)
    ensures !ThroughFinal(e, db.index, db.tipHeight, h)
  {
    assert Opened(CHAIN, true);
    var f := FinalityHeight(db.tipHeight);
    assert Lookup(db.index, k) == Some(AncestorAt(e.t, db.tipHash, k));
    assert Lookup(db.index, f) == Some(AncestorAt(e.t, db.tipHash, f));
    if f <= Ht(e.t, h) {
      AncestorOfAncestor(e.t, e.o, known, h, f, k);
      AncestorOfAncestor(e.t, e.o, known, db.tipHash, f, k);
    }
  }

  /** A chain that leaves the canonical one at or above the finality line goes through it. */
  lemma OnChain(e: Env, known: set<Digest>, db: Db, h: Digest, k: nat)
    requires Well(e, known, db) && h in known && e.o.height <= k <= Ht(e.t, h) && FinalityHeight(db.tipHeight) <= k
    requires Canonical(db.index, AncestorAt(e.t, h, k), k)
    ensures ThroughFinal(e, db.index, db.tipHeight, h)
  {
    assert Opened(CHAIN, true);
    var f := FinalityHeight(db.tipHeight);
    assert Lookup(db.index, k)
        == if e.o.height <= k <= db.tipHeight then Some(AncestorAt(e.t, db.tipHash, k)) else None;
    if e.o.height <= f {
      assert Lookup(db.index, f) == Some(AncestorAt(e.t, db.tipHash, f));
      AncestorOfAncestor(e.t, e.o, known, h, k, f);
      AncestorOfAncestor(e.t, e.o, known, db.tipHash, k, f);
    }
  }

  /** The prune line is the highest one that spares what a reorg or an uncle could still name. */
  lemma PruneLineHighest(tip: nat, k: nat)
    ensures k > 0 ==> (k <= SideBlockPruneHeight(tip) <==> k <= FinalityHeight(tip) && k + UNCLE_MAX_DEPTH <= tip)
  {}

  lemma PruneKept(e: Env, known: set<Digest>, db: Db)
    requires Well(e, known, db) && Kept(e, known, db)
    ensures Kept(e, known, Pruned(db, SideBlockPruneHeight(db.tipHeight)))
  {
    assert Opened(CHAIN, true);
  }

  lemma BetterThanAll(e: Env, known: set<Digest>, tip: Digest, b: Digest)
    requires Best(e, known, tip) && Better(e.t, e.o, b, tip)
    ensures Best(e, known + {b}, b)
  {
    forall h | h in known + {b} ensures h == b || Better(e.t, e.o, b, h) {
      if h != b && h != tip {
        BetterTransitive(e.t, e.o, b, tip, h);
      }
    }
  }

  lemma StillBest(e: Env, known: set<Digest>, tip: Digest, b: Digest)
    requires Best(e, known, tip) && !Better(e.t, e.o, b, tip)
    ensures Best(e, known + {b}, tip)
  {
    BetterTotal(e.t, e.o, b, tip);
  }

  /** The branch collected for a block is the part of its chain above the fork. */
  lemma {:induction false} CollectedAncestor(e: Env, known: set<Digest>, branch: seq<Block>, f: nat, n: nat)
    requires Rooted(e.t, e.o, known) && Ascends(e.t, known, branch, f) && 0 < n <= |branch| && e.o.height <= f
    ensures AncestorAt(e.t, branch[n - 1].head.hash, f) == branch[0].head.prev
    ensures AncestorAt(e.t, branch[n - 1].head.hash, f + 1) == branch[0].head.hash
    ensures Ht(e.t, branch[n - 1].head.hash) == f + n
    decreases n
  {
    assert AscendsAt(e.t, known, branch, f, n - 1);
    var h := branch[n - 1].head.hash;
    assert Attached(e.t, e.o, known, h);
    assert h != e.o.hash;
    if n > 1 {
      CollectedAncestor(e, known, branch, f, n - 1);
    }
  }

  // ---- the side path ----

  /** collectBranch and the finality gate for a block that beats the tip. */
  method FindBranch(txn: Txn, b: Block, ghost e: Env, ghost known: set<Digest>)
    returns (branch: seq<Block>, why: Option<Reject>)
    requires At(txn, e, known) && b.head.hash in txn.bodies && e.t(b.head.hash) == b
    requires !Canonical(txn.index, b.head.hash, b.head.height)
    ensures why.None? ==>
      && branch != [] && branch[|branch| - 1] == b && Connected(branch) && Attaches(txn.index, branch)
      && e.o.height < branch[0].head.height && FinalityHeight(txn.tipHeight) < branch[0].head.height <= b.head.height
      && (forall i :: 0 <= i < |branch| ==>
          branch[i].head.hash in known && e.t(branch[i].head.hash) == branch[i] && branch[i].head.hash != e.o.hash)
      && (forall i :: 0 <= i < |branch| ==> branch[i].head.hash in txn.bodies)
    ensures why.None? ==> ThroughFinal(e, txn.index, txn.tipHeight, b.head.hash)
    ensures why.Some? ==> why.value == Unconnected || why.value == BeyondFinality
    ensures why.Some? && Kept(e, known, txn.View()) ==> !ThroughFinal(e, txn.index, txn.tipHeight, b.head.hash)
  {
    WellTree(e, known, txn.View());
    var found := txn.CollectBranch(b, known);
    if found.None? {
      ghost var k: nat :| e.o.height < k <= b.head.height && BrokenAt(e.t, txn.index, txn.bodies, b.head.hash, k);
      if Kept(e, known, txn.View()) {
        Missing(e, known, txn.View(), b.head.hash, k);
      }
      return [], Some(Unconnected);
    }
    branch := found.value;
    var forkPoint: nat := branch[0].head.height - 1;
    BranchFound(e, known, txn.View(), branch, forkPoint, b);
    if forkPoint < FinalityHeight(txn.tipHeight) {
      return [], Some(BeyondFinality);
    }
    why := None;
  }

  lemma BranchFound(e: Env, known: set<Digest>, db: Db, branch: seq<Block>, f: nat, b: Block)
    requires Well(e, known, db) && branch != [] && Ascends(e.t, known, branch, f) && branch[|branch| - 1] == b
    requires Canonical(db.index, branch[0].head.prev, f)
    requires forall i :: 0 <= i < |branch| ==> !Canonical(db.index, branch[i].head.hash, branch[i].head.height)
    ensures Connected(branch) && Attaches(db.index, branch) && e.o.height <= f
    ensures branch[0].head.height == f + 1 <= b.head.height
    ensures forall i :: 0 <= i < |branch| ==>
              branch[i].head.hash in known && e.t(branch[i].head.hash) == branch[i] && branch[i].head.hash != e.o.hash
    ensures ThroughFinal(e, db.index, db.tipHeight, b.head.hash) <==> FinalityHeight(db.tipHeight) <= f
  {
    var first: nat := f + 1;
    BranchFacts(e, known, db, branch, f);
    BranchSide(e, known, db, branch, f, first, b);
  }

  /** A branch passes through the finality line exactly when it leaves the canonical chain at or above it. */
  lemma BranchSide(e: Env, known: set<Digest>, db: Db, branch: seq<Block>, f: nat, g: nat, b: Block)
    requires Well(e, known, db) && branch != [] && branch[|branch| - 1] == b && b.head.hash in known && g == f + 1
    requires e.o.height <= f && Ht(e.t, b.head.hash) == f + |branch| && Canonical(db.index, branch[0].head.prev, f)
    requires AncestorAt(e.t, b.head.hash, f) == branch[0].head.prev
    requires AncestorAt(e.t, b.head.hash, g) == branch[0].head.hash
    requires branch[0].head.height == g && !Canonical(db.index, branch[0].head.hash, g)
    ensures ThroughFinal(e, db.index, db.tipHeight, b.head.hash) <==> FinalityHeight(db.tipHeight) <= f
  {
    if f < FinalityHeight(db.tipHeight) {
      OffChain(e, known, db, b.head.hash, g);
    } else {
      OnChain(e, known, db, b.head.hash, f);
    }
  }

  lemma Missing(e: Env, known: set<Digest>, db: Db, h: Digest, k: nat)
    requires Well(e, known, db) && Kept(e, known, db) && h in known && e.o.height < k <= Ht(e.t, h)
    requires BrokenAt(e.t, db.index, db.bodies, h, k)
    ensures !ThroughFinal(e, db.index, db.tipHeight, h)
  {
    WellTree(e, known, db);
    var x := AncestorAt(e.t, h, k);
    AncestorKnown(e.t, e.o, known, h, k);
    assert Attached(e.t, e.o, known, x);
    OffChain(e, known, db, h, k);
  }

  lemma BranchFacts(e: Env, known: set<Digest>, db: Db, branch: seq<Block>, f: nat)
    requires Well(e, known, db) && branch != [] && Ascends(e.t, known, branch, f)
    requires Canonical(db.index, branch[0].head.prev, f)
    requires forall i :: 0 <= i < |branch| ==> !Canonical(db.index, branch[i].head.hash, branch[i].head.height)
    ensures Connected(branch) && Attaches(db.index, branch) && e.o.height <= f
    ensures forall i :: 0 <= i < |branch| ==>
              branch[i].head.hash in known && e.t(branch[i].head.hash) == branch[i] && branch[i].head.hash != e.o.hash
    ensures AncestorAt(e.t, branch[|branch| - 1].head.hash, f) == branch[0].head.prev
    ensures AncestorAt(e.t, branch[|branch| - 1].head.hash, f + 1) == branch[0].head.hash
    ensures Ht(e.t, branch[|branch| - 1].head.hash) == f + |branch| && branch[0].head.height == f + 1
  {
    assert Opened(CHAIN, true);
    assert Lookup(db.index, f).Some?;
    WellTree(e, known, db);
    forall i | 0 <= i < |branch| ensures AscendsAt(e.t, known, branch, f, i) && branch[i].head.hash != e.o.hash {
      assert AscendsAt(e.t, known, branch, f, i);
    }
    forall i | 1 <= i < |branch| ensures LinksAt(branch, i) {
      assert AscendsAt(e.t, known, branch, f, i) && AscendsAt(e.t, known, branch, f, i - 1);
    }
    CollectedAncestor(e, known, branch, f, |branch|);
  }

  /** The block passed the side path's checks against its stored parent. */
  ghost predicate Checked(e: Env, db: Db, b: Block, checks: Checks) {
    b.head.prev in db.bodies && BranchChecks(e, db.bodies, b, db.bodies[b.head.prev], checks)
  }

  /** When the side path takes a block, in a store that still has everything above the finality line. */
  ghost predicate ForkAccepts(e: Env, db: Db, b: Block, checks: Checks) {
    && Checked(e, db, b, checks)
    && (Better(e.t, e.o, b.head.hash, db.tipHash) ==>
        ThroughFinal(e, db.index, db.tipHeight, b.head.hash) && checks.state)
  }

  method StoreChecked(txn: Txn, b: Block, checks: Checks, next: Retarget, ghost e: Env, ghost known: set<Digest>)
    returns (works: Option<(nat, nat)>, why: Option<Reject>)
    requires At(txn, e, known) && next == e.next && Genuine(e, b)
    modifies txn`bodies, txn`side, txn`work
    ensures why.None? <==> works.Some?
    ensures why.None? ==> Checked(e, old(txn.View()), b, checks)
    ensures Checked(e, old(txn.View()), b, checks) && Full(e, known, old(txn.View())) ==> why.None?
    ensures why.None? ==> At(txn, e, known + {b.head.hash}) && b.head.hash in txn.bodies
    ensures why.None? ==> works.value == (Work(e.t, e.o, b.head.hash), Work(e.t, e.o, txn.tipHash))
    ensures why.None? && Full(e, known, old(txn.View())) ==> Full(e, known + {b.head.hash}, txn.View())
  {
    works := None;
    if b.head.prev !in txn.bodies {
      return None, Some(Orphan);
    }
    WellTree(e, known, txn.View());
    var ok := CheckBranchBlock(txn.bodies, b, txn.bodies[b.head.prev], checks, next, e, known);
    if !ok {
      return None, Some(Failed);
    }
    works := StoreAside(txn, b, e, known);
    assert Opened(FULL, true);
    why := if works.None? then Some(Unweighed) else None;
  }

  /** A block better than the tip is not on the canonical chain. */
  lemma NotYetCanonical(e: Env, known: set<Digest>, db: Db, h: Digest)
    requires Well(e, known, db) && h in known && Better(e.t, e.o, h, db.tipHash)
    ensures !Canonical(db.index, h, Ht(e.t, h))
  {
    assert Opened(CHAIN, true);
    var k: nat := Ht(e.t, h);
    BetterAsymmetric(e.t, e.o, h, db.tipHash);
    AboveOrigin(e.t, e.o, known, h);
    assert Lookup(db.index, k)
        == if e.o.height <= k <= db.tipHeight then Some(AncestorAt(e.t, db.tipHash, k)) else None;
    if k < db.tipHeight {
      AncestorLighter(e.t, e.o, known, db.tipHash, k);
    }
  }

  /** The reorg onto a block that beats the tip. */
  method Reorg(txn: Txn, b: Block, state: bool, ghost e: Env, ghost known: set<Digest>) returns (r: Outcome)
    requires At(txn, e, known) && b.head.hash in txn.bodies && e.t(b.head.hash) == b
    requires !Canonical(txn.index, b.head.hash, b.head.height)
    modifies txn
    ensures r == Reorged || r.Rejected?
    ensures r == Reorged ==> At(txn, e, known) && txn.tipHash == b.head.hash && Final(old(txn.View()), txn.View())
    ensures r == Reorged ==> state && ThroughFinal(e, old(txn.index), old(txn.tipHeight), b.head.hash)
    ensures Full(e, known, old(txn.View())) && state ==>
              ThroughFinal(e, old(txn.index), old(txn.tipHeight), b.head.hash) ==> r == Reorged
    ensures r == Reorged && Full(e, known, old(txn.View())) ==> Full(e, known, txn.View())
  {
    assert Opened(FULL, true);
    var branch, why := FindBranch(txn, b, e, known);
    if why.Some? {
      return Rejected(why.value);
    }
    WellTree(e, known, txn.View());
    why := SwitchTxn(txn, branch, state, e, known, known);
    if why.Some? {
      return Rejected(why.value);
    }
    FinalityMonotone(old(txn.tipHeight), txn.tipHeight);
    r := Reorged;
  }

  /** The side path of ApplyBlock. */
  method Fork(txn: Txn, b: Block, checks: Checks, next: Retarget, ghost e: Env, ghost known: set<Digest>)
    returns (r: Outcome)
    requires At(txn, e, known) && Best(e, known, txn.tipHash) && next == e.next && Genuine(e, b)
    modifies txn
    ensures r != Applied
    ensures !r.Rejected? ==> ForkAccepts(e, old(txn.View()), b, checks)
    ensures Full(e, known, old(txn.View())) && ForkAccepts(e, old(txn.View()), b, checks) ==> !r.Rejected?
    ensures !r.Rejected? ==> At(txn, e, known + {b.head.hash}) && Best(e, known + {b.head.hash}, txn.tipHash)
    ensures !r.Rejected? ==> Final(old(txn.View()), txn.View())
    ensures !r.Rejected? && Full(e, known, old(txn.View())) ==> Full(e, known + {b.head.hash}, txn.View())
    ensures r == Aside ==> txn.tipHash == old(txn.tipHash) && txn.index == old(txn.index) && txn.txs == old(txn.txs)
    ensures r == Reorged ==> txn.tipHash == b.head.hash
  {
    var works, why := StoreChecked(txn, b, checks, next, e, known);
    if why.Some? {
      return Rejected(why.value);
    }
    ghost var grown := known + {b.head.hash};
    var w, v := works.value.0, works.value.1;
    if w < v || (w == v && !KeyOrder.Less(b.head.hash, txn.tipHash)) {
      StillBest(e, known, txn.tipHash, b.head.hash);
      return Aside;
    }
    NotYetCanonical(e, grown, txn.View(), b.head.hash);
    r := Reorg(txn, b, checks.state, e, grown);
    BetterThanAll(e, known, old(txn.tipHash), b.head.hash);
  }
}
