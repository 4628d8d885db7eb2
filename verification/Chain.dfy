/** The node's chain: ApplyBlock and the converge switch, and what the accepted blocks decide. */
module Chain {
  import opened Basics
  import opened BlockTree
  import opened BlockStore
  import opened Uncles
  import opened ChainState
  import opened ForkChoice
  import KeyOrder

  function Hashes(branch: seq<Block>): (r: set<Digest>)
    ensures forall i :: 0 <= i < |branch| ==> branch[i].head.hash in r
  {
    set i | 0 <= i < |branch| :: branch[i].head.hash
  }

  /** The store with the first n branch blocks laid over it. */
  function Overlay(bodies: map<Digest, Block>, branch: seq<Block>, n: nat): map<Digest, Block>
    requires n <= |branch|
  {
    if n == 0 then bodies else Overlay(bodies, branch, n - 1)[branch[n - 1].head.hash := branch[n - 1]]
  }

  /** The i-th branch block passes its checks, seeing the store and the branch below it. */
  ghost predicate BranchBlockOk(e: Env, bodies: map<Digest, Block>, branch: seq<Block>, checks: Checks, i: nat)
    requires i < |branch| && branch[0].head.prev in bodies
  {
    BranchChecks(e, Overlay(bodies, branch, i), branch[i],
                 if i == 0 then bodies[branch[0].head.prev] else branch[i - 1], checks)
  }

  ghost predicate AllOk(e: Env, bodies: map<Digest, Block>, branch: seq<Block>, checks: Checks)
    requires branch != [] && branch[0].head.prev in bodies
  {
    OkUpTo(e, bodies, branch, checks, |branch|)
  }

  ghost predicate OkUpTo(e: Env, bodies: map<Digest, Block>, branch: seq<Block>, checks: Checks, n: nat)
    requires n <= |branch| && branch != [] && branch[0].head.prev in bodies
  {
    forall i :: 0 <= i < n ==> BranchBlockOk(e, bodies, branch, checks, i)
  }

  ghost predicate AllGenuine(e: Env, branch: seq<Block>) {
    forall i :: 0 <= i < |branch| ==> Genuine(e, branch[i])
  }

  /** When the converge switch takes a branch. */
  ghost predicate Converges(e: Env, db: Db, branch: seq<Block>, checks: Checks) {
    && branch != [] && branch[0].head.prev in db.bodies
    && AllOk(e, db.bodies, branch, checks)
    && Better(e.t, e.o, branch[|branch| - 1].head.hash, db.tipHash)
    && Attaches(db.index, branch)
    && checks.state
  }

  /** When ApplyBlock takes a block. */
  ghost predicate Accepts(e: Env, db: Db, b: Block, checks: Checks) {
    if b.head.prev == db.tipHash then
      b.head.prev in db.bodies && Placed(db.bodies, b) && TipChecks(e, db.bodies, b, checks) && checks.state
    else ForkAccepts(e, db, b, checks)
  }

  lemma TipGrows(e: Env, known: set<Digest>, tip: Digest, b: Block)
    requires Rooted(e.t, e.o, known + {b.head.hash}) && Best(e, known, tip) && tip in known
    requires e.t(b.head.hash) == b && b.head.prev == tip && b.head.hash != e.o.hash
    ensures Best(e, known + {b.head.hash}, b.head.hash)
  {
    WorkGrows(e.t, e.o, known + {b.head.hash}, b.head.hash);
    BetterThanAll(e, known, tip, b.head.hash);
  }

  // ---- the converge path ----

  /** The tree that results from laying the first n branch blocks over the store. (Carried unopened.) */
  ghost predicate Laid(e: Env, known: set<Digest>, bodies: map<Digest, Block>, branch: seq<Block>, n: nat)
    requires n <= |branch|
  {
    forall seal {:trigger Opened(CHAIN, seal)} :: Opened(CHAIN, seal) ==>
      Rooted(e.t, e.o, known + Hashes(branch[..n])) && AllVetted(e, known + Hashes(branch[..n]))
      && Stored(e.t, known + Hashes(branch[..n]), Overlay(bodies, branch, n))
  }

  lemma LayNone(e: Env, known: set<Digest>, bodies: map<Digest, Block>, branch: seq<Block>)
    requires Rooted(e.t, e.o, known) && AllVetted(e, known) && Stored(e.t, known, bodies)
    ensures Laid(e, known, bodies, branch, 0)
  {
    assert branch[..0] == [] && known + Hashes(branch[..0]) == known;
  }

  lemma HashesStep(branch: seq<Block>, n: nat)
    requires n < |branch|
    ensures Hashes(branch[..n + 1]) == Hashes(branch[..n]) + {branch[n].head.hash}
  {
    var p, q := branch[..n], branch[..n + 1];
    forall h ensures h in Hashes(q) <==> h in Hashes(p) + {branch[n].head.hash} {
      if h in Hashes(q) {
        var i :| 0 <= i < |q| && q[i].head.hash == h;
        assert i < n ==> p[i].head.hash == h;
      }
      if h in Hashes(p) {
        var i :| 0 <= i < |p| && p[i].head.hash == h;
        assert q[i].head.hash == h;
      }
      assert q[n].head.hash == branch[n].head.hash;
    }
  }

  lemma LaidTree(e: Env, known: set<Digest>, bodies: map<Digest, Block>, branch: seq<Block>, n: nat, grown: set<Digest>)
    requires n <= |branch| && Laid(e, known, bodies, branch, n) && grown == known + Hashes(branch[..n])
    ensures Rooted(e.t, e.o, grown) && AllVetted(e, grown) && Stored(e.t, grown, Overlay(bodies, branch, n))
  {
    assert Opened(CHAIN, true);
  }

  lemma LayOne(e: Env, known: set<Digest>, bodies: map<Digest, Block>, branch: seq<Block>, checks: Checks, n: nat,
               j: nat)
    requires n < |branch| && j == n + 1 && branch[0].head.prev in bodies && Genuine(e, branch[n])
    requires Laid(e, known, bodies, branch, n) && BranchBlockOk(e, bodies, branch, checks, n)
    requires branch[n].head.prev in Overlay(bodies, branch, n)
    requires Overlay(bodies, branch, n)[branch[n].head.prev]
          == if n == 0 then bodies[branch[0].head.prev] else branch[n - 1]
    ensures Laid(e, known, bodies, branch, j)
  {
    assert Opened(CHAIN, true);
    var grown := known + Hashes(branch[..n]);
    HashesStep(branch, n);
    assert known + Hashes(branch[..j]) == grown + {branch[n].head.hash};
    KnownGrows(e, grown, branch[n]);
  }

  /** A branch that passed is connected, known and off the origin. */
  lemma LaidFacts(e: Env, known: set<Digest>, db: Db, branch: seq<Block>, checks: Checks)
    requires Well(e, known, db) && branch != [] && branch[0].head.prev in db.bodies
    requires Laid(e, known, db.bodies, branch, |branch|) && AllOk(e, db.bodies, branch, checks)
    requires AllGenuine(e, branch)
    ensures Connected(branch) && branch[0].head.height > e.o.height
    ensures forall i :: 0 <= i < |branch| ==>
      branch[i].head.hash in known + Hashes(branch)
        && e.t(branch[i].head.hash) == branch[i] && branch[i].head.hash != e.o.hash
    ensures Rooted(e.t, e.o, known + Hashes(branch)) && AllVetted(e, known + Hashes(branch))
  {
    assert Opened(CHAIN, true);
    assert branch[..|branch|] == branch;
    WellTree(e, known, db);
    assert BranchBlockOk(e, db.bodies, branch, checks, 0);
    AboveOrigin(e.t, e.o, known, branch[0].head.prev);
    forall i | 1 <= i < |branch| ensures LinksAt(branch, i) {
      assert BranchBlockOk(e, db.bodies, branch, checks, i);
    }
    forall i | 0 <= i < |branch|
      ensures branch[i].head.hash in known + Hashes(branch) && e.t(branch[i].head.hash) == branch[i]
      ensures branch[i].head.hash != e.o.hash
    {
      assert Genuine(e, branch[i]);
      ConnectedHeight(branch, i);
    }
  }

  /** The check loop of SwitchToBranch. Resolving within the branch so far is resolving within the branch: a
      later branch block is nobody's ancestor. */
  method CheckBranch(bodies: map<Digest, Block>, branch: seq<Block>, checks: Checks, next: Retarget, ghost e: Env,
                     ghost known: set<Digest>)
    returns (ok: bool)
    requires Rooted(e.t, e.o, known) && AllVetted(e, known) && Stored(e.t, known, bodies) && next == e.next
    requires branch != [] && branch[0].head.prev in bodies
    requires AllGenuine(e, branch)
    ensures ok <==> AllOk(e, bodies, branch, checks)
    ensures ok ==> Laid(e, known, bodies, branch, |branch|)
  {
    var seen := bodies;
    var prev := bodies[branch[0].head.prev];
    LayNone(e, known, bodies, branch);
    var i := 0;
    while i < |branch|
      invariant i <= |branch| && seen == Overlay(bodies, branch, i) && Laid(e, known, bodies, branch, i)
      invariant OkUpTo(e, bodies, branch, checks, i)
      invariant prev == if i == 0 then bodies[branch[0].head.prev] else branch[i - 1]
      invariant prev.head.hash in seen && seen[prev.head.hash] == prev
    {
      var j := i + 1;
      var pass := CheckNext(seen, bodies, branch, i, j, prev, checks, next, e, known);
      if !pass {
        return false;
      }
      prev := branch[i];
      seen := seen[prev.head.hash := prev];
      i := j;
    }
    ok := true;
  }

  method CheckNext(seen: map<Digest, Block>, ghost bodies: map<Digest, Block>, branch: seq<Block>, i: nat, ghost j: nat,
                   prev: Block, checks: Checks, next: Retarget, ghost e: Env, ghost known: set<Digest>)
    returns (pass: bool)
    requires i < |branch| && j == i + 1 && branch[0].head.prev in bodies && next == e.next && AllGenuine(e, branch)
    requires seen == Overlay(bodies, branch, i) && Laid(e, known, bodies, branch, i)
    requires OkUpTo(e, bodies, branch, checks, i)
    requires prev == if i == 0 then bodies[branch[0].head.prev] else branch[i - 1]
    requires prev.head.hash in seen && seen[prev.head.hash] == prev
    ensures pass ==> Laid(e, known, bodies, branch, j) && OkUpTo(e, bodies, branch, checks, j)
    ensures !pass ==> !AllOk(e, bodies, branch, checks)
  {
    ghost var grown := known + Hashes(branch[..i]);
    LaidTree(e, known, bodies, branch, i, grown);
    assert Genuine(e, branch[i]);
    pass := CheckBranchBlock(seen, branch[i], prev, checks, next, e, grown);
    OkNext(e, bodies, branch, checks, i, j);
    if pass {
      LayOne(e, known, bodies, branch, checks, i, j);
    }
  }

  lemma OkNext(e: Env, bodies: map<Digest, Block>, branch: seq<Block>, checks: Checks, i: nat, j: nat)
    requires i < |branch| && j == i + 1 && branch[0].head.prev in bodies && OkUpTo(e, bodies, branch, checks, i)
    ensures BranchBlockOk(e, bodies, branch, checks, i) <==> OkUpTo(e, bodies, branch, checks, j)
    ensures AllOk(e, bodies, branch, checks) ==> BranchBlockOk(e, bodies, branch, checks, i)
  {}

  /** The work of a branch on top of its fork parent's. */
  method BranchWork(branch: seq<Block>, base: nat, ghost e: Env, ghost grown: set<Digest>) returns (sum: nat)
    requires branch != [] && Rooted(e.t, e.o, grown) && Connected(branch) && base == Work(e.t, e.o, branch[0].head.prev)
    requires forall i :: 0 <= i < |branch| ==>
               branch[i].head.hash in grown && e.t(branch[i].head.hash) == branch[i] && branch[i].head.hash != e.o.hash
    ensures sum == Work(e.t, e.o, branch[|branch| - 1].head.hash)
  {
    sum := base;
    for i := 0 to |branch|
      invariant sum == if i == 0 then base else Work(e.t, e.o, branch[i - 1].head.hash)
    {
      WorkGrows(e.t, e.o, grown, branch[i].head.hash);
      assert i > 0 ==> LinksAt(branch, i);
      sum := sum + branch[i].head.difficulty;
    }
  }

  /** A connected branch ends heavier than it passes. */
  lemma {:induction false} BranchLighter(e: Env, grown: set<Digest>, branch: seq<Block>, i: nat, n: nat)
    requires Rooted(e.t, e.o, grown) && Connected(branch) && i < n < |branch|
    requires forall j :: 0 <= j < |branch| ==>
               branch[j].head.hash in grown && e.t(branch[j].head.hash) == branch[j] && branch[j].head.hash != e.o.hash
    ensures Better(e.t, e.o, branch[n].head.hash, branch[i].head.hash)
    decreases n
  {
    WorkGrows(e.t, e.o, grown, branch[n].head.hash);
    assert LinksAt(branch, n);
    if i < n - 1 {
      BranchLighter(e, grown, branch, i, n - 1);
    }
  }

  lemma BranchBest(e: Env, known: set<Digest>, tip: Digest, branch: seq<Block>)
    requires branch != [] && Best(e, known, tip) && Rooted(e.t, e.o, known + Hashes(branch)) && Connected(branch)
    requires OffOrigin(e, branch)
    requires Better(e.t, e.o, branch[|branch| - 1].head.hash, tip)
    ensures Best(e, known + Hashes(branch), branch[|branch| - 1].head.hash)
  {
    var top := branch[|branch| - 1].head.hash;
    BetterThanAll(e, known, tip, top);
    forall h | h in known + Hashes(branch) ensures h == top || Better(e.t, e.o, top, h) {
      if h !in known {
        var i :| 0 <= i < |branch| && branch[i].head.hash == h;
        if i < |branch| - 1 {
          BranchLighter(e, known + Hashes(branch), branch, i, |branch| - 1);
        }
      }
    }
  }

  /** The body of the ApplyBlock transaction. */
  method Import(txn: Txn, b: Block, checks: Checks, next: Retarget, ghost e: Env, ghost known: set<Digest>)
    returns (r: Outcome)
    requires At(txn, e, known) && Best(e, known, txn.tipHash) && next == e.next && Genuine(e, b)
    modifies txn
    ensures !r.Rejected? ==> At(txn, e, known + {b.head.hash}) && Best(e, known + {b.head.hash}, txn.tipHash)
    ensures !r.Rejected? ==> Final(old(txn.View()), txn.View())
    ensures !r.Rejected? && Full(e, known, old(txn.View())) ==> Full(e, known + {b.head.hash}, txn.View())
    ensures !r.Rejected? ==> Accepts(e, old(txn.View()), b, checks)
    ensures Full(e, known, old(txn.View())) && Accepts(e, old(txn.View()), b, checks) ==> !r.Rejected?
  {
    if b.head.prev == txn.tipHash {
      var why := Extend(txn, b, checks, next, e, known);
      if why.Some? {
        return Rejected(why.value);
      }
      WellTree(e, known, old(txn.View()));
      WellTree(e, known + {b.head.hash}, txn.View());
      RootedGrows(e.t, e.o, known, b);
      TipGrows(e, known, old(txn.tipHash), b);
      FinalityMonotone(old(txn.tipHeight), txn.tipHeight);
      r := Applied;
    } else {
      r := Fork(txn, b, checks, next, e, known);
    }
  }

  /** The store that holds only the first block. */
  function Initial(first: Block): (r: Db) {
    Db(map[first.head.hash := first], map[first.head.height := first.head.hash], map[], map[], map[],
       first.head.height, first.head.hash)
  }

  class Chain {
    const origin: Origin
    const next: Retarget
    ghost const e: Env
    /** The committed database, and every block ever accepted into it. */
    var db: Db
    ghost var known: set<Digest>

    ghost predicate Valid()
      reads this
    {
      e.o == origin && e.next == next && Well(e, known, db) && Best(e, known, db.tipHash)
    }

    /** initWithGenesis, InitFromCheckpoint */
    constructor (first: Block, next: Retarget, ghost t: Tree, ghost stamp: Digest -> nat)
      requires t(first.head.hash) == first
      requires first.head.prev != first.head.hash && Ht(t, first.head.prev) <= first.head.height
      ensures Valid() && Full(e, known, db) && known == {first.head.hash} && db == Initial(first)
      ensures e == Env(t, stamp, next, Origin(first.head.hash, first.head.height))
    {
      var o := Origin(first.head.hash, first.head.height);
      this.origin, this.next := o, next;
      e := Env(t, stamp, next, o);
      db := Initial(first);
      known := {first.head.hash};
    }

    /** ApplyBlock: one write transaction, dropped on any error. */
    method ApplyBlock(b: Block, checks: Checks) returns (r: Outcome)
      requires Valid() && Genuine(e, b)
      modifies this
      ensures Valid()
      ensures r.Rejected? ==> db == old(db) && known == old(known)
      ensures !r.Rejected? ==> known == old(known) + {b.head.hash}
      ensures Final(old(db), db)
      ensures Full(e, old(known), old(db)) ==> Full(e, known, db)
      ensures !r.Rejected? ==> Accepts(e, old(db), b, checks)
      ensures Full(e, old(known), old(db)) && Accepts(e, old(db), b, checks) ==> !r.Rejected?
    {
      var txn := new Txn(origin, db, e.t, e.stamp);
      r := Import(txn, b, checks, next, e, known);
      if !r.Rejected? {
        db := txn.View();
        known := known + {b.head.hash};
      }
    }

    /** Chain.SwitchToBranch, used by converging: no finality gate, but only a strictly better branch that
        attaches to the canonical chain. */
    method SwitchToBranch(branch: seq<Block>, checks: Checks) returns (r: Outcome)
      requires Valid() && AllGenuine(e, branch)
      modifies this
      ensures Valid()
      ensures r == Reorged || r.Rejected?
      ensures r.Rejected? ==> db == old(db) && known == old(known)
      ensures r == Reorged ==> known == old(known) + Hashes(branch)
      ensures r == Reorged <==> Converges(e, old(db), branch, checks)
      ensures r == Reorged ==> Connected(branch) && OffOrigin(e, branch) && db.tipHash == branch[|branch| - 1].head.hash
    {
      var txn := new Txn(origin, db, e.t, e.stamp);
      var why := Converge(txn, branch, checks, next, e, known);
      if why.Some? {
        return Rejected(why.value);
      }
      BranchBest(e, known, db.tipHash, branch);
      db := txn.View();
      known := known + Hashes(branch);
      r := Reorged;
    }
  }

  /** The body of the converge transaction. */
  method Converge(txn: Txn, branch: seq<Block>, checks: Checks, next: Retarget, ghost e: Env, ghost known: set<Digest>)
    returns (why: Option<Reject>)
    requires At(txn, e, known) && next == e.next && AllGenuine(e, branch)
    modifies txn
    ensures why.None? <==> Converges(e, old(txn.View()), branch, checks)
    ensures why.None? ==> At(txn, e, known + Hashes(branch)) && txn.tipHash == branch[|branch| - 1].head.hash
    ensures why.None? ==> Rooted(e.t, e.o, known + Hashes(branch)) && Connected(branch) && OffOrigin(e, branch)
  {
    if |branch| == 0 || branch[0].head.prev !in txn.bodies {
      return Some(Orphan);
    }
    WellTree(e, known, txn.View());
    var ok := CheckBranch(txn.bodies, branch, checks, next, e, known);
    if !ok {
      return Some(Failed);
    }
    LaidFacts(e, known, txn.View(), branch, checks);
    why := Land(txn, branch, checks.state, e, known, known + Hashes(branch));
  }

  ghost predicate OffOrigin(e: Env, branch: seq<Block>) {
    forall j :: 0 <= j < |branch| ==> e.t(branch[j].head.hash) == branch[j] && branch[j].head.hash != e.o.hash
  }

  /** Compare, then switch. */
  method Land(txn: Txn, branch: seq<Block>, state: bool, ghost e: Env, ghost known: set<Digest>,
              ghost grown: set<Digest>)
    returns (why: Option<Reject>)
    requires At(txn, e, known) && known <= grown && Rooted(e.t, e.o, grown) && AllVetted(e, grown)
    requires branch != [] && branch[0].head.prev in txn.bodies && branch[0].head.height > e.o.height
    requires Connected(branch)
    requires forall i :: 0 <= i < |branch| ==>
               branch[i].head.hash in grown && e.t(branch[i].head.hash) == branch[i] && branch[i].head.hash != e.o.hash
    modifies txn
    ensures why.None? <==>
              && Better(e.t, e.o, branch[|branch| - 1].head.hash, old(txn.tipHash))
              && Attaches(old(txn.index), branch) && state
    ensures why.None? ==> At(txn, e, grown) && txn.tipHash == branch[|branch| - 1].head.hash
  {
    var heavier := Heavier(txn, branch, e, known, grown);
    if heavier.None? {
      return Some(Unweighed);
    }
    if !heavier.value {
      return Some(NotHeavier);
    }
    why := SwitchTxn(txn, branch, state, e, known, grown);
  }

  /** The converge comparison; the fork parent can be weighed whenever it is canonical. */
  method Heavier(txn: Txn, branch: seq<Block>, ghost e: Env, ghost known: set<Digest>, ghost grown: set<Digest>)
    returns (r: Option<bool>)
    requires At(txn, e, known) && branch != [] && branch[0].head.prev in txn.bodies
    requires Rooted(e.t, e.o, grown) && Connected(branch) && branch[0].head.height > 0
    requires forall i :: 0 <= i < |branch| ==>
               branch[i].head.hash in grown && e.t(branch[i].head.hash) == branch[i] && branch[i].head.hash != e.o.hash
    modifies txn`work
    ensures At(txn, e, known)
    ensures r.Some? ==> (r.value <==> Better(e.t, e.o, branch[|branch| - 1].head.hash, txn.tipHash))
    ensures Attaches(txn.index, branch) ==> r.Some?
  {
    WellTree(e, known, txn.View());
    if Attaches(txn.index, branch) {
      CanonicalWeighed(e, known, txn.View(), branch[0].head.height - 1);
    }
    var base := Weigh(txn, txn.bodies[branch[0].head.prev], e, known);
    if base.None? {
      return None;
    }
    var sum := BranchWork(branch, base.value, e, grown);
    WellTip(e, known, txn.View());
    var tip := Weigh(txn, txn.bodies[txn.tipHash], e, known);
    r := Some(!(sum < tip.value || (sum == tip.value && !KeyOrder.Less(branch[|branch| - 1].head.hash, txn.tipHash))));
  }

  lemma CanonicalWeighed(e: Env, known: set<Digest>, db: Db, k: nat)
    requires Well(e, known, db) && k in db.index
    ensures Grounded(e.t, e.o, db.bodies, db.work, db.index[k])
  {
    assert Opened(CHAIN, true);
    assert Lookup(db.index, k).Some?;
    CanonicalGrounded(e, known, db, k);
  }

  // ---- what the accepted blocks decide ----

  /** The committed database and the blocks accepted so far. */
  datatype World = World(known: set<Digest>, db: Db)

  ghost predicate Reachable(e: Env, w: World) {
    Well(e, w.known, w.db) && Best(e, w.known, w.db.tipHash)
  }

  /** The accepted blocks alone decide tip, height index and tx index. */
  lemma ChainOfKnown(e: Env, a: World, b: World)
    requires Reachable(e, a) && Reachable(e, b) && a.known == b.known
    ensures a.db.tipHash == b.db.tipHash && a.db.tipHeight == b.db.tipHeight && a.db.index == b.db.index
    ensures a.db.txs == b.db.txs
  {
    assert Opened(CHAIN, true);
    if a.db.tipHash != b.db.tipHash {
      BetterAsymmetric(e.t, e.o, a.db.tipHash, b.db.tipHash);
    }
    forall k: nat ensures Lookup(a.db.index, k) == Lookup(b.db.index, k) {
      assert Lookup(a.db.index, k)
          == if e.o.height <= k <= a.db.tipHeight then Some(AncestorAt(e.t, a.db.tipHash, k)) else None;
    }
    SameLookups(a.db.index, b.db.index);
    SameLookups(a.db.txs, b.db.txs);
  }

  lemma FinalTransitive(a: Db, b: Db, c: Db)
    requires Final(a, b) && Final(b, c)
    ensures Final(a, c)
  {
    forall k: nat | k <= FinalityHeight(a.tipHeight) ensures Lookup(c.index, k) == Lookup(a.index, k) {
      assert Lookup(b.index, k) == Lookup(a.index, k);
    }
  }

  /** No uncle is referenced twice along any chain of accepted blocks. Uncle headers are named by their hash, and
      the origin refers only to what lies below it. */
  lemma NoUncleTwice(e: Env, w: World, h: Digest, k: nat, i: nat, j: nat)
    requires Reachable(e, w) && h in w.known && e.o.height <= k < Ht(e.t, h)
    requires forall x :: x in w.known ==> HeadersNamed(e, x)
    requires i < |e.t(AncestorAt(e.t, h, k)).uncles| && j < |e.t(h).uncles|
    ensures e.t(AncestorAt(e.t, h, k)).uncles[i].hash != e.t(h).uncles[j].hash
  {
    WellTree(e, w.known, w.db);
    AncestorKnown(e.t, e.o, w.known, h, k);
    AboveOrigin(e.t, e.o, w.known, h);
    VettedNamed(e, w.known, h);
    VettedNamed(e, w.known, AncestorAt(e.t, h, k));
    assert Vetted(e, h);
    NeverTwice(e.t, e.o, w.known, e.next, h, k, i, j);
  }

  ghost predicate HeadersNamed(e: Env, x: Digest) {
    forall i :: 0 <= i < |e.t(x).uncles| ==>
      var u := e.t(x).uncles[i];
      e.t(u.hash).head == u && (x == e.o.hash ==> u.height < e.o.height)
  }

  lemma VettedNamed(e: Env, known: set<Digest>, x: Digest)
    requires Rooted(e.t, e.o, known) && AllVetted(e, known) && x in known && HeadersNamed(e, x)
    ensures Named(e.t, e.t(x))
  {
    assert Vetted(e, x);
    forall i | 0 <= i < |e.t(x).uncles|
      ensures e.t(e.t(x).uncles[i].hash).head == e.t(x).uncles[i] && e.t(x).uncles[i].height < e.t(x).head.height
    {
      if x != e.o.hash {
        assert UncleOk(e.t, e.next, e.t(x), i);
      }
    }
  }
}
