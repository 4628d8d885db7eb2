/** One reorg of an archive node's state (ngstate/state.go). The unwind is an exact undo of the archived buckets;
    of the pending commitments it keeps the survivors, and the node's verdicts on later branches are those of a
    node that stayed at the fork exactly when all of them survive. */
module StateRuns {
  import opened Basics
  import opened Domains
  import opened Committed
  import opened KeyOrder
  import opened Contents
  import CommitReveal
  import CommitRuns
  import Beacon

  // ---- one block writes only at its own height ----

  ghost predicate NoneAbove(b: Buckets, f: nat) {
    NoRowsAbove(b.bal, f) && NoRowsAbove(b.con, f) && NoRowsAbove(b.key, f) && NoRowsAbove(b.bea, f)
  }

  /** e is b inside a block at height h (sealed: opened one bucket write at a time). */
  ghost predicate Within(b: Buckets, e: Buckets, h: nat) {
    forall seal {:trigger Opened(BLOCK, seal)} :: Opened(BLOCK, seal) ==>
      Inside(b.bal, e.bal, h) && Inside(b.con, e.con, h) && Inside(b.key, e.key, h) && Inside(b.bea, e.bea, h)
  }

  lemma WithinStart(b: Buckets, h: nat)
    requires h > 0 && NoneAbove(b, h - 1)
    ensures Within(b, b, h)
  {
    RowsEnd(b.bal, h);
    RowsEnd(b.con, h);
    RowsEnd(b.key, h);
    RowsEnd(b.bea, h);
    StartInside(b.bal, h);
    StartInside(b.con, h);
    StartInside(b.key, h);
    StartInside(b.bea, h);
  }

  lemma WithinBalance(b: Buckets, e: Buckets, h: nat, w: Write<Digest, nat>)
    requires Within(b, e, h)
    ensures Within(b, e.(bal := Put(e.bal, h, w)), h)
  {
    assert Opened(BLOCK, true);
    PutInside(b.bal, e.bal, h, w);
  }

  lemma WithinSlot(b: Buckets, e: Buckets, h: nat, w: Write<Digest, Slot>)
    requires Within(b, e, h)
    ensures Within(b, e.(con := Put(e.con, h, w)), h)
  {
    assert Opened(BLOCK, true);
    PutInside(b.con, e.con, h, w);
  }

  lemma WithinKey(b: Buckets, e: Buckets, h: nat, w: Write<Digest, Bytes1>)
    requires Within(b, e, h)
    ensures Within(b, e.(key := Put(e.key, h, w)), h)
  {
    assert Opened(BLOCK, true);
    PutInside(b.key, e.key, h, w);
  }

  lemma WithinSeed(b: Buckets, e: Buckets, h: nat, w: Write<(), Bytes1>)
    requires Within(b, e, h)
    ensures Within(b, e.(bea := Put(e.bea, h, w)), h)
  {
    assert Opened(BLOCK, true);
    PutInside(b.bea, e.bea, h, w);
  }

  lemma {:induction false} PaidWithin(b: Buckets, h: nat, cs: seq<Charged>, e: Buckets)
    requires Within(b, b, h) && PaidAll(b, h, cs) == Some(e)
    ensures Within(b, e, h)
  {
    if cs != [] {
      var front, x := cs[..|cs| - 1], cs[|cs| - 1];
      var m := PaidAll(b, h, front).value;
      PaidWithin(b, h, front, m);
      FeeWithin(b, m, h, x, e);
    }
  }

  lemma FeeWithin(b: Buckets, m: Buckets, h: nat, x: Charged, e: Buckets)
    requires Within(b, m, h) && Paid(m, h, x) == Some(e)
    ensures Within(b, e, h)
  {
    WithinBalance(b, m, h, Write(x.commit.from, Some(Balance(m.bal.state, x.commit.from) - x.fee)));
  }

  lemma WroteWithin(H: Hasher, b: Buckets, m: Buckets, h: nat, op: Op)
    requires Within(b, m, h)
    ensures Within(b, Wrote(H, m, h, op), h)
  {
    match op
    case SetBalance(a, n) => WithinBalance(b, m, h, Write(a, Some(n)));
    case Register(a, entry) => WithinKey(b, m, h, Write(a, Some(entry)));
    case SetContract(a, source, context) => WithinSlot(b, m, h, Write(a, Some(Slot(H(source), context))));
    case DelContract(a) => WithinSlot(b, m, h, Write(a, None));
    case Consume(_) =>
  }

  lemma {:induction false} WroteAllWithin(H: Hasher, b: Buckets, m: Buckets, h: nat, ops: seq<Op>)
    requires Within(b, m, h)
    ensures Within(b, WroteAll(H, m, h, ops), h)
  {
    if ops != [] {
      WroteAllWithin(H, b, m, h, ops[..|ops| - 1]);
      WroteWithin(H, b, WroteAll(H, m, h, ops[..|ops| - 1]), h, ops[|ops| - 1]);
    }
  }

  lemma StirredWithin(H: Hasher, b: Buckets, m: Buckets, h: Height, block: Block)
    requires Within(b, m, h)
    ensures Within(b, Stirred(H, m, h, block), h)
  {
    if block.beacon && h != 0 {
      WithinSeed(b, m, h, Write((), Some(Beacon.Seed(H, SeedOf(m.bea.state), block.prevHash, block.salts, h))));
    }
  }

  lemma BlockWithin(H: Hasher, b: Buckets, h: Height, block: Block, e: Buckets)
    requires h > 0 && NoneAbove(b, h - 1) && BucketsOn(H, b, h, block) == Some(e)
    ensures Within(b, e, h)
  {
    WithinStart(b, h);
    var paid := PaidAll(b, h, block.commits).value;
    PaidWithin(b, h, block.commits, paid);
    WroteAllWithin(H, b, paid, h, block.ops);
    StirredWithin(H, b, WroteAll(H, paid, h, block.ops), h, block);
  }

  /** Reverting a block's height takes back everything it did to the archived buckets. */
  lemma WithinUndone(b: Buckets, h: nat, e: Buckets)
    requires h > 0 && NoneAbove(b, h - 1) && Within(b, e, h)
    ensures Undone(e, h) == b && NoneAbove(e, h)
  {
    assert Opened(BLOCK, true);
    DomainUndone(b.bal, e.bal, h);
    DomainUndone(b.con, e.con, h);
    DomainUndone(b.key, e.key, h);
    DomainUndone(b.bea, e.bea, h);
  }

  lemma DomainUndone<K(!new), V(!new)>(d: Domain<K, V>, e: Domain<K, V>, h: nat)
    requires h > 0 && NoRowsAbove(d, h - 1) && Inside(d, e, h)
    ensures Reverted(e, h) == d && NoRowsAbove(e, h)
  {
    RowsEnd(d, h);
    RevertInside(d, e, h);
    InsideRows(d, e, h);
  }

  lemma BucketsUndone(H: Hasher, b: Buckets, h: Height, block: Block, e: Buckets)
    requires h > 0 && NoneAbove(b, h - 1) && BucketsOn(H, b, h, block) == Some(e)
    ensures Undone(e, h) == b && NoneAbove(e, h)
  {
    BlockWithin(H, b, h, block, e);
    WithinUndone(b, h, e);
  }

  // ---- a run of blocks and its unwind ----

  /** The unwind is an exact undo of any run of blocks, changesets and indexes included. */
  lemma {:induction false} BucketsBack(H: Hasher, b: Buckets, f: nat, blocks: seq<Block>, e: Buckets, tip: nat)
    requires NoneAbove(b, f) && tip == f + |blocks| < HEIGHTS && BucketsGrown(H, b, f, blocks) == Some(e)
    ensures BucketsUnwound(e, tip, f) == b && NoneAbove(e, tip)
  {
    if blocks != [] {
      var front, last := blocks[..|blocks| - 1], blocks[|blocks| - 1];
      BucketsLast(H, b, f, blocks, front, last, tip);
      var m := BucketsGrown(H, b, f, front).value;
      BucketsBack(H, b, f, front, m, tip - 1);
      BucketsUndone(H, m, tip, last, e);
    }
  }

  /** Nothing is recorded above height f, and the commitment store is one a node can hold there. */
  ghost predicate StandsAt(c: Content, f: nat) {
    NoneAbove(c.buckets, f) && CommitRuns.Lasting(c.commits, f)
  }

  /** The reorg unwind after any run of blocks: buckets, changesets and indexes are those of c, the code
      bucket is kept, and of the commitments exactly the survivors are left. */
  lemma UnwindIsUndo(H: Hasher, c: Content, f: nat, blocks: seq<Block>, d: Content, tip: nat)
    requires StandsAt(c, f) && tip == f + |blocks| < HEIGHTS && WellFormed(blocks) && Grown(H, c, f, blocks) == Some(d)
    ensures var u := AllUnwound(d, tip, f);
            && u.buckets == c.buckets && u.code == d.code
            && forall x: CommitReveal.Key :: CommitReveal.Survival(c.commits, f, AllCommitments(blocks), u.commits, x)
  {
    BucketsBack(H, c.buckets, f, blocks, d.buckets, tip);
    CommitmentsLength(blocks);
    CommitReveal.AllSurvive(c.commits, f, AllCommitments(blocks), d.commits, tip);
  }

  /** The unwind gives back the buckets, and all pending commitments exactly when every one survived. */
  lemma UnwindExact(H: Hasher, c: Content, f: nat, blocks: seq<Block>, d: Content, tip: nat, u: Content)
    requires StandsAt(c, f) && tip == f + |blocks| < HEIGHTS && WellFormed(blocks) && Grown(H, c, f, blocks) == Some(d)
    requires u == AllUnwound(d, tip, f)
    ensures u.buckets == c.buckets
    ensures u.commits.pending == c.commits.pending <==> CommitReveal.AllKept(c.commits, f, AllCommitments(blocks))
  {
    BucketsBack(H, c.buckets, f, blocks, d.buckets, tip);
    CommitmentsLength(blocks);
    CommitReveal.UnwindExactIff(c.commits, f, AllCommitments(blocks), d.commits, tip);
  }

  /** Two nodes agree: the same archived buckets and pending commitments. */
  ghost predicate Agree(r: Option<Content>, q: Option<Content>) {
    && (r.Some? <==> q.Some?)
    && (r.Some? ==> r.value.buckets == q.value.buckets && r.value.commits.pending == q.value.commits.pending)
  }

  /** Inside a block the journal and the code bucket decide nothing. */
  lemma BlockAgrees(H: Hasher, root: Roots, u: Content, c: Content, h: Height, block: Block)
    requires u.buckets == c.buckets && u.commits.pending == c.commits.pending
    ensures Agree(CheckedOn(H, root, u, h, block), CheckedOn(H, root, c, h, block))
  {
    CommitReveal.ApplyAlike(u.commits, c.commits, h, Commitments(block));
  }

  /** Two nodes that agree accept the same blocks and go on agreeing. */
  lemma {:induction false} RunAgrees(H: Hasher, root: Roots, u: Content, c: Content, f: nat, branch: seq<Block>,
                                     tip: nat)
    requires tip == f + |branch| < HEIGHTS && u.buckets == c.buckets && u.commits.pending == c.commits.pending
    ensures Agree(CheckedRun(H, root, u, f, branch), CheckedRun(H, root, c, f, branch))
  {
    if branch != [] {
      var front, last := branch[..|branch| - 1], branch[|branch| - 1];
      RunAgrees(H, root, u, c, f, front, tip - 1);
      CheckedLast(H, root, u, f, branch, front, last, tip);
      CheckedLast(H, root, c, f, branch, front, last, tip);
      var p, q := CheckedRun(H, root, u, f, front), CheckedRun(H, root, c, f, front);
      if p.Some? {
        BlockAgrees(H, root, p.value, q.value, tip, last);
      }
    }
  }

  /** The state side of a reorg (switchToBranchTxn) against a node that only ever saw the branch: the archived
      buckets are those the branch makes of the content at the fork. When every commitment pending at the fork
      survived the unwind, the two accept the same branches and agree on the pending commitments as well. */
  lemma ReorgReplays(H: Hasher, root: Roots, c: Content, f: nat, blocks: seq<Block>, d: Content, tip: nat, u: Content,
                     branch: seq<Block>)
    requires StandsAt(c, f) && tip == f + |blocks| < HEIGHTS && WellFormed(blocks) && Grown(H, c, f, blocks) == Some(d)
    requires u == AllUnwound(d, tip, f) && f + |branch| < HEIGHTS
    ensures CheckedRun(H, root, u, f, branch).Some? ==>
              BucketsGrown(H, c.buckets, f, branch) == Some(CheckedRun(H, root, u, f, branch).value.buckets)
    ensures CommitReveal.AllKept(c.commits, f, AllCommitments(blocks)) ==>
              Agree(CheckedRun(H, root, u, f, branch), CheckedRun(H, root, c, f, branch))
  {
    UnwindExact(H, c, f, blocks, d, tip, u);
    var r := CheckedRun(H, root, u, f, branch);
    if r.Some? {
      CheckedIsGrown(H, root, u, f, branch, r.value, f + |branch|);
    }
    if CommitReveal.AllKept(c.commits, f, AllCommitments(blocks)) {
      RunAgrees(H, root, u, c, f, branch, f + |branch|);
    }
  }

  // ---- when a reorg changes what the node accepts ----

  /** The two contents accept the same branches. */
  ghost predicate SameVerdicts(H: Hasher, root: Roots, u: Content, c: Content, f: nat) {
    forall branch: seq<Block> :: f + |branch| < HEIGHTS && WellFormed(branch) ==>
      (CheckedRun(H, root, u, f, branch).Some? <==> CheckedRun(H, root, c, f, branch).Some?)
  }

  /** The block with the root a miner on content c puts into it. */
  function Mined(H: Hasher, root: Roots, c: Content, h: Height, block: Block): (r: Block) {
    var d := BlockOn(H, c, h, block);
    if d.Some? then block.(root := root(Shown(d.value))) else block
  }

  lemma MinedAccepted(H: Hasher, root: Roots, c: Content, h: Height, block: Block)
    ensures CheckedOn(H, root, c, h, Mined(H, root, c, h, block)) == BlockOn(H, c, h, block)
    ensures Commitments(Mined(H, root, c, h, block)) == Commitments(block)
  {}

  /** A block that only commits an entry, for no fee. */
  function Committing(e: CommitReveal.Entry): (r: Block) {
    Block([Charged(e, 0)], [], false, Zeros(32), [], Zeros(32))
  }

  lemma CommittingAlone(e: CommitReveal.Entry)
    ensures Commitments(Committing(e)) == CommitReveal.Block([e], [])
    ensures CommitReveal.WellFormed(Commitments(Committing(e)))
  {
    var cs := [Charged(e, 0)];
    assert cs[..0] == [] && Commits(cs[..0]) == [];
  }

  /** It applies exactly when the entry is not pending already. */
  lemma CommittingApplies(H: Hasher, c: Content, h: Height, e: CommitReveal.Entry)
    ensures BlockOn(H, c, h, Committing(e)).Some? <==> !CommitReveal.AlreadyPending(c.commits, e.from, e.hash, h)
  {
    CommittingAlone(e);
    CommitReveal.CommitOne(c.commits, h, e);
    var cs := [Charged(e, 0)];
    assert cs[..0] == [] && PaidAll(c.buckets, h, cs[..0]) == Some(c.buckets);
    assert PaidAll(c.buckets, h, cs).Some?;
  }

  /** A commitment lost in the unwind can be committed anew on the next block, where a node that never
      left the fork has it pending. */
  lemma LostRecommits(H: Hasher, root: Roots, u: Content, c: Content, f: nat, x: CommitReveal.Key) returns (b: Block)
    requires f + 1 < HEIGHTS && CommitReveal.Sound(c.commits, f)
    requires x in c.commits.pending && x !in u.commits.pending
    requires forall y :: y in u.commits.pending ==>
                           y in c.commits.pending && u.commits.pending[y] == c.commits.pending[y]
    ensures WellFormed([b])
    ensures CheckedRun(H, root, u, f, [b]).Some? && CheckedRun(H, root, c, f, [b]).None?
  {
    var e := CommitReveal.Entry(x.1, c.commits.pending[x]);
    b := Mined(H, root, u, f + 1, Committing(e));
    CommittingAlone(e);
    MinedAccepted(H, root, u, f + 1, Committing(e));
    CommitReveal.PendingBelow(c.commits, f, x);
    CommitReveal.NotPending(u.commits, c.commits, f, x);
    CommittingApplies(H, u, f + 1, e);
    CommittingApplies(H, c, f + 1, e);
    OneBlock(H, root, u, f, b);
    OneBlock(H, root, c, f, b);
  }

  lemma OneBlock(H: Hasher, root: Roots, c: Content, f: nat, b: Block)
    requires f + 1 < HEIGHTS
    ensures CheckedRun(H, root, c, f, [b]) == CheckedOn(H, root, c, f + 1, b)
    ensures AllCommitments([b]) == [Commitments(b)]
  {
    CheckedLast(H, root, c, f, [b], [], b, f + 1);
    CommitmentsLast([b], [], b);
  }

  /** After a reorg's unwind the node accepts what it would have accepted at the fork exactly when every
      commitment pending there survived: still in the window of the old tip, or revealed by an unwound block
      whose journal row the old tip still keeps. */
  lemma VerdictsIff(H: Hasher, root: Roots, c: Content, f: nat, blocks: seq<Block>, d: Content, tip: nat, u: Content)
    requires StandsAt(c, f) && tip == f + |blocks| < HEIGHTS && WellFormed(blocks) && Grown(H, c, f, blocks) == Some(d)
    requires u == AllUnwound(d, tip, f) && f + 1 < HEIGHTS
    ensures SameVerdicts(H, root, u, c, f) <==> CommitReveal.AllKept(c.commits, f, AllCommitments(blocks))
  {
    UnwindExact(H, c, f, blocks, d, tip, u);
    if CommitReveal.AllKept(c.commits, f, AllCommitments(blocks)) {
      SameJudged(H, root, u, c, f);
    } else {
      UnwindIsUndo(H, c, f, blocks, d, tip);
      var x :| x in c.commits.pending && !CommitReveal.Survives(c.commits, f, AllCommitments(blocks), x);
      LossShows(H, root, c, f, blocks, u, x);
    }
  }

  lemma SameJudged(H: Hasher, root: Roots, u: Content, c: Content, f: nat)
    requires u.buckets == c.buckets && u.commits.pending == c.commits.pending
    ensures SameVerdicts(H, root, u, c, f)
  {
    forall branch: seq<Block> | f + |branch| < HEIGHTS
      ensures CheckedRun(H, root, u, f, branch).Some? <==> CheckedRun(H, root, c, f, branch).Some?
    {
      RunAgrees(H, root, u, c, f, branch, f + |branch|);
    }
  }

  lemma LossShows(H: Hasher, root: Roots, c: Content, f: nat, blocks: seq<Block>, u: Content, x: CommitReveal.Key)
    requires f + 1 < HEIGHTS && CommitReveal.Sound(c.commits, f)
    requires x in c.commits.pending && !CommitReveal.Survives(c.commits, f, AllCommitments(blocks), x)
    requires forall y: CommitReveal.Key ::
               CommitReveal.Survival(c.commits, f, AllCommitments(blocks), u.commits, y)
    ensures !SameVerdicts(H, root, u, c, f)
  {
    forall y | y in u.commits.pending
      ensures y in c.commits.pending && u.commits.pending[y] == c.commits.pending[y]
    {
      assert CommitReveal.Survival(c.commits, f, AllCommitments(blocks), u.commits, y);
    }
    assert CommitReveal.Survival(c.commits, f, AllCommitments(blocks), u.commits, x);
    var b := LostRecommits(H, root, u, c, f, x);
    assert f + |[b]| < HEIGHTS;
  }

  // ---- the code bucket ----

  /** Modules are stored under their own hash. */
  ghost predicate Hashed(H: Hasher, code: Code) {
    forall c :: c in code ==> H(code[c].bytes) == c
  }

  /** Every slot, live or kept for history, finds its module. */
  ghost predicate Resolves(H: Hasher, code: Code, d: Domain<Digest, Slot>) {
    && Hashed(H, code)
    && (forall a :: a in d.state ==> d.state[a].codeHash in code)
    && (forall x :: x in d.cs && d.cs[x].Some? ==> d.cs[x].value.codeHash in code)
  }

  lemma ResolvesPut(H: Hasher, was: Code, code: Code, d: Domain<Digest, Slot>, h: nat, w: Write<Digest, Slot>)
    requires Resolves(H, was, d) && Hashed(H, code) && was.Keys <= code.Keys
    requires w.value.Some? ==> w.value.value.codeHash in code
    ensures Resolves(H, code, Put(d, h, w))
  {
    var e := Put(d, h, w);
    forall b | b in e.state ensures e.state[b].codeHash in code {
      assert Lookup(e.state, b) == if b == w.key then w.value else Lookup(d.state, b);
    }
  }

  lemma ResolvesReverted(H: Hasher, code: Code, d: Domain<Digest, Slot>, h: nat)
    requires Resolves(H, code, d)
    ensures Resolves(H, code, Reverted(d, h))
  {
    var r := Reverted(d, h);
    forall a | a in r.state ensures r.state[a].codeHash in code {
      assert Lookup(r.state, a) == Restored(d, h, a);
    }
  }

  /** A reorg never loses the code of a slot that is live or kept for history. */
  lemma {:induction false} ResolvesUnwound(H: Hasher, code: Code, b: Buckets, tip: nat, target: nat)
    requires Resolves(H, code, b.con)
    ensures Resolves(H, code, BucketsUnwound(b, tip, target).con)
    decreases tip
  {
    if tip > target {
      ResolvesReverted(H, code, b.con, tip);
      ResolvesUnwound(H, code, Undone(b, tip), tip - 1, target);
    }
  }

  lemma WroteResolves(H: Hasher, code: Code, b: Buckets, h: nat, op: Op)
    requires Resolves(H, code, b.con)
    ensures Resolves(H, Coded(H, code, b, op), Wrote(H, b, h, op).con)
  {
    match op
    case SetContract(a, source, context) =>
      ResolvesPut(H, code, Coded(H, code, b, op), b.con, h, Write(a, Some(Slot(H(source), context))));
    case DelContract(a) =>
      ResolvesPut(H, code, Coded(H, code, b, op), b.con, h, Write(a, None));
    case _ =>
  }

  lemma {:induction false} WroteAllResolves(H: Hasher, code: Code, b: Buckets, h: nat, ops: seq<Op>)
    requires Resolves(H, code, b.con)
    ensures Resolves(H, CodedAll(H, code, b, h, ops), WroteAll(H, b, h, ops).con)
  {
    if ops != [] {
      var front := ops[..|ops| - 1];
      WroteAllResolves(H, code, b, h, front);
      WroteResolves(H, CodedAll(H, code, b, h, front), WroteAll(H, b, h, front), h, ops[|ops| - 1]);
    }
  }

  lemma {:induction false} PaidSlots(b: Buckets, h: nat, cs: seq<Charged>)
    ensures PaidAll(b, h, cs).Some? ==> PaidAll(b, h, cs).value.con == b.con
  {
    if cs != [] {
      PaidSlots(b, h, cs[..|cs| - 1]);
    }
  }

  /** Nor does a block. */
  lemma BlockResolves(H: Hasher, code: Code, b: Buckets, h: Height, block: Block, e: Buckets)
    requires Resolves(H, code, b.con) && BucketsOn(H, b, h, block) == Some(e)
    ensures Resolves(H, CodeOn(H, code, b, h, block), e.con)
  {
    PaidSlots(b, h, block.commits);
    WroteAllResolves(H, code, PaidAll(b, h, block.commits).value, h, block.ops);
  }

  lemma {:induction false} GrownResolves(H: Hasher, code: Code, b: Buckets, f: nat, blocks: seq<Block>, e: Buckets,
                                         tip: nat)
    requires Resolves(H, code, b.con) && tip == f + |blocks| < HEIGHTS && BucketsGrown(H, b, f, blocks) == Some(e)
    ensures Resolves(H, CodeGrown(H, code, b, f, blocks), e.con)
  {
    if blocks != [] {
      var front, last := blocks[..|blocks| - 1], blocks[|blocks| - 1];
      BucketsLast(H, b, f, blocks, front, last, tip);
      var m := BucketsGrown(H, b, f, front).value;
      CodeLast(H, code, b, f, blocks, front, last, tip);
      GrownResolves(H, code, b, f, front, m, tip - 1);
      BlockResolves(H, CodeGrown(H, code, b, f, front), m, tip, last, e);
    }
  }

  /** Nor does a switch of branches. */
  lemma SwitchResolves(H: Hasher, d: Content, tip: nat, f: nat, branch: seq<Block>, r: Content)
    requires Resolves(H, d.code, d.buckets.con) && f + |branch| < HEIGHTS
    requires Grown(H, AllUnwound(d, tip, f), f, branch) == Some(r)
    ensures Resolves(H, r.code, r.buckets.con)
  {
    ResolvesUnwound(H, d.code, d.buckets, tip, f);
    GrownResolves(H, d.code, BucketsUnwound(d.buckets, tip, f), f, branch, r.buckets, f + |branch|);
  }
}
