/** The archived state as a value (ngstate/state.go): what a block does to it, and the per-height undo. */
module Contents {
  import opened Basics
  import opened Domains
  import opened Committed
  import opened KeyOrder
  import CommitReveal
  import Beacon

  /** Balances, contract slots, key registry and beacon seed, each with its recorded history. */
  datatype Buckets = Buckets(
    bal: Domain<Digest, nat>, con: Domain<Digest, Slot>, key: Domain<Digest, Bytes1>, bea: Domain<(), Bytes1>)

  /** refcount and bytes of a code-bucket entry. */
  datatype Module = Module(refs: nat, bytes: Bytes)

  type Code = map<Digest, Module>

  datatype Content = Content(buckets: Buckets, code: Code, commits: CommitReveal.Store)

  // ---- the unwind ----

  function Undone(b: Buckets, h: nat): (r: Buckets) {
    Buckets(Reverted(b.bal, h), Reverted(b.con, h), Reverted(b.key, h), Reverted(b.bea, h))
  }

  /** unwindHeightTxn: the code bucket is not touched. */
  function HeightUndone(c: Content, h: nat): (r: Content) {
    Content(Undone(c.buckets, h), c.code, CommitReveal.Undone(c.commits, h))
  }

  function BucketsUnwound(b: Buckets, tip: nat, target: nat): (r: Buckets)
    decreases tip
  {
    if tip <= target then b else BucketsUnwound(Undone(b, tip), tip - 1, target)
  }

  /** UnwindToTxn's loop: tip, tip-1, ..., target+1. */
  function AllUnwound(c: Content, tip: nat, target: nat): (r: Content) {
    Content(BucketsUnwound(c.buckets, tip, target), c.code, CommitReveal.Unwound(c.commits, tip, target))
  }

  /** The unwind starts with the tip. */
  lemma UnwindFirst(c: Content, tip: nat, target: nat)
    requires target < tip
    ensures AllUnwound(c, tip, target) == AllUnwound(HeightUndone(c, tip), tip - 1, target)
  {}

  // ---- the code bucket ----

  function Retained(code: Code, hash: Digest, bytes: Bytes): (r: Code) {
    code[hash := if hash in code then Module(code[hash].refs + 1, code[hash].bytes) else Module(1, bytes)]
  }

  /** Released once: at the last reference the bytes go too, unless they are kept for history. */
  function Released(code: Code, hash: Digest, keepForHistory: bool): (r: Code) {
    if hash !in code then code
    else if code[hash].refs <= 1 && !keepForHistory then code - {hash}
    else code[hash := Module(if code[hash].refs > 0 then code[hash].refs - 1 else 0, code[hash].bytes)]
  }

  /** setContract's part: a changed module is released and the new one retained. */
  function Reconciled(code: Code, slot: Option<Slot>, hash: Digest, bytes: Bytes, keep: bool): (r: Code) {
    if slot.Some? && slot.value.codeHash == hash then code
    else Retained(if slot.Some? then Released(code, slot.value.codeHash, keep) else code, hash, bytes)
  }

  /** delContract's part. */
  function Dropped(code: Code, slot: Option<Slot>, keep: bool): (r: Code) {
    if slot.Some? then Released(code, slot.value.codeHash, keep) else code
  }

  // ---- what a block does ----

  /** What handling a tx does to the buckets, one write at a time. */
  datatype Op =
    | SetBalance(a: Digest, n: nat)
    | Register(a: Digest, entry: Bytes1)
    | SetContract(a: Digest, source: Bytes, context: Bytes)
    | DelContract(a: Digest)
    | Consume(effect: CommitReveal.Entry)

  /** A commitment and the fee its committer owes. */
  datatype Charged = Charged(commit: CommitReveal.Entry, fee: nat)

  /** root: the state root its header commits to. */
  datatype Block = Block(
    commits: seq<Charged>, ops: seq<Op>, beacon: bool, prevHash: Digest, salts: seq<Bytes>, root: Digest)

  /** setBalance inside a block. */
  function Charge(b: Buckets, h: nat, a: Digest, left: nat): (r: Buckets) {
    b.(bal := Put(b.bal, h, Write(a, Some(left))))
  }

  /** handleCommits, the fee of one commitment: the committer must afford it. */
  function Paid(b: Buckets, h: nat, x: Charged): (r: Option<Buckets>) {
    var have := Balance(b.bal.state, x.commit.from);
    if have < x.fee then None else Some(Charge(b, h, x.commit.from, have - x.fee))
  }

  function PaidAll(b: Buckets, h: nat, cs: seq<Charged>): (r: Option<Buckets>) {
    if cs == [] then Some(b)
    else
      var m := PaidAll(b, h, cs[..|cs| - 1]);
      if m.None? then None else Paid(m.value, h, cs[|cs| - 1])
  }

  /** One write of a tx; the key registry is append-only, and a reveal writes no archived bucket. */
  function Wrote(H: Hasher, b: Buckets, h: nat, op: Op): (r: Buckets) {
    match op
    case SetBalance(a, n) => b.(bal := Put(b.bal, h, Write(a, Some(n))))
    case Register(a, entry) => if a in b.key.state then b else b.(key := Put(b.key, h, Write(a, Some(entry))))
    case SetContract(a, source, context) => b.(con := Put(b.con, h, Write(a, Some(Slot(H(source), context)))))
    case DelContract(a) => b.(con := Put(b.con, h, Write(a, None)))
    case Consume(_) => b
  }

  function WroteAll(H: Hasher, b: Buckets, h: nat, ops: seq<Op>): (r: Buckets) {
    if ops == [] then b else Wrote(H, WroteAll(H, b, h, ops[..|ops| - 1]), h, ops[|ops| - 1])
  }

  function Coded(H: Hasher, code: Code, b: Buckets, op: Op): (r: Code) {
    match op
    case SetContract(a, source, _) => Reconciled(code, Lookup(b.con.state, a), H(source), source, true)
    case DelContract(a) => Dropped(code, Lookup(b.con.state, a), true)
    case _ => code
  }

  function CodedAll(H: Hasher, code: Code, b: Buckets, h: nat, ops: seq<Op>): (r: Code) {
    if ops == [] then code
    else
      var front := ops[..|ops| - 1];
      Coded(H, CodedAll(H, code, b, h, front), WroteAll(H, b, h, front), ops[|ops| - 1])
  }

  /** getBeacon: an absent seed reads as 32 zero bytes. */
  function SeedOf(m: map<(), Bytes1>): (r: Digest) {
    if () in m then (m[()] + Zeros(32))[..32] else Zeros(32)
  }

  /** updateBeacon: once per block, after its txs; nothing before the fork or at the genesis. */
  function Stirred(H: Hasher, b: Buckets, h: Height, block: Block): (r: Buckets) {
    if !block.beacon || h == 0 then b
    else
      var seed := Beacon.Seed(H, SeedOf(b.bea.state), block.prevHash, block.salts, h);
      b.(bea := Put(b.bea, h, Write((), Some(seed))))
  }

  /** The archived buckets after a block; None when a committer cannot pay. */
  function BucketsOn(H: Hasher, b: Buckets, h: Height, block: Block): (r: Option<Buckets>) {
    var paid := PaidAll(b, h, block.commits);
    if paid.None? then None else Some(Stirred(H, WroteAll(H, paid.value, h, block.ops), h, block))
  }

  /** The code bucket after a block. */
  function CodeOn(H: Hasher, code: Code, b: Buckets, h: nat, block: Block): (r: Code) {
    var paid := PaidAll(b, h, block.commits);
    if paid.None? then code else CodedAll(H, code, paid.value, h, block.ops)
  }

  function Commits(cs: seq<Charged>): (r: seq<CommitReveal.Entry>) {
    if cs == [] then [] else Commits(cs[..|cs| - 1]) + [cs[|cs| - 1].commit]
  }

  function Effects(ops: seq<Op>): (r: seq<CommitReveal.Entry>) {
    if ops == [] then []
    else
      var last := ops[|ops| - 1];
      Effects(ops[..|ops| - 1]) + if last.Consume? then [last.effect] else []
  }

  /** The block as the commitment store sees it. */
  function Commitments(block: Block): (r: CommitReveal.Block) {
    CommitReveal.Block(Commits(block.commits), Effects(block.ops))
  }

  /** Upgrade: commitments, txs, beacon, prune. None when a committer cannot pay, a commitment is already
      pending, or a reveal finds none. */
  function BlockOn(H: Hasher, c: Content, h: Height, block: Block): (r: Option<Content>) {
    var b, s := BucketsOn(H, c.buckets, h, block), CommitReveal.Apply(c.commits, h, Commitments(block));
    if b.None? || s.None? then None else Some(Content(b.value, CodeOn(H, c.code, c.buckets, h, block), s.value))
  }

  /** The archived buckets after the blocks f+1, f+2, ...; None when one fails. */
  function BucketsGrown(H: Hasher, b: Buckets, f: nat, blocks: seq<Block>): (r: Option<Buckets>)
    requires f + |blocks| < HEIGHTS
  {
    if blocks == [] then Some(b)
    else
      var m := BucketsGrown(H, b, f, blocks[..|blocks| - 1]);
      if m.None? then None else BucketsOn(H, m.value, f + |blocks|, blocks[|blocks| - 1])
  }

  function CodeGrown(H: Hasher, code: Code, b: Buckets, f: nat, blocks: seq<Block>): (r: Code)
    requires f + |blocks| < HEIGHTS
  {
    if blocks == [] then code
    else
      var front := blocks[..|blocks| - 1];
      var m := BucketsGrown(H, b, f, front);
      if m.None? then code
      else CodeOn(H, CodeGrown(H, code, b, f, front), m.value, f + |blocks|, blocks[|blocks| - 1])
  }

  function AllCommitments(blocks: seq<Block>): (r: seq<CommitReveal.Block>) {
    if blocks == [] then [] else AllCommitments(blocks[..|blocks| - 1]) + [Commitments(blocks[|blocks| - 1])]
  }

  /** Upgrade of the blocks f+1, f+2, ... in turn; None when one fails. */
  function Grown(H: Hasher, c: Content, f: nat, blocks: seq<Block>): (r: Option<Content>)
    requires f + |blocks| < HEIGHTS
  {
    var b := BucketsGrown(H, c.buckets, f, blocks);
    var s := CommitReveal.ApplyRun(c.commits, f, AllCommitments(blocks));
    if b.None? || s.None? then None else Some(Content(b.value, CodeGrown(H, c.code, c.buckets, f, blocks), s.value))
  }

  lemma RunLast(s: CommitReveal.Store, f: nat, all: seq<CommitReveal.Block>, front: seq<CommitReveal.Block>,
                k: CommitReveal.Block, tip: nat)
    requires all == front + [k] && tip == f + |all|
    ensures CommitReveal.ApplyRun(s, f, all)
         == var t := CommitReveal.ApplyRun(s, f, front);
            if t.None? then None else CommitReveal.Apply(t.value, tip, k)
  {
    assert all[..|all| - 1] == front;
  }

  lemma {:induction false} CommitmentsLength(blocks: seq<Block>)
    ensures |AllCommitments(blocks)| == |blocks|
  {
    if blocks != [] {
      CommitmentsLength(blocks[..|blocks| - 1]);
    }
  }

  lemma CommitsLast(c: Content, f: nat, blocks: seq<Block>, front: seq<Block>, last: Block, tip: nat)
    requires blocks != [] && front == blocks[..|blocks| - 1] && last == blocks[|blocks| - 1] && tip == f + |blocks|
    ensures CommitReveal.ApplyRun(c.commits, f, AllCommitments(blocks))
         == var s := CommitReveal.ApplyRun(c.commits, f, AllCommitments(front));
            if s.None? then None else CommitReveal.Apply(s.value, tip, Commitments(last))
  {
    CommitmentsLength(blocks);
    CommitmentsLast(blocks, front, last);
    RunLast(c.commits, f, AllCommitments(blocks), AllCommitments(front), Commitments(last), tip);
  }

  lemma CommitmentsLast(blocks: seq<Block>, front: seq<Block>, last: Block)
    requires blocks != [] && front == blocks[..|blocks| - 1] && last == blocks[|blocks| - 1]
    ensures AllCommitments(blocks) == AllCommitments(front) + [Commitments(last)]
  {}

  lemma BucketsLast(H: Hasher, b: Buckets, f: nat, blocks: seq<Block>, front: seq<Block>, last: Block, tip: nat)
    requires blocks != [] && front == blocks[..|blocks| - 1] && last == blocks[|blocks| - 1] && tip == f + |blocks|
    requires tip < HEIGHTS
    ensures BucketsGrown(H, b, f, blocks)
         == var m := BucketsGrown(H, b, f, front);
            if m.None? then None else BucketsOn(H, m.value, tip, last)
  {}

  lemma CodeLast(H: Hasher, code: Code, b: Buckets, f: nat, blocks: seq<Block>, front: seq<Block>, last: Block,
                 tip: nat)
    requires blocks != [] && front == blocks[..|blocks| - 1] && last == blocks[|blocks| - 1] && tip == f + |blocks|
    requires tip < HEIGHTS && BucketsGrown(H, b, f, front).Some?
    ensures CodeGrown(H, code, b, f, blocks)
         == CodeOn(H, CodeGrown(H, code, b, f, front), BucketsGrown(H, b, f, front).value, tip, last)
  {}

  /** A run is its blocks one after the other. */
  lemma GrownLast(H: Hasher, c: Content, f: nat, blocks: seq<Block>, front: seq<Block>, last: Block, tip: nat)
    requires blocks != [] && front == blocks[..|blocks| - 1] && last == blocks[|blocks| - 1] && tip == f + |blocks|
    requires tip < HEIGHTS
    ensures Grown(H, c, f, front).None? ==> Grown(H, c, f, blocks).None?
    ensures Grown(H, c, f, front).Some? ==>
              Grown(H, c, f, blocks) == BlockOn(H, Grown(H, c, f, front).value, tip, last)
  {
    BucketsLast(H, c.buckets, f, blocks, front, last, tip);
    CommitsLast(c, f, blocks, front, last, tip);
    if BucketsGrown(H, c.buckets, f, front).Some? {
      CodeLast(H, c.code, c.buckets, f, blocks, front, last, tip);
    }
  }

  // ---- the state root ----

  /** The state root as a function of the committed buckets. */
  type Roots = Plain -> Digest

  /** The buckets the root covers. */
  function Shown(c: Content): (r: Plain) {
    Plain(c.buckets.bal.state, c.buckets.key.state, c.buckets.con.state, c.commits.pending, c.buckets.bea.state)
  }

  /** Upgrade, then CheckStateRoot: a block whose root is not that of its post-state is refused. */
  function CheckedOn(H: Hasher, root: Roots, c: Content, h: Height, block: Block): (r: Option<Content>) {
    var d := BlockOn(H, c, h, block);
    if d.Some? && root(Shown(d.value)) == block.root then d else None
  }

  /** ApplyBlocksTxn and RebuildFromBlockStoreTxn: the blocks f+1, f+2, ... in turn with their roots. */
  function CheckedRun(H: Hasher, root: Roots, c: Content, f: nat, blocks: seq<Block>): (r: Option<Content>)
    requires f + |blocks| < HEIGHTS
  {
    if blocks == [] then Some(c)
    else
      var m := CheckedRun(H, root, c, f, blocks[..|blocks| - 1]);
      if m.None? then None else CheckedOn(H, root, m.value, f + |blocks|, blocks[|blocks| - 1])
  }

  lemma CheckedLast(H: Hasher, root: Roots, c: Content, f: nat, blocks: seq<Block>, front: seq<Block>, last: Block,
                    tip: nat)
    requires blocks != [] && front == blocks[..|blocks| - 1] && last == blocks[|blocks| - 1] && tip == f + |blocks|
    requires tip < HEIGHTS
    ensures CheckedRun(H, root, c, f, front).None? ==> CheckedRun(H, root, c, f, blocks).None?
    ensures CheckedRun(H, root, c, f, front).Some? ==>
              CheckedRun(H, root, c, f, blocks) == CheckedOn(H, root, CheckedRun(H, root, c, f, front).value, tip, last)
  {}

  /** A checked run is a run. */
  lemma {:induction false} CheckedIsGrown(H: Hasher, root: Roots, c: Content, f: nat, blocks: seq<Block>, d: Content,
                                          tip: nat)
    requires tip == f + |blocks| < HEIGHTS && CheckedRun(H, root, c, f, blocks) == Some(d)
    ensures Grown(H, c, f, blocks) == Some(d)
  {
    if blocks != [] {
      var front, last := blocks[..|blocks| - 1], blocks[|blocks| - 1];
      CheckedLast(H, root, c, f, blocks, front, last, tip);
      var m := CheckedRun(H, root, c, f, front).value;
      CheckedIsGrown(H, root, c, f, front, m, tip - 1);
      GrownLast(H, c, f, blocks, front, last, tip);
    }
  }

  /** The blocks up to the i-th apply, and it carries the root of what they leave. */
  ghost predicate RootFits(H: Hasher, root: Roots, c: Content, f: nat, blocks: seq<Block>, i: nat)
    requires f + |blocks| < HEIGHTS && i < |blocks|
  {
    var g := Grown(H, c, f, blocks[..i + 1]);
    g.Some? && blocks[i].root == root(Shown(g.value))
  }

  lemma FrontFits(H: Hasher, root: Roots, c: Content, f: nat, blocks: seq<Block>, front: seq<Block>)
    requires f + |blocks| < HEIGHTS && blocks != [] && front == blocks[..|blocks| - 1]
    ensures forall i :: 0 <= i < |front| ==> RootFits(H, root, c, f, blocks, i) == RootFits(H, root, c, f, front, i)
  {
    forall i | 0 <= i < |front|
      ensures RootFits(H, root, c, f, blocks, i) == RootFits(H, root, c, f, front, i)
    {
      assert blocks[..i + 1] == front[..i + 1];
    }
  }

  lemma LastFits(H: Hasher, root: Roots, c: Content, f: nat, blocks: seq<Block>, front: seq<Block>, last: Block,
                 tip: nat, n: nat)
    requires blocks != [] && front == blocks[..|blocks| - 1] && last == blocks[|blocks| - 1] && tip == f + |blocks|
    requires tip < HEIGHTS && n == |front| && CheckedRun(H, root, c, f, front).Some?
    ensures CheckedRun(H, root, c, f, blocks).Some? <==> RootFits(H, root, c, f, blocks, n)
  {
    var m := CheckedRun(H, root, c, f, front).value;
    CheckedIsGrown(H, root, c, f, front, m, tip - 1);
    GrownLast(H, c, f, blocks, front, last, tip);
    CheckedLast(H, root, c, f, blocks, front, last, tip);
    assert blocks[..n + 1] == blocks;
  }

  /** A run passes exactly when every block applies and carries the root of what it leaves. */
  lemma {:induction false} CheckedIff(H: Hasher, root: Roots, c: Content, f: nat, blocks: seq<Block>)
    requires f + |blocks| < HEIGHTS
    ensures CheckedRun(H, root, c, f, blocks).Some?
       <==> forall i :: 0 <= i < |blocks| ==> RootFits(H, root, c, f, blocks, i)
  {
    if blocks != [] {
      var front, last := blocks[..|blocks| - 1], blocks[|blocks| - 1];
      CheckedIff(H, root, c, f, front);
      FrontFits(H, root, c, f, blocks, front);
      if CheckedRun(H, root, c, f, front).Some? {
        LastFits(H, root, c, f, blocks, front, last, f + |blocks|, |front|);
      } else {
        var i :| 0 <= i < |front| && !RootFits(H, root, c, f, front, i);
        assert !RootFits(H, root, c, f, blocks, i);
      }
    }
  }

  /** The blocks cannot all be applied (sealed: carried over growing lists). */
  ghost predicate Stuck(H: Hasher, root: Roots, c: Content, f: nat, blocks: seq<Block>)
    requires f + |blocks| < HEIGHTS
  {
    forall seal {:trigger Opened(STAND, seal)} :: Opened(STAND, seal) ==> CheckedRun(H, root, c, f, blocks).None?
  }

  lemma StuckNext(H: Hasher, root: Roots, c: Content, f: nat, blocks: seq<Block>, front: seq<Block>)
    requires blocks != [] && front == blocks[..|blocks| - 1] && f + |blocks| < HEIGHTS && Stuck(H, root, c, f, front)
    ensures Stuck(H, root, c, f, blocks)
  {
    assert Opened(STAND, true);
    CheckedLast(H, root, c, f, blocks, front, blocks[|blocks| - 1], f + |blocks|);
  }

  lemma {:induction false} StaysStuck(H: Hasher, root: Roots, c: Content, f: nat, blocks: seq<Block>, p: seq<Block>)
    requires f + |blocks| < HEIGHTS && p <= blocks && Stuck(H, root, c, f, p)
    ensures Stuck(H, root, c, f, blocks)
    decreases |blocks| - |p|
  {
    if |p| < |blocks| {
      var more := p + [blocks[|p|]];
      StuckNext(H, root, c, f, more, p);
      StaysStuck(H, root, c, f, blocks, more);
    } else {
      assert p == blocks;
    }
  }

  /** A refused block fails the run. */
  lemma CheckedFails(H: Hasher, root: Roots, c: Content, f: nat, blocks: seq<Block>, p: seq<Block>)
    requires f + |blocks| < HEIGHTS && p <= blocks && CheckedRun(H, root, c, f, p).None?
    ensures CheckedRun(H, root, c, f, blocks).None?
  {
    StaysStuck(H, root, c, f, blocks, p);
    assert Opened(STAND, true);
  }

  ghost predicate WellFormed(blocks: seq<Block>) {
    CommitReveal.AllWellFormed(AllCommitments(blocks))
  }
}
