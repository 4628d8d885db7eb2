/** The two halves of a node together: the fork choice of blockchain/ decides the canonical chain, and its verdict
    on the state is the one ngstate computes by unwinding to the fork and applying the branch. In every world of
    every run the state is that of the canonical chain. */
module FullNode {
  import opened Basics
  import opened KeyOrder
  import opened BlockTree
  import BlockStore
  import Uncles
  import opened ChainState
  import opened ForkChoice
  import opened Chain
  import opened ChainRuns
  import CommitReveal
  import Contents
  import StateRuns
  import NodeRuns
  import ReplayRuns

  type Node = NodeRuns.Node

  /** What the block of a hash does to the state. */
  type Loads = Digest -> Contents.Block

  /** The payloads of the ancestors of h at the heights low+1 .. high. */
  ghost function Payloads(t: Tree, load: Loads, h: Digest, low: nat, high: nat): (r: seq<Contents.Block>)
    ensures |r| == if low <= high then high - low else 0
    ensures forall i :: 0 <= i < |r| ==> r[i] == load(AncestorAt(t, h, low + 1 + i))
  {
    seq(if low <= high then high - low else 0, i requires 0 <= i => load(AncestorAt(t, h, low + 1 + i)))
  }

  /** The payloads of the chain that ends in a tip. */
  ghost function Canonical(e: Env, load: Loads, tip: Digest): (r: seq<Contents.Block>) {
    Payloads(e.t, load, tip, e.o.height, Ht(e.t, tip))
  }

  // ---- where two chains part ----

  /** The highest height up to k at which a and b have the same ancestor. */
  ghost function ForkBelow(e: Env, a: Digest, b: Digest, k: nat): (f: nat) {
    if k <= e.o.height || AncestorAt(e.t, a, k) == AncestorAt(e.t, b, k) then k else ForkBelow(e, a, b, k - 1)
  }

  ghost function Fork(e: Env, a: Digest, b: Digest): (f: nat) {
    ForkBelow(e, a, b, if Ht(e.t, a) < Ht(e.t, b) then Ht(e.t, a) else Ht(e.t, b))
  }

  lemma {:induction false} ForkShared(e: Env, known: set<Digest>, a: Digest, b: Digest, k: nat)
    requires Rooted(e.t, e.o, known) && a in known && b in known && e.o.height <= k <= Ht(e.t, a) && k <= Ht(e.t, b)
    ensures var f := ForkBelow(e, a, b, k);
            && e.o.height <= f <= k && AncestorAt(e.t, a, f) == AncestorAt(e.t, b, f)
            && forall j :: f < j <= k ==> AncestorAt(e.t, a, j) != AncestorAt(e.t, b, j)
    decreases k
  {
    AncestorKnown(e.t, e.o, known, a, k);
    AncestorKnown(e.t, e.o, known, b, k);
    if k > e.o.height && AncestorAt(e.t, a, k) != AncestorAt(e.t, b, k) {
      ForkShared(e, known, a, b, k - 1);
    }
  }

  /** The chains of a and b are one up to height f. */
  ghost predicate Shared(e: Env, a: Digest, b: Digest, f: nat) {
    && e.o.height <= f <= Ht(e.t, a) && f <= Ht(e.t, b)
    && forall k :: e.o.height <= k <= f ==> AncestorAt(e.t, a, k) == AncestorAt(e.t, b, k)
  }

  lemma SharedBelow(e: Env, known: set<Digest>, a: Digest, b: Digest, f: nat)
    requires Rooted(e.t, e.o, known) && a in known && b in known && e.o.height <= f <= Ht(e.t, a) && f <= Ht(e.t, b)
    requires AncestorAt(e.t, a, f) == AncestorAt(e.t, b, f)
    ensures Shared(e, a, b, f)
  {
    forall k | e.o.height <= k <= f ensures AncestorAt(e.t, a, k) == AncestorAt(e.t, b, k) {
      AncestorOfAncestor(e.t, e.o, known, a, f, k);
      AncestorOfAncestor(e.t, e.o, known, b, f, k);
    }
  }

  /** Up to the fork the two chains are one. */
  lemma ForkIsShared(e: Env, known: set<Digest>, a: Digest, b: Digest, f: nat)
    requires Rooted(e.t, e.o, known) && a in known && b in known && f == Fork(e, a, b)
    ensures Shared(e, a, b, f)
  {
    AboveOrigin(e.t, e.o, known, a);
    AboveOrigin(e.t, e.o, known, b);
    ForkShared(e, known, a, b, if Ht(e.t, a) < Ht(e.t, b) then Ht(e.t, a) else Ht(e.t, b));
    SharedBelow(e, known, a, b, f);
  }

  /** A connected branch hangs below its first block on that block's parent. */
  lemma {:induction false} BranchRoot(e: Env, known: set<Digest>, branch: seq<Block>, f: nat, i: nat)
    requires Rooted(e.t, e.o, known) && BlockStore.Connected(branch) && OffOrigin(e, branch) && i < |branch|
    requires Hashes(branch) <= known && branch[0].head.height == f + 1
    ensures AncestorAt(e.t, branch[i].head.hash, f) == branch[0].head.prev
    ensures Ht(e.t, branch[i].head.hash) == f + 1 + i && e.o.height <= f
    decreases i
  {
    var h := branch[i].head.hash;
    assert h in Hashes(branch) && Attached(e.t, e.o, known, h);
    if i == 0 {
      AboveOrigin(e.t, e.o, known, Up(e.t, h));
    } else {
      assert BlockStore.LinksAt(branch, i);
      BranchRoot(e, known, branch, f, i - 1);
    }
  }

  /** A branch that attaches to a's chain shares it up to there. */
  lemma BranchIsShared(e: Env, w: World, known: set<Digest>, branch: seq<Block>, f: nat, b: Digest)
    requires Reachable(e, w) && Rooted(e.t, e.o, known) && w.known <= known && Hashes(branch) <= known
    requires BlockStore.Attaches(w.db.index, branch) && BlockStore.Connected(branch) && OffOrigin(e, branch)
    requires branch[0].head.height == f + 1 && b == branch[|branch| - 1].head.hash
    ensures Shared(e, w.db.tipHash, b, f)
  {
    BranchRoot(e, known, branch, f, |branch| - 1);
    WellTree(e, w.known, w.db);
    IndexedAt(e, w, f);
    SharedBelow(e, known, w.db.tipHash, b, f);
  }

  lemma IndexedAt(e: Env, w: World, k: nat)
    requires Reachable(e, w)
    ensures Lookup(w.db.index, k)
         == if e.o.height <= k <= w.db.tipHeight then Some(AncestorAt(e.t, w.db.tipHash, k)) else None
  {
    assert Opened(CHAIN, true);
  }

  /** The part of b's chain above height f. */
  ghost function Branch(e: Env, load: Loads, b: Digest, f: nat): (r: seq<Contents.Block>) {
    Payloads(e.t, load, b, f, Ht(e.t, b))
  }

  lemma PayloadsJoin(e: Env, load: Loads, a: Digest, b: Digest, f: nat)
    requires Shared(e, a, b, f)
    ensures e.o.height <= f <= e.o.height + |Canonical(e, load, a)| == Ht(e.t, a)
    ensures Canonical(e, load, a)[..f - e.o.height] + Branch(e, load, b, f) == Canonical(e, load, b)
  {
    var o, x, y, z := e.o.height, Canonical(e, load, a), Branch(e, load, b, f), Canonical(e, load, b);
    forall i | 0 <= i < |z| ensures (x[..f - o] + y)[i] == z[i] {
      if i < f - o {
        assert AncestorAt(e.t, a, o + 1 + i) == AncestorAt(e.t, b, o + 1 + i);
      } else {
        assert f + 1 + (i - (f - o)) == o + 1 + i;
      }
    }
  }

  lemma ChainJoins(e: Env, load: Loads, a: Digest, b: Digest, f: nat, chain: seq<Contents.Block>,
                   branch: seq<Contents.Block>, base: nat, tip: nat)
    requires Shared(e, a, b, f) && chain == Canonical(e, load, a) && branch == Branch(e, load, b, f)
    requires base == e.o.height && tip == Ht(e.t, a)
    ensures base <= f <= tip == base + |chain| && chain[..f - base] + branch == Canonical(e, load, b)
  {
    PayloadsJoin(e, load, a, b, f);
  }

  // ---- the state's part of a tip move ----

  /** The blocks f+1, f+2, ... if each is well formed, applies and has its root. */
  ghost function Applied(H: Hasher, root: Contents.Roots, u: Contents.Content, f: nat, branch: seq<Contents.Block>)
    : (r: Option<Contents.Content>)
  {
    if f + |branch| < HEIGHTS && Contents.WellFormed(branch) then Contents.CheckedRun(H, root, u, f, branch) else None
  }

  /** What the unwind to height f and the branch make of the content at the tip: Upgrade with its root when f is
      the tip, else a reorg. */
  ghost function Switched(H: Hasher, root: Contents.Roots, c: Contents.Content, tip: nat, f: nat,
                          branch: seq<Contents.Block>): (r: Option<Contents.Content>)
  {
    Applied(H, root, Contents.AllUnwound(c, tip, f), f, branch)
  }

  /** The node after it; nothing when the state refuses. */
  ghost function Moved(H: Hasher, root: Contents.Roots, base: nat, n: Node, tip: nat, f: nat,
                       branch: seq<Contents.Block>): (r: Node)
  {
    var d := Switched(H, root, n.c, tip, f, branch);
    if d.None? || f < base || base + |n.chain| < f then n else NodeRuns.Node(n.chain[..f - base] + branch, d.value)
  }

  lemma AcceptsChecked(H: Hasher, root: Contents.Roots, base: nat, n: Node, block: Contents.Block, h: nat)
    requires h == base + |n.chain| + 1 < HEIGHTS && Contents.CheckedOn(H, root, n.c, h, block).Some?
    requires CommitReveal.WellFormed(Contents.Commitments(block))
    ensures NodeRuns.Accepts(H, root, base, n, block)
  {}

  lemma ExtendOne(H: Hasher, root: Contents.Roots, base: nat, n: Node, block: Contents.Block, tip: nat, h: nat,
                  d: Contents.Content, m: Node)
    requires tip == base + |n.chain| && h == tip + 1 < HEIGHTS
    requires Contents.CheckedOn(H, root, n.c, h, block) == Some(d)
    requires CommitReveal.WellFormed(Contents.Commitments(block))
    requires m == NodeRuns.Stepped(H, root, base, n, NodeRuns.Extend(block))
    ensures m.chain == n.chain + [block] && m.c == d
  {
    AcceptsChecked(H, root, base, n, block, h);
    ReplayRuns.AcceptedCheck(H, root, base, n, block, tip, m);
  }

  /** The i-th block of a branch that passes. */
  lemma BlockPasses(H: Hasher, root: Contents.Roots, c: Contents.Content, f: nat, branch: seq<Contents.Block>, i: nat,
                    h: nat) returns (m: Contents.Content, d: Contents.Content)
    requires f + |branch| < HEIGHTS && Contents.WellFormed(branch) && 0 < i <= |branch| && h == f + i
    requires Contents.CheckedRun(H, root, c, f, branch).Some?
    ensures Contents.CheckedRun(H, root, c, f, branch[..i - 1]) == Some(m)
    ensures Contents.CheckedRun(H, root, c, f, branch[..i]) == Some(d)
    ensures Contents.CheckedOn(H, root, m, h, branch[i - 1]) == Some(d)
    ensures CommitReveal.WellFormed(Contents.Commitments(branch[i - 1]))
  {
    var front, part := branch[..i - 1], branch[..i];
    if Contents.CheckedRun(H, root, c, f, front).None? {
      Contents.CheckedFails(H, root, c, f, branch, front);
    }
    if Contents.CheckedRun(H, root, c, f, part).None? {
      Contents.CheckedFails(H, root, c, f, branch, part);
    }
    Contents.CheckedLast(H, root, c, f, part, front, branch[i - 1], h);
    NodeRuns.CommitmentsCut(branch, i);
    Contents.CommitmentsLast(part, front, branch[i - 1]);
    m, d := Contents.CheckedRun(H, root, c, f, front).value, Contents.CheckedRun(H, root, c, f, part).value;
    WellFormedAt(branch, i);
  }

  lemma WellFormedAt(branch: seq<Contents.Block>, i: nat)
    requires Contents.WellFormed(branch) && 0 < i <= |branch|
    ensures CommitReveal.WellFormed(Contents.Commitments(branch[i - 1]))
  {
    var part, all := branch[..i], Contents.AllCommitments(branch);
    NodeRuns.CommitmentsCut(branch, i);
    NodeRuns.CommitmentsCut(branch, i - 1);
    Contents.CommitmentsLast(part, branch[..i - 1], branch[i - 1]);
    assert all[i - 1] == all[..i][i - 1];
  }

  /** The first i blocks take u to d (sealed: carried over growing parts). */
  ghost predicate Passes(H: Hasher, root: Contents.Roots, u: Contents.Content, f: nat, branch: seq<Contents.Block>,
                         i: nat, d: Contents.Content)
    requires f + |branch| < HEIGHTS && i <= |branch|
  {
    forall seal {:trigger Opened(DID, seal)} :: Opened(DID, seal) ==>
      Contents.CheckedRun(H, root, u, f, branch[..i]) == Some(d)
  }

  lemma PassesNone(H: Hasher, root: Contents.Roots, u: Contents.Content, f: nat, branch: seq<Contents.Block>)
    requires f + |branch| < HEIGHTS
    ensures Passes(H, root, u, f, branch, 0, u)
  {}

  lemma PassesAll(H: Hasher, root: Contents.Roots, u: Contents.Content, f: nat, branch: seq<Contents.Block>, n: nat,
                  d: Contents.Content)
    requires f + |branch| < HEIGHTS && n == |branch| && Passes(H, root, u, f, branch, n, d)
    ensures Contents.CheckedRun(H, root, u, f, branch) == Some(d)
  {
    assert Opened(DID, true);
    assert branch[..|branch|] == branch;
  }

  lemma ExtendStep(H: Hasher, root: Contents.Roots, base: nat, c: Contents.Content, front: seq<NodeRuns.Event>, q: Node,
                   u: Contents.Content, f: nat, branch: seq<Contents.Block>, i: nat, j: nat, h: nat)
    returns (more: seq<NodeRuns.Event>, m: Node)
    requires f + |branch| < HEIGHTS && i < |branch| && j == i + 1 && h == f + j == base + |q.chain| + 1
    requires Contents.WellFormed(branch) && Contents.CheckedRun(H, root, u, f, branch).Some?
    requires ReplayRuns.Leads(H, root, base, c, front, q) && Passes(H, root, u, f, branch, i, q.c)
    ensures ReplayRuns.Leads(H, root, base, c, more, m) && Passes(H, root, u, f, branch, j, m.c)
    ensures m.chain == q.chain + [branch[i]]
  {
    assert Opened(DID, true);
    var x, d := BlockPasses(H, root, u, f, branch, j, h);
    more, m := front + [NodeRuns.Extend(branch[i])], NodeRuns.Stepped(H, root, base, q, NodeRuns.Extend(branch[i]));
    ExtendOne(H, root, base, q, branch[i], h - 1, h, d, m);
    ReplayRuns.LeadsOn(H, root, base, c, front, q, NodeRuns.Extend(branch[i]), more, m);
  }

  lemma ChainGrows(chain: seq<Contents.Block>, branch: seq<Contents.Block>, i: nat, was: seq<Contents.Block>,
                   now: seq<Contents.Block>)
    requires 0 < i <= |branch| && was == chain + branch[..i - 1] && now == was + [branch[i - 1]]
    ensures now == chain + branch[..i]
  {}

  lemma {:induction false} ExtendsLead(H: Hasher, root: Contents.Roots, base: nat, c: Contents.Content,
                                       events: seq<NodeRuns.Event>, n: Node, u: Contents.Content, f: nat,
                                       branch: seq<Contents.Block>, i: nat)
    returns (more: seq<NodeRuns.Event>, m: Node)
    requires ReplayRuns.Leads(H, root, base, c, events, n) && u == n.c && f == base + |n.chain|
    requires f + |branch| < HEIGHTS && i <= |branch|
    requires Contents.WellFormed(branch) && Contents.CheckedRun(H, root, u, f, branch).Some?
    ensures ReplayRuns.Leads(H, root, base, c, more, m) && Passes(H, root, u, f, branch, i, m.c)
    ensures m.chain == n.chain + branch[..i]
    decreases i
  {
    if i == 0 {
      more, m := events, n;
      PassesNone(H, root, u, f, branch);
    } else {
      var front, q := ExtendsLead(H, root, base, c, events, n, u, f, branch, i - 1);
      more, m := ExtendStep(H, root, base, c, front, q, u, f, branch, i - 1, i, f + i);
      ChainGrows(n.chain, branch, i, q.chain, m.chain);
    }
  }

  /** Unwinding to f is a rewind, or nothing when f is the tip. */
  lemma UnwindLeads(H: Hasher, root: Contents.Roots, base: nat, c: Contents.Content, events: seq<NodeRuns.Event>,
                    n: Node, tip: nat, f: nat) returns (more: seq<NodeRuns.Event>, m: Node)
    requires ReplayRuns.Leads(H, root, base, c, events, n) && base <= f <= tip == base + |n.chain|
    ensures ReplayRuns.Leads(H, root, base, c, more, m)
    ensures m.chain == n.chain[..f - base] && m.c == Contents.AllUnwound(n.c, tip, f)
  {
    if f == tip {
      more, m := events, n;
    } else {
      more := events + [NodeRuns.Rewind(f)];
      m := NodeRuns.Stepped(H, root, base, n, NodeRuns.Rewind(f));
      ReplayRuns.LeadsOn(H, root, base, c, events, n, NodeRuns.Rewind(f), more, m);
    }
  }

  lemma MovedIs(H: Hasher, root: Contents.Roots, base: nat, n: Node, tip: nat, f: nat, branch: seq<Contents.Block>,
                m: Node, u: Contents.Content)
    requires base <= f <= tip == base + |n.chain| && u == Contents.AllUnwound(n.c, tip, f)
    requires Switched(H, root, n.c, tip, f, branch).Some? && m == Moved(H, root, base, n, tip, f, branch)
    ensures f + |branch| < HEIGHTS && Contents.WellFormed(branch)
    ensures Contents.CheckedRun(H, root, u, f, branch) == Some(m.c) && m.chain == n.chain[..f - base] + branch
  {
    assert Applied(H, root, u, f, branch) == Some(m.c);
  }

  /** A tip move is part of a run. */
  lemma MovedLeads(H: Hasher, root: Contents.Roots, base: nat, c: Contents.Content, events: seq<NodeRuns.Event>,
                   n: Node, tip: nat, f: nat, branch: seq<Contents.Block>, m: Node)
    returns (more: seq<NodeRuns.Event>)
    requires ReplayRuns.Leads(H, root, base, c, events, n) && base <= f <= tip == base + |n.chain|
    requires Switched(H, root, n.c, tip, f, branch).Some? && m == Moved(H, root, base, n, tip, f, branch)
    ensures ReplayRuns.Leads(H, root, base, c, more, m) && m.chain == n.chain[..f - base] + branch
  {
    var mid, q := UnwindLeads(H, root, base, c, events, n, tip, f);
    MovedIs(H, root, base, n, tip, f, branch, m, q.c);
    var p;
    more, p := ExtendsLead(H, root, base, c, mid, q, q.c, f, branch, |branch|);
    PassesAll(H, root, q.c, f, branch, |branch|, p.c);
    assert branch[..|branch|] == branch;
    SameNode(H, root, base, c, more, p, m);
  }

  lemma SameNode(H: Hasher, root: Contents.Roots, base: nat, c: Contents.Content, events: seq<NodeRuns.Event>, p: Node,
                 m: Node)
    requires ReplayRuns.Leads(H, root, base, c, events, p) && p.chain == m.chain && p.c == m.c
    ensures ReplayRuns.Leads(H, root, base, c, events, m)
  {}

  // ---- the fork choice decides by the state's verdict ----

  /** The tip a call would lead to. */
  function Would(e: Env, c: Call): (r: Digest) {
    match c
    case One(b, _) => b.head.hash
    case Many(branch, _) => if branch == [] then e.o.hash else branch[|branch| - 1].head.hash
  }

  /** The height the state is unwound to: where the block's chain leaves the tip's, or right below the branch. */
  ghost function ForkOf(e: Env, a: Digest, c: Call): (f: nat) {
    match c
    case One(b, _) => Fork(e, a, b.head.hash)
    case Many(branch, _) => if branch == [] || branch[0].head.height == 0 then 0 else branch[0].head.height - 1
  }

  /** The call's verdict on the state is the one the state of node n gives. */
  ghost predicate Judged(H: Hasher, root: Contents.Roots, e: Env, load: Loads, n: Node, a: Digest, c: Call) {
    var f := ForkOf(e, a, c);
    c.checks.state <==> Switched(H, root, n.c, Ht(e.t, a), f, Branch(e, load, Would(e, c), f)).Some?
  }

  /** The state's part of a call that took the tip from a to b. */
  ghost function Next(H: Hasher, root: Contents.Roots, e: Env, load: Loads, n: Node, a: Digest, c: Call, b: Digest)
    : (r: Node)
  {
    var f := ForkOf(e, a, c);
    if a == b then n else Moved(H, root, e.o.height, n, Ht(e.t, a), f, Branch(e, load, b, f))
  }

  /** A tip only moves to where the call leads, and only with the state's consent. */
  lemma TipMoves(e: Env, w: World, c: Call, r: Outcome, v: World)
    requires Reachable(e, w) && Reachable(e, v) && Step(e, w, c, r, v) && v.db.tipHash != w.db.tipHash
    ensures v.db.tipHash == Would(e, c) && c.checks.state
    ensures Rooted(e.t, e.o, v.known) && w.db.tipHash in v.known && v.db.tipHash in v.known
  {
    WellTree(e, w.known, w.db);
    WellTree(e, v.known, v.db);
    if c.One? {
      var a, b := w.db.tipHash, v.db.tipHash;
      assert Better(e.t, e.o, b, a);
      BetterAsymmetric(e.t, e.o, b, a);
      assert b !in w.known;
    }
  }

  lemma CallShares(e: Env, w: World, c: Call, r: Outcome, v: World)
    requires Reachable(e, w) && Reachable(e, v) && Step(e, w, c, r, v) && v.db.tipHash != w.db.tipHash
    ensures Shared(e, w.db.tipHash, v.db.tipHash, ForkOf(e, w.db.tipHash, c))
  {
    TipMoves(e, w, c, r, v);
    var f := ForkOf(e, w.db.tipHash, c);
    match c
    case One(_, _) => ForkIsShared(e, v.known, w.db.tipHash, v.db.tipHash, f);
    case Many(branch, _) => BranchIsShared(e, w, v.known, branch, f, v.db.tipHash);
  }

  lemma MoveFollows(H: Hasher, root: Contents.Roots, c: Contents.Content, e: Env, load: Loads, a: Digest, b: Digest,
                    f: nat, branch: seq<Contents.Block>, base: nat, tip: nat, n: Node, events: seq<NodeRuns.Event>,
                    m: Node)
    returns (more: seq<NodeRuns.Event>)
    requires Shared(e, a, b, f) && branch == Branch(e, load, b, f) && base == e.o.height && tip == Ht(e.t, a)
    requires n.chain == Canonical(e, load, a) && Switched(H, root, n.c, tip, f, branch).Some?
    requires ReplayRuns.Leads(H, root, base, c, events, n) && m == Moved(H, root, base, n, tip, f, branch)
    ensures ReplayRuns.Leads(H, root, base, c, more, m) && m.chain == Canonical(e, load, b)
  {
    ChainJoins(e, load, a, b, f, n.chain, branch, base, tip);
    more := MovedLeads(H, root, base, c, events, n, tip, f, branch, m);
  }

  /** One call: whatever the fork choice makes of it, the state goes along. */
  lemma StepFollows(H: Hasher, root: Contents.Roots, c: Contents.Content, e: Env, load: Loads, w: World, call: Call,
                    r: Outcome, v: World, n: Node, events: seq<NodeRuns.Event>, m: Node)
    returns (more: seq<NodeRuns.Event>)
    requires Reachable(e, w) && Reachable(e, v) && Step(e, w, call, r, v)
    requires Judged(H, root, e, load, n, w.db.tipHash, call) && n.chain == Canonical(e, load, w.db.tipHash)
    requires ReplayRuns.Leads(H, root, e.o.height, c, events, n)
    requires m == Next(H, root, e, load, n, w.db.tipHash, call, v.db.tipHash)
    ensures ReplayRuns.Leads(H, root, e.o.height, c, more, m) && m.chain == Canonical(e, load, v.db.tipHash)
  {
    if v.db.tipHash == w.db.tipHash {
      more := events;
    } else {
      var a, b := w.db.tipHash, v.db.tipHash;
      TipMoves(e, w, call, r, v);
      CallShares(e, w, call, r, v);
      var f := ForkOf(e, a, call);
      more := MoveFollows(H, root, c, e, load, a, b, f, Branch(e, load, b, f), e.o.height, Ht(e.t, a), n, events, m);
    }
  }

  // ---- whole runs ----

  /** The state after the first i calls. */
  ghost function NodeAt(H: Hasher, root: Contents.Roots, c: Contents.Content, e: Env, load: Loads, calls: seq<Call>,
                        trace: seq<World>, i: nat): (r: Node)
    requires i < |trace| == |calls| + 1
  {
    if i == 0 then NodeRuns.Node([], c)
    else
      var n := NodeAt(H, root, c, e, load, calls, trace, i - 1);
      Next(H, root, e, load, n, trace[i - 1].db.tipHash, calls[i - 1], trace[i].db.tipHash)
  }

  /** Every call was judged by the state it found. */
  ghost predicate AllJudged(H: Hasher, root: Contents.Roots, c: Contents.Content, e: Env, load: Loads, calls: seq<Call>,
                            trace: seq<World>)
    requires |trace| == |calls| + 1
  {
    forall i :: 0 <= i < |calls| ==>
      Judged(H, root, e, load, NodeAt(H, root, c, e, load, calls, trace, i), trace[i].db.tipHash, calls[i])
  }

  /** A run of the fork choice as ChainRuns.Replay makes it. */
  ghost predicate Played(e: Env, calls: seq<Call>, outcomes: seq<Outcome>, trace: seq<World>) {
    && |outcomes| == |calls| && |trace| == |calls| + 1
    && trace[0].db.tipHash == e.o.hash
    && (forall i :: 0 <= i <= |calls| ==> Reachable(e, trace[i]))
    && (forall i :: 0 <= i < |calls| ==> ChainRuns.Stepped(e, calls, outcomes, trace, i))
  }

  lemma StartsEmpty(e: Env, load: Loads, w: World)
    requires Reachable(e, w) && w.db.tipHash == e.o.hash
    ensures Canonical(e, load, w.db.tipHash) == []
  {
    WellTree(e, w.known, w.db);
  }

  lemma CallAt(H: Hasher, root: Contents.Roots, c: Contents.Content, e: Env, load: Loads, calls: seq<Call>,
               outcomes: seq<Outcome>, trace: seq<World>, j: nat, m: Node)
    requires Played(e, calls, outcomes, trace) && AllJudged(H, root, c, e, load, calls, trace) && j < |calls|
    requires m == NodeAt(H, root, c, e, load, calls, trace, j)
    ensures Reachable(e, trace[j]) && Reachable(e, trace[j + 1])
    ensures Step(e, trace[j], calls[j], outcomes[j], trace[j + 1])
    ensures Judged(H, root, e, load, m, trace[j].db.tipHash, calls[j])
  {
    assert ChainRuns.Stepped(e, calls, outcomes, trace, j);
  }

  lemma {:induction false} RunFollows(H: Hasher, root: Contents.Roots, c: Contents.Content, e: Env, load: Loads,
                                      calls: seq<Call>, outcomes: seq<Outcome>, trace: seq<World>, i: nat, n: Node)
    returns (events: seq<NodeRuns.Event>)
    requires Played(e, calls, outcomes, trace) && AllJudged(H, root, c, e, load, calls, trace) && i <= |calls|
    requires n == NodeAt(H, root, c, e, load, calls, trace, i)
    ensures ReplayRuns.Leads(H, root, e.o.height, c, events, n)
    ensures n.chain == Canonical(e, load, trace[i].db.tipHash)
    decreases i
  {
    if i == 0 {
      StartsEmpty(e, load, trace[0]);
      events := [];
    } else {
      var j := i - 1;
      var m := NodeAt(H, root, c, e, load, calls, trace, j);
      var front := RunFollows(H, root, c, e, load, calls, outcomes, trace, j, m);
      CallAt(H, root, c, e, load, calls, outcomes, trace, j, m);
      events := StepFollows(H, root, c, e, load, trace[j], calls[j], outcomes[j], trace[i], m, front, n);
    }
  }

  lemma IndexedPayloads(e: Env, load: Loads, w: World)
    requires Reachable(e, w)
    ensures w.db.tipHeight == e.o.height + |Canonical(e, load, w.db.tipHash)|
    ensures forall k: nat :: e.o.height < k <= w.db.tipHeight ==>
              k in w.db.index && Canonical(e, load, w.db.tipHash)[k - e.o.height - 1] == load(w.db.index[k])
  {
    WellTree(e, w.known, w.db);
    assert Opened(CHAIN, true);
    forall k: nat | e.o.height < k <= w.db.tipHeight
      ensures k in w.db.index && Canonical(e, load, w.db.tipHash)[k - e.o.height - 1] == load(w.db.index[k])
    {
      assert Lookup(w.db.index, k) == Some(AncestorAt(e.t, w.db.tipHash, k));
    }
  }

  /** The blocks the state went through are those of the height index, and its archived buckets are what they
      make of the start content. */
  ghost predicate StateOf(H: Hasher, c: Contents.Content, base: nat, load: Loads, db: BlockStore.Db, n: Node) {
    && db.tipHeight == base + |n.chain| < HEIGHTS
    && (forall k: nat :: base < k <= db.tipHeight ==> k in db.index && n.chain[k - base - 1] == load(db.index[k]))
    && Contents.BucketsGrown(H, c.buckets, base, n.chain) == Some(n.c.buckets)
  }

  /** After any calls in any order, each judged by the state it found, the state is that of the canonical chain:
      it went through the blocks of the height index, and it is what a rebuild from the store computes, roots
      checked, as long as no reorg lost a commitment. */
  lemma StateIsCanonical(H: Hasher, root: Contents.Roots, c: Contents.Content, e: Env, load: Loads, calls: seq<Call>,
                         outcomes: seq<Outcome>, trace: seq<World>, i: nat, n: Node)
    returns (events: seq<NodeRuns.Event>)
    requires Played(e, calls, outcomes, trace) && AllJudged(H, root, c, e, load, calls, trace) && i <= |calls|
    requires NodeRuns.Start(H, e.o.height, c) && n == NodeAt(H, root, c, e, load, calls, trace, i)
    ensures StateOf(H, c, e.o.height, load, trace[i].db, n)
    ensures n == NodeRuns.Run(H, root, e.o.height, c, events)
    ensures ReplayRuns.AllKeep(H, root, e.o.height, c, events) ==>
              StateRuns.Agree(Some(n.c), Contents.CheckedRun(H, root, c, e.o.height, n.chain))
  {
    events := RunFollows(H, root, c, e, load, calls, outcomes, trace, i, n);
    IndexedPayloads(e, load, trace[i]);
    assert Opened(RUN, true);
    NodeRuns.RunReplays(H, root, e.o.height, c, events, n, e.o.height + |n.chain|);
    if ReplayRuns.AllKeep(H, root, e.o.height, c, events) {
      ReplayRuns.RunAgreesWithRebuild(H, root, e.o.height, c, events, n);
    }
  }

  /** Any calls in any order on a fresh node, the state included. */
  method Operate(first: Block, next: Uncles.Retarget, calls: seq<Call>, ghost e: Env, ghost H: Hasher,
                 ghost root: Contents.Roots, ghost c: Contents.Content, ghost load: Loads)
    returns (db: BlockStore.Db, outcomes: seq<Outcome>, ghost trace: seq<World>)
    requires Founding(e.t, first) && e == Started(first, next, e.t, e.stamp) && AllReal(e, calls)
    requires NodeRuns.Start(H, e.o.height, c)
    ensures Played(e, calls, outcomes, trace) && trace[|calls|].db == db
    ensures AllJudged(H, root, c, e, load, calls, trace) ==>
              StateOf(H, c, e.o.height, load, db, NodeAt(H, root, c, e, load, calls, trace, |calls|))
  {
    db, outcomes, trace := Replay(first, next, calls, e);
    if AllJudged(H, root, c, e, load, calls, trace) {
      ghost var n := NodeAt(H, root, c, e, load, calls, trace, |calls|);
      ghost var events := StateIsCanonical(H, root, c, e, load, calls, outcomes, trace, |calls|, n);
    }
  }
}
