/** The archive node as it runs (ngstate/state.go): one state object driven by blocks and reorgs. What it holds in
    the end is the run of NodeRuns, so what is proved of every run holds of the object. */
module NodeDriver {
  import opened Basics
  import opened KeyOrder
  import opened Committed
  import opened Contents
  import opened LeafScope
  import opened StateDb
  import opened Upgrade
  import opened NodeRuns
  import CommitReveal
  import StateRuns
  import StateTrie
  import SparseMerkle

  /** The first i events took the content c to the node n (sealed inside the loop). */
  ghost predicate Ran(H: Hasher, root: Roots, base: nat, c: Content, events: seq<Event>, i: nat, n: Node)
    requires i <= |events|
  {
    forall seal {:trigger Opened(RUN, seal)} :: Opened(RUN, seal) ==> n == Run(H, root, base, c, events[..i])
  }

  lemma RanNone(H: Hasher, root: Roots, base: nat, c: Content, events: seq<Event>)
    ensures Ran(H, root, base, c, events, 0, Node([], c))
  {}

  lemma RanNext(H: Hasher, root: Roots, base: nat, c: Content, events: seq<Event>, i: nat, j: nat, n: Node, m: Node)
    requires i < |events| && j == i + 1 && Ran(H, root, base, c, events, i, n)
    requires m == Stepped(H, root, base, n, events[i])
    ensures Ran(H, root, base, c, events, j, m)
  {
    assert Opened(RUN, true);
    assert events[..j][..i] == events[..i];
  }

  lemma RanAll(H: Hasher, root: Roots, base: nat, c: Content, events: seq<Event>, n: Node)
    requires Ran(H, root, base, c, events, |events|, n)
    ensures n == Run(H, root, base, c, events)
  {
    assert Opened(RUN, true);
    assert events[..|events|] == events;
  }

  /** The leaves the event's block can write, at whatever height of the run it is offered, are among the keys. */
  ghost predicate EventFits(keys: Keys, base: nat, top: nat, e: Event) {
    e.Extend? ==> forall h: Height :: base < h <= top ==> BlockFits(keys, h, e.block)
  }

  ghost predicate EventsFit(keys: Keys, base: nat, events: seq<Event>) {
    forall i :: 0 <= i < |events| ==> EventFits(keys, base, base + |events|, events[i])
  }

  /** A well-formed block offered on the tip, in its transaction. */
  method Try(s: State, base: nat, chain: seq<Block>, block: Block, h: Height, ghost keys: Keys, ghost fits: bool,
             ghost n: Node)
    returns (longer: seq<Block>)
    requires Ready(s) && h == base + |chain| + 1 && CommitReveal.WellFormed(Commitments(block))
    requires n == Node(chain, s.All()) && (fits ==> Tidy(s, keys) && BlockFits(keys, h, block))
    modifies s, s.bal, s.con, s.key, s.bea, s.trie, s.trie.store
    ensures Ready(s) && |chain| <= |longer| <= |chain| + 1
    ensures !old(InStep(s)) || InStep(s)
    ensures fits ==> Tidy(s, keys)
    ensures fits ==> Node(longer, s.All()) == Stepped(s.H, RootsOf(s.H, s.enc), base, n, Extend(block))
  {
    var ok := UpgradeTxn(s, h, block, keys);
    longer := if ok then chain + [block] else chain;
    if fits {
      Judged(s.H, RootsOf(s.H, s.enc), base, n, block, h, ok, s.All());
    }
  }

  lemma NotTried(H: Hasher, root: Roots, base: nat, n: Node, block: Block)
    requires base + |n.chain| + 1 >= HEIGHTS || !CommitReveal.WellFormed(Commitments(block))
    ensures Stepped(H, root, base, n, Extend(block)) == n
  {}

  /** Any block offered on the tip. */
  method Offer(s: State, base: nat, chain: seq<Block>, block: Block, ghost top: nat, ghost keys: Keys, ghost fits: bool)
    returns (longer: seq<Block>)
    requires Ready(s) && base + |chain| < HEIGHTS && base + |chain| < top
    requires fits ==> Tidy(s, keys) && EventFits(keys, base, top, Extend(block))
    modifies s, s.bal, s.con, s.key, s.bea, s.trie, s.trie.store
    ensures Ready(s) && base + |longer| < HEIGHTS && |longer| <= |chain| + 1
    ensures !old(InStep(s)) || InStep(s)
    ensures fits ==> Tidy(s, keys)
    ensures fits ==>
              Node(longer, s.All()) == Stepped(s.H, RootsOf(s.H, s.enc), base, Node(chain, old(s.All())), Extend(block))
  {
    var h := base + |chain| + 1;
    ghost var n := Node(chain, s.All());
    if h < HEIGHTS && CommitReveal.WellFormed(Commitments(block)) {
      longer := Try(s, base, chain, block, h, keys, fits, n);
    } else {
      longer := chain;
      NotTried(s.H, RootsOf(s.H, s.enc), base, n, block);
    }
  }

  lemma Judged(H: Hasher, root: Roots, base: nat, n: Node, block: Block, h: nat, ok: bool, c: Content)
    requires h == base + |n.chain| + 1 < HEIGHTS && CommitReveal.WellFormed(Commitments(block))
    requires ok <==> CheckedOn(H, root, n.c, h, block).Some?
    requires if ok then BlockOn(H, n.c, h, block) == Some(c) else c == n.c
    ensures Stepped(H, root, base, n, Extend(block)) == Node(if ok then n.chain + [block] else n.chain, c)
  {}

  /** The unwind of a reorg. */
  method Back(s: State, base: nat, chain: seq<Block>, t: nat, ghost keys: Keys) returns (shorter: seq<Block>)
    requires Ready(s) && base + |chain| < HEIGHTS
    modifies s, s.bal, s.con, s.key, s.bea, s.trie, s.trie.store
    ensures Ready(s) && base + |shorter| < HEIGHTS && |shorter| <= |chain|
    ensures !old(InStep(s)) || InStep(s)
    ensures !old(Tidy(s, keys)) || Tidy(s, keys)
    ensures Node(shorter, s.All()) == Stepped(s.H, RootsOf(s.H, s.enc), base, Node(chain, old(s.All())), Rewind(t))
  {
    var tip := base + |chain|;
    ghost var n := Node(chain, s.All());
    shorter := chain;
    if base <= t < tip {
      Unwind(s, tip, t, keys);
      shorter := chain[..t - base];
      Rewound(s.H, RootsOf(s.H, s.enc), base, n, tip, t, s.All());
    }
  }

  lemma Rewound(H: Hasher, root: Roots, base: nat, n: Node, tip: nat, t: nat, c: Content)
    requires base <= t < tip == base + |n.chain| && c == AllUnwound(n.c, tip, t)
    ensures Stepped(H, root, base, n, Rewind(t)) == Node(n.chain[..t - base], c)
  {}

  method Step(s: State, base: nat, chain: seq<Block>, e: Event, ghost top: nat, ghost keys: Keys, ghost fits: bool)
    returns (next: seq<Block>)
    requires Ready(s) && base + |chain| < HEIGHTS && base + |chain| < top
    requires fits ==> Tidy(s, keys) && EventFits(keys, base, top, e)
    modifies s, s.bal, s.con, s.key, s.bea, s.trie, s.trie.store
    ensures Ready(s) && base + |next| < HEIGHTS && |next| <= |chain| + 1
    ensures !old(InStep(s)) || InStep(s)
    ensures fits ==> Tidy(s, keys)
    ensures fits ==> Node(next, s.All()) == Stepped(s.H, RootsOf(s.H, s.enc), base, Node(chain, old(s.All())), e)
  {
    match e
    case Extend(block) => next := Offer(s, base, chain, block, top, keys, fits);
    case Rewind(t) => next := Back(s, base, chain, t, keys);
  }

  /** Any list of events from any valid state whose commitment is in step: the object follows the run, roots
      included, for every set of keys that holds the leaves written so far, those an undo could write and those
      the events name, as long as no two of them share a path. */
  method Drive(s: State, base: nat, events: seq<Event>, ghost keys: Keys) returns (chain: seq<Block>)
    requires Ready(s) && base < HEIGHTS
    modifies s, s.bal, s.con, s.key, s.bea, s.trie, s.trie.store
    ensures Ready(s)
    ensures !old(InStep(s)) || InStep(s)
    ensures old(Tidy(s, keys)) && EventsFit(keys, base, events) ==>
              Tidy(s, keys) && Node(chain, s.All()) == Run(s.H, RootsOf(s.H, s.enc), base, old(s.All()), events)
  {
    ghost var c, root := s.All(), RootsOf(s.H, s.enc);
    ghost var top, fits := base + |events|, Tidy(s, keys) && EventsFit(keys, base, events);
    chain := [];
    RanNone(s.H, root, base, c, events);
    var i := 0;
    while i < |events|
      invariant |chain| <= i <= |events| && Ready(s) && base + |chain| < HEIGHTS
      invariant !old(InStep(s)) || InStep(s)
      invariant fits ==> Tidy(s, keys) && Ran(s.H, root, base, c, events, i, Node(chain, s.All()))
    {
      ghost var n := Node(chain, s.All());
      var j := i + 1;
      chain := Step(s, base, chain, events[i], top, keys, fits);
      if fits {
        RanNext(s.H, root, base, c, events, i, j, n, Node(chain, s.All()));
      }
      i := j;
    }
    if fits {
      RanAll(s.H, root, base, c, events, Node(chain, s.All()));
    }
  }

  /** A reorg of the state object, against a node that only ever applied the branch to the content c of the fork
      height: the same archived buckets, every slot's code still found, and, when every commitment pending at
      the fork survived the unwind and no two leaf keys in play share a path, the same verdict, roots included,
      and the same pending commitments. */
  method Reorg(s: State, f: nat, tip: Height, branch: seq<Block>, ghost c: Content, ghost blocks: seq<Block>,
               ghost keys: Keys)
    returns (ok: bool)
    requires Ready(s) && StateRuns.StandsAt(c, f) && tip == f + |blocks| && f + |branch| < HEIGHTS
    requires WellFormed(blocks) && Grown(s.H, c, f, blocks) == Some(s.All())
    modifies s, s.bal, s.con, s.key, s.bea, s.trie, s.trie.store
    ensures Ready(s)
    ensures !old(InStep(s)) || InStep(s)
    ensures !ok ==> s.All() == old(s.All())
    ensures ok ==> BucketsGrown(s.H, c.buckets, f, branch) == Some(s.Archive())
    ensures ok && StateRuns.Resolves(s.H, old(s.code), old(s.Archive()).con) ==>
              StateRuns.Resolves(s.H, s.code, s.Archive().con)
    ensures old(Tidy(s, keys)) && BlocksFit(keys, f, branch) ==>
              Tidy(s, keys) && (CommitReveal.AllKept(c.commits, f, AllCommitments(blocks)) ==>
                  StateRuns.Agree(if ok then Some(s.All()) else None,
                                  CheckedRun(s.H, RootsOf(s.H, s.enc), c, f, branch)))
  {
    ghost var d := s.All();
    StateRuns.ReorgReplays(s.H, RootsOf(s.H, s.enc), c, f, blocks, d, tip, AllUnwound(d, tip, f), branch);
    ok := Switch(s, f, tip, branch, keys);
    if ok {
      StateRuns.UnwindExact(s.H, c, f, blocks, d, tip, AllUnwound(d, tip, f));
      if StateRuns.Resolves(s.H, d.code, d.buckets.con) {
        StateRuns.SwitchResolves(s.H, d, tip, f, branch, s.All());
      }
    }
  }

  /** Nodes that agree have the same state root, unless leaf paths of written keys collide. */
  lemma AgreeingRoots(s: State, r: State)
    requires Ready(s) && Ready(r) && InStep(s) && InStep(r) && s.H == r.H && s.enc == r.enc
    requires StateRuns.Agree(Some(s.All()), Some(r.All()))
    requires StateTrie.NoCollision(s.H, s.trie.touched + r.trie.touched)
    ensures SparseMerkle.TreeRoot(s.H, s.trie.leaves) == SparseMerkle.TreeRoot(r.H, r.trie.leaves)
  {
    assert Opened(READY, true) && Opened(STEP, true);
    assert s.bal.View() == r.bal.View() && s.con.View() == r.con.View();
    assert s.key.View() == r.key.View() && s.bea.View() == r.bea.View();
    SameState(s, r);
  }
}
