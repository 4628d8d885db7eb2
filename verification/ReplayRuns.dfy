/** The node against RebuildFromBlockStoreTxn, over whole runs: the node holds what a replay of its chain, roots
    checked, computes, until a reorg unwinds past a commitment that the highest tip above it had pruned; the first
    such reorg is exactly where they part, and afterwards the node can extend a chain that a replay refuses. */
module ReplayRuns {
  import opened Basics
  import opened KeyOrder
  import opened Contents
  import opened StateRuns
  import opened NodeRuns
  import opened CommitReplays
  import CommitReveal
  import CommitRuns

  /** The peaks of the node's chain after one more event. */
  function PeaksOn(H: Hasher, root: Roots, base: nat, n: Node, p: Peaks, e: Event): (r: Peaks)
    requires |p| == |n.chain|
    ensures |r| == |Stepped(H, root, base, n, e).chain|
  {
    match e
    case Extend(block) => if Accepts(H, root, base, n, block) then Raised(p, base + |n.chain| + 1) else p
    case Rewind(t) => if base <= t < base + |n.chain| then p[..t - base] else p
  }

  /** For each block of the chain a run ends on, the highest tip since the node applied it. */
  function PeaksOf(H: Hasher, root: Roots, base: nat, c: Content, events: seq<Event>): (r: Peaks)
    ensures |r| == |Run(H, root, base, c, events).chain|
  {
    if events == [] then []
    else
      var front := events[..|events| - 1];
      PeaksOn(H, root, base, Run(H, root, base, c, front), PeaksOf(H, root, base, c, front), events[|events| - 1])
  }

  /** A reorg to height t keeps every commitment pending there on the chain: revealed above t by a block whose
      journal row no tip has pruned, or not revealed and within the window of the tip. */
  ghost predicate KeepsAt(base: nat, c: Content, chain: seq<Block>, p: Peaks, t: nat)
    requires |p| == |chain| && base <= t <= base + |chain|
  {
    var k, all := t - base, AllCommitments(chain);
    |all| == |chain| &&
    var q := CommitReveal.ApplyRun(c.commits, base, all[..k]);
    q.Some? && AllOutlive(q.value, t, all[k..], p[k..])
  }

  ghost predicate Keeps(base: nat, c: Content, n: Node, p: Peaks, e: Event)
    requires |p| == |n.chain|
  {
    e.Rewind? && base <= e.target < base + |n.chain| ==> KeepsAt(base, c, n.chain, p, e.target)
  }

  /** Every reorg of the run kept every commitment. */
  ghost predicate AllKeep(H: Hasher, root: Roots, base: nat, c: Content, events: seq<Event>) {
    events == [] ||
    var front := events[..|events| - 1];
    && AllKeep(H, root, base, c, front)
    && Keeps(base, c, Run(H, root, base, c, front), PeaksOf(H, root, base, c, front), events[|events| - 1])
  }

  /** The node n holds what the replay r of its chain does (sealed: opened where a step is taken). */
  ghost predicate Follows(H: Hasher, root: Roots, base: nat, c: Content, n: Node, p: Peaks, r: Content, tip: nat) {
    forall seal {:trigger Opened(UNDONE, seal)} :: Opened(UNDONE, seal) ==>
      && tip == base + |n.chain| < HEIGHTS
      && CheckedRun(H, root, c, base, n.chain) == Some(r)
      && r.buckets == n.c.buckets
      && WellFormed(n.chain)
      && Matches(c.commits, base, AllCommitments(n.chain), n.c.commits, p, r.commits)
  }

  lemma StartFollows(H: Hasher, root: Roots, base: nat, c: Content)
    requires base < HEIGHTS
    ensures Follows(H, root, base, c, Node([], c), [], c, base)
  {}

  // ---- a block ----

  lemma AcceptedCheck(H: Hasher, root: Roots, base: nat, n: Node, block: Block, tip: nat, m: Node)
    requires tip == base + |n.chain| && Accepts(H, root, base, n, block)
    requires m == Stepped(H, root, base, n, Extend(block))
    ensures tip + 1 < HEIGHTS && m.chain == n.chain + [block] && CommitReveal.WellFormed(Commitments(block))
    ensures CheckedOn(H, root, n.c, tip + 1, block) == Some(m.c)
  {}

  lemma CheckedCommits(H: Hasher, root: Roots, c: Content, h: nat, block: Block, d: Content)
    requires h < HEIGHTS && CheckedOn(H, root, c, h, block) == Some(d)
    ensures CommitReveal.Apply(c.commits, h, Commitments(block)) == Some(d.commits)
  {}

  lemma FollowsOpened(H: Hasher, root: Roots, base: nat, c: Content, n: Node, p: Peaks, r: Content, tip: nat)
    requires Follows(H, root, base, c, n, p, r, tip)
    ensures tip == base + |n.chain| < HEIGHTS && CheckedRun(H, root, c, base, n.chain) == Some(r)
    ensures r.buckets == n.c.buckets && WellFormed(n.chain)
    ensures Matches(c.commits, base, AllCommitments(n.chain), n.c.commits, p, r.commits)
    ensures n.c.commits.pending == r.commits.pending
  {
    assert Opened(UNDONE, true);
  }

  lemma ExtendFollows(H: Hasher, root: Roots, base: nat, c: Content, n: Node, p: Peaks, r: Content, tip: nat,
                      block: Block, m: Node, top: nat) returns (w: Content)
    requires CommitReveal.Sound(c.commits, base) && CommitReveal.Sound(n.c.commits, tip)
    requires Follows(H, root, base, c, n, p, r, tip) && tip == base + |n.chain| && Accepts(H, root, base, n, block)
    requires m == Stepped(H, root, base, n, Extend(block)) && top == tip + 1
    ensures Follows(H, root, base, c, m, Raised(p, top), w, top)
  {
    FollowsOpened(H, root, base, c, n, p, r, tip);
    AcceptedCheck(H, root, base, n, block, tip, m);
    BlockAgrees(H, root, n.c, r, top, block);
    w := CheckedOn(H, root, r, top, block).value;
    CheckedCommits(H, root, n.c, top, block, m.c);
    CheckedCommits(H, root, r, top, block, w);
    assert m.chain[..|n.chain|] == n.chain;
    CheckedLast(H, root, c, base, m.chain, n.chain, block, top);
    CommitmentsLength(n.chain);
    CommitmentsLast(m.chain, n.chain, block);
    var x := ExtendMatches(c.commits, base, AllCommitments(n.chain), n.c.commits, p, r.commits, Commitments(block), top,
                           m.c.commits);
  }

  // ---- a reorg ----

  lemma PrefixChecked(H: Hasher, root: Roots, c: Content, base: nat, chain: seq<Block>, under: seq<Block>, q: Content,
                      t: nat)
    requires base + |chain| < HEIGHTS && CheckedRun(H, root, c, base, chain).Some? && under <= chain
    requires t == base + |under|
    ensures CheckedRun(H, root, c, base, under).Some?
    ensures CheckedRun(H, root, c, base, under) == Some(q) ==>
              && BucketsGrown(H, c.buckets, base, under) == Some(q.buckets)
              && CommitReveal.ApplyRun(c.commits, base, AllCommitments(under)) == Some(q.commits)
  {
    if CheckedRun(H, root, c, base, under).None? {
      CheckedFails(H, root, c, base, chain, under);
    } else if CheckedRun(H, root, c, base, under) == Some(q) {
      CheckedIsGrown(H, root, c, base, under, q, t);
    }
  }

  /** The commitments of the chain below and above a height. */
  lemma CommitmentsSplit(chain: seq<Block>, k: nat, all: seq<CommitReveal.Block>, under: seq<CommitReveal.Block>,
                         above: seq<CommitReveal.Block>)
    requires k <= |chain| && all == AllCommitments(chain) && CommitReveal.AllWellFormed(all)
    requires |all| == |chain| ==> under == all[..k] && above == all[k..]
    ensures |all| == |chain| && all == under + above && under == AllCommitments(chain[..k])
    ensures CommitReveal.AllWellFormed(under) && CommitReveal.AllWellFormed(above)
  {
    CommitmentsCut(chain, k);
  }

  lemma RewindCommits(base: nat, c: Content, n: Node, p: Peaks, r: Content, tip: nat, t: nat, m: Node, q: Content)
    requires CommitReveal.Sound(c.commits, base) && CommitReveal.Sound(n.c.commits, tip) && |p| == |n.chain|
    requires WellFormed(n.chain) && base <= t <= tip == base + |n.chain| && m == Cut(base, n, tip, t)
    requires Matches(c.commits, base, AllCommitments(n.chain), n.c.commits, p, r.commits)
    requires CommitReveal.ApplyRun(c.commits, base, AllCommitments(m.chain)) == Some(q.commits)
    ensures WellFormed(m.chain)
    ensures KeepsAt(base, c, n.chain, p, t) <==> m.c.commits.pending == q.commits.pending
    ensures KeepsAt(base, c, n.chain, p, t) ==>
              Matches(c.commits, base, AllCommitments(m.chain), m.c.commits, p[..t - base], q.commits)
  {
    var k: nat, all := t - base, AllCommitments(n.chain);
    CommitmentsLength(n.chain);
    var under, above := all[..k], all[k..];
    CommitmentsSplit(n.chain, k, all, under, above);
    CommitReveal.RunSound(c.commits, base, under, q.commits, t);
    RewindMatches(c.commits, base, all, n.c.commits, p, r.commits, under, above, p[k..], t, q.commits, tip);
    RewindIff(c.commits, base, all, n.c.commits, p, r.commits, under, above, p[k..], t, q.commits, tip);
  }

  /** After a reorg the node holds what a replay of the shortened chain does exactly when the reorg kept every
      commitment. */
  lemma RewindFollows(H: Hasher, root: Roots, base: nat, c: Content, n: Node, p: Peaks, r: Content, tip: nat, t: nat,
                      m: Node) returns (q: Content)
    requires CommitReveal.Sound(c.commits, base) && CommitReveal.Sound(n.c.commits, tip) && |p| == |n.chain|
    requires Follows(H, root, base, c, n, p, r, tip) && base <= t <= tip == base + |n.chain|
    requires m == Cut(base, n, tip, t) && Holds(H, base, c, m, t)
    ensures t < HEIGHTS && t == base + |m.chain| && CheckedRun(H, root, c, base, m.chain) == Some(q)
    ensures m.c.buckets == q.buckets
    ensures KeepsAt(base, c, n.chain, p, t) <==> m.c.commits.pending == q.commits.pending
    ensures KeepsAt(base, c, n.chain, p, t) ==> Follows(H, root, base, c, m, p[..t - base], q, t)
  {
    FollowsOpened(H, root, base, c, n, p, r, tip);
    assert m.chain <= n.chain;
    PrefixChecked(H, root, c, base, n.chain, m.chain, c, t);
    q := CheckedRun(H, root, c, base, m.chain).value;
    PrefixChecked(H, root, c, base, n.chain, m.chain, q, t);
    HeldReplays(H, base, c, m, t);
    RewindCommits(base, c, n, p, r, tip, t, m, q);
  }

  // ---- whole runs ----

  /** The node and the replay q of its chain after an event, and when they still agree. */
  ghost predicate Parted(H: Hasher, root: Roots, base: nat, c: Content, n: Node, p: Peaks, e: Event, m: Node, o: Peaks,
                         q: Content, top: nat)
    requires |p| == |n.chain|
  {
    forall seal {:trigger Opened(DID, seal)} :: Opened(DID, seal) ==>
      && top == base + |m.chain| < HEIGHTS
      && CheckedRun(H, root, c, base, m.chain) == Some(q)
      && m.c.buckets == q.buckets
      && (Keeps(base, c, n, p, e) <==> m.c.commits.pending == q.commits.pending)
      && (Keeps(base, c, n, p, e) ==> Follows(H, root, base, c, m, o, q, top))
  }

  lemma KeepingParted(H: Hasher, root: Roots, base: nat, c: Content, n: Node, p: Peaks, e: Event, m: Node, o: Peaks,
                      q: Content, top: nat)
    requires |p| == |n.chain| && Keeps(base, c, n, p, e) && Follows(H, root, base, c, m, o, q, top)
    ensures Parted(H, root, base, c, n, p, e, m, o, q, top)
  {
    FollowsOpened(H, root, base, c, m, o, q, top);
  }

  /** An event e takes the node n with its peaks p to m with o. */
  ghost predicate Takes(H: Hasher, root: Roots, base: nat, n: Node, p: Peaks, e: Event, m: Node, o: Peaks) {
    |p| == |n.chain| && m == Stepped(H, root, base, n, e) && o == PeaksOn(H, root, base, n, p, e)
  }

  lemma ExtendGrows(H: Hasher, root: Roots, base: nat, n: Node, p: Peaks, e: Event, tip: nat, m: Node, o: Peaks)
    requires e.Extend? && Accepts(H, root, base, n, e.block) && tip == base + |n.chain|
    requires Takes(H, root, base, n, p, e, m, o)
    ensures base + |m.chain| == tip + 1 && o == Raised(p, tip + 1)
  {}

  lemma RewindCuts(H: Hasher, root: Roots, base: nat, n: Node, p: Peaks, e: Event, tip: nat, m: Node, o: Peaks)
    requires e.Rewind? && base <= e.target < tip == base + |n.chain| && Takes(H, root, base, n, p, e, m, o)
    ensures m == Cut(base, n, tip, e.target) && base + |m.chain| == e.target && o == p[..e.target - base]
  {}

  lemma ExtendParted(H: Hasher, root: Roots, base: nat, c: Content, n: Node, p: Peaks, r: Content, tip: nat, e: Event,
                     m: Node, top: nat, o: Peaks) returns (q: Content)
    requires CommitReveal.Sound(c.commits, base) && CommitReveal.Sound(n.c.commits, tip)
    requires Follows(H, root, base, c, n, p, r, tip) && tip == base + |n.chain| && top == base + |m.chain|
    requires e.Extend? && Accepts(H, root, base, n, e.block) && Takes(H, root, base, n, p, e, m, o)
    ensures Parted(H, root, base, c, n, p, e, m, o, q, top)
  {
    ExtendGrows(H, root, base, n, p, e, tip, m, o);
    q := ExtendFollows(H, root, base, c, n, p, r, tip, e.block, m, top);
    KeepingParted(H, root, base, c, n, p, e, m, o, q, top);
  }

  lemma RewindParted(H: Hasher, root: Roots, base: nat, c: Content, n: Node, p: Peaks, r: Content, tip: nat, e: Event,
                     m: Node, top: nat, o: Peaks) returns (q: Content)
    requires CommitReveal.Sound(c.commits, base) && CommitReveal.Sound(n.c.commits, tip)
    requires Follows(H, root, base, c, n, p, r, tip) && tip == base + |n.chain| && top == base + |m.chain|
    requires e.Rewind? && base <= e.target < tip && Takes(H, root, base, n, p, e, m, o) && Holds(H, base, c, m, top)
    ensures Parted(H, root, base, c, n, p, e, m, o, q, top)
  {
    RewindCuts(H, root, base, n, p, e, tip, m, o);
    q := RewindFollows(H, root, base, c, n, p, r, tip, top, m);
  }

  lemma IdleParted(H: Hasher, root: Roots, base: nat, c: Content, n: Node, p: Peaks, r: Content, tip: nat, e: Event,
                   m: Node, top: nat, o: Peaks)
    requires Follows(H, root, base, c, n, p, r, tip) && tip == base + |n.chain| && top == base + |m.chain|
    requires if e.Extend? then !Accepts(H, root, base, n, e.block) else e.target < base || tip <= e.target
    requires Takes(H, root, base, n, p, e, m, o)
    ensures Parted(H, root, base, c, n, p, e, m, o, r, top)
  {
    assert m == n && o == p && top == tip;
    KeepingParted(H, root, base, c, n, p, e, m, o, r, top);
  }

  lemma HeldSound(H: Hasher, base: nat, c: Content, n: Node, tip: nat)
    requires Holds(H, base, c, n, tip)
    ensures CommitReveal.Sound(n.c.commits, tip)
  {
    assert Opened(RUN, true);
  }

  lemma StepParted(H: Hasher, root: Roots, base: nat, c: Content, n: Node, p: Peaks, r: Content, tip: nat, e: Event,
                   m: Node, top: nat, o: Peaks) returns (q: Content)
    requires CommitReveal.Sound(c.commits, base) && Follows(H, root, base, c, n, p, r, tip)
    requires Holds(H, base, c, n, tip) && Holds(H, base, c, m, top) && tip == base + |n.chain|
    requires Takes(H, root, base, n, p, e, m, o) && top == base + |m.chain|
    ensures Parted(H, root, base, c, n, p, e, m, o, q, top)
  {
    HeldSound(H, base, c, n, tip);
    if e.Extend? && Accepts(H, root, base, n, e.block) {
      q := ExtendParted(H, root, base, c, n, p, r, tip, e, m, top, o);
    } else if e.Rewind? && base <= e.target < tip {
      q := RewindParted(H, root, base, c, n, p, r, tip, e, m, top, o);
    } else {
      q := r;
      IdleParted(H, root, base, c, n, p, r, tip, e, m, top, o);
    }
  }

  lemma {:induction false} RunFollows(H: Hasher, root: Roots, base: nat, c: Content, events: seq<Event>, n: Node,
                                      p: Peaks, tip: nat) returns (r: Content)
    requires Start(H, base, c) && AllKeep(H, root, base, c, events) && n == Run(H, root, base, c, events)
    requires p == PeaksOf(H, root, base, c, events) && tip == base + |n.chain|
    ensures Follows(H, root, base, c, n, p, r, tip)
    decreases |events|
  {
    if events == [] {
      r := c;
      StartFollows(H, root, base, c);
    } else {
      var front, e := events[..|events| - 1], events[|events| - 1];
      var m, o := Run(H, root, base, c, front), PeaksOf(H, root, base, c, front);
      var mid := base + |m.chain|;
      var q := RunFollows(H, root, base, c, front, m, o, mid);
      RunHolds(H, root, base, c, front, m, mid);
      RunHolds(H, root, base, c, events, n, tip);
      r := StepParted(H, root, base, c, m, o, q, mid, e, n, tip, p);
      assert Opened(DID, true);
    }
  }

  /** Any run whose reorgs each kept every commitment ends with what RebuildFromBlockStoreTxn computes from the
      chain: the replay passes every block and root, and gives the same buckets and pending commitments. */
  lemma RunAgreesWithRebuild(H: Hasher, root: Roots, base: nat, c: Content, events: seq<Event>, n: Node)
    requires Start(H, base, c) && AllKeep(H, root, base, c, events) && n == Run(H, root, base, c, events)
    ensures base + |n.chain| < HEIGHTS && Agree(Some(n.c), CheckedRun(H, root, c, base, n.chain))
  {
    var p, tip := PeaksOf(H, root, base, c, events), base + |n.chain|;
    var r := RunFollows(H, root, base, c, events, n, p, tip);
    FollowsOpened(H, root, base, c, n, p, r, tip);
  }

  /** And the condition is exact: at the first reorg that does not keep them all, the node and the rebuild part. */
  lemma FirstLossParts(H: Hasher, root: Roots, base: nat, c: Content, events: seq<Event>, e: Event, n: Node, m: Node)
    requires Start(H, base, c) && AllKeep(H, root, base, c, events) && n == Run(H, root, base, c, events)
    requires m == Stepped(H, root, base, n, e)
    ensures base + |m.chain| < HEIGHTS
    ensures Agree(Some(m.c), CheckedRun(H, root, c, base, m.chain))
       <==> Keeps(base, c, n, PeaksOf(H, root, base, c, events), e)
  {
    var p, tip, top := PeaksOf(H, root, base, c, events), base + |n.chain|, base + |m.chain|;
    var r := RunFollows(H, root, base, c, events, n, p, tip);
    RunHolds(H, root, base, c, events, n, tip);
    StepHolds(H, root, base, c, n, e, m, tip, top);
    var q := StepParted(H, root, base, c, n, p, r, tip, e, m, top, PeaksOn(H, root, base, n, p, e));
    assert Opened(DID, true);
  }

  // ---- after a loss ----

  /** A block without commitments or txs. */
  const QUIET := Block([], [], false, Zeros(32), [], Zeros(32))

  /** The events lead from the content c to the node n (sealed: carried over growing lists). */
  ghost predicate Leads(H: Hasher, root: Roots, base: nat, c: Content, events: seq<Event>, n: Node) {
    forall seal {:trigger Opened(RUN, seal)} :: Opened(RUN, seal) ==> n == Run(H, root, base, c, events)
  }

  lemma LeadsOn(H: Hasher, root: Roots, base: nat, c: Content, front: seq<Event>, m: Node, e: Event, events: seq<Event>,
                n: Node)
    requires Leads(H, root, base, c, front, m) && events == front + [e] && n == Stepped(H, root, base, m, e)
    ensures Leads(H, root, base, c, events, n)
  {
    assert Opened(RUN, true);
    RunNext(H, root, base, c, front, e);
  }

  lemma RunNext(H: Hasher, root: Roots, base: nat, c: Content, events: seq<Event>, e: Event)
    ensures Run(H, root, base, c, events + [e]) == Stepped(H, root, base, Run(H, root, base, c, events), e)
  {
    assert (events + [e])[..|events|] == events;
  }

  /** A block that applies is accepted with the root its miner puts into it. */
  lemma MinedExtends(H: Hasher, root: Roots, n: Node, h: nat, block: Block, d: Content) returns (b: Block)
    requires h == |n.chain| + 1 < HEIGHTS && CommitReveal.WellFormed(Commitments(block))
    requires BlockOn(H, n.c, h, block) == Some(d)
    ensures Stepped(H, root, 0, n, Extend(b)) == Node(n.chain + [b], d) && Commitments(b) == Commitments(block)
  {
    MinedAccepted(H, root, n.c, h, block);
    b := Mined(H, root, n.c, h, block);
  }

  lemma QuietExtends(H: Hasher, root: Roots, n: Node, h: nat) returns (b: Block, m: Node)
    requires h == |n.chain| + 1 < HEIGHTS
    ensures m == Stepped(H, root, 0, n, Extend(b)) && m.chain == n.chain + [b]
    ensures Commitments(b) == CommitReveal.Block([], []) && m.c.commits == CommitReveal.Pruned(n.c.commits, h)
  {
    CommitReveal.EmptyBlock(n.c.commits, h);
    assert Commitments(QUIET) == CommitReveal.Block([], []);
    assert PaidAll(n.c.buckets, h, []) == Some(n.c.buckets);
    var d := BlockOn(H, n.c, h, QUIET).value;
    b := MinedExtends(H, root, n, h, QUIET, d);
    m := Node(n.chain + [b], d);
  }

  lemma CommitExtends(H: Hasher, root: Roots, n: Node, h: nat, e: CommitReveal.Entry) returns (b: Block, m: Node)
    requires h == |n.chain| + 1 < HEIGHTS && n.c.commits == CommitReveal.Store(map[], map[])
    ensures m == Stepped(H, root, 0, n, Extend(b)) && m.chain == n.chain + [b]
    ensures Commitments(b) == CommitReveal.Block([e], [])
    ensures m.c.commits == CommitReveal.Store(map[(h, e.hash) := e.from], map[])
  {
    CommittingAlone(e);
    CommittingApplies(H, n.c, h, e);
    CommitReveal.CommitOne(n.c.commits, h, e);
    var d := BlockOn(H, n.c, h, Committing(e)).value;
    b := MinedExtends(H, root, n, h, Committing(e), d);
    m := Node(n.chain + [b], d);
    assert d.commits.pending == map[(h, e.hash) := e.from] && d.commits.spent == map[];
  }

  /** A commitment at height 1 and k quiet blocks on it. */
  function Script(e: CommitReveal.Entry, k: nat): (r: seq<CommitReveal.Block>)
    ensures |r| == k + 1
  {
    if k == 0 then [CommitReveal.Block([e], [])] else Script(e, k - 1) + [CommitReveal.Block([], [])]
  }

  /** The commitment is pending up to height 4 and pruned at height 5. */
  function Scripted(e: CommitReveal.Entry, k: nat): (r: CommitReveal.Store) {
    CommitReveal.Store(if k < 4 then map[(1, e.hash) := e.from] else map[], map[])
  }

  lemma ScriptedNext(e: CommitReveal.Entry, k: nat)
    requires 0 < k <= 4
    ensures CommitReveal.Pruned(Scripted(e, k - 1), k + 1) == Scripted(e, k)
  {
    assert CommitReveal.Pruned(Scripted(e, k - 1), k + 1).pending == Scripted(e, k).pending;
  }

  lemma {:induction false} ScriptRuns(e: CommitReveal.Entry, k: nat)
    requires k <= 4
    ensures CommitReveal.ApplyRun(CommitReveal.Store(map[], map[]), 0, Script(e, k)) == Some(Scripted(e, k))
  {
    var none := CommitReveal.Store(map[], map[]);
    if k == 0 {
      LastBlock(none, 0, [], CommitReveal.Block([e], []), Script(e, 0), 1);
      CommitReveal.CommitOne(none, 1, e);
      assert CommitReveal.Apply(none, 1, CommitReveal.Block([e], [])).value.pending == Scripted(e, 0).pending;
    } else {
      ScriptRuns(e, k - 1);
      LastBlock(none, 0, Script(e, k - 1), CommitReveal.Block([], []), Script(e, k), k + 1);
      CommitReveal.EmptyBlock(Scripted(e, k - 1), k + 1);
      ScriptedNext(e, k);
    }
  }

  lemma ScriptStarts(H: Hasher, root: Roots, c: Content, e: CommitReveal.Entry)
    returns (events: seq<Event>, n: Node)
    requires c.commits == CommitReveal.Store(map[], map[])
    ensures |events| == |n.chain| == 1 && Leads(H, root, 0, c, events, n) && events[0].Extend?
    ensures AllCommitments(n.chain) == Script(e, 0) && n.c.commits == Scripted(e, 0)
  {
    var b;
    b, n := CommitExtends(H, root, Node([], c), 1, e);
    CommitmentsLast(n.chain, [], b);
    events := [Extend(b)];
    LeadsOn(H, root, 0, c, [], Node([], c), Extend(b), events, n);
  }

  lemma ScriptGoesOn(H: Hasher, root: Roots, c: Content, e: CommitReveal.Entry, k: nat, front: seq<Event>, m: Node)
    returns (events: seq<Event>, n: Node)
    requires 0 < k <= 4 && |front| == |m.chain| == k && Leads(H, root, 0, c, front, m)
    requires AllCommitments(m.chain) == Script(e, k - 1) && m.c.commits == Scripted(e, k - 1)
    ensures |events| == |n.chain| == k + 1 && Leads(H, root, 0, c, events, n)
    ensures events[..k] == front && events[k].Extend?
    ensures AllCommitments(n.chain) == Script(e, k) && n.c.commits == Scripted(e, k)
  {
    var b;
    b, n := QuietExtends(H, root, m, k + 1);
    events := front + [Extend(b)];
    LeadsOn(H, root, 0, c, front, m, Extend(b), events, n);
    assert n.chain[..k] == m.chain;
    CommitmentsLast(n.chain, m.chain, b);
    ScriptedNext(e, k);
  }

  /** A run that extends by the script. */
  lemma {:induction false} ScriptedRun(H: Hasher, root: Roots, c: Content, e: CommitReveal.Entry, k: nat)
    returns (events: seq<Event>, n: Node)
    requires c.commits == CommitReveal.Store(map[], map[]) && k <= 4
    ensures |events| == |n.chain| == k + 1 && Leads(H, root, 0, c, events, n)
    ensures AllCommitments(n.chain) == Script(e, k) && n.c.commits == Scripted(e, k)
    ensures forall i :: 0 <= i <= k ==> events[i].Extend?
  {
    if k == 0 {
      events, n := ScriptStarts(H, root, c, e);
    } else {
      var front, m := ScriptedRun(H, root, c, e, k - 1);
      events, n := ScriptGoesOn(H, root, c, e, k, front, m);
      assert forall i :: 0 <= i < k ==> events[i] == front[i];
    }
  }

  /** The reorg to height 3 after five blocks has lost the commitment for good. */
  lemma RewindForgets(H: Hasher, root: Roots, e: CommitReveal.Entry, n: Node, m: Node)
    requires |n.chain| == 5 && AllCommitments(n.chain) == Script(e, 4) && n.c.commits == Scripted(e, 4)
    requires m == Stepped(H, root, 0, n, Rewind(3))
    ensures |m.chain| == 3 && AllCommitments(m.chain) == Script(e, 2) && m.c.commits == Scripted(e, 4)
  {
    CommitmentsCut(n.chain, 3);
    assert Script(e, 4)[..3] == Script(e, 2) by {
      assert Script(e, 4) == Script(e, 3) + [CommitReveal.Block([], [])];
      assert Script(e, 3) == Script(e, 2) + [CommitReveal.Block([], [])];
    }
    CommitReveal.NothingUndone(5);
    CommitReveal.NothingUndone(4);
    var none := CommitReveal.Store(map[], map[]);
    assert CommitReveal.Unwound(none, 5, 3) == CommitReveal.Unwound(none, 4, 3) == CommitReveal.Unwound(none, 3, 3);
  }

  /** A node that lost a commitment extends a chain that RebuildFromBlockStoreTxn refuses, whatever the roots:
      a commitment at height 1, quiet blocks up to height 5, a reorg to height 3, and the commitment again at
      height 4, where a replay still has the first one pending. */
  lemma NodeOutrunsRebuild(H: Hasher, root: Roots, c: Content, e: CommitReveal.Entry)
    returns (events: seq<Event>, n: Node)
    requires c.commits == CommitReveal.Store(map[], map[])
    ensures |events| == 7 && events[5] == Rewind(3) && (forall i :: 0 <= i < 7 && i != 5 ==> events[i].Extend?)
    ensures n == Run(H, root, 0, c, events) && |n.chain| == 4
    ensures AllCommitments(n.chain) == Script(e, 2) + [CommitReveal.Block([e], [])]
    ensures Grown(H, c, 0, n.chain).None? && CheckedRun(H, root, c, 0, n.chain).None?
  {
    var five, p := ScriptedRun(H, root, c, e, 4);
    var six, q := five + [Rewind(3)], Stepped(H, root, 0, p, Rewind(3));
    LeadsOn(H, root, 0, c, five, p, Rewind(3), six, q);
    RewindForgets(H, root, e, p, q);
    var b;
    b, n := CommitExtends(H, root, q, 4, e);
    events := six + [Extend(b)];
    LeadsOn(H, root, 0, c, six, q, Extend(b), events, n);
    assert Opened(RUN, true);
    assert n.chain[..3] == q.chain;
    CommitmentsLast(n.chain, q.chain, b);
    DuplicateRefused(H, c, e, n.chain);
    if CheckedRun(H, root, c, 0, n.chain).Some? {
      CheckedIsGrown(H, root, c, 0, n.chain, CheckedRun(H, root, c, 0, n.chain).value, 4);
    }
  }

  lemma DuplicateRefused(H: Hasher, c: Content, e: CommitReveal.Entry, chain: seq<Block>)
    requires c.commits == CommitReveal.Store(map[], map[]) && |chain| == 4
    requires AllCommitments(chain) == Script(e, 2) + [CommitReveal.Block([e], [])]
    ensures Grown(H, c, 0, chain).None?
  {
    ScriptRuns(e, 2);
    LastBlock(c.commits, 0, Script(e, 2), CommitReveal.Block([e], []), AllCommitments(chain), 4);
    CommitReveal.CommitOne(Scripted(e, 2), 4, e);
    assert CommitReveal.PendingAt(Scripted(e, 2), e.from, e.hash, 1);
  }
}
