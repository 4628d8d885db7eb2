/** Whole runs of an archive node: every block it accepted or refused and every reorg it made. Whatever the run, the
    archived buckets are those the blocks of the chain it ended on make of the start content, every height of that
    chain can be read back with its code, and no commitment of it is spent twice. Whether a rebuild from the block
    store would compute the same is the subject of ReplayRuns. */
module NodeRuns {
  import opened Basics
  import opened Domains
  import opened Committed
  import opened KeyOrder
  import opened Contents
  import opened StateRuns
  import CommitReveal
  import CommitRuns

  /** The blocks above the base height, and the state at their tip. */
  datatype Node = Node(chain: seq<Block>, c: Content)

  /** A block offered on the tip, or a reorg's unwind to a height. */
  datatype Event = Extend(block: Block) | Rewind(target: nat)

  /** Upgrade accepts the block on the tip, and its root is that of the outcome. */
  predicate Accepts(H: Hasher, root: Roots, base: nat, n: Node, block: Block) {
    var h := base + |n.chain| + 1;
    h < HEIGHTS && CommitReveal.WellFormed(Commitments(block)) && CheckedOn(H, root, n.c, h, block).Some?
  }

  /** A refused block changes nothing; history does not reach below the base. */
  function Stepped(H: Hasher, root: Roots, base: nat, n: Node, e: Event): (r: Node) {
    match e
    case Extend(block) =>
      if Accepts(H, root, base, n, block) then
        Node(n.chain + [block], CheckedOn(H, root, n.c, base + |n.chain| + 1, block).value)
      else n
    case Rewind(t) =>
      if base <= t < base + |n.chain| then
        Node(n.chain[..t - base], AllUnwound(n.c, base + |n.chain|, t))
      else n
  }

  function Run(H: Hasher, root: Roots, base: nat, c: Content, events: seq<Event>): (r: Node) {
    if events == [] then Node([], c)
    else Stepped(H, root, base, Run(H, root, base, c, events[..|events| - 1]), events[|events| - 1])
  }

  /** The node's buckets are those its chain makes of the content c it started from. */
  ghost predicate Replayed(H: Hasher, base: nat, c: Content, n: Node, tip: nat) {
    && tip == base + |n.chain| < HEIGHTS
    && BucketsGrown(H, c.buckets, base, n.chain) == Some(n.c.buckets)
  }

  /** What a node keeps at every point of a run (sealed: opened where a step is taken). */
  ghost predicate Holds(H: Hasher, base: nat, c: Content, n: Node, tip: nat) {
    forall seal {:trigger Opened(RUN, seal)} :: Opened(RUN, seal) ==>
      && NoneAbove(c.buckets, base)
      && Replayed(H, base, c, n, tip)
      && CommitRuns.Lasting(n.c.commits, tip)
      && Resolves(H, n.c.code, n.c.buckets.con)
  }

  lemma AcceptedBlock(H: Hasher, root: Roots, base: nat, n: Node, block: Block, tip: nat, m: Node)
    requires tip == base + |n.chain| && Accepts(H, root, base, n, block)
    requires m == Stepped(H, root, base, n, Extend(block))
    ensures tip + 1 < HEIGHTS && m.chain == n.chain + [block] && CommitReveal.WellFormed(Commitments(block))
    ensures BucketsOn(H, n.c.buckets, tip + 1, block) == Some(m.c.buckets)
    ensures m.c.code == CodeOn(H, n.c.code, n.c.buckets, tip + 1, block)
    ensures CommitReveal.Apply(n.c.commits, tip + 1, Commitments(block)) == Some(m.c.commits)
  {}

  lemma ExtendReplays(H: Hasher, base: nat, c: Content, n: Node, block: Block, m: Node, tip: nat)
    requires Replayed(H, base, c, n, tip) && tip + 1 < HEIGHTS && m.chain == n.chain + [block]
    requires BucketsOn(H, n.c.buckets, tip + 1, block) == Some(m.c.buckets)
    ensures Replayed(H, base, c, m, tip + 1)
  {
    BucketsLast(H, c.buckets, base, m.chain, n.chain, block, tip + 1);
  }

  lemma ExtendHolds(H: Hasher, root: Roots, base: nat, c: Content, n: Node, block: Block, tip: nat, m: Node, top: nat)
    requires Holds(H, base, c, n, tip) && tip == base + |n.chain| && Accepts(H, root, base, n, block)
    requires m == Stepped(H, root, base, n, Extend(block)) && top == tip + 1
    ensures Holds(H, base, c, m, top)
  {
    assert Opened(RUN, true);
    AcceptedBlock(H, root, base, n, block, tip, m);
    ExtendReplays(H, base, c, n, block, m, tip);
    CommitRuns.ApplyLasting(n.c.commits, tip + 1, Commitments(block), m.c.commits);
    BlockResolves(H, n.c.code, n.c.buckets, tip + 1, block, m.c.buckets);
  }

  /** One height of an unwind. */
  function Popped(n: Node, tip: nat): (r: Node)
    requires n.chain != []
  {
    Node(n.chain[..|n.chain| - 1], HeightUndone(n.c, tip))
  }

  lemma PopReplays(H: Hasher, base: nat, c: Content, n: Node, tip: nat)
    requires n.chain != [] && NoneAbove(c.buckets, base) && Replayed(H, base, c, n, tip)
    ensures BucketsGrown(H, c.buckets, base, n.chain[..|n.chain| - 1]) == Some(Undone(n.c.buckets, tip))
  {
    var front, last := n.chain[..|n.chain| - 1], n.chain[|n.chain| - 1];
    BucketsLast(H, c.buckets, base, n.chain, front, last, tip);
    var m := BucketsGrown(H, c.buckets, base, front).value;
    BucketsBack(H, c.buckets, base, front, m, tip - 1);
    BucketsUndone(H, m, tip, last, n.c.buckets);
  }

  lemma PopHolds(H: Hasher, base: nat, c: Content, n: Node, tip: nat, p: Node)
    requires n.chain != [] && Holds(H, base, c, n, tip) && tip == base + |n.chain| && p == Popped(n, tip)
    ensures Holds(H, base, c, p, tip - 1)
  {
    assert Opened(RUN, true);
    PopReplays(H, base, c, n, tip);
    CommitRuns.UndoneLasting(n.c.commits, tip);
    ResolvesReverted(H, n.c.code, n.c.buckets.con, tip);
  }

  function Cut(base: nat, n: Node, tip: nat, t: nat): (r: Node)
    requires base <= t <= tip == base + |n.chain|
  {
    Node(n.chain[..t - base], AllUnwound(n.c, tip, t))
  }

  lemma CutNone(base: nat, n: Node, tip: nat)
    requires tip == base + |n.chain|
    ensures Cut(base, n, tip, tip) == n
  {}

  lemma CutPops(base: nat, n: Node, tip: nat, t: nat)
    requires base <= t < tip == base + |n.chain|
    ensures Cut(base, n, tip, t) == Cut(base, Popped(n, tip), tip - 1, t)
  {
    UnwindFirst(n.c, tip, t);
    assert n.chain[..t - base] == n.chain[..|n.chain| - 1][..t - base];
  }

  lemma HoldsSame(H: Hasher, base: nat, c: Content, n: Node, tip: nat, m: Node, top: nat)
    requires Holds(H, base, c, n, tip) && m == n && top == tip
    ensures Holds(H, base, c, m, top)
  {}

  lemma {:induction false} RewindHolds(H: Hasher, base: nat, c: Content, n: Node, tip: nat, t: nat, m: Node)
    requires Holds(H, base, c, n, tip) && base <= t <= tip == base + |n.chain| && m == Cut(base, n, tip, t)
    ensures Holds(H, base, c, m, t)
    decreases tip
  {
    if t == tip {
      CutNone(base, n, tip);
      HoldsSame(H, base, c, n, tip, m, t);
    } else {
      var p := Popped(n, tip);
      PopHolds(H, base, c, n, tip, p);
      CutPops(base, n, tip, t);
      RewindHolds(H, base, c, p, tip - 1, t, m);
    }
  }

  lemma StepHolds(H: Hasher, root: Roots, base: nat, c: Content, n: Node, e: Event, m: Node, tip: nat, top: nat)
    requires Holds(H, base, c, n, tip) && tip == base + |n.chain|
    requires m == Stepped(H, root, base, n, e) && top == base + |m.chain|
    ensures Holds(H, base, c, m, top)
  {
    if e.Extend? && Accepts(H, root, base, n, e.block) {
      ExtendHolds(H, root, base, c, n, e.block, tip, m, top);
    } else if e.Rewind? && base <= e.target < tip {
      RewindHolds(H, base, c, n, tip, top, m);
    } else {
      HoldsSame(H, base, c, n, tip, m, top);
    }
  }

  /** A content a node can start from: a sheet at the base height, or the genesis. */
  ghost predicate Start(H: Hasher, base: nat, c: Content) {
    base < HEIGHTS && StandsAt(c, base) && Resolves(H, c.code, c.buckets.con)
  }

  lemma StartHolds(H: Hasher, base: nat, c: Content)
    requires Start(H, base, c)
    ensures Holds(H, base, c, Node([], c), base)
  {}

  lemma RunSteps(H: Hasher, root: Roots, base: nat, c: Content, events: seq<Event>, front: seq<Event>, e: Event)
    requires events != [] && front == events[..|events| - 1] && e == events[|events| - 1]
    ensures Run(H, root, base, c, events) == Stepped(H, root, base, Run(H, root, base, c, front), e)
  {}

  lemma {:induction false} RunHolds(H: Hasher, root: Roots, base: nat, c: Content, events: seq<Event>, n: Node,
                                    tip: nat)
    requires Start(H, base, c) && n == Run(H, root, base, c, events) && tip == base + |n.chain|
    ensures Holds(H, base, c, n, tip)
  {
    if events == [] {
      StartHolds(H, base, c);
    } else {
      var front, e := events[..|events| - 1], events[|events| - 1];
      var m := Run(H, root, base, c, front);
      var mid := base + |m.chain|;
      RunHolds(H, root, base, c, front, m, mid);
      RunSteps(H, root, base, c, events, front, e);
      StepHolds(H, root, base, c, m, e, n, mid, tip);
    }
  }

  /** After any run, any number of reorgs and refused blocks included: the archived buckets with their history
      are those the blocks of the chain make of the start content, nothing is recorded above the tip, the
      commitment store is in order, and every slot, live or historical, finds its code. */
  lemma RunReplays(H: Hasher, root: Roots, base: nat, c: Content, events: seq<Event>, n: Node, tip: nat)
    requires Start(H, base, c) && n == Run(H, root, base, c, events) && tip == base + |n.chain|
    ensures tip < HEIGHTS && BucketsGrown(H, c.buckets, base, n.chain) == Some(n.c.buckets)
    ensures StandsAt(n.c, tip) && Resolves(H, n.c.code, n.c.buckets.con)
  {
    RunHolds(H, root, base, c, events, n, tip);
    HeldReplays(H, base, c, n, tip);
  }

  lemma HeldReplays(H: Hasher, base: nat, c: Content, n: Node, tip: nat)
    requires Holds(H, base, c, n, tip)
    ensures tip < HEIGHTS && Replayed(H, base, c, n, tip)
    ensures StandsAt(n.c, tip) && Resolves(H, n.c.code, n.c.buckets.con)
  {
    assert Opened(RUN, true);
    BucketsBack(H, c.buckets, base, n.chain, n.c.buckets, tip);
  }

  // ---- every height of the chain can be read back ----

  /** The archived buckets at the end of a chain. */
  function At(H: Hasher, b: Buckets, base: nat, chain: seq<Block>): (r: Buckets)
    requires base + |chain| < HEIGHTS
  {
    var r := BucketsGrown(H, b, base, chain);
    if r.Some? then r.value else b
  }

  /** What each bucket held at the end of heights base, base+1, ... */
  function Balances(H: Hasher, b: Buckets, base: nat, chain: seq<Block>): (r: seq<map<Digest, nat>>)
    requires base + |chain| < HEIGHTS
    ensures |r| == |chain| + 1
  {
    (if chain == [] then [] else Balances(H, b, base, chain[..|chain| - 1])) + [At(H, b, base, chain).bal.state]
  }

  function Slots(H: Hasher, b: Buckets, base: nat, chain: seq<Block>): (r: seq<map<Digest, Slot>>)
    requires base + |chain| < HEIGHTS
    ensures |r| == |chain| + 1
  {
    (if chain == [] then [] else Slots(H, b, base, chain[..|chain| - 1])) + [At(H, b, base, chain).con.state]
  }

  lemma {:induction false} HeldAt(H: Hasher, b: Buckets, base: nat, chain: seq<Block>, i: nat)
    requires base + |chain| < HEIGHTS && i <= |chain|
    ensures Balances(H, b, base, chain)[i] == At(H, b, base, chain[..i]).bal.state
    ensures Slots(H, b, base, chain)[i] == At(H, b, base, chain[..i]).con.state
  {
    if i == |chain| {
      assert chain[..i] == chain;
    } else {
      HeldAt(H, b, base, chain[..|chain| - 1], i);
      assert chain[..|chain| - 1][..i] == chain[..i];
    }
  }

  /** The two indexed buckets of a content a node starts from. */
  ghost predicate Archived(b: Buckets, base: nat) {
    Tracks(b.bal, base, [b.bal.state]) && Tracks(b.con, base, [b.con.state])
  }

  /** The recorded history of a chain stands for its snapshots (sealed). */
  ghost predicate Recalls(H: Hasher, b: Buckets, base: nat, chain: seq<Block>, e: Buckets)
    requires base + |chain| < HEIGHTS
  {
    forall seal {:trigger Opened(DID, seal)} :: Opened(DID, seal) ==>
      Tracks(e.bal, base, Balances(H, b, base, chain)) && Tracks(e.con, base, Slots(H, b, base, chain))
  }

  lemma RecallsStart(H: Hasher, b: Buckets, base: nat)
    requires base < HEIGHTS && Archived(b, base)
    ensures Recalls(H, b, base, [], b)
  {
    assert Balances(H, b, base, []) == [b.bal.state] && Slots(H, b, base, []) == [b.con.state];
  }

  lemma RecallsNext(H: Hasher, b: Buckets, base: nat, chain: seq<Block>, m: Buckets, e: Buckets, tip: nat)
    requires chain != [] && tip == base + |chain| < HEIGHTS && BucketsGrown(H, b, base, chain) == Some(e)
    requires Recalls(H, b, base, chain[..|chain| - 1], m) && Within(m, e, tip)
    ensures Recalls(H, b, base, chain, e)
  {
    assert Opened(DID, true) && Opened(BLOCK, true);
    var front := chain[..|chain| - 1];
    InsideTracks(m.bal, base, Balances(H, b, base, front), e.bal, tip);
    InsideTracks(m.con, base, Slots(H, b, base, front), e.con, tip);
  }

  lemma {:induction false} GrownRecalls(H: Hasher, b: Buckets, base: nat, chain: seq<Block>, e: Buckets, tip: nat)
    requires NoneAbove(b, base) && Archived(b, base)
    requires tip == base + |chain| < HEIGHTS && BucketsGrown(H, b, base, chain) == Some(e)
    ensures Recalls(H, b, base, chain, e)
  {
    if chain == [] {
      RecallsStart(H, b, base);
    } else {
      var front, last := chain[..|chain| - 1], chain[|chain| - 1];
      BucketsLast(H, b, base, chain, front, last, tip);
      var m := BucketsGrown(H, b, base, front).value;
      GrownRecalls(H, b, base, front, m, tip - 1);
      BucketsBack(H, b, base, front, m, tip - 1);
      BlockWithin(H, m, tip, last, e);
      RecallsNext(H, b, base, chain, m, e, tip);
    }
  }

  /** After any run, reorgs included, the recorded history stands for the snapshots of the chain. */
  lemma RunRecalls(H: Hasher, root: Roots, base: nat, c: Content, events: seq<Event>, n: Node, tip: nat)
    requires Start(H, base, c) && Archived(c.buckets, base)
    requires n == Run(H, root, base, c, events) && tip == base + |n.chain|
    ensures tip < HEIGHTS
    ensures Tracks(n.c.buckets.bal, base, Balances(H, c.buckets, base, n.chain))
    ensures Tracks(n.c.buckets.con, base, Slots(H, c.buckets, base, n.chain))
  {
    RunReplays(H, root, base, c, events, n, tip);
    GrownRecalls(H, c.buckets, base, n.chain, n.c.buckets, tip);
    assert Opened(DID, true);
  }

  // ---- commit-reveal safety of the whole node ----

  /** The step as the commitment store sees it; a refused block leaves none. */
  function CommitStep(H: Hasher, root: Roots, n: Node, e: Event): (r: seq<CommitRuns.Step>) {
    match e
    case Extend(block) => if Accepts(H, root, 0, n, block) then [CommitRuns.Extend(Commitments(block))] else []
    case Rewind(t) => [CommitRuns.Rewind(t)]
  }

  function CommitSteps(H: Hasher, root: Roots, c: Content, events: seq<Event>): (r: seq<CommitRuns.Step>) {
    if events == [] then []
    else
      var front := events[..|events| - 1];
      CommitSteps(H, root, c, front) + CommitStep(H, root, Run(H, root, 0, c, front), events[|events| - 1])
  }

  /** The commitment part of a node. */
  ghost predicate Mirrors(k: CommitRuns.Node, n: Node) {
    k.store == n.c.commits && k.chain == AllCommitments(n.chain) && |k.chain| == |n.chain| == |k.uses|
  }

  lemma {:induction false} CommitmentsCut(chain: seq<Block>, t: nat)
    requires t <= |chain|
    ensures |AllCommitments(chain)| == |chain| && AllCommitments(chain)[..t] == AllCommitments(chain[..t])
  {
    CommitmentsLength(chain);
    if t == |chain| {
      assert chain[..t] == chain;
    } else {
      CommitmentsCut(chain[..|chain| - 1], t);
      assert chain[..|chain| - 1][..t] == chain[..t];
    }
  }

  lemma ExtendMirrors(H: Hasher, root: Roots, k: CommitRuns.Node, n: Node, block: Block, m: Node)
    requires Mirrors(k, n) && Accepts(H, root, 0, n, block) && m == Stepped(H, root, 0, n, Extend(block))
    ensures Mirrors(CommitRuns.Stepped(k, CommitRuns.Extend(Commitments(block))), m)
  {
    AcceptedBlock(H, root, 0, n, block, |n.chain|, m);
    assert m.chain[..|n.chain|] == n.chain;
  }

  lemma RewindMirrors(H: Hasher, root: Roots, k: CommitRuns.Node, n: Node, t: nat, m: Node)
    requires Mirrors(k, n) && m == Stepped(H, root, 0, n, Rewind(t))
    ensures Mirrors(CommitRuns.Stepped(k, CommitRuns.Rewind(t)), m)
  {
    if t < |n.chain| {
      CommitmentsCut(n.chain, t);
    }
  }

  lemma StepMirrors(H: Hasher, root: Roots, steps: seq<CommitRuns.Step>, n: Node, e: Event, m: Node)
    requires Mirrors(CommitRuns.Run(CommitRuns.START, steps), n) && m == Stepped(H, root, 0, n, e)
    ensures Mirrors(CommitRuns.Run(CommitRuns.START, steps + CommitStep(H, root, n, e)), m)
  {
    var k, more := CommitRuns.Run(CommitRuns.START, steps), CommitStep(H, root, n, e);
    if more == [] {
      assert steps + more == steps;
    } else {
      assert (steps + more)[..|steps|] == steps;
      match e
      case Extend(block) => ExtendMirrors(H, root, k, n, block, m);
      case Rewind(t) => RewindMirrors(H, root, k, n, t, m);
    }
  }

  lemma {:induction false} RunMirrors(H: Hasher, root: Roots, c: Content, events: seq<Event>)
    requires c.commits == CommitReveal.Store(map[], map[])
    ensures Mirrors(CommitRuns.Run(CommitRuns.START, CommitSteps(H, root, c, events)), Run(H, root, 0, c, events))
  {
    if events != [] {
      var front, e := events[..|events| - 1], events[|events| - 1];
      RunMirrors(H, root, c, front);
      StepMirrors(H, root, CommitSteps(H, root, c, front), Run(H, root, 0, c, front), e, Run(H, root, 0, c, events));
    }
  }

  /** Commit-reveal safety of a node run from the genesis, refused blocks and reorgs included: the reveals of
      the chain it ended on spend, one by one, their own senders' commitments, each recorded by a strictly
      earlier block of that chain within the window, and none twice. */
  lemma RevealsSpendOnce(H: Hasher, root: Roots, c: Content, events: seq<Event>)
    returns (uses: seq<seq<CommitRuns.Use>>)
    requires c.commits == CommitReveal.Store(map[], map[])
    ensures var chain := AllCommitments(Run(H, root, 0, c, events).chain);
            && CommitRuns.Executes(chain, uses)
            && (forall u :: u in CommitRuns.Flat(uses) ==> CommitRuns.Justified(u, chain))
            && CommitRuns.OnceEach(CommitRuns.Flat(uses))
  {
    var steps := CommitSteps(H, root, c, events);
    RunMirrors(H, root, c, events);
    CommitRuns.RunSafety(steps);
    uses := CommitRuns.Run(CommitRuns.START, steps).uses;
  }
}
