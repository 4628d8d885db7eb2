/** Whole runs of a node: any list of ApplyBlock and SwitchToBranch calls from the first block on, accepted or
    rejected, and what every such run promises. */
module ChainRuns {
  import opened Basics
  import opened BlockTree
  import opened BlockStore
  import opened Uncles
  import opened ChainState
  import opened ForkChoice
  import opened Chain

  /** One call: ApplyBlock with a block, or SwitchToBranch with a branch. */
  datatype Call = One(b: Block, checks: Checks) | Many(branch: seq<Block>, checks: Checks)

  function Brought(c: Call): (r: set<Digest>) {
    if c.One? then {c.b.head.hash} else Hashes(c.branch)
  }

  /** The blocks of the calls that were not rejected. */
  function Accepted(calls: seq<Call>, outcomes: seq<Outcome>): (r: set<Digest>)
    requires |outcomes| <= |calls|
  {
    if outcomes == [] then {}
    else
      var n := |outcomes| - 1;
      Accepted(calls, outcomes[..n]) + if outcomes[n].Rejected? then {} else Brought(calls[n])
  }

  ghost predicate Real(e: Env, c: Call) {
    if c.One? then Genuine(e, c.b) else AllGenuine(e, c.branch)
  }

  ghost predicate AllReal(e: Env, calls: seq<Call>) {
    forall i :: 0 <= i < |calls| ==> Real(e, calls[i])
  }

  /** What one call makes of the world: nothing when rejected; otherwise its blocks are known. A single block
      never moves what is final. A branch is taken exactly when it converges. */
  ghost predicate Step(e: Env, w: World, c: Call, r: Outcome, v: World) {
    && (r.Rejected? ==> v == w)
    && (!r.Rejected? ==> v.known == w.known + Brought(c))
    && (c.One? ==> Final(w.db, v.db) && (!r.Rejected? ==> Accepts(e, w.db, c.b, c.checks)))
    && (c.One? && Full(e, w.known, w.db) ==>
        Full(e, v.known, v.db) && (Accepts(e, w.db, c.b, c.checks) ==> !r.Rejected?))
    && (c.Many? ==> (r.Rejected? <==> !Converges(e, w.db, c.branch, c.checks)))
    && (c.Many? && !r.Rejected? ==>
        Connected(c.branch) && OffOrigin(e, c.branch) && v.db.tipHash == c.branch[|c.branch| - 1].head.hash)
  }

  /** The worlds of a run, one more than its calls (sealed: opened when a world is added or looked up). */
  ghost predicate Traced(e: Env, calls: seq<Call>, outcomes: seq<Outcome>, trace: seq<World>) {
    |outcomes| <= |calls| && |trace| == |outcomes| + 1
    && forall seal {:trigger Opened(RUN, seal)} :: Opened(RUN, seal) ==>
      && (forall i :: 0 <= i < |trace| ==> Reachable(e, trace[i]))
      && (forall i :: 0 <= i < |outcomes| ==> Stepped(e, calls, outcomes, trace, i))
  }

  ghost predicate Stepped(e: Env, calls: seq<Call>, outcomes: seq<Outcome>, trace: seq<World>, i: nat)
    requires i < |outcomes| <= |calls| && i + 1 < |trace|
  {
    Step(e, trace[i], calls[i], outcomes[i], trace[i + 1])
  }

  lemma TracedStart(e: Env, calls: seq<Call>, w: World)
    requires Reachable(e, w)
    ensures Traced(e, calls, [], [w])
  {}

  lemma TracedNext(e: Env, calls: seq<Call>, outcomes: seq<Outcome>, trace: seq<World>, r: Outcome, v: World)
    requires Traced(e, calls, outcomes, trace) && |outcomes| < |calls| && Reachable(e, v)
    requires Step(e, trace[|outcomes|], calls[|outcomes|], r, v)
    ensures Traced(e, calls, outcomes + [r], trace + [v])
  {
    assert Opened(RUN, true);
    var rs, ws := outcomes + [r], trace + [v];
    forall i | 0 <= i < |rs| ensures Stepped(e, calls, rs, ws, i) {
      if i < |outcomes| {
        assert Stepped(e, calls, outcomes, trace, i);
      }
    }
  }

  /** Nothing final moves between any two worlds, and every side block kept can be weighed (sealed). */
  ghost predicate Steady(e: Env, trace: seq<World>) {
    forall seal {:trigger Opened(STAND, seal)} :: Opened(STAND, seal) ==>
      && (forall i :: 0 <= i < |trace| ==> Full(e, trace[i].known, trace[i].db))
      && (forall i, j :: 0 <= i <= j < |trace| ==> Final(trace[i].db, trace[j].db))
  }

  lemma SteadyStart(e: Env, w: World)
    requires Full(e, w.known, w.db)
    ensures Steady(e, [w])
  {}

  lemma SteadyLast(e: Env, trace: seq<World>)
    requires trace != [] && Steady(e, trace)
    ensures var w := trace[|trace| - 1]; Full(e, w.known, w.db)
  {
    assert Opened(STAND, true);
  }

  lemma SteadyNext(e: Env, trace: seq<World>, v: World)
    requires trace != [] && Steady(e, trace) && Full(e, v.known, v.db) && Final(trace[|trace| - 1].db, v.db)
    ensures Steady(e, trace + [v])
  {
    assert Opened(STAND, true);
    var ws := trace + [v];
    forall i, j | 0 <= i <= j < |ws| ensures Final(ws[i].db, ws[j].db) {
      if j == |trace| && i < j {
        FinalTransitive(ws[i].db, trace[|trace| - 1].db, v.db);
      }
    }
  }

  ghost function Now(c: Chain): World
    reads c
  {
    World(c.known, c.db)
  }

  /** One call on the chain object. */
  method Make(chain: Chain, c: Call) returns (r: Outcome)
    requires chain.Valid() && Real(chain.e, c)
    modifies chain
    ensures chain.Valid() && Step(chain.e, old(Now(chain)), c, r, Now(chain))
  {
    match c
    case One(b, checks) => r := chain.ApplyBlock(b, checks);
    case Many(branch, checks) => r := chain.SwitchToBranch(branch, checks);
  }

  predicate Singles(calls: seq<Call>) {
    forall i :: 0 <= i < |calls| ==> calls[i].One?
  }

  lemma AcceptedNext(calls: seq<Call>, outcomes: seq<Outcome>, r: Outcome)
    requires |outcomes| < |calls|
    ensures Accepted(calls, outcomes + [r])
         == Accepted(calls, outcomes) + if r.Rejected? then {} else Brought(calls[|outcomes|])
  {
    assert (outcomes + [r])[..|outcomes|] == outcomes;
  }

  /** The environment of a node started on a first block. */
  ghost function Started(first: Block, next: Retarget, t: Tree, stamp: Digest -> nat): Env {
    Env(t, stamp, next, Origin(first.head.hash, first.head.height))
  }

  /** Hypotheses on the first block: its hash names it, and it is not its own parent. */
  ghost predicate Founding(t: Tree, first: Block) {
    t(first.head.hash) == first && first.head.prev != first.head.hash && Ht(t, first.head.prev) <= first.head.height
  }

  method Play(first: Block, next: Retarget, calls: seq<Call>, ghost e: Env)
    returns (db: Db, outcomes: seq<Outcome>, ghost trace: seq<World>)
    requires Founding(e.t, first) && e == Started(first, next, e.t, e.stamp) && AllReal(e, calls)
    ensures |outcomes| == |calls| && Traced(e, calls, outcomes, trace)
    ensures trace[0] == World({first.head.hash}, Initial(first))
    ensures trace[|calls|] == World({first.head.hash} + Accepted(calls, outcomes), db)
    ensures Singles(calls) ==> Steady(e, trace)
  {
    var chain := new Chain(first, next, e.t, e.stamp);
    outcomes, trace := [], [Now(chain)];
    TracedStart(e, calls, Now(chain));
    SteadyStart(e, Now(chain));
    var i := 0;
    while i < |calls|
      invariant i <= |calls| && |outcomes| == i && fresh(chain)
      invariant chain.Valid() && chain.e == e
      invariant Traced(e, calls, outcomes, trace) && trace[i] == Now(chain)
      invariant trace[0] == World({first.head.hash}, Initial(first))
      invariant chain.known == {first.head.hash} + Accepted(calls, outcomes)
      invariant Singles(calls) ==> Steady(e, trace)
    {
      var r := Make(chain, calls[i]);
      TracedNext(e, calls, outcomes, trace, r, Now(chain));
      AcceptedNext(calls, outcomes, r);
      if Singles(calls) {
        SteadyLast(e, trace);
        SteadyNext(e, trace, Now(chain));
      }
      outcomes, trace := outcomes + [r], trace + [Now(chain)];
      i := i + 1;
    }
    db := chain.db;
  }

  /** No uncle is referenced twice along any chain of these blocks. */
  ghost predicate UnclesOnce(e: Env, known: set<Digest>) {
    forall h, k: nat :: h in known && e.o.height <= k < Ht(e.t, h) ==> Disjoint(e.t(AncestorAt(e.t, h, k)), e.t(h))
  }

  predicate Disjoint(a: Block, b: Block) {
    forall i, j :: 0 <= i < |a.uncles| && 0 <= j < |b.uncles| ==> a.uncles[i].hash != b.uncles[j].hash
  }

  lemma AllUnclesOnce(e: Env, w: World)
    requires Reachable(e, w) && forall x :: x in w.known ==> HeadersNamed(e, x)
    ensures UnclesOnce(e, w.known)
  {
    forall h, k: nat | h in w.known && e.o.height <= k < Ht(e.t, h)
      ensures Disjoint(e.t(AncestorAt(e.t, h, k)), e.t(h))
    {
      var a, b := e.t(AncestorAt(e.t, h, k)), e.t(h);
      forall i, j | 0 <= i < |a.uncles| && 0 <= j < |b.uncles| ensures a.uncles[i].hash != b.uncles[j].hash {
        NoUncleTwice(e, w, h, k, i, j);
      }
    }
  }

  // ---- timestamps and difficulties ----

  /** u is a later header than its parent p, with the difficulty the retarget gives it. */
  ghost predicate Later(e: Env, u: Header, p: Header) {
    u.timestamp > p.timestamp && u.difficulty == e.next(u.height, u.timestamp, p)
  }

  /** Every known block above the origin's children, and every uncle of a known block, is later than its parent
      and has the difficulty of its slot. */
  ghost predicate KnownTimed(e: Env, known: set<Digest>) {
    forall h :: h in known && h != e.o.hash ==>
      && (Up(e.t, h) != e.o.hash ==> Later(e, e.t(h).head, e.t(Up(e.t, h)).head))
      && forall i :: 0 <= i < |e.t(h).uncles| ==> Later(e, e.t(h).uncles[i], e.t(e.t(h).uncles[i].prev).head)
  }

  /** Every uncle of a known block is a recent sibling of its chain: its parent is the block's own ancestor one below
      it, it is not an ancestor itself, and it is at most 30 blocks old. */
  ghost predicate UnclesRelated(e: Env, known: set<Digest>) {
    forall h, i :: h in known && h != e.o.hash && 0 <= i < |e.t(h).uncles| ==> Related(e, h, e.t(h).uncles[i])
  }

  ghost predicate Related(e: Env, h: Digest, u: Header) {
    && 1 <= u.height < Ht(e.t, h) <= u.height + 30
    && u.prev == AncestorAt(e.t, Up(e.t, h), u.height - 1)
    && u.hash != AncestorAt(e.t, Up(e.t, h), u.height)
  }

  lemma AllRelated(e: Env, w: World)
    requires Reachable(e, w)
    ensures UnclesRelated(e, w.known)
  {
    WellTree(e, w.known, w.db);
    forall h, i | h in w.known && h != e.o.hash && 0 <= i < |e.t(h).uncles| ensures Related(e, h, e.t(h).uncles[i]) {
      assert Vetted(e, h) && UncleOk(e.t, e.next, e.t(h), i);
    }
  }

  /** Nothing is taken unchecked: a block that is not rejected passed its own check, its difficulty is positive and
      its target was checked, except on a direct child of the origin; on the tip its txs and its effect on the state
      were, too. A branch passed block by block. */
  lemma StepChecked(e: Env, w: World, c: Call, r: Outcome, v: World)
    requires Reachable(e, w) && Step(e, w, c, r, v) && !r.Rejected?
    ensures c.One? ==>
              && c.checks.self(c.b) && c.b.head.difficulty > 0 && (c.b.head.prev != e.o.hash ==> c.checks.target(c.b))
              && (c.b.head.prev == w.db.tipHash ==> c.checks.txs && c.checks.state)
    ensures c.Many? ==>
              && c.checks.state
              && forall i :: 0 <= i < |c.branch| ==>
                   c.checks.self(c.branch[i]) && c.branch[i].head.difficulty > 0 && c.checks.target(c.branch[i])
  {
    if c.Many? {
      forall i | 0 <= i < |c.branch|
        ensures c.checks.self(c.branch[i]) && c.branch[i].head.difficulty > 0 && c.checks.target(c.branch[i])
      {
        assert BranchBlockOk(e, w.db.bodies, c.branch, c.checks, i);
      }
    }
  }

  /** Neighbouring canonical headers above the origin's child are in order. */
  ghost predicate ChainTimed(e: Env, db: Db) {
    forall k: nat :: e.o.height + 1 < k <= db.tipHeight ==> TimedAt(e, db, k)
  }

  ghost predicate TimedAt(e: Env, db: Db, k: nat)
    requires k > 0
  {
    && k in db.index && k - 1 in db.index && db.index[k] in db.bodies && db.index[k - 1] in db.bodies
    && Later(e, db.bodies[db.index[k]].head, db.bodies[db.index[k - 1]].head)
  }

  lemma AllTimed(e: Env, w: World)
    requires Reachable(e, w)
    ensures KnownTimed(e, w.known) && ChainTimed(e, w.db)
  {
    WellTree(e, w.known, w.db);
    forall h | h in w.known && h != e.o.hash
      ensures Up(e.t, h) != e.o.hash ==> Later(e, e.t(h).head, e.t(Up(e.t, h)).head)
      ensures forall i :: 0 <= i < |e.t(h).uncles| ==> Later(e, e.t(h).uncles[i], e.t(e.t(h).uncles[i].prev).head)
    {
      KnownLater(e, w.known, h);
    }
    forall k: nat | e.o.height + 1 < k <= w.db.tipHeight ensures TimedAt(e, w.db, k) {
      CanonicalLater(e, w, k);
    }
  }

  lemma KnownLater(e: Env, known: set<Digest>, h: Digest)
    requires AllVetted(e, known) && h in known && h != e.o.hash
    ensures Up(e.t, h) != e.o.hash ==> Later(e, e.t(h).head, e.t(Up(e.t, h)).head)
    ensures forall i :: 0 <= i < |e.t(h).uncles| ==> Later(e, e.t(h).uncles[i], e.t(e.t(h).uncles[i].prev).head)
  {
    assert Vetted(e, h);
    forall i | 0 <= i < |e.t(h).uncles| ensures Later(e, e.t(h).uncles[i], e.t(e.t(h).uncles[i].prev).head) {
      assert UncleOk(e.t, e.next, e.t(h), i);
    }
  }

  lemma CanonicalLater(e: Env, w: World, k: nat)
    requires Reachable(e, w) && e.o.height + 1 < k <= w.db.tipHeight
    ensures TimedAt(e, w.db, k)
  {
    var j: nat := k - 1;
    WellTree(e, w.known, w.db);
    CanonicalAt(e, w, k);
    CanonicalAt(e, w, j);
    KnownLater(e, w.known, w.db.index[k]);
  }

  /** A canonical height above the origin: a stored known block, linked to the one below. */
  lemma CanonicalAt(e: Env, w: World, k: nat)
    requires Reachable(e, w) && e.o.height < k <= w.db.tipHeight
    ensures k in w.db.index && w.db.index[k] in w.db.bodies && w.db.index[k] in w.known && w.db.index[k] != e.o.hash
    ensures w.db.bodies[w.db.index[k]] == e.t(w.db.index[k])
    ensures k - 1 in w.db.index && Up(e.t, w.db.index[k]) == w.db.index[k - 1]
  {
    assert Opened(CHAIN, true);
    CanonicalChain(e, w.known, w.db, k);
  }

  /** Time runs forward along the canonical chain, from the origin's child on. */
  lemma {:induction false} TimesIncrease(e: Env, db: Db, j: nat, k: nat)
    requires ChainTimed(e, db) && e.o.height < j < k <= db.tipHeight
    ensures j in db.index && db.index[j] in db.bodies && k in db.index && db.index[k] in db.bodies
    ensures db.bodies[db.index[j]].head.timestamp < db.bodies[db.index[k]].head.timestamp
    decreases k
  {
    assert TimedAt(e, db, k);
    if j < k - 1 {
      TimesIncrease(e, db, j, k - 1);
    }
  }

  lemma TracedAll(e: Env, calls: seq<Call>, outcomes: seq<Outcome>, trace: seq<World>)
    requires |outcomes| == |calls| && Traced(e, calls, outcomes, trace)
    ensures forall i :: 0 <= i <= |calls| ==> Reachable(e, trace[i])
    ensures forall i :: 0 <= i < |calls| ==> Stepped(e, calls, outcomes, trace, i)
  {
    assert Opened(RUN, true);
  }

  lemma SteadyAll(e: Env, trace: seq<World>)
    requires Steady(e, trace)
    ensures forall i :: 0 <= i < |trace| ==> Full(e, trace[i].known, trace[i].db)
    ensures forall i, j :: 0 <= i <= j < |trace| ==> Final(trace[i].db, trace[j].db)
  {
    assert Opened(STAND, true);
  }

  /** The i-th call, of a single block, was decided by the acceptance rule. */
  ghost predicate Decided(e: Env, calls: seq<Call>, outcomes: seq<Outcome>, trace: seq<World>, i: nat)
    requires i < |calls| == |outcomes| && i < |trace| && calls[i].One?
  {
    outcomes[i].Rejected? <==> !Accepts(e, trace[i].db, calls[i].b, calls[i].checks)
  }

  lemma AllDecided(e: Env, calls: seq<Call>, outcomes: seq<Outcome>, trace: seq<World>)
    requires |outcomes| == |calls| && Traced(e, calls, outcomes, trace) && Steady(e, trace) && Singles(calls)
    ensures forall i :: 0 <= i < |calls| ==> Decided(e, calls, outcomes, trace, i)
  {
    TracedAll(e, calls, outcomes, trace);
    SteadyAll(e, trace);
    forall i | 0 <= i < |calls| ensures Decided(e, calls, outcomes, trace, i) {
      assert Stepped(e, calls, outcomes, trace, i) && Full(e, trace[i].known, trace[i].db);
    }
  }

  /** Any calls in any order on a fresh node. Every call does what Step says, and in every world on the way the
      store is sound and the tip is the best known block. The blocks known in the end are the first and the
      accepted ones, whatever was rejected in between. If only single blocks were offered, nothing final ever
      moved between any two points, and each block was accepted exactly when the acceptance rule holds. */
  method Replay(first: Block, next: Retarget, calls: seq<Call>, ghost e: Env)
    returns (db: Db, outcomes: seq<Outcome>, ghost trace: seq<World>)
    requires Founding(e.t, first) && e == Started(first, next, e.t, e.stamp) && AllReal(e, calls)
    ensures |outcomes| == |calls| && |trace| == |calls| + 1
    ensures trace[0] == World({first.head.hash}, Initial(first))
    ensures trace[|calls|] == World({first.head.hash} + Accepted(calls, outcomes), db)
    ensures forall i :: 0 <= i <= |calls| ==> Reachable(e, trace[i])
    ensures forall i :: 0 <= i < |calls| ==> Stepped(e, calls, outcomes, trace, i)
    ensures Singles(calls) ==> forall i, j :: 0 <= i <= j <= |calls| ==> Final(trace[i].db, trace[j].db)
    ensures Singles(calls) ==> forall i :: 0 <= i < |calls| ==> Decided(e, calls, outcomes, trace, i)
    ensures (forall x :: x in trace[|calls|].known ==> HeadersNamed(e, x)) ==> UnclesOnce(e, trace[|calls|].known)
    ensures forall i :: 0 <= i <= |calls| ==> KnownTimed(e, trace[i].known) && ChainTimed(e, trace[i].db)
    ensures forall i :: 0 <= i <= |calls| ==> UnclesRelated(e, trace[i].known)
  {
    db, outcomes, trace := Play(first, next, calls, e);
    TracedAll(e, calls, outcomes, trace);
    forall i | 0 <= i <= |calls|
      ensures KnownTimed(e, trace[i].known) && ChainTimed(e, trace[i].db) && UnclesRelated(e, trace[i].known)
    {
      AllTimed(e, trace[i]);
      AllRelated(e, trace[i]);
    }
    if Singles(calls) {
      AllDecided(e, calls, outcomes, trace);
      SteadyAll(e, trace);
    }
    if forall x :: x in trace[|calls|].known ==> HeadersNamed(e, x) {
      AllUnclesOnce(e, trace[|calls|]);
    }
  }

  /** Order independence: two nodes started on the same block and offered whatever calls in whatever order agree
      on tip, height index and tx index as soon as they accepted the same blocks. */
  method Converged(first: Block, next: Retarget, calls: seq<Call>, others: seq<Call>, ghost e: Env)
    returns (a: Db, ra: seq<Outcome>, b: Db, rb: seq<Outcome>)
    requires Founding(e.t, first) && e == Started(first, next, e.t, e.stamp)
    requires AllReal(e, calls) && AllReal(e, others)
    ensures |ra| == |calls| && |rb| == |others|
    ensures Accepted(calls, ra) == Accepted(others, rb) ==>
              a.tipHash == b.tipHash && a.tipHeight == b.tipHeight && a.index == b.index && a.txs == b.txs
  {
    ghost var us, vs;
    a, ra, us := Replay(first, next, calls, e);
    b, rb, vs := Replay(first, next, others, e);
    if Accepted(calls, ra) == Accepted(others, rb) {
      ChainOfKnown(e, us[|calls|], vs[|others|]);
    }
  }
}
