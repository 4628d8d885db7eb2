/** Commit-reveal over whole runs of a node: blocks applied, blocks refused, and any number of reorgs. */
module CommitRuns {
  import opened Basics
  import opened CommitReveal

  // ---- what the undo of a block needs, whatever was undone before ----

  /** Who consumed a commitment has the same hash pending again only from a later block. */
  ghost predicate Before(s: Store) {
    forall h: nat, x: Key, q: nat :: Row(s, h, x).Some? && PendingAt(s, Row(s, h, x).value, x.1, q) ==> h <= q
  }

  /** Of two consumptions by one committer under one hash, the later one spent a later commitment. */
  ghost predicate Ordered(s: Store) {
    forall g: nat, h: nat, x: Key, y: Key ::
      Row(s, g, y).Some? && Row(s, h, x).Some? && Row(s, g, y) == Row(s, h, x) && x.1 == y.1 && g < h ==> g <= x.0
  }

  /** The invariant of every store a node reaches at height tip. */
  ghost predicate Lasting(s: Store, tip: nat) {
    Sound(s, tip) && Before(s) && Ordered(s)
  }

  ghost predicate RowsBelow(s: Store, h: nat) {
    forall g: nat, x: Key :: Row(s, g, x).Some? ==> g < h
  }

  lemma CommitOrdered(s: Store, h: nat, e: Entry, t: Store)
    requires Before(s) && Ordered(s) && RowsBelow(s, h) && Commit(s, h, e) == Some(t)
    ensures Before(t) && Ordered(t) && RowsBelow(t, h)
  {
    assert forall g: nat, x: Key :: Row(t, g, x) == Row(s, g, x);
    assert forall from, hash, q: nat :: PendingAt(t, from, hash, q) ==> PendingAt(s, from, hash, q) || q == h;
  }

  lemma {:induction false} CommitAllOrdered(s: Store, h: nat, es: seq<Entry>, t: Store)
    requires Before(s) && Ordered(s) && RowsBelow(s, h) && CommitAll(s, h, es) == Some(t)
    ensures Before(t) && Ordered(t) && RowsBelow(t, h)
  {
    if es != [] {
      var m := CommitAll(s, h, es[..|es| - 1]).value;
      CommitAllOrdered(s, h, es[..|es| - 1], m);
      CommitOrdered(m, h, es[|es| - 1], t);
    }
  }

  lemma RevealBefore(s: Store, h: nat, e: Entry, t: Store)
    requires Open(s, h) && (h, e.hash) !in s.spent && Before(s) && Reveal(s, h, e) == Some(t)
    ensures Before(t)
  {
    var r := Find(s, e.from, e.hash, h).value;
    assert PendingAt(s, e.from, e.hash, r);
    forall g: nat, x: Key, q: nat | Row(t, g, x).Some? && PendingAt(t, Row(t, g, x).value, x.1, q) ensures g <= q {
      RevealRows(s, h, e, g, x);
      assert PendingAt(s, Row(t, g, x).value, x.1, q);
    }
  }

  lemma RevealOrdered(s: Store, h: nat, e: Entry, t: Store)
    requires Open(s, h) && (h, e.hash) !in s.spent && Before(s) && Ordered(s) && Reveal(s, h, e) == Some(t)
    ensures Ordered(t)
  {
    var r := Find(s, e.from, e.hash, h).value;
    assert PendingAt(s, e.from, e.hash, r);
    forall g: nat, k: nat, x: Key, y: Key
      | Row(t, g, y).Some? && Row(t, k, x).Some? && Row(t, g, y) == Row(t, k, x) && x.1 == y.1 && g < k
      ensures g <= x.0
    {
      RevealRows(s, h, e, g, y);
      RevealRows(s, h, e, k, x);
      assert g < h;
    }
  }

  lemma {:induction false} RevealAllOrdered(s: Store, t: Store, h: nat, es: seq<Entry>, u: Store)
    requires Open(t, h) && Undoes(s, t, h) && Distinct(es) && RevealAll(t, h, es) == Some(u)
    requires Before(t) && Ordered(t) && forall y :: y in t.spent ==> y.0 < h
    ensures Before(u) && Ordered(u)
  {
    if es != [] {
      var front, e := es[..|es| - 1], es[|es| - 1];
      var m := RevealAll(t, h, front).value;
      RevealAllOrdered(s, t, h, front, m);
      RevealAllOpen(s, t, h, front);
      LastIsNew(es);
      RevealBefore(m, h, e, u);
      RevealOrdered(m, h, e, u);
    }
  }

  lemma PrunedOrdered(u: Store, h: nat)
    requires Before(u) && Ordered(u)
    ensures Before(Pruned(u, h)) && Ordered(Pruned(u, h))
  {
    var v := Pruned(u, h);
    assert forall g: nat, x: Key :: Row(v, g, x).Some? ==> Row(v, g, x) == Row(u, g, x);
    assert forall from, hash, q: nat :: PendingAt(v, from, hash, q) ==> PendingAt(u, from, hash, q);
  }

  /** Every accepted block keeps the invariant. */
  lemma ApplyLasting(s: Store, h: nat, b: Block, v: Store)
    requires h > 0 && Lasting(s, h - 1) && WellFormed(b) && Apply(s, h, b) == Some(v)
    ensures Lasting(v, h)
  {
    ApplySound(s, h, b, v);
    CommitAllOpen(s, h, b.commits);
    var t := CommitAll(s, h, b.commits).value;
    CommitAllOrdered(s, h, b.commits, t);
    assert Undoes(s, t, h) by {
      forall x: Key ensures Row(t, h, x).None? {}
    }
    var u := RevealAll(t, h, b.effects).value;
    RevealAllOrdered(s, t, h, b.effects, u);
    PrunedOrdered(u, h);
  }

  // ---- the undo of the tip keeps it ----

  lemma UndoneRows(s: Store, h: nat, g: nat, x: Key)
    ensures Row(Undone(s, h), g, x) == if g == h then None else Row(s, g, x)
  {}

  lemma UndonePending(s: Store, h: nat, from: Digest, hash: Digest, q: nat)
    ensures PendingAt(Undone(s, h), from, hash, q)
       <==> Row(s, h, (q, hash)) == Some(from) || (Row(s, h, (q, hash)).None? && q != h && PendingAt(s, from, hash, q))
  {
    assert Lookup(Undone(s, h).pending, (q, hash)) == UndoneAt(s, h, (q, hash));
  }

  lemma UndoneSingle(s: Store, h: nat)
    requires h > 0 && Lasting(s, h)
    ensures Single(Undone(s, h))
  {
    var u := Undone(s, h);
    forall from, hash, q: nat, r: nat | PendingAt(u, from, hash, q) && PendingAt(u, from, hash, r) ensures q == r {
      UndonePending(s, h, from, hash, q);
      UndonePending(s, h, from, hash, r);
    }
  }

  lemma UndoneJournaled(s: Store, h: nat)
    requires h > 0 && Lasting(s, h)
    ensures Journaled(Undone(s, h))
  {
    var u := Undone(s, h);
    forall g: nat, x: Key | Row(u, g, x).Some? ensures x.0 < g <= x.0 + WINDOW && x !in u.pending {
      UndoneRows(s, h, g, x);
      assert Lookup(u.pending, x) == UndoneAt(s, h, x);
    }
    forall g: nat, k: nat, x: Key | Row(u, g, x).Some? && Row(u, k, x).Some? ensures g == k {
      UndoneRows(s, h, g, x);
      UndoneRows(s, h, k, x);
    }
  }

  lemma UndoneWindow(s: Store, h: nat)
    requires h > 0 && Sound(s, h)
    ensures var u := Undone(s, h);
            && (forall x :: x in u.pending ==> x.0 <= h - 1 <= x.0 + WINDOW)
            && (forall y :: y in u.spent ==> y.0 <= h - 1 <= y.0 + WINDOW)
  {
    var u := Undone(s, h);
    forall x | x in u.pending ensures x.0 <= h - 1 <= x.0 + WINDOW {
      assert Lookup(u.pending, x) == UndoneAt(s, h, x);
    }
  }

  lemma UndoneBefore(s: Store, h: nat)
    requires h > 0 && Lasting(s, h)
    ensures Before(Undone(s, h))
  {
    var u := Undone(s, h);
    forall g: nat, x: Key, q: nat | Row(u, g, x).Some? && PendingAt(u, Row(u, g, x).value, x.1, q) ensures g <= q {
      UndoneRows(s, h, g, x);
      UndonePending(s, h, Row(u, g, x).value, x.1, q);
      assert Row(s, g, x).Some? && g <= h;
    }
  }

  lemma UndoneOrdered(s: Store, h: nat)
    requires h > 0 && Ordered(s)
    ensures Ordered(Undone(s, h))
  {
    var u := Undone(s, h);
    forall g: nat, k: nat, x: Key, y: Key
      | Row(u, g, y).Some? && Row(u, k, x).Some? && Row(u, g, y) == Row(u, k, x) && x.1 == y.1 && g < k
      ensures g <= x.0
    {
      UndoneRows(s, h, g, y);
      UndoneRows(s, h, k, x);
    }
  }

  /** Undoing the tip of a reachable store gives a store of the height below, no matter how it was reached. */
  lemma UndoneLasting(s: Store, h: nat)
    requires h > 0 && Lasting(s, h)
    ensures Lasting(Undone(s, h), h - 1)
  {
    UndoneWindow(s, h);
    UndoneSingle(s, h);
    UndoneJournaled(s, h);
    UndoneBefore(s, h);
    UndoneOrdered(s, h);
  }

  lemma {:induction false} UnwoundLasting(s: Store, tip: nat, f: nat)
    requires f <= tip && Lasting(s, tip)
    ensures Lasting(Unwound(s, tip, f), f)
    decreases tip
  {
    if f < tip {
      UndoneLasting(s, tip);
      UnwoundLasting(Undone(s, tip), tip - 1, f);
    }
  }

  // ---- what the executed reveals spent ----

  /** One executed effect: revealed at a height, spending the commitment of a record height. */
  datatype Use = Use(at: nat, record: nat, hash: Digest, from: Digest)

  function RevealUses(s: Store, h: nat, es: seq<Entry>): (r: seq<Use>)
    requires RevealAll(s, h, es).Some?
    ensures |r| == |es|
    ensures forall i :: 0 <= i < |r| ==> r[i].at == h && Entry(r[i].hash, r[i].from) == es[i]
  {
    if es == [] then []
    else
      var front, e := es[..|es| - 1], es[|es| - 1];
      RevealUses(s, h, front) + [Use(h, Find(RevealAll(s, h, front).value, e.from, e.hash, h).value, e.hash, e.from)]
  }

  /** A use spends an entry of a strictly earlier block, within the window, by the same committer. */
  predicate Justified(u: Use, blocks: seq<Block>) {
    && 0 < u.record < u.at <= u.record + WINDOW
    && u.at <= |blocks|
    && Entry(u.hash, u.from) in blocks[u.record - 1].commits
    && Entry(u.hash, u.from) in blocks[u.at - 1].effects
  }

  /** No commitment is consumed twice. */
  predicate OnceEach(uses: seq<Use>) {
    forall i, j :: 0 <= i < j < |uses| ==> (uses[i].record, uses[i].hash) != (uses[j].record, uses[j].hash)
  }

  /** Pending entries come from the chain's own commits and were not used yet. */
  ghost predicate Accounted(s: Store, blocks: seq<Block>, uses: seq<Use>) {
    && (forall x :: x in s.pending ==> 0 < x.0 <= |blocks| && Entry(x.1, s.pending[x]) in blocks[x.0 - 1].commits)
    && (forall i :: 0 <= i < |uses| ==> uses[i].record < |blocks| && (uses[i].record, uses[i].hash) !in s.pending)
    && (forall i :: 0 <= i < |uses| ==> Justified(uses[i], blocks))
    && OnceEach(uses)
  }

  lemma {:induction false} RevealsAccounted(s: Store, h: nat, es: seq<Entry>, blocks: seq<Block>, uses: seq<Use>)
    requires h == |blocks| > 0 && (forall e :: e in es ==> e in blocks[h - 1].effects)
    requires Accounted(s, blocks, uses) && RevealAll(s, h, es).Some?
    ensures Accounted(RevealAll(s, h, es).value, blocks, uses + RevealUses(s, h, es))
  {
    if es == [] {
      assert uses + RevealUses(s, h, es) == uses;
    } else {
      var front, e := es[..|es| - 1], es[|es| - 1];
      assert forall d :: d in front ==> d in es;
      RevealsAccounted(s, h, front, blocks, uses);
      var t := RevealAll(s, h, front).value;
      var before := uses + RevealUses(s, h, front);
      assert e in es;
      UseAccounted(t, h, e, blocks, before);
      assert uses + RevealUses(s, h, es) == before + [Use(h, Find(t, e.from, e.hash, h).value, e.hash, e.from)];
    }
  }

  lemma UseAccounted(t: Store, h: nat, e: Entry, blocks: seq<Block>, uses: seq<Use>)
    requires h == |blocks| > 0 && e in blocks[h - 1].effects
    requires Accounted(t, blocks, uses) && Reveal(t, h, e).Some?
    ensures Accounted(Reveal(t, h, e).value, blocks, uses + [Use(h, Find(t, e.from, e.hash, h).value, e.hash, e.from)])
  {
    var r := Find(t, e.from, e.hash, h).value;
    assert PendingAt(t, e.from, e.hash, r);
    assert Justified(Use(h, r, e.hash, e.from), blocks);
  }

  lemma CommitsAccounted(s: Store, t: Store, front: seq<Block>, blocks: seq<Block>, uses: seq<Use>)
    requires blocks != [] && front == blocks[..|blocks| - 1]
    requires Accounted(s, front, uses)
    requires forall x: Key :: x.0 != |blocks| ==> Lookup(t.pending, x) == Lookup(s.pending, x)
    requires forall x: Key :: x.0 == |blocks| && x in t.pending ==>
               Entry(x.1, t.pending[x]) in blocks[|blocks| - 1].commits
    ensures Accounted(t, blocks, uses)
  {
    forall x | x in t.pending ensures 0 < x.0 <= |blocks| && Entry(x.1, t.pending[x]) in blocks[x.0 - 1].commits {
      if x.0 != |blocks| {
        assert Lookup(t.pending, x) == Lookup(s.pending, x);
      }
    }
    forall i | 0 <= i < |uses| ensures (uses[i].record, uses[i].hash) !in t.pending && Justified(uses[i], blocks) {
      var x := (uses[i].record, uses[i].hash);
      assert Justified(uses[i], front);
      assert Lookup(t.pending, x) == Lookup(s.pending, x);
    }
  }

  // ---- runs of a node ----

  /** The chain from height 1, the store at its tip, and what each block's effects consumed. */
  datatype Node = Node(chain: seq<Block>, store: Store, uses: seq<seq<Use>>)

  /** A block offered on the tip, or a reorg's unwind to a height. */
  datatype Step = Extend(b: Block) | Rewind(f: nat)

  const START := Node([], Store(map[], map[]), [])

  function Stepped(n: Node, e: Step): (r: Node)
    ensures |n.uses| == |n.chain| ==> |r.uses| == |r.chain|
  {
    match e
    case Extend(b) =>
      var h := |n.chain| + 1;
      var v := Apply(n.store, h, b);
      if !WellFormed(b) || v.None? then n
      else
        var t := CommitAll(n.store, h, b.commits).value;
        Node(n.chain + [b], v.value, n.uses + [RevealUses(t, h, b.effects)])
    case Rewind(f) =>
      if f >= |n.chain| || |n.uses| != |n.chain| then n
      else Node(n.chain[..f], Unwound(n.store, |n.chain|, f), n.uses[..f])
  }

  function Run(n: Node, steps: seq<Step>): (r: Node) {
    if steps == [] then n else Stepped(Run(n, steps[..|steps| - 1]), steps[|steps| - 1])
  }

  function Flat(uses: seq<seq<Use>>): (r: seq<Use>) {
    if uses == [] then [] else Flat(uses[..|uses| - 1]) + uses[|uses| - 1]
  }

  /** Block i of the chain executed its effects in order, each spending one commitment. */
  ghost predicate Executes(chain: seq<Block>, uses: seq<seq<Use>>) {
    && |uses| == |chain|
    && forall i :: 0 <= i < |chain| ==> Spends(i + 1, chain[i].effects, uses[i])
  }

  ghost predicate Spends(h: nat, es: seq<Entry>, us: seq<Use>) {
    |us| == |es| && forall j :: 0 <= j < |us| ==> us[j].at == h && Entry(us[j].hash, us[j].from) == es[j]
  }

  /** Every journal row is the trace of a use on the chain. */
  ghost predicate RowsUsed(s: Store, uses: seq<seq<Use>>) {
    forall h: nat, x: Key :: Row(s, h, x).Some? ==>
                               0 < h <= |uses| && Use(h, x.0, x.1, Row(s, h, x).value) in uses[h - 1]
  }

  /** What the run says of the effects a chain executed. */
  ghost predicate Explained(n: Node) {
    && Executes(n.chain, n.uses)
    && Accounted(n.store, n.chain, Flat(n.uses))
    && RowsUsed(n.store, n.uses)
  }

  /** The invariant of a node (sealed: opened where it is established or used). */
  ghost predicate Safe(n: Node) {
    && |n.uses| == |n.chain|
    && forall seal {:trigger Opened(RUN, seal)} :: Opened(RUN, seal) ==> Lasting(n.store, |n.chain|) && Explained(n)
  }

  lemma {:induction false} RevealRowsUsed(s: Store, h: nat, es: seq<Entry>, x: Key)
    requires RevealAll(s, h, es).Some?
    requires Row(s, h, x).None? && Row(RevealAll(s, h, es).value, h, x).Some?
    ensures Use(h, x.0, x.1, Row(RevealAll(s, h, es).value, h, x).value) in RevealUses(s, h, es)
  {
    if es != [] {
      var front := es[..|es| - 1];
      if Row(RevealAll(s, h, es).value, h, x) == Row(RevealAll(s, h, front).value, h, x) {
        RevealRowsUsed(s, h, front, x);
      }
    }
  }

  lemma {:induction false} OtherRows(s: Store, h: nat, es: seq<Entry>, g: nat, x: Key)
    requires RevealAll(s, h, es).Some? && g != h
    ensures Row(RevealAll(s, h, es).value, g, x) == Row(s, g, x)
  {
    if es != [] {
      OtherRows(s, h, es[..|es| - 1], g, x);
    }
  }

  lemma ExtendRow(s: Store, h: nat, b: Block, v: Store, g: nat, x: Key)
    requires h > 0 && Sound(s, h - 1) && WellFormed(b) && Apply(s, h, b) == Some(v) && Row(v, g, x).Some?
    ensures g <= h
    ensures g < h ==> Row(v, g, x) == Row(s, g, x)
    ensures g == h ==>
              Use(h, x.0, x.1, Row(v, h, x).value) in RevealUses(CommitAll(s, h, b.commits).value, h, b.effects)
  {
    CommitAllOpen(s, h, b.commits);
    var t := CommitAll(s, h, b.commits).value;
    assert Row(t, g, x) == Row(s, g, x);
    assert Row(v, g, x) == Row(RevealAll(t, h, b.effects).value, g, x);
    if g == h {
      RevealRowsUsed(t, h, b.effects, x);
    } else {
      OtherRows(t, h, b.effects, g, x);
    }
  }

  lemma ExtendRows(n: Node, b: Block, m: Node)
    requires |n.uses| == |n.chain| && Sound(n.store, |n.chain|) && RowsUsed(n.store, n.uses)
    requires m == Stepped(n, Extend(b)) && m != n
    ensures RowsUsed(m.store, m.uses)
  {
    forall g: nat, x: Key | Row(m.store, g, x).Some?
      ensures 0 < g <= |m.uses| && Use(g, x.0, x.1, Row(m.store, g, x).value) in m.uses[g - 1]
    {
      ExtendRow(n.store, |n.chain| + 1, b, m.store, g, x);
    }
  }

  lemma ExtendAccounted(n: Node, b: Block, m: Node)
    requires |n.uses| == |n.chain| && Sound(n.store, |n.chain|) && Accounted(n.store, n.chain, Flat(n.uses))
    requires m == Stepped(n, Extend(b)) && m != n
    ensures Accounted(m.store, m.chain, Flat(m.uses))
  {
    var h := |n.chain| + 1;
    CommitAllOpen(n.store, h, b.commits);
    var t := CommitAll(n.store, h, b.commits).value;
    assert n.chain == m.chain[..|m.chain| - 1] && n.uses == m.uses[..|m.uses| - 1];
    CommitsAccounted(n.store, t, n.chain, m.chain, Flat(n.uses));
    RevealsAccounted(t, h, b.effects, m.chain, Flat(n.uses));
    assert Flat(m.uses) == Flat(n.uses) + RevealUses(t, h, b.effects);
  }

  lemma ExtendExplained(n: Node, b: Block, m: Node)
    requires Sound(n.store, |n.chain|) && Explained(n) && m == Stepped(n, Extend(b)) && m != n
    ensures Explained(m)
  {
    ExtendRows(n, b, m);
    ExtendAccounted(n, b, m);
  }

  lemma ExtendLasting(n: Node, b: Block, m: Node)
    requires Lasting(n.store, |n.chain|) && m == Stepped(n, Extend(b)) && m != n
    ensures Lasting(m.store, |m.chain|)
  {
    ApplyLasting(n.store, |n.chain| + 1, b, m.store);
  }

  lemma ExtendSafe(n: Node, b: Block, m: Node)
    requires Safe(n) && m == Stepped(n, Extend(b))
    ensures Safe(m)
  {
    if m != n {
      assert Opened(RUN, true);
      ExtendLasting(n, b, m);
      ExtendExplained(n, b, m);
    }
  }

  // ---- a reorg ----

  /** One height of the unwind. */
  function Popped(n: Node): (r: Node)
    requires n.chain != [] && |n.uses| == |n.chain|
  {
    var f := |n.chain| - 1;
    Node(n.chain[..f], Undone(n.store, |n.chain|), n.uses[..f])
  }

  lemma PopAccounted(n: Node, m: Node)
    requires n.chain != [] && Explained(n) && m == Popped(n)
    ensures Accounted(m.store, m.chain, Flat(m.uses))
  {
    var all, kept, last := Flat(n.uses), Flat(m.uses), n.uses[|n.chain| - 1];
    assert all == kept + last;
    forall u | u in kept ensures u.at < |n.chain| {
      FlatBelow(m.uses, m.chain, u);
    }
    UndoAccounted(n.store, n.chain, all, kept, last, |n.chain|, m.store, m.chain);
  }

  lemma UndoAccounted(s: Store, chain: seq<Block>, all: seq<Use>, kept: seq<Use>, last: seq<Use>, h: nat,
                      t: Store, front: seq<Block>)
    requires h == |chain| > 0 && front == chain[..h - 1] && t == Undone(s, h)
    requires all == kept + last && Accounted(s, chain, all) && forall u :: u in kept ==> u.at < h
    requires forall x: Key :: Row(s, h, x).Some? ==> Use(h, x.0, x.1, Row(s, h, x).value) in last
    ensures Accounted(t, front, kept)
  {
    forall x | x in t.pending
      ensures 0 < x.0 < h && Entry(x.1, t.pending[x]) in chain[x.0 - 1].commits
      ensures forall u :: u in kept ==> (u.record, u.hash) != x
    {
      PopPending(s, chain, all, kept, last, h, x);
    }
    forall i | 0 <= i < |kept| ensures kept[i] in kept && kept[i].record < h - 1 && Justified(kept[i], front) {
      assert kept[i] == all[i] && Justified(all[i], chain);
    }
    assert forall i :: 0 <= i < |kept| ==> kept[i] == all[i];
  }

  lemma {:induction false} FlatBelow(uses: seq<seq<Use>>, chain: seq<Block>, u: Use)
    requires Executes(chain, uses) && u in Flat(uses)
    ensures u.at <= |chain|
  {
    var front, last := uses[..|uses| - 1], uses[|uses| - 1];
    if u in Flat(front) {
      FlatBelow(front, chain[..|chain| - 1], u);
    } else {
      assert u in last;
    }
  }

  /** A use the undo keeps spent something the undo does not bring back. */
  lemma PopUnspent(all: seq<Use>, kept: seq<Use>, dropped: seq<Use>, last: Use, u: Use)
    requires all == kept + dropped && OnceEach(all) && last in dropped && u in kept
    ensures (u.record, u.hash) != (last.record, last.hash)
  {
    var i :| 0 <= i < |kept| && kept[i] == u;
    var j :| 0 <= j < |dropped| && dropped[j] == last;
    assert all[i] == u && all[|kept| + j] == last;
  }

  lemma PopPending(s: Store, chain: seq<Block>, all: seq<Use>, kept: seq<Use>, last: seq<Use>, h: nat, x: Key)
    requires h == |chain| > 0 && all == kept + last && Accounted(s, chain, all) && x in Undone(s, h).pending
    requires Row(s, h, x).Some? ==> Use(h, x.0, x.1, Row(s, h, x).value) in last
    ensures 0 < x.0 < h && Entry(x.1, Undone(s, h).pending[x]) in chain[x.0 - 1].commits
    ensures forall u :: u in kept ==> (u.record, u.hash) != x
  {
    assert Lookup(Undone(s, h).pending, x) == UndoneAt(s, h, x);
    if Row(s, h, x).Some? {
      RestoredEntry(s, chain, all, kept, last, Use(h, x.0, x.1, Row(s, h, x).value));
    } else {
      KeptEntry(s, chain, all, kept, x);
    }
  }

  lemma RestoredEntry(s: Store, chain: seq<Block>, all: seq<Use>, kept: seq<Use>, last: seq<Use>, use: Use)
    requires all == kept + last && Accounted(s, chain, all) && use in last
    ensures Justified(use, chain)
    ensures forall u :: u in kept ==> (u.record, u.hash) != (use.record, use.hash)
  {
    assert use in all;
    forall u | u in kept ensures (u.record, u.hash) != (use.record, use.hash) {
      PopUnspent(all, kept, last, use, u);
    }
  }

  lemma KeptEntry(s: Store, chain: seq<Block>, all: seq<Use>, kept: seq<Use>, x: Key)
    requires kept <= all && Accounted(s, chain, all) && x in s.pending
    ensures forall u :: u in kept ==> (u.record, u.hash) != x
  {
    forall u | u in kept ensures (u.record, u.hash) != x {
      assert u in all;
    }
  }

  lemma PopRows(n: Node, m: Node)
    requires n.chain != [] && |n.uses| == |n.chain| && RowsUsed(n.store, n.uses) && m == Popped(n)
    ensures RowsUsed(m.store, m.uses)
  {
    forall g: nat, x: Key | Row(m.store, g, x).Some?
      ensures 0 < g <= |m.uses| && Use(g, x.0, x.1, Row(m.store, g, x).value) in m.uses[g - 1]
    {
      UndoneRows(n.store, |n.chain|, g, x);
    }
  }

  lemma PopExplained(n: Node, m: Node)
    requires n.chain != [] && Explained(n) && m == Popped(n)
    ensures Explained(m)
  {
    PopAccounted(n, m);
    PopRows(n, m);
  }

  lemma PopLasting(n: Node, m: Node)
    requires n.chain != [] && |n.uses| == |n.chain| && Lasting(n.store, |n.chain|) && m == Popped(n)
    ensures Lasting(m.store, |m.chain|)
  {
    UndoneLasting(n.store, |n.chain|);
  }

  lemma PopSafe(n: Node, m: Node)
    requires n.chain != [] && Safe(n) && m == Popped(n)
    ensures Safe(m)
  {
    assert Opened(RUN, true);
    PopLasting(n, m);
    PopExplained(n, m);
  }

  /** An unwind undoes its highest block first. */
  lemma RewindPops(n: Node, f: nat)
    requires f < |n.chain| == |n.uses|
    ensures Stepped(n, Rewind(f)) == Stepped(Popped(n), Rewind(f))
  {
    var m := Popped(n);
    assert f < |m.chain| ==> n.chain[..f] == m.chain[..f] && n.uses[..f] == m.uses[..f];
    assert f == |m.chain| ==> n.chain[..f] == m.chain && n.uses[..f] == m.uses;
    assert Unwound(n.store, |n.chain|, f) == Unwound(m.store, |m.chain|, f);
  }

  lemma {:induction false} RewindSafe(n: Node, f: nat, r: Node)
    requires Safe(n) && r == Stepped(n, Rewind(f))
    ensures Safe(r)
    decreases |n.chain|
  {
    if f < |n.chain| {
      PopSafe(n, Popped(n));
      RewindPops(n, f);
      RewindSafe(Popped(n), f, r);
    }
  }

  /** Commit-reveal safety over every run, reorgs and refused blocks included: on the chain a node holds,
      each executed effect spends its own sender's commitment, recorded by a strictly earlier block of that
      chain within the window, no commitment is spent twice, every use is of an effect of its block, and no two
      pending entries share committer and hash. */
  lemma {:induction false} RunSafety(steps: seq<Step>)
    ensures var n := Run(START, steps);
            && Safe(n)
            && Executes(n.chain, n.uses)
            && (forall i :: 0 <= i < |Flat(n.uses)| ==> Justified(Flat(n.uses)[i], n.chain))
            && OnceEach(Flat(n.uses))
            && Single(n.store)
  {
    if steps != [] {
      var front, e := steps[..|steps| - 1], steps[|steps| - 1];
      RunSafety(front);
      var n := Run(START, front);
      match e
      case Extend(b) => ExtendSafe(n, b, Stepped(n, e));
      case Rewind(f) => RewindSafe(n, f, Stepped(n, e));
    }
    assert Opened(RUN, true);
  }
}
