/** Historical reads over an archive node's buckets (ngstate/changeset.go, state_helper.go). */
module History {
  import opened Basics
  import opened Committed
  import opened Domains
  import opened KeyOrder
  import opened Contents
  import StateRuns
  import NodeRuns

  /** The keys of the history bucket. */
  function HistKeys(hist: set<(Digest, nat)>): (r: set<Bytes>) {
    set x | x in hist && x.1 < HEIGHTS :: HistKey(x.0, x.1)
  }

  lemma HistKeysIndex(hist: set<(Digest, nat)>)
    requires forall x :: x in hist ==> x.1 < HEIGHTS
    ensures Index(HistKeys(hist), hist)
  {}

  /** What held for the address at the end of the given height, found by one seek in the history index. */
  method ValueAtHeight<V(!new)>(d: Domain<Digest, V>, addr: Digest, height: nat, ghost base: nat,
                         ghost snaps: seq<map<Digest, V>>)
    returns (v: Option<V>)
    requires Tracks(d, base, snaps) && base <= height < base + |snaps| <= HEIGHTS && height + 1 < HEIGHTS
    ensures v == Lookup(snaps[height - base], addr)
  {
    forall x | x in d.hist ensures x.1 < HEIGHTS {
      assert (x.1, x.0) in d.cs;
    }
    HistKeysIndex(d.hist);
    var first := FirstChangeHeightAfter(HistKeys(d.hist), addr, height, d.hist);
    v := ReadAt(d, addr, first);
    HistoricalRead(d, base, snaps, addr, height, first);
  }

  /** balanceAtHeight: an absent balance reads as zero. */
  method BalanceAtHeight(d: Domain<Digest, nat>, addr: Digest, height: nat, ghost base: nat,
                         ghost snaps: seq<map<Digest, nat>>)
    returns (n: nat)
    requires Tracks(d, base, snaps) && base <= height < base + |snaps| <= HEIGHTS && height + 1 < HEIGHTS
    ensures n == if addr in snaps[height - base] then snaps[height - base][addr] else 0
  {
    var v := ValueAtHeight(d, addr, height, base, snaps);
    n := if v.Some? then v.value else 0;
  }

  /** contractAtHeight: the slot of that height together with its code, which the code bucket still holds. */
  method ContractAtHeight(H: Hasher, d: Domain<Digest, Slot>, code: Code, addr: Digest, height: nat,
                          ghost base: nat, ghost snaps: seq<map<Digest, Slot>>)
    returns (r: Option<(Slot, Bytes)>)
    requires Tracks(d, base, snaps) && base <= height < base + |snaps| <= HEIGHTS && height + 1 < HEIGHTS
    requires StateRuns.Resolves(H, code, d)
    ensures r.Some? <==> addr in snaps[height - base]
    ensures r.Some? ==> r.value.0 == snaps[height - base][addr] && H(r.value.1) == r.value.0.codeHash
  {
    var v := ValueAtHeight(d, addr, height, base, snaps);
    if v.None? {
      return None;
    }
    Found(H, code, d, base, snaps, addr, height);
    r := Some((v.value, code[v.value.codeHash].bytes));
  }

  /** A slot that any height ended with finds its module. */
  lemma {:induction false} Found(H: Hasher, code: Code, d: Domain<Digest, Slot>, base: nat,
                                 snaps: seq<map<Digest, Slot>>, addr: Digest, height: nat)
    requires Tracks(d, base, snaps) && base <= height < base + |snaps| && StateRuns.Resolves(H, code, d)
    requires addr in snaps[height - base]
    ensures snaps[height - base][addr].codeHash in code
    decreases base + |snaps| - height
  {
    var i := height - base;
    if i + 1 < |snaps| {
      assert KeptOrRecorded(d, base, snaps, i + 1, addr);
      if (base + (i + 1), addr) in d.cs {
        assert d.cs[(base + (i + 1), addr)] == Lookup(snaps[i], addr);
      } else {
        assert addr in snaps[i + 1];
        Found(H, code, d, base, snaps, addr, height + 1);
      }
    }
  }

  // ---- on the state a node holds after any run ----

  /** The archived buckets at the end of a height of the node's chain: those its blocks up to it make of the start. */
  ghost function Then(H: Hasher, base: nat, c: Content, n: NodeRuns.Node, height: nat): Buckets
    requires base <= height <= base + |n.chain| < HEIGHTS
  {
    NodeRuns.At(H, c.buckets, base, n.chain[..height - base])
  }

  /** balanceAtHeight after any blocks, refused blocks and reorgs: the balance that the blocks of the chain up
      to that height end with. */
  method BalanceOnRun(H: Hasher, root: Roots, base: nat, c: Content, events: seq<NodeRuns.Event>, n: NodeRuns.Node,
                      addr: Digest, height: nat)
    returns (v: nat)
    requires NodeRuns.Start(H, base, c) && NodeRuns.Archived(c.buckets, base)
    requires n == NodeRuns.Run(H, root, base, c, events)
    requires base <= height <= base + |n.chain| < HEIGHTS && height + 1 < HEIGHTS
    ensures v == Balance(Then(H, base, c, n, height).bal.state, addr)
  {
    NodeRuns.RunRecalls(H, root, base, c, events, n, base + |n.chain|);
    v := BalanceAtHeight(n.c.buckets.bal, addr, height, base, NodeRuns.Balances(H, c.buckets, base, n.chain));
    NodeRuns.HeldAt(H, c.buckets, base, n.chain, height - base);
  }

  /** contractAtHeight after any blocks, refused blocks and reorgs: the slot those blocks end with,
      and bytes that hash to its code hash. */
  method ContractOnRun(H: Hasher, root: Roots, base: nat, c: Content, events: seq<NodeRuns.Event>, n: NodeRuns.Node,
                       addr: Digest, height: nat)
    returns (r: Option<(Slot, Bytes)>)
    requires NodeRuns.Start(H, base, c) && NodeRuns.Archived(c.buckets, base)
    requires n == NodeRuns.Run(H, root, base, c, events)
    requires base <= height <= base + |n.chain| < HEIGHTS && height + 1 < HEIGHTS
    ensures r.Some? <==> addr in Then(H, base, c, n, height).con.state
    ensures r.Some? ==>
              r.value.0 == Then(H, base, c, n, height).con.state[addr] && H(r.value.1) == r.value.0.codeHash
  {
    NodeRuns.RunRecalls(H, root, base, c, events, n, base + |n.chain|);
    NodeRuns.RunReplays(H, root, base, c, events, n, base + |n.chain|);
    r := ContractAtHeight(H, n.c.buckets.con, n.c.code, addr, height, base,
                          NodeRuns.Slots(H, c.buckets, base, n.chain));
    NodeRuns.HeldAt(H, c.buckets, base, n.chain, height - base);
  }
}
