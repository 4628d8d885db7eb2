/** Which leaves of the state commitment an operation can write: those of the entries it names, and for a prune or
    an unwind those of the pending, journaled and recorded rows. */
module LeafScope {
  import opened Basics
  import opened Domains
  import opened KeyOrder
  import opened StateTrie
  import opened Committed
  import opened Contents
  import CommitReveal

  type Keys = set<LeafKey>

  ghost function BalanceRows(d: Domain<Digest, nat>): Keys { set x | x in d.cs :: BalanceKey(x.1) }
  ghost function ContractRows(d: Domain<Digest, Slot>): Keys { set x | x in d.cs :: ContractKey(x.1) }
  ghost function RegistryRows(d: Domain<Digest, Bytes1>): Keys { set x | x in d.cs :: RegistryKey(x.1) }
  ghost function BeaconRows(d: Domain<(), Bytes1>): Keys { set x | x in d.cs :: BeaconKey(x.1) }

  ghost function PendingKeys(m: map<CommitReveal.Key, Digest>): Keys {
    set x | x in m && x.0 < HEIGHTS :: CommitKey(x)
  }

  ghost function SpentKeys(m: map<CommitReveal.Key, (nat, Digest)>): Keys {
    set y | y in m && m[y].0 < HEIGHTS :: CommitKey((m[y].0, y.1))
  }

  ghost function StoreKeys(s: CommitReveal.Store): Keys {
    PendingKeys(s.pending) + SpentKeys(s.spent)
  }

  ghost function DomainRows(b: Buckets): Keys {
    BalanceRows(b.bal) + ContractRows(b.con) + RegistryRows(b.key)
  }

  /** The leaves a prune or an unwind of the content can write. */
  ghost function UndoKeys(c: Content): Keys {
    DomainRows(c.buckets) + BeaconRows(c.buckets.bea) + StoreKeys(c.commits)
  }

  // ---- what a block can write ----

  function OpKeys(op: Op): (r: Keys) {
    match op
    case SetBalance(a, _) => {BalanceKey(a)}
    case Register(a, _) => {RegistryKey(a)}
    case SetContract(a, _, _) => {ContractKey(a)}
    case DelContract(a) => {ContractKey(a)}
    case Consume(_) => {}
  }

  function CommitKeys(h: nat, x: Charged): (r: Keys)
    requires h < HEIGHTS
  {
    {BalanceKey(x.commit.from), CommitKey((h, x.commit.hash))}
  }

  ghost predicate TxsFit(keys: Keys, ops: seq<Op>) {
    forall i :: 0 <= i < |ops| ==> OpKeys(ops[i]) <= keys
  }

  ghost predicate CommitsFit(keys: Keys, h: nat, cs: seq<Charged>)
    requires h < HEIGHTS
  {
    forall i :: 0 <= i < |cs| ==> CommitKeys(h, cs[i]) <= keys
  }

  ghost predicate BlockFits(keys: Keys, h: Height, b: Block) {
    CommitsFit(keys, h, b.commits) && TxsFit(keys, b.ops) && (b.beacon ==> BeaconKey(()) in keys)
  }

  ghost predicate BlocksFit(keys: Keys, f: nat, blocks: seq<Block>)
    requires f + |blocks| < HEIGHTS
  {
    forall i, h: Height :: 0 <= i < |blocks| && h == f + 1 + i ==> BlockFits(keys, h, blocks[i])
  }

  // ---- and what it leaves to undo ----

  lemma Gathered(c: Content, d: Content, more: Keys)
    requires BalanceRows(d.buckets.bal) <= BalanceRows(c.buckets.bal) + more
    requires ContractRows(d.buckets.con) <= ContractRows(c.buckets.con) + more
    requires RegistryRows(d.buckets.key) <= RegistryRows(c.buckets.key) + more
    requires BeaconRows(d.buckets.bea) <= BeaconRows(c.buckets.bea) + more
    requires StoreKeys(d.commits) <= StoreKeys(c.commits) + more
    ensures UndoKeys(d) <= UndoKeys(c) + more
  {
    Joined(BalanceRows(d.buckets.bal), BalanceRows(c.buckets.bal), ContractRows(d.buckets.con),
           ContractRows(c.buckets.con), RegistryRows(d.buckets.key), RegistryRows(c.buckets.key),
           BeaconRows(d.buckets.bea), BeaconRows(c.buckets.bea), StoreKeys(d.commits), StoreKeys(c.commits), more);
  }

  lemma Joined(a: Keys, aa: Keys, b: Keys, bb: Keys, c: Keys, cc: Keys, d: Keys, dd: Keys, e: Keys, ee: Keys,
               more: Keys)
    requires a <= aa + more && b <= bb + more && c <= cc + more && d <= dd + more && e <= ee + more
    ensures a + b + c + d + e <= aa + bb + cc + dd + ee + more
  {}

  lemma UndoneStore(s: CommitReveal.Store, h: nat)
    ensures StoreKeys(CommitReveal.Undone(s, h)) <= StoreKeys(s)
  {
    var u := CommitReveal.Undone(s, h);
    forall k | k in PendingKeys(u.pending) ensures k in StoreKeys(s) {
      var x :| x in u.pending && x.0 < HEIGHTS && k == CommitKey(x);
      assert Lookup(u.pending, x) == CommitReveal.UndoneAt(s, h, x);
      if CommitReveal.Row(s, h, x).Some? {
        assert (h, x.1) in s.spent && s.spent[(h, x.1)].0 == x.0;
        assert k in SpentKeys(s.spent);
      }
    }
    forall k | k in SpentKeys(u.spent) ensures k in StoreKeys(s) {
      var y :| y in u.spent && u.spent[y].0 < HEIGHTS && k == CommitKey((u.spent[y].0, y.1));
      assert y in s.spent && s.spent[y] == u.spent[y];
    }
  }

  lemma UndoneKeys(c: Content, h: nat)
    ensures UndoKeys(HeightUndone(c, h)) <= UndoKeys(c)
  {
    UndoneStore(c.commits, h);
    var d := HeightUndone(c, h);
    assert BalanceRows(d.buckets.bal) <= BalanceRows(c.buckets.bal);
    assert ContractRows(d.buckets.con) <= ContractRows(c.buckets.con);
    assert RegistryRows(d.buckets.key) <= RegistryRows(c.buckets.key);
    assert BeaconRows(d.buckets.bea) <= BeaconRows(c.buckets.bea);
  }

  lemma PutKeys(b: Buckets, h: nat, op: Op, H: Hasher)
    ensures var e := Wrote(H, b, h, op);
            && BalanceRows(e.bal) <= BalanceRows(b.bal) + OpKeys(op)
            && ContractRows(e.con) <= ContractRows(b.con) + OpKeys(op)
            && RegistryRows(e.key) <= RegistryRows(b.key) + OpKeys(op)
            && e.bea == b.bea
  {}

  lemma WroteKeys(H: Hasher, c: Content, h: nat, op: Op, d: Content)
    requires d.buckets == Wrote(H, c.buckets, h, op) && StoreKeys(d.commits) <= StoreKeys(c.commits)
    ensures UndoKeys(d) <= UndoKeys(c) + OpKeys(op)
  {
    PutKeys(c.buckets, h, op, H);
    Gathered(c, d, OpKeys(op));
  }

  lemma RevealedKeys(s: CommitReveal.Store, h: nat, e: CommitReveal.Entry, t: CommitReveal.Store)
    requires CommitReveal.Reveal(s, h, e) == Some(t)
    ensures StoreKeys(t) <= StoreKeys(s)
  {
    var r := CommitReveal.Find(s, e.from, e.hash, h).value;
    assert CommitReveal.PendingAt(s, e.from, e.hash, r);
    forall k | k in SpentKeys(t.spent) ensures k in StoreKeys(s) {
      var y :| y in t.spent && t.spent[y].0 < HEIGHTS && k == CommitKey((t.spent[y].0, y.1));
      if y == (h, e.hash) {
        assert (r, e.hash) in s.pending && k == CommitKey((r, e.hash));
        assert k in PendingKeys(s.pending);
      } else {
        assert y in s.spent && s.spent[y] == t.spent[y];
      }
    }
  }

  /** Only the commitment store changed. */
  lemma StoreScope(c: Content, d: Content)
    requires d.buckets == c.buckets
    ensures StoreKeys(d.commits) <= StoreKeys(c.commits) ==> UndoKeys(d) <= UndoKeys(c)
    ensures PendingKeys(c.commits.pending) <= UndoKeys(c)
  {}

  lemma PrunedKeys(s: CommitReveal.Store, h: nat)
    ensures StoreKeys(CommitReveal.Pruned(s, h)) <= StoreKeys(s)
  {
    var t := CommitReveal.Pruned(s, h);
    assert PendingKeys(t.pending) <= PendingKeys(s.pending);
    assert SpentKeys(t.spent) <= SpentKeys(s.spent);
  }

  lemma CommittedKeys(c: Content, h: nat, x: Charged, d: Content)
    requires h < HEIGHTS && CommitReveal.Commit(c.commits, h, x.commit) == Some(d.commits)
    requires Paid(c.buckets, h, x) == Some(d.buckets)
    ensures UndoKeys(d) <= UndoKeys(c) + CommitKeys(h, x)
  {
    assert PendingKeys(d.commits.pending) <= PendingKeys(c.commits.pending) + CommitKeys(h, x);
    assert BalanceRows(d.buckets.bal) <= BalanceRows(c.buckets.bal) + CommitKeys(h, x);
    Gathered(c, d, CommitKeys(h, x));
  }

  lemma StirredKeys(H: Hasher, c: Content, h: Height, b: Block, d: Content)
    requires d.buckets == Stirred(H, c.buckets, h, b) && d.commits == c.commits
    ensures UndoKeys(d) <= UndoKeys(c) + if b.beacon then {BeaconKey(())} else {}
  {
    assert BeaconRows(d.buckets.bea) <= BeaconRows(c.buckets.bea) + if b.beacon then {BeaconKey(())} else {};
  }

  /** The unwind of c0 has come to c and written only leaves of c0's rows (sealed inside the loop). */
  ghost predicate Undoing(was: Keys, c0: Content, touched: Keys, c: Content) {
    forall seal {:trigger Opened(BLOCK, seal)} :: Opened(BLOCK, seal) ==>
      touched <= was + UndoKeys(c0) && UndoKeys(c) <= UndoKeys(c0)
  }

  lemma UndoingStart(was: Keys, c0: Content)
    ensures Undoing(was, c0, was, c0)
  {}

  lemma UndoingStep(was: Keys, c0: Content, mid: Keys, c: Content, h: nat, touched: Keys, d: Content)
    requires Undoing(was, c0, mid, c) && touched <= mid + UndoKeys(c) && d == HeightUndone(c, h)
    ensures Undoing(was, c0, touched, d)
  {
    assert Opened(BLOCK, true);
    UndoneKeys(c, h);
  }

  lemma UndoingDone(was: Keys, c0: Content, touched: Keys, c: Content)
    requires Undoing(was, c0, touched, c)
    ensures touched <= was + UndoKeys(c0) && UndoKeys(c) <= UndoKeys(c0)
  {
    assert Opened(BLOCK, true);
  }

  // ---- the keys in play ----

  /** Every leaf written so far, and every leaf an undo or a prune could write, is among the keys (sealed). */
  ghost predicate InScope(keys: Keys, touched: Keys, c: Content) {
    forall seal {:trigger Opened(BLOCK, seal)} :: Opened(BLOCK, seal) ==> touched <= keys && UndoKeys(c) <= keys
  }

  lemma ScopeWrote(keys: Keys, was: Keys, c: Content, H: Hasher, h: nat, op: Op, touched: Keys, d: Content)
    requires InScope(keys, was, c) && OpKeys(op) <= keys && touched <= was + OpKeys(op)
    requires d.buckets == Wrote(H, c.buckets, h, op) && d.commits == c.commits
    ensures InScope(keys, touched, d)
  {
    assert Opened(BLOCK, true);
    WroteKeys(H, c, h, op, d);
  }

  lemma ScopeRevealed(keys: Keys, was: Keys, c: Content, h: nat, e: CommitReveal.Entry, touched: Keys, d: Content)
    requires InScope(keys, was, c) && touched <= was + PendingKeys(c.commits.pending) && d.buckets == c.buckets
    requires d.commits == c.commits || CommitReveal.Reveal(c.commits, h, e) == Some(d.commits)
    ensures InScope(keys, touched, d)
  {
    assert Opened(BLOCK, true);
    if CommitReveal.Reveal(c.commits, h, e) == Some(d.commits) {
      RevealedKeys(c.commits, h, e, d.commits);
    }
    StoreScope(c, d);
  }

  lemma ScopeCommitted(keys: Keys, was: Keys, c: Content, h: nat, x: Charged, touched: Keys, d: Content)
    requires h < HEIGHTS && InScope(keys, was, c) && CommitKeys(h, x) <= keys && touched <= was + CommitKeys(h, x)
    requires
      || (d.commits == c.commits && d.buckets == c.buckets)
      || (CommitReveal.Commit(c.commits, h, x.commit) == Some(d.commits) && Paid(c.buckets, h, x) == Some(d.buckets))
    ensures InScope(keys, touched, d)
  {
    assert Opened(BLOCK, true);
    if d.commits != c.commits || d.buckets != c.buckets {
      CommittedKeys(c, h, x, d);
    } else {
      StoreScope(c, d);
    }
  }

  lemma ScopePruned(keys: Keys, was: Keys, c: Content, h: nat, touched: Keys, d: Content)
    requires InScope(keys, was, c) && touched <= was + PendingKeys(c.commits.pending)
    requires d.buckets == c.buckets && d.commits == CommitReveal.Pruned(c.commits, h)
    ensures InScope(keys, touched, d)
  {
    assert Opened(BLOCK, true);
    PrunedKeys(c.commits, h);
    StoreScope(c, d);
  }

  lemma ScopeStirred(keys: Keys, was: Keys, c: Content, H: Hasher, h: Height, b: Block, touched: Keys, d: Content)
    requires InScope(keys, was, c) && (b.beacon ==> BeaconKey(()) in keys)
    requires touched <= was + if b.beacon then {BeaconKey(())} else {}
    requires d.buckets == Stirred(H, c.buckets, h, b) && d.commits == c.commits
    ensures InScope(keys, touched, d)
  {
    assert Opened(BLOCK, true);
    StirredKeys(H, c, h, b, d);
  }

  lemma ScopeUnwound(keys: Keys, was: Keys, c: Content, touched: Keys, d: Content)
    requires InScope(keys, was, c) && touched <= was + UndoKeys(c) && UndoKeys(d) <= UndoKeys(c)
    ensures InScope(keys, touched, d)
  {
    assert Opened(BLOCK, true);
  }
}
