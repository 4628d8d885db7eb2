/** Upgrade and the reorg path over the imperative state (ngstate/state.go): each call does to the buckets, the
    code and the commitments what Contents says, and keeps the state commitment in step. */
module Upgrade {
  import opened Basics
  import opened StateTrie
  import opened SparseMerkle
  import opened Committed
  import opened KeyOrder
  import opened Contents
  import opened BlockEffects
  import opened LeafScope
  import opened StateDb
  import CommitReveal

  ghost predicate Ready(s: State)
    reads s, s.bal, s.con, s.key, s.bea, s.trie, s.trie.store
  {
    forall seal {:trigger Opened(READY, seal)} :: Opened(READY, seal) ==> s.Valid()
  }

  /** The state commitment is that of the buckets. */
  ghost predicate InStep(s: State)
    reads s, s.bal, s.con, s.key, s.bea, s.trie
  {
    forall seal {:trigger Opened(STEP, seal)} :: Opened(STEP, seal) ==> s.Synced()
  }

  ghost predicate Fits(s: State, keys: Keys)
    reads s, s.bal, s.con, s.key, s.bea, s.trie
  {
    InScope(keys, s.trie.touched, s.All())
  }

  method WriteOp(s: State, h: nat, op: Op)
    requires Ready(s) && h < HEIGHTS && !op.Consume?
    modifies s, s.bal, s.con, s.key, s.bea, s.trie, s.trie.store
    ensures Ready(s)
    ensures !old(InStep(s)) || InStep(s)
    ensures s.Archive() == Wrote(s.H, old(s.Archive()), h, op)
    ensures s.code == Coded(s.H, old(s.code), old(s.Archive()), op)
    ensures s.Commits() == old(s.Commits())
    ensures s.trie.touched <= old(s.trie.touched) + OpKeys(op)
  {
    assert Opened(READY, true) && Opened(STEP, true);
    match op
    case SetBalance(a, n) => s.SetBalance(Some(h), a, n);
    case Register(a, entry) => s.RegisterKey(Some(h), a, entry);
    case SetContract(a, source, context) => s.SetContract(Some(h), a, source, context);
    case DelContract(a) => s.DelContract(Some(h), a);
  }

  method DoWrite(s: State, h: nat, op: Op, ghost keys: Keys)
    requires Ready(s) && h < HEIGHTS && !op.Consume?
    modifies s, s.bal, s.con, s.key, s.bea, s.trie, s.trie.store
    ensures Ready(s)
    ensures !old(InStep(s)) || InStep(s)
    ensures s.Archive() == Wrote(s.H, old(s.Archive()), h, op)
    ensures s.code == Coded(s.H, old(s.code), old(s.Archive()), op)
    ensures s.Commits() == old(s.Commits())
    ensures !old(Fits(s, keys)) || !(OpKeys(op) <= keys) || Fits(s, keys)
  {
    ghost var c, was := s.All(), s.trie.touched;
    WriteOp(s, h, op);
    if old(Fits(s, keys)) && OpKeys(op) <= keys {
      ScopeWrote(keys, was, c, s.H, h, op, s.trie.touched, s.All());
    }
  }

  method Spend(s: State, h: nat, e: CommitReveal.Entry) returns (ok: bool)
    requires Ready(s)
    modifies s, s.bal, s.con, s.key, s.bea, s.trie, s.trie.store
    ensures Ready(s)
    ensures !old(InStep(s)) || InStep(s)
    ensures s.Archive() == old(s.Archive()) && s.code == old(s.code)
    ensures ok <==> CommitReveal.Reveal(old(s.Commits()), h, e).Some?
    ensures s.Commits() == if ok then CommitReveal.Reveal(old(s.Commits()), h, e).value else old(s.Commits())
    ensures s.trie.touched <= old(s.trie.touched) + PendingKeys(old(s.Commits()).pending)
  {
    assert Opened(READY, true) && Opened(STEP, true);
    ok := s.ConsumeReveal(h, e);
  }

  /** consumeReveal */
  method Consume(s: State, h: nat, e: CommitReveal.Entry, ghost keys: Keys) returns (ok: bool)
    requires Ready(s)
    modifies s, s.bal, s.con, s.key, s.bea, s.trie, s.trie.store
    ensures Ready(s)
    ensures !old(InStep(s)) || InStep(s)
    ensures s.Archive() == old(s.Archive()) && s.code == old(s.code)
    ensures ok <==> CommitReveal.Reveal(old(s.Commits()), h, e).Some?
    ensures ok ==> CommitReveal.Reveal(old(s.Commits()), h, e) == Some(s.Commits())
    ensures !old(Fits(s, keys)) || Fits(s, keys)
  {
    ghost var c, was := s.All(), s.trie.touched;
    ok := Spend(s, h, e);
    if old(Fits(s, keys)) {
      ScopeRevealed(keys, was, c, h, e, s.trie.touched, s.All());
    }
  }

  /** One write of a tx. */
  method Do(s: State, h: nat, op: Op, ghost keys: Keys) returns (ok: bool)
    requires Ready(s) && h < HEIGHTS
    modifies s, s.bal, s.con, s.key, s.bea, s.trie, s.trie.store
    ensures Ready(s)
    ensures !old(InStep(s)) || InStep(s)
    ensures s.Archive() == Wrote(s.H, old(s.Archive()), h, op)
    ensures s.code == Coded(s.H, old(s.code), old(s.Archive()), op)
    ensures !op.Consume? ==> ok && s.Commits() == old(s.Commits())
    ensures op.Consume? ==>
              && (ok <==> CommitReveal.Reveal(old(s.Commits()), h, op.effect).Some?)
              && (ok ==> CommitReveal.Reveal(old(s.Commits()), h, op.effect) == Some(s.Commits()))
    ensures !old(Fits(s, keys)) || !(OpKeys(op) <= keys) || Fits(s, keys)
  {
    if op.Consume? {
      ok := Consume(s, h, op.effect, keys);
    } else {
      DoWrite(s, h, op, keys);
      ok := true;
    }
  }

  method Record(s: State, h: nat, x: Charged) returns (ok: bool)
    requires Ready(s) && h < HEIGHTS
    modifies s, s.bal, s.con, s.key, s.bea, s.trie, s.trie.store
    ensures Ready(s)
    ensures !old(InStep(s)) || InStep(s)
    ensures s.code == old(s.code)
    ensures ok <==> CommitReveal.Commit(old(s.Commits()), h, x.commit).Some? && Paid(old(s.Archive()), h, x).Some?
    ensures ok ==> CommitReveal.Commit(old(s.Commits()), h, x.commit) == Some(s.Commits())
    ensures ok ==> Paid(old(s.Archive()), h, x) == Some(s.Archive())
    ensures !ok ==> s.Commits() == old(s.Commits()) && s.Archive() == old(s.Archive())
    ensures s.trie.touched <= old(s.trie.touched) + CommitKeys(h, x)
  {
    assert Opened(READY, true) && Opened(STEP, true);
    ok := s.HandleCommit(Some(h), h, x);
  }

  /** One commitment. */
  method HandleCommit(s: State, h: nat, x: Charged, ghost keys: Keys) returns (ok: bool)
    requires Ready(s) && h < HEIGHTS
    modifies s, s.bal, s.con, s.key, s.bea, s.trie, s.trie.store
    ensures Ready(s)
    ensures !old(InStep(s)) || InStep(s)
    ensures s.code == old(s.code)
    ensures ok <==> CommitReveal.Commit(old(s.Commits()), h, x.commit).Some? && Paid(old(s.Archive()), h, x).Some?
    ensures ok ==> CommitReveal.Commit(old(s.Commits()), h, x.commit) == Some(s.Commits())
    ensures ok ==> Paid(old(s.Archive()), h, x) == Some(s.Archive())
    ensures !old(Fits(s, keys)) || !(CommitKeys(h, x) <= keys) || Fits(s, keys)
  {
    ghost var c, was := s.All(), s.trie.touched;
    ok := Record(s, h, x);
    if old(Fits(s, keys)) && CommitKeys(h, x) <= keys {
      ScopeCommitted(keys, was, c, h, x, s.trie.touched, s.All());
    }
  }

  /** handleCommits in the terms of the list: everybody pays the fees of their own commitments, and it fails when
      somebody cannot afford theirs. */
  method PayAndCommit(s: State, h: nat, cs: seq<Charged>, ghost keys: Keys) returns (ok: bool)
    requires Ready(s) && h < HEIGHTS
    modifies s, s.bal, s.con, s.key, s.bea, s.trie, s.trie.store
    ensures Ready(s)
    ensures !old(InStep(s)) || InStep(s)
    ensures s.code == old(s.code)
    ensures ok <==> CommitReveal.CommitAll(old(s.Commits()), h, Commits(cs)).Some?
                    && Affordable(old(s.Archive()).bal.state, cs)
    ensures ok ==> CommitReveal.CommitAll(old(s.Commits()), h, Commits(cs)) == Some(s.Commits())
    ensures ok ==> Debited(old(s.Archive()).bal.state, s.Archive().bal.state, cs)
    ensures ok ==> PaidAll(old(s.Archive()), h, cs) == Some(s.Archive())
    ensures !old(Fits(s, keys)) || !CommitsFit(keys, h, cs) || Fits(s, keys)
  {
    FeesPaid(s.Archive(), h, cs);
    ok := HandleCommits(s, h, cs, keys);
  }

  /** handleCommits: fails exactly when some commitment is a pending duplicate or cannot be paid. */
  method HandleCommits(s: State, h: nat, cs: seq<Charged>, ghost keys: Keys) returns (ok: bool)
    requires Ready(s) && h < HEIGHTS
    modifies s, s.bal, s.con, s.key, s.bea, s.trie, s.trie.store
    ensures Ready(s)
    ensures !old(InStep(s)) || InStep(s)
    ensures s.code == old(s.code)
    ensures ok <==>
              CommitReveal.CommitAll(old(s.Commits()), h, Commits(cs)).Some? && PaidAll(old(s.Archive()), h, cs).Some?
    ensures ok ==> CommitReveal.CommitAll(old(s.Commits()), h, Commits(cs)) == Some(s.Commits())
    ensures ok ==> PaidAll(old(s.Archive()), h, cs) == Some(s.Archive())
    ensures !old(Fits(s, keys)) || !CommitsFit(keys, h, cs) || Fits(s, keys)
  {
    ghost var k, b := s.Commits(), s.Archive();
    for i := 0 to |cs|
      invariant Ready(s)
      invariant !old(InStep(s)) || InStep(s)
      invariant s.code == old(s.code)
      invariant !old(Fits(s, keys)) || !CommitsFit(keys, h, cs) || Fits(s, keys)
      invariant CommitReveal.CommitAll(k, h, Commits(cs[..i])) == Some(s.Commits())
      invariant PaidAll(b, h, cs[..i]) == Some(s.Archive())
    {
      CommitsStep(k, b, h, cs, i);
      ok := HandleCommit(s, h, cs[i], keys);
      if !ok {
        CommitsFail(k, b, h, cs, i + 1);
        return;
      }
    }
    assert cs[..|cs|] == cs;
    ok := true;
  }

  lemma CommitsStep(k: CommitReveal.Store, b: Buckets, h: nat, cs: seq<Charged>, i: nat)
    requires i < |cs|
    ensures var t := CommitReveal.CommitAll(k, h, Commits(cs[..i]));
            t.Some? ==>
              CommitReveal.CommitAll(k, h, Commits(cs[..i + 1])) == CommitReveal.Commit(t.value, h, cs[i].commit)
    ensures PaidAll(b, h, cs[..i]).Some? ==> PaidAll(b, h, cs[..i + 1]) == Paid(PaidAll(b, h, cs[..i]).value, h, cs[i])
  {
    assert cs[..i + 1][..i] == cs[..i];
    var es := Commits(cs[..i + 1]);
    assert es[..|es| - 1] == Commits(cs[..i]) && es[|es| - 1] == cs[i].commit;
  }

  /** A failed commitment fails the list. */
  lemma {:induction false} CommitsFail(k: CommitReveal.Store, b: Buckets, h: nat, cs: seq<Charged>, i: nat)
    requires i <= |cs|
    requires CommitReveal.CommitAll(k, h, Commits(cs[..i])).None? || PaidAll(b, h, cs[..i]).None?
    ensures CommitReveal.CommitAll(k, h, Commits(cs)).None? || PaidAll(b, h, cs).None?
    decreases |cs| - i
  {
    if i == |cs| {
      assert cs[..i] == cs;
    } else {
      assert cs[..i + 1][..i] == cs[..i];
      var es := Commits(cs[..i + 1]);
      assert es[..|es| - 1] == Commits(cs[..i]);
      CommitsFail(k, b, h, cs, i + 1);
    }
  }

  /** The first i writes took k, b and code to the present content (sealed inside the loop). */
  ghost predicate Handled(H: Hasher, k: CommitReveal.Store, b: Buckets, code: Code, h: nat, ops: seq<Op>, i: nat,
                          c: Content)
    requires i <= |ops|
  {
    forall seal {:trigger Opened(DID, seal)} :: Opened(DID, seal) ==>
      && CommitReveal.RevealAll(k, h, Effects(ops[..i])) == Some(c.commits)
      && c.buckets == WroteAll(H, b, h, ops[..i])
      && c.code == CodedAll(H, code, b, h, ops[..i])
  }

  lemma HandledNone(H: Hasher, c: Content, h: nat, ops: seq<Op>)
    ensures Handled(H, c.commits, c.buckets, c.code, h, ops, 0, c)
  {}

  lemma HandledAll(H: Hasher, k: CommitReveal.Store, b: Buckets, code: Code, h: nat, ops: seq<Op>, c: Content)
    requires Handled(H, k, b, code, h, ops, |ops|, c)
    ensures CommitReveal.RevealAll(k, h, Effects(ops)) == Some(c.commits)
    ensures c.buckets == WroteAll(H, b, h, ops) && c.code == CodedAll(H, code, b, h, ops)
  {
    assert Opened(DID, true);
    assert ops[..|ops|] == ops;
  }

  lemma HandledNext(H: Hasher, k: CommitReveal.Store, b: Buckets, code: Code, h: nat, ops: seq<Op>, i: nat, j: nat,
                    c: Content, d: Content)
    requires i < |ops| && j == i + 1 && Handled(H, k, b, code, h, ops, i, c)
    requires d.buckets == Wrote(H, c.buckets, h, ops[i]) && d.code == Coded(H, c.code, c.buckets, ops[i])
    requires if ops[i].Consume? then CommitReveal.Reveal(c.commits, h, ops[i].effect) == Some(d.commits)
             else d.commits == c.commits
    ensures Handled(H, k, b, code, h, ops, j, d)
  {
    assert Opened(DID, true);
    EffectsStep(k, h, ops, i);
    WritesStep(H, code, b, h, ops, i);
  }

  lemma HandledFails(H: Hasher, k: CommitReveal.Store, b: Buckets, code: Code, h: nat, ops: seq<Op>, i: nat, c: Content)
    requires i < |ops| && Handled(H, k, b, code, h, ops, i, c)
    requires ops[i].Consume? && CommitReveal.Reveal(c.commits, h, ops[i].effect).None?
    ensures CommitReveal.RevealAll(k, h, Effects(ops)).None?
  {
    assert Opened(DID, true);
    EffectsStep(k, h, ops, i);
    EffectsFail(k, h, ops, i + 1);
  }

  /** HandleTxs, as the writes it makes in order: fails exactly when some reveal finds no commitment. */
  method HandleTxs(s: State, h: nat, ops: seq<Op>, ghost keys: Keys) returns (ok: bool)
    requires Ready(s) && h < HEIGHTS
    modifies s, s.bal, s.con, s.key, s.bea, s.trie, s.trie.store
    ensures Ready(s)
    ensures !old(InStep(s)) || InStep(s)
    ensures ok <==> CommitReveal.RevealAll(old(s.Commits()), h, Effects(ops)).Some?
    ensures ok ==> CommitReveal.RevealAll(old(s.Commits()), h, Effects(ops)) == Some(s.Commits())
    ensures ok ==> s.Archive() == WroteAll(s.H, old(s.Archive()), h, ops)
    ensures ok ==> s.code == CodedAll(s.H, old(s.code), old(s.Archive()), h, ops)
    ensures !old(Fits(s, keys)) || !TxsFit(keys, ops) || Fits(s, keys)
  {
    ghost var k, b, code := s.Commits(), s.Archive(), s.code;
    HandledNone(s.H, s.All(), h, ops);
    var i := 0;
    while i < |ops|
      invariant i <= |ops| && Ready(s)
      invariant !old(InStep(s)) || InStep(s)
      invariant !old(Fits(s, keys)) || !TxsFit(keys, ops) || Fits(s, keys)
      invariant Handled(s.H, k, b, code, h, ops, i, s.All())
    {
      ghost var c := s.All();
      var j := i + 1;
      ok := Do(s, h, ops[i], keys);
      if !ok {
        HandledFails(s.H, k, b, code, h, ops, i, c);
        return;
      }
      HandledNext(s.H, k, b, code, h, ops, i, j, c, s.All());
      i := j;
    }
    HandledAll(s.H, k, b, code, h, ops, s.All());
    ok := true;
  }

  lemma WritesStep(H: Hasher, code: Code, b: Buckets, h: nat, ops: seq<Op>, i: nat)
    requires i < |ops|
    ensures WroteAll(H, b, h, ops[..i + 1]) == Wrote(H, WroteAll(H, b, h, ops[..i]), h, ops[i])
    ensures CodedAll(H, code, b, h, ops[..i + 1])
         == Coded(H, CodedAll(H, code, b, h, ops[..i]), WroteAll(H, b, h, ops[..i]), ops[i])
  {
    assert ops[..i + 1][..i] == ops[..i];
  }

  lemma EffectsStep(k: CommitReveal.Store, h: nat, ops: seq<Op>, i: nat)
    requires i < |ops|
    ensures !ops[i].Consume? ==> Effects(ops[..i + 1]) == Effects(ops[..i])
    ensures var t := CommitReveal.RevealAll(k, h, Effects(ops[..i]));
            ops[i].Consume? && t.Some? ==>
              CommitReveal.RevealAll(k, h, Effects(ops[..i + 1])) == CommitReveal.Reveal(t.value, h, ops[i].effect)
  {
    assert ops[..i + 1][..i] == ops[..i];
    var es := Effects(ops[..i + 1]);
    assert ops[i].Consume? ==> es[..|es| - 1] == Effects(ops[..i]) && es[|es| - 1] == ops[i].effect;
  }

  /** A failed reveal fails the txs. */
  lemma {:induction false} EffectsFail(k: CommitReveal.Store, h: nat, ops: seq<Op>, i: nat)
    requires i <= |ops| && CommitReveal.RevealAll(k, h, Effects(ops[..i])).None?
    ensures CommitReveal.RevealAll(k, h, Effects(ops)).None?
    decreases |ops| - i
  {
    if i == |ops| {
      assert ops[..i] == ops;
    } else {
      assert ops[..i + 1][..i] == ops[..i];
      var es := Effects(ops[..i + 1]);
      assert if ops[i].Consume? then es[..|es| - 1] == Effects(ops[..i]) else es == Effects(ops[..i]);
      EffectsFail(k, h, ops, i + 1);
    }
  }

  /** pruneCommits touches none of the archived buckets. */
  method Prune(s: State, h: nat, ghost keys: Keys)
    requires Ready(s)
    modifies s, s.bal, s.con, s.key, s.bea, s.trie, s.trie.store
    ensures Ready(s)
    ensures !old(InStep(s)) || InStep(s)
    ensures s.Archive() == old(s.Archive()) && s.code == old(s.code)
    ensures s.Commits() == CommitReveal.Pruned(old(s.Commits()), h)
    ensures !old(Fits(s, keys)) || Fits(s, keys)
  {
    assert Opened(READY, true) && Opened(STEP, true);
    ghost var c, was := s.All(), s.trie.touched;
    s.PruneCommits(h);
    if old(Fits(s, keys)) {
      ScopePruned(keys, was, c, h, s.trie.touched, s.All());
    }
  }

  method FoldBeacon(s: State, h: Height, b: Block, ghost keys: Keys)
    requires Ready(s)
    modifies s, s.bal, s.con, s.key, s.bea, s.trie, s.trie.store
    ensures Ready(s)
    ensures !old(InStep(s)) || InStep(s)
    ensures s.Archive() == Stirred(s.H, old(s.Archive()), h, b)
    ensures s.code == old(s.code) && s.Commits() == old(s.Commits())
    ensures !old(Fits(s, keys)) || (b.beacon && BeaconKey(()) !in keys) || Fits(s, keys)
  {
    assert Opened(READY, true) && Opened(STEP, true);
    ghost var c, was := s.All(), s.trie.touched;
    s.UpdateBeacon(Some(h), b.beacon, h, b.prevHash, b.salts);
    if old(Fits(s, keys)) && (b.beacon ==> BeaconKey(()) in keys) {
      ScopeStirred(keys, was, c, s.H, h, b, s.trie.touched, s.All());
    }
  }

  /** Upgrade: commitments first, then txs, then the beacon, then the prune. */
  method ApplyBlock(s: State, h: Height, b: Block, ghost keys: Keys) returns (ok: bool)
    requires Ready(s)
    modifies s, s.bal, s.con, s.key, s.bea, s.trie, s.trie.store
    ensures Ready(s)
    ensures !old(InStep(s)) || InStep(s)
    ensures ok <==> BlockOn(s.H, old(s.All()), h, b).Some?
    ensures ok ==> BlockOn(s.H, old(s.All()), h, b) == Some(s.All())
    ensures !old(Fits(s, keys)) || !BlockFits(keys, h, b) || Fits(s, keys)
  {
    ghost var c := s.All();
    ok := PayAndCommit(s, h, b.commits, keys);
    if !ok {
      FeesPaid(c.buckets, h, b.commits);
      Unpaid(s.H, c, h, b);
      return;
    }
    ghost var t, paid := s.Commits(), s.Archive();
    ok := HandleTxs(s, h, b.ops, keys);
    if !ok {
      Unrevealed(s.H, c, h, b, t);
      return;
    }
    ghost var u := s.Commits();
    FoldBeacon(s, h, b, keys);
    Prune(s, h, keys);
    Upgraded(s.H, c, h, b, paid, t, u, s.All());
  }

  lemma Unpaid(H: Hasher, c: Content, h: Height, b: Block)
    requires CommitReveal.CommitAll(c.commits, h, Commits(b.commits)).None? || PaidAll(c.buckets, h, b.commits).None?
    ensures BlockOn(H, c, h, b).None?
  {}

  lemma Unrevealed(H: Hasher, c: Content, h: Height, b: Block, t: CommitReveal.Store)
    requires CommitReveal.CommitAll(c.commits, h, Commits(b.commits)) == Some(t)
    requires CommitReveal.RevealAll(t, h, Effects(b.ops)).None?
    ensures BlockOn(H, c, h, b).None?
  {}

  lemma Upgraded(H: Hasher, c: Content, h: Height, b: Block, paid: Buckets, t: CommitReveal.Store,
                 u: CommitReveal.Store,
                 d: Content)
    requires CommitReveal.CommitAll(c.commits, h, Commits(b.commits)) == Some(t)
    requires PaidAll(c.buckets, h, b.commits) == Some(paid)
    requires CommitReveal.RevealAll(t, h, Effects(b.ops)) == Some(u)
    requires d.buckets == Stirred(H, WroteAll(H, paid, h, b.ops), h, b)
    requires d.code == CodedAll(H, c.code, paid, h, b.ops) && d.commits == CommitReveal.Pruned(u, h)
    ensures BlockOn(H, c, h, b) == Some(d)
  {}

  // ---- the state root ----

  /** The commitment is that of the buckets, and no two of the leaf keys in play share a path. */
  ghost predicate Tidy(s: State, keys: Keys)
    reads s, s.bal, s.con, s.key, s.bea, s.trie
  {
    InStep(s) && Fits(s, keys) && NoCollision(s.H, keys)
  }

  /** CheckStateRoot: the comparison decides about the buckets. */
  method CheckRoot(s: State, want: Digest, ghost keys: Keys) returns (ok: bool)
    requires Ready(s)
    ensures ok <==> TreeRoot(s.H, s.trie.leaves) == want
    ensures Tidy(s, keys) ==> (ok <==> RootsOf(s.H, s.enc)(Shown(s.All())) == want)
  {
    assert Opened(READY, true) && Opened(STEP, true);
    var root := s.StateRoot();
    ok := root == want;
    if Tidy(s, keys) {
      assert Opened(BLOCK, true);
      RootIs(s);
    }
  }

  /** Upgrade and CheckStateRoot. */
  method ApplyChecked(s: State, h: Height, b: Block, ghost keys: Keys) returns (ok: bool)
    requires Ready(s)
    modifies s, s.bal, s.con, s.key, s.bea, s.trie, s.trie.store
    ensures Ready(s)
    ensures !old(InStep(s)) || InStep(s)
    ensures ok ==> BlockOn(s.H, old(s.All()), h, b) == Some(s.All())
    ensures !old(Tidy(s, keys)) || !BlockFits(keys, h, b) || Tidy(s, keys)
    ensures old(Tidy(s, keys)) && BlockFits(keys, h, b) ==>
              (ok <==> CheckedOn(s.H, RootsOf(s.H, s.enc), old(s.All()), h, b).Some?)
  {
    ok := ApplyBlock(s, h, b, keys);
    if ok {
      ok := CheckRoot(s, b.root, keys);
    }
  }

  /** The first i blocks took c to d (sealed inside the loop). */
  ghost predicate Reached(H: Hasher, c: Content, f: nat, blocks: seq<Block>, i: nat, d: Content)
    requires f + |blocks| < HEIGHTS && i <= |blocks|
  {
    forall seal {:trigger Opened(DID, seal)} :: Opened(DID, seal) ==> Grown(H, c, f, blocks[..i]) == Some(d)
  }

  /** And each had the root of what it led to. */
  ghost predicate Passed(H: Hasher, root: Roots, c: Content, f: nat, blocks: seq<Block>, i: nat, d: Content)
    requires f + |blocks| < HEIGHTS && i <= |blocks|
  {
    forall seal {:trigger Opened(UNDONE, seal)} :: Opened(UNDONE, seal) ==>
      CheckedRun(H, root, c, f, blocks[..i]) == Some(d)
  }

  lemma ReachedNone(H: Hasher, root: Roots, c: Content, f: nat, blocks: seq<Block>)
    requires f + |blocks| < HEIGHTS
    ensures Reached(H, c, f, blocks, 0, c) && Passed(H, root, c, f, blocks, 0, c)
  {}

  lemma ReachedNext(H: Hasher, c: Content, f: nat, blocks: seq<Block>, i: nat, j: nat, h: nat, m: Content, d: Content)
    requires f + |blocks| < HEIGHTS && i < |blocks| && j == i + 1 && h == f + j && Reached(H, c, f, blocks, i, m)
    requires BlockOn(H, m, h, blocks[i]) == Some(d)
    ensures Reached(H, c, f, blocks, j, d)
  {
    assert Opened(DID, true);
    GrownLast(H, c, f, blocks[..j], blocks[..i], blocks[i], h);
  }

  lemma PassedNext(H: Hasher, root: Roots, c: Content, f: nat, blocks: seq<Block>, i: nat, j: nat, h: nat, m: Content,
                   d: Content)
    requires f + |blocks| < HEIGHTS && i < |blocks| && j == i + 1 && h == f + j && Passed(H, root, c, f, blocks, i, m)
    requires CheckedOn(H, root, m, h, blocks[i]) == Some(d)
    ensures Passed(H, root, c, f, blocks, j, d)
  {
    assert Opened(UNDONE, true);
    CheckedLast(H, root, c, f, blocks[..j], blocks[..i], blocks[i], h);
  }

  lemma PassedStops(H: Hasher, root: Roots, c: Content, f: nat, blocks: seq<Block>, i: nat, j: nat, h: nat, m: Content)
    requires f + |blocks| < HEIGHTS && i < |blocks| && j == i + 1 && h == f + j && Passed(H, root, c, f, blocks, i, m)
    requires CheckedOn(H, root, m, h, blocks[i]).None?
    ensures CheckedRun(H, root, c, f, blocks).None?
  {
    assert Opened(UNDONE, true);
    CheckedLast(H, root, c, f, blocks[..j], blocks[..i], blocks[i], h);
    CheckedFails(H, root, c, f, blocks, blocks[..j]);
  }

  lemma PassedStep(H: Hasher, root: Roots, c: Content, f: nat, blocks: seq<Block>, i: nat, j: nat, h: nat, m: Content,
                   ok: bool, d: Content)
    requires f + |blocks| < HEIGHTS && i < |blocks| && j == i + 1 && h == f + j && Passed(H, root, c, f, blocks, i, m)
    requires ok <==> CheckedOn(H, root, m, h, blocks[i]).Some?
    requires ok ==> BlockOn(H, m, h, blocks[i]) == Some(d)
    ensures ok ==> Passed(H, root, c, f, blocks, j, d)
    ensures !ok ==> CheckedRun(H, root, c, f, blocks).None?
  {
    if ok {
      PassedNext(H, root, c, f, blocks, i, j, h, m, d);
    } else {
      PassedStops(H, root, c, f, blocks, i, j, h, m);
    }
  }

  lemma ReachedAll(H: Hasher, c: Content, f: nat, blocks: seq<Block>, d: Content)
    requires f + |blocks| < HEIGHTS && Reached(H, c, f, blocks, |blocks|, d)
    ensures Grown(H, c, f, blocks) == Some(d)
  {
    assert Opened(DID, true);
    assert blocks[..|blocks|] == blocks;
  }

  lemma PassedAll(H: Hasher, root: Roots, c: Content, f: nat, blocks: seq<Block>, d: Content)
    requires f + |blocks| < HEIGHTS && Passed(H, root, c, f, blocks, |blocks|, d)
    ensures CheckedRun(H, root, c, f, blocks) == Some(d)
  {
    assert Opened(UNDONE, true);
    assert blocks[..|blocks|] == blocks;
  }

  method ApplyNext(s: State, f: nat, blocks: seq<Block>, i: nat, j: nat, ghost c: Content, ghost keys: Keys,
                   ghost root: Roots, ghost tidy: bool)
    returns (ok: bool)
    requires Ready(s) && f + |blocks| < HEIGHTS && i < |blocks| && j == i + 1 && Reached(s.H, c, f, blocks, i, s.All())
    requires root == RootsOf(s.H, s.enc)
    requires tidy ==> Tidy(s, keys) && BlocksFit(keys, f, blocks) && Passed(s.H, root, c, f, blocks, i, s.All())
    modifies s, s.bal, s.con, s.key, s.bea, s.trie, s.trie.store
    ensures Ready(s)
    ensures !old(InStep(s)) || InStep(s)
    ensures ok ==> Reached(s.H, c, f, blocks, j, s.All())
    ensures tidy ==> Tidy(s, keys)
    ensures tidy && ok ==> Passed(s.H, root, c, f, blocks, j, s.All())
    ensures tidy && !ok ==> CheckedRun(s.H, root, c, f, blocks).None?
  {
    ghost var m := s.All();
    var h := f + j;
    assert tidy ==> BlockFits(keys, h, blocks[i]);
    ok := ApplyChecked(s, h, blocks[i], keys);
    if ok {
      ReachedNext(s.H, c, f, blocks, i, j, h, m, s.All());
    }
    if tidy {
      PassedStep(s.H, root, c, f, blocks, i, j, h, m, ok, s.All());
    }
  }

  /** ApplyBlocksTxn: a forward run of blocks on top of height f, each with its root checked. */
  method ApplyBlocks(s: State, f: nat, blocks: seq<Block>, ghost keys: Keys) returns (ok: bool)
    requires Ready(s) && f + |blocks| < HEIGHTS
    modifies s, s.bal, s.con, s.key, s.bea, s.trie, s.trie.store
    ensures Ready(s)
    ensures !old(InStep(s)) || InStep(s)
    ensures ok ==> Grown(s.H, old(s.All()), f, blocks) == Some(s.All())
    ensures !old(Tidy(s, keys)) || !BlocksFit(keys, f, blocks) || Tidy(s, keys)
    ensures old(Tidy(s, keys)) && BlocksFit(keys, f, blocks) ==>
              && (ok <==> CheckedRun(s.H, RootsOf(s.H, s.enc), old(s.All()), f, blocks).Some?)
              && (ok ==> CheckedRun(s.H, RootsOf(s.H, s.enc), old(s.All()), f, blocks) == Some(s.All()))
  {
    ghost var c, root := s.All(), RootsOf(s.H, s.enc);
    ghost var tidy := Tidy(s, keys) && BlocksFit(keys, f, blocks);
    ReachedNone(s.H, root, c, f, blocks);
    var i := 0;
    while i < |blocks|
      invariant i <= |blocks| && Ready(s)
      invariant !old(InStep(s)) || InStep(s)
      invariant Reached(s.H, c, f, blocks, i, s.All())
      invariant tidy ==> Tidy(s, keys) && Passed(s.H, root, c, f, blocks, i, s.All())
    {
      var j := i + 1;
      ok := ApplyNext(s, f, blocks, i, j, c, keys, root, tidy);
      if !ok {
        return;
      }
      i := j;
    }
    ReachedAll(s.H, c, f, blocks, s.All());
    if tidy {
      PassedAll(s.H, root, c, f, blocks, s.All());
    }
    ok := true;
  }

  /** UnwindToTxn */
  method Unwind(s: State, tip: Height, f: nat, ghost keys: Keys)
    requires Ready(s)
    modifies s, s.bal, s.con, s.key, s.bea, s.trie, s.trie.store
    ensures Ready(s)
    ensures !old(InStep(s)) || InStep(s)
    ensures s.All() == AllUnwound(old(s.All()), tip, f)
    ensures !old(Fits(s, keys)) || Fits(s, keys)
  {
    assert Opened(READY, true) && Opened(STEP, true);
    ghost var c, was := s.All(), s.trie.touched;
    s.UnwindTo(tip, f);
    if old(Fits(s, keys)) {
      ScopeUnwound(keys, was, c, s.trie.touched, s.All());
    }
  }

  /** unwindAndApply inside its transaction: what the branch makes of the unwound state, or nothing at all. */
  method Switch(s: State, f: nat, tip: Height, branch: seq<Block>, ghost keys: Keys) returns (ok: bool)
    requires Ready(s) && f + |branch| < HEIGHTS
    modifies s, s.bal, s.con, s.key, s.bea, s.trie, s.trie.store
    ensures Ready(s)
    ensures !old(InStep(s)) || InStep(s)
    ensures ok ==> Grown(s.H, AllUnwound(old(s.All()), tip, f), f, branch) == Some(s.All())
    ensures !ok ==> s.All() == old(s.All())
    ensures !old(Tidy(s, keys)) || !BlocksFit(keys, f, branch) || Tidy(s, keys)
    ensures old(Tidy(s, keys)) && BlocksFit(keys, f, branch) ==>
              var r := CheckedRun(s.H, RootsOf(s.H, s.enc), AllUnwound(old(s.All()), tip, f), f, branch);
              (ok <==> r.Some?) && (ok ==> r == Some(s.All()))
  {
    var saved, m := Save(s, keys);
    Unwind(s, tip, f, keys);
    ok := ApplyBlocks(s, f, branch, keys);
    if !ok {
      Restore(s, saved, m, keys);
    }
  }

  /** Upgrade and CheckStateRoot inside their transaction: a refused block leaves no trace. */
  method UpgradeTxn(s: State, h: Height, b: Block, ghost keys: Keys) returns (ok: bool)
    requires Ready(s)
    modifies s, s.bal, s.con, s.key, s.bea, s.trie, s.trie.store
    ensures Ready(s)
    ensures !old(InStep(s)) || InStep(s)
    ensures ok ==> BlockOn(s.H, old(s.All()), h, b) == Some(s.All())
    ensures !ok ==> s.All() == old(s.All())
    ensures !old(Tidy(s, keys)) || !BlockFits(keys, h, b) || Tidy(s, keys)
    ensures old(Tidy(s, keys)) && BlockFits(keys, h, b) ==>
              (ok <==> CheckedOn(s.H, RootsOf(s.H, s.enc), old(s.All()), h, b).Some?)
  {
    var saved, m := Save(s, keys);
    ok := ApplyChecked(s, h, b, keys);
    if !ok {
      Restore(s, saved, m, keys);
    }
  }

  /** A saved state is one the node can be rolled back to (sealed). */
  ghost predicate Kept(s: State, saved: Saved, m: Mirror) {
    forall seal {:trigger Opened(CODE, seal)} :: Opened(CODE, seal) ==> s.Restorable(saved, m)
  }

  /** The committed view a saved state would come back with. */
  ghost function Was(r: Saved): Plain {
    Plain(r.buckets.bal.state, r.buckets.key.state, r.buckets.con.state, r.commits.pending, r.buckets.bea.state)
  }

  ghost predicate WasInStep(s: State, r: Saved, m: Mirror) {
    forall seal {:trigger Opened(STEP, seal)} :: Opened(STEP, seal) ==> InSync(s.enc, m.flat, Was(r))
  }

  ghost predicate WasFit(r: Saved, m: Mirror, keys: Keys) {
    InScope(keys, m.touched, Content(r.buckets, r.code, r.commits))
  }

  method Save(s: State, ghost keys: Keys) returns (r: Saved, ghost m: Mirror)
    requires Ready(s)
    ensures Kept(s, r, m) && Content(r.buckets, r.code, r.commits) == s.All()
    ensures InStep(s) ==> WasInStep(s, r, m)
    ensures Fits(s, keys) ==> WasFit(r, m, keys)
  {
    assert Opened(READY, true) && Opened(STEP, true);
    r := s.Save();
    m := Mirror(s.trie.leaves, s.trie.flat, s.trie.touched);
  }

  method Restore(s: State, r: Saved, ghost m: Mirror, ghost keys: Keys)
    requires Ready(s) && Kept(s, r, m)
    modifies s, s.bal, s.con, s.key, s.bea, s.trie, s.trie.store
    ensures Ready(s) && s.All() == Content(r.buckets, r.code, r.commits)
    ensures WasInStep(s, r, m) ==> InStep(s)
    ensures WasFit(r, m, keys) ==> Fits(s, keys)
  {
    assert Opened(READY, true) && Opened(STEP, true) && Opened(CODE, true);
    s.Restore(r, m);
  }
}
